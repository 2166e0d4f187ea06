/** `repo_ops.py`: applying a change plan to fresh clones of the target repositories and
    publishing each result as a pull request. Every subprocess, filesystem change and printed
    line is an `Action` appended to a trace; what a command replies, and whether a path
    exists, is asked of a `World` that sees the trace so far. */
module RepoOps {
  import opened Wrappers
  import opened Text
  import Json
  import Paths
  import Host
  import opened ChangePlan
  import opened Quoting

  // ---------------------------------------------------------------------------------------
  // The outside world

  /** One observable step: a subprocess (`cwd` absent for the clone), a tree deleted by
      `shutil.rmtree`, a directory created, or a line printed. */
  datatype Action =
    | Exec(cwd: Option<string>, cmd: Command)
    | RemoveTree(path: string)
    | MakeDirs(path: string)
    | Say(line: Line)

  /** The git and gh commands the tool runs; `Argv` spells each one out. */
  datatype Command =
    | Clone(auth: string, dest: string)
    | CheckoutBranch(branch: string)
    | SetRemote(auth: string)
    | CatFile(sha: string)
    | RevParseHead
    | RevParseBranch
    | CheckoutAt(branch: string, sha: string)
    | IsAncestor(ancestor: string, descendant: string)
    | Apply(patch: string)
    | Status
    | AddAll
    | Commit(message: string)
    | Push(branch: string)
    | CreatePr(branch: string, base: string, title: string, body: string)

  /** The lines `main` prints. */
  datatype Line =
    | Processing(bundle: string, count: nat)
    | Heading(repo: string)
    | WouldClone(url: string)
    | WouldCheckout(branch: string, sha: string)
    | KeepTip
    | WouldApply(patch: string)
    | WouldCommit(message: string, branch: string)
    | WouldOpenPr(base: string)
    | Unchanged
    | OpenedPr(url: string)

  /** What a command replies and whether a path exists, given everything done before. */
  datatype World = World(reply: (seq<Action>, Action) -> Host.Reply, present: (seq<Action>, string) -> bool)

  /** The four verdicts of the base-SHA check. */
  datatype Relationship = ShaMissing | ExpectedIsAncestor | HeadIsAncestor | DifferentBranches

  /** What a base-SHA mismatch error reports. */
  datatype Mismatch = Mismatch(repo: string, expected: string, current: string, branch: string,
                               relationship: Relationship)

  /** Why a run stops: the exception that escapes `main`. */
  datatype RunError =
    | NoToken                                    // RuntimeError: no GH_TOKEN or GITHUB_TOKEN
    | BadPlan(load: LoadError)                   // raised by load_plan
    | PatchMissing(path: string)                 // FileNotFoundError("Patch not found: ...")
    | NotHttps(url: string)                      // ValueError from with_github_token
    | CommandFailed(cmd: Command, code: int)     // CalledProcessError from run
    | BaseMismatch(mismatch: Mismatch)           // RuntimeError("Base SHA mismatch detected. ...")

  /** A run that raised: the error and everything done up to that point. */
  datatype Stop = Stop(error: RunError, trace: seq<Action>)

  // The fixed text of the mismatch error, one constant per line or line prefix. The verifier
  // reads a string literal character by character only up to about forty characters, so the
  // longer ones are written as two literals; the lemmas below show that none holds a newline.

  const ShaMissingText := "expected SHA not found in local clone"
  const ExpectedIsAncestorText := "expected SHA is an ancestor " + "of current HEAD"
  const HeadIsAncestorText := "current HEAD is an ancestor " + "of expected SHA"
  const DifferentBranchesText := "expected SHA and current HEAD " + "are on different branches"

  const MismatchHeading := "Base SHA mismatch detected."
  const RepositoryLabel := "Repository: "
  const ExpectedLabel := "Expected SHA: "
  const CurrentLabel := "Current SHA: "
  const BranchLabel := "Current branch: "
  const RelationshipLabel := "Merge-base relationship: "
  const StepsHeading := "Suggested next steps:"
  /** The two remediation steps the error suggests. */
  const RegenerateStep := "  1. Regenerate the bundle: " + "python tools/mkpatch.py"
  const RerunStep := "  2. Rerun the workflow " + "with an updated plan_path."

  /** The relationship as the error words it. */
  function RelationshipText(rel: Relationship): string {
    match rel
    case ShaMissing => ShaMissingText
    case ExpectedIsAncestor => ExpectedIsAncestorText
    case HeadIsAncestor => HeadIsAncestorText
    case DifferentBranches => DifferentBranchesText
  }

  /** The lines of the mismatch error, one field per line. */
  function MismatchLines(m: Mismatch): seq<string> {
    [MismatchHeading,
     RepositoryLabel + m.repo,
     ExpectedLabel + m.expected,
     CurrentLabel + m.current,
     BranchLabel + m.branch,
     RelationshipLabel + RelationshipText(m.relationship),
     StepsHeading,
     RegenerateStep,
     RerunStep]
  }

  /** The error's text: its lines joined by newlines. */
  function MismatchMessage(m: Mismatch): string {
    Join("\n", MismatchLines(m))
  }

  /** No relationship text holds a line break. */
  lemma RelationshipIsLine(rel: Relationship)
    ensures '\n' !in RelationshipText(rel)
  {
    match rel
    case ShaMissing => ShaMissingIsLine();
    case ExpectedIsAncestor => ExpectedIsAncestorIsLine();
    case HeadIsAncestor => HeadIsAncestorIsLine();
    case DifferentBranches => DifferentBranchesIsLine();
  }

  lemma ShaMissingIsLine()
    ensures '\n' !in ShaMissingText
  {
  }

  lemma ExpectedIsAncestorIsLine()
    ensures '\n' !in ExpectedIsAncestorText
  {
  }

  lemma HeadIsAncestorIsLine()
    ensures '\n' !in HeadIsAncestorText
  {
  }

  lemma DifferentBranchesIsLine()
    ensures '\n' !in DifferentBranchesText
  {
  }

  /** The remediation steps hold no line break. */
  lemma StepsAreLines()
    ensures '\n' !in RegenerateStep && '\n' !in RerunStep
  {
  }

  /** The two headings hold no line break. */
  lemma HeadingsAreLines()
    ensures '\n' !in MismatchHeading && '\n' !in StepsHeading
  {
  }

  /** The field labels hold no line break. */
  lemma LabelsAreLines()
    ensures '\n' !in RepositoryLabel && '\n' !in ExpectedLabel && '\n' !in CurrentLabel
    ensures '\n' !in BranchLabel && '\n' !in RelationshipLabel
  {
  }

  /** When the repository name, the SHAs and the branch are single lines, the error's text
      reads back line by line as the heading, the five fields, the relationship and the two
      remediation steps. */
  lemma MismatchReadsBack(m: Mismatch)
    requires '\n' !in m.repo && '\n' !in m.expected && '\n' !in m.current && '\n' !in m.branch
    ensures Split(MismatchMessage(m), '\n') == MismatchLines(m)
  {
    var lines := MismatchLines(m);
    RelationshipIsLine(m.relationship);
    StepsAreLines();
    HeadingsAreLines();
    LabelsAreLines();
    forall k | 0 <= k < |lines| ensures '\n' !in lines[k] {
    }
    SplitJoin('\n', lines);
  }

  // ---------------------------------------------------------------------------------------
  // Running commands

  /** The argument vector of a command, as passed to `subprocess.run`. */
  function Argv(cmd: Command): seq<string> {
    match cmd
    case Clone(auth, dest) => ["git", "clone", auth, dest]
    case CheckoutBranch(branch) => ["git", "checkout", "-B", branch]
    case SetRemote(auth) => ["git", "remote", "set-url", "origin", auth]
    case CatFile(sha) => ["git", "cat-file", "-e", sha + "^{commit}"]
    case RevParseHead => ["git", "rev-parse", "HEAD"]
    case RevParseBranch => ["git", "rev-parse", "--abbrev-ref", "HEAD"]
    case CheckoutAt(branch, sha) => ["git", "checkout", "-B", branch, sha]
    case IsAncestor(a, b) => ["git", "merge-base", "--is-ancestor", a, b]
    case Apply(patch) => ["git", "apply", patch]
    case Status => ["git", "status", "--porcelain"]
    case AddAll => ["git", "add", "-A"]
    case Commit(message) => ["git", "commit", "-m", message]
    case Push(branch) => ["git", "push", "-u", "origin", branch, "--force-with-lease"]
    case CreatePr(branch, base, title, body) =>
      ["gh", "pr", "create", "--head", branch, "--base", base, "--title", title, "--body", body]
  }

  /** The text of a printed line. */
  function LineText(l: Line): string {
    match l
    case Processing(bundle, count) =>
      "Processing bundle " + bundle + " with " + NatToString(count) + " repo changes"
    case Heading(repo) => "--- " + repo + " ---"
    case WouldClone(url) => "DRY RUN: would clone " + url
    case WouldCheckout(branch, sha) => "DRY RUN: would checkout " + branch + " at " + sha
    case KeepTip => "DRY RUN: no base_sha provided; would keep cloned branch tip"
    case WouldApply(patch) => "DRY RUN: would apply patch " + patch
    case WouldCommit(message, branch) => "DRY RUN: would commit '" + message + "' on " + branch
    case WouldOpenPr(base) => "DRY RUN: would open PR to " + base
    case Unchanged => "No changes after patch apply; skipping push and PR."
    case OpenedPr(url) => "Opened PR: " + url
  }

  function CloneCmd(auth: string, dest: string): Action { Exec(None, Clone(auth, dest)) }
  function CheckoutBranchCmd(dir: string, branch: string): Action { Exec(Some(dir), CheckoutBranch(branch)) }
  function SetRemoteCmd(dir: string, auth: string): Action { Exec(Some(dir), SetRemote(auth)) }
  function CatFileCmd(dir: string, sha: string): Action { Exec(Some(dir), CatFile(sha)) }
  function HeadCmd(dir: string): Action { Exec(Some(dir), RevParseHead) }
  function BranchCmd(dir: string): Action { Exec(Some(dir), RevParseBranch) }
  function CheckoutAtCmd(dir: string, branch: string, sha: string): Action { Exec(Some(dir), CheckoutAt(branch, sha)) }
  function AncestorCmd(dir: string, a: string, b: string): Action { Exec(Some(dir), IsAncestor(a, b)) }
  function ApplyCmd(dir: string, patch: string): Action { Exec(Some(dir), Apply(patch)) }
  function StatusCmd(dir: string): Action { Exec(Some(dir), Status) }
  function AddCmd(dir: string): Action { Exec(Some(dir), AddAll) }
  function CommitCmd(dir: string, message: string): Action { Exec(Some(dir), Commit(message)) }
  function PushCmd(dir: string, branch: string): Action { Exec(Some(dir), Push(branch)) }
  function PrCmd(dir: string, branch: string, base: string, title: string, body: string): Action {
    Exec(Some(dir), CreatePr(branch, base, title, body))
  }

  /** The subprocesses in a trace, in the order they ran. */
  function Cmds(u: seq<Action>): (r: seq<Action>)
    ensures forall k :: 0 <= k < |r| ==> r[k].Exec?
  {
    if u == [] then []
    else Cmds(u[..|u| - 1]) + (if u[|u| - 1].Exec? then [u[|u| - 1]] else [])
  }

  lemma {:induction false} CmdsConcat(u: seq<Action>, v: seq<Action>)
    ensures Cmds(u + v) == Cmds(u) + Cmds(v)
    decreases |v|
  {
    if v == [] {
      assert u + v == u;
    } else {
      var n := |v| - 1;
      assert (u + v)[..|u + v| - 1] == u + v[..n];
      CmdsConcat(u, v[..n]);
    }
  }

  /** A trace of subprocesses only is its own list of subprocesses. */
  lemma {:induction false} CmdsOfCmds(u: seq<Action>)
    requires forall k :: 0 <= k < |u| ==> u[k].Exec?
    ensures Cmds(u) == u
  {
    if u != [] {
      CmdsOfCmds(u[..|u| - 1]);
    }
  }

  /** Errors that a git or gh command raises: a non-zero exit, or the base-SHA check. */
  predicate FromGit(e: RunError) {
    e.CommandFailed? || e.BaseMismatch?
  }

  /** `run(cmd)`: the command is recorded; a non-zero exit raises, otherwise the stripped
      standard output is returned. */
  function RunCmd(w: World, t: seq<Action>, a: Action): (r: Result<(string, seq<Action>), Stop>)
    requires a.Exec?
    ensures r.Success? <==> w.reply(t, a).code == 0
    ensures r.Success? ==> r.value == (Strip(w.reply(t, a).stdout), t + [a])
    ensures r.Failure? ==> r.error == Stop(CommandFailed(a.cmd, w.reply(t, a).code), t + [a])
  {
    var reply := w.reply(t, a);
    if reply.code != 0 then Failure(Stop(CommandFailed(a.cmd, reply.code), t + [a]))
    else Success((Strip(reply.stdout), t + [a]))
  }

  /** Each of `cmds`, run in turn after `t`, exits with status 0. */
  predicate AllExitZero(w: World, t: seq<Action>, cmds: seq<Action>) {
    forall i :: 0 <= i < |cmds| ==> w.reply(t + cmds[..i], cmds[i]).code == 0
  }

  /** Run in turn after `t`, every command before `cmds[i]` exits with status 0 and `cmds[i]`
      does not, which raises `s`. */
  predicate StopsAt(w: World, t: seq<Action>, cmds: seq<Action>, i: int, s: Stop) {
    && 0 <= i < |cmds|
    && cmds[i].Exec?
    && AllExitZero(w, t, cmds[..i])
    && w.reply(t + cmds[..i], cmds[i]).code != 0
    && s == Stop(CommandFailed(cmds[i].cmd, w.reply(t + cmds[..i], cmds[i]).code), t + cmds[..i + 1])
  }

  /** One more command succeeds in turn exactly when those before it did and it does too. */
  lemma ExitZeroSnoc(w: World, t: seq<Action>, cmds: seq<Action>, a: Action)
    ensures AllExitZero(w, t, cmds + [a]) <==> AllExitZero(w, t, cmds) && w.reply(t + cmds, a).code == 0
  {
    var c := cmds + [a];
    assert c[..|cmds|] == cmds;
    forall i | 0 <= i < |cmds|
      ensures c[..i] == cmds[..i] && c[i] == cmds[i]
    {
    }
  }

  /** A run that stopped at a command still stops there with more commands after it. */
  lemma StopsAtSnoc(w: World, t: seq<Action>, cmds: seq<Action>, a: Action)
    ensures forall i, s :: StopsAt(w, t, cmds, i, s) ==> StopsAt(w, t, cmds + [a], i, s)
  {
    forall i, s | StopsAt(w, t, cmds, i, s)
      ensures StopsAt(w, t, cmds + [a], i, s)
    {
      var c := cmds + [a];
      assert c[..i] == cmds[..i];
      assert c[..i + 1] == cmds[..i + 1];
    }
  }

  /** When every command so far succeeded and the next one fails, the run stops there. */
  lemma StopsAtLast(w: World, t: seq<Action>, cmds: seq<Action>, a: Action)
    requires a.Exec?
    ensures AllExitZero(w, t, cmds) && w.reply(t + cmds, a).code != 0 ==>
      StopsAt(w, t, cmds + [a], |cmds|, Stop(CommandFailed(a.cmd, w.reply(t + cmds, a).code), t + cmds + [a]))
  {
    var c := cmds + [a];
    assert c[..|cmds|] == cmds;
    assert c[..|cmds| + 1] == c;
  }

  /** A command run with `check=False`: whether it exited with status 0. */
  function Probe(w: World, t: seq<Action>, a: Action): (bool, seq<Action>) {
    (w.reply(t, a).code == 0, t + [a])
  }

  // ---------------------------------------------------------------------------------------
  // URLs and clone directories

  const HttpsPrefix := "https://"
  const TokenPrefix := "https://x-access-token:"

  /** `with_github_token`: the first `https://` gains the quoted token as credentials. */
  function WithGithubToken(url: string, token: string): Result<string, RunError> {
    if !StartsWith(url, HttpsPrefix) then Failure(NotHttps(url))
    else Success(Authed(url, token))
  }

  /** The URL with the quoted token put in as credentials after the first `https://`. */
  function Authed(url: string, token: string): string {
    ReplaceFirst(url, HttpsPrefix, TokenPrefix + Quote(token) + "@")
  }

  /** Only `https://` URLs are accepted, and the credentials go right after the scheme, the
      rest of the URL untouched. */
  lemma TokenUrl(url: string, token: string)
    ensures WithGithubToken(url, token).Success? <==> StartsWith(url, HttpsPrefix)
    ensures WithGithubToken(url, token).Failure? ==> WithGithubToken(url, token).error == NotHttps(url)
    ensures StartsWith(url, HttpsPrefix) ==>
      WithGithubToken(url, token).value == TokenPrefix + Quote(token) + "@" + url[|HttpsPrefix|..]
  {
    if StartsWith(url, HttpsPrefix) {
      FindPrefix(url, HttpsPrefix);
      assert url[..0] == "";
    }
  }

  /** The quoted token holds none of the characters that end URL credentials or start a
      path, so it cannot change where the host name begins. */
  lemma QuotedTokenIsPlain(token: string)
    ensures '@' !in Quote(token) && '/' !in Quote(token) && ':' !in Quote(token)
  {
  }

  /** `s.rstrip("/")`. */
  function RStripSlashes(s: string): (r: string)
    ensures r == [] || r[|r| - 1] != '/'
  {
    if s != [] && s[|s| - 1] == '/' then RStripSlashes(s[..|s| - 1]) else s
  }

  /** The clone's directory name: the URL's last segment, trailing slashes ignored, with every
      `.git` removed; it never holds a `/`. */
  function CloneDirName(url: string): (r: string)
    ensures '/' !in r
  {
    var last := AfterLast(RStripSlashes(url), '/');
    DeleteKeepsOut(last, ".git", '/');
    ReplaceAll(last, ".git", "")
  }

  /** The URL a change's repository is cloned from. */
  function RepoUrl(org: string, repo: string): string {
    "https://github.com/" + org + "/" + repo + ".git"
  }

  /** The last segment after a `/` is what follows it. */
  lemma {:induction false} AfterLastSegment(a: string, b: string)
    requires '/' !in b
    ensures AfterLast(a + "/" + b, '/') == b
    decreases |b|
  {
    if b == [] {
    } else {
      var n := |b| - 1;
      assert (a + "/" + b)[..|a + "/" + b| - 1] == a + "/" + b[..n];
      AfterLastSegment(a, b[..n]);
      assert b == b[..n] + [b[n]];
    }
  }

  /** Deleting a pattern that only occurs as the suffix leaves what precedes it. */
  lemma {:induction false} DeleteSuffix(a: string, pat: string)
    requires pat != [] && pat[0] !in a
    ensures ReplaceAll(a + pat, pat, []) == a
    decreases |a|
  {
    if a == [] {
      assert a + pat == pat;
      assert pat[|pat|..] == [];
    } else {
      assert (a + pat)[0] == a[0] && a[0] != pat[0];
      assert (a + pat)[1..] == a[1..] + pat;
      DeleteSuffix(a[1..], pat);
    }
  }

  /** A repository with a plain name (no `/` and no `.`) is cloned into a directory of that
      name. */
  lemma CloneDirOfRepo(org: string, repo: string)
    requires '/' !in repo && '.' !in repo
    ensures CloneDirName(RepoUrl(org, repo)) == repo
  {
    var url := RepoUrl(org, repo);
    assert url == ("https://github.com/" + org) + "/" + (repo + ".git");
    assert url[|url| - 1] == 't';
    assert RStripSlashes(url) == url;
    assert '/' !in ".git";
    AfterLastSegment("https://github.com/" + org, repo + ".git");
    DeleteSuffix(repo, ".git");
  }

  /** `work_dir / name`, as `pathlib` prints it. */
  function Under(dir: string, name: string): string {
    Paths.Normalize(Paths.JoinPath(Paths.Normalize(dir), name))
  }

  // ---------------------------------------------------------------------------------------
  // The steps of one change

  /** The path a URL is cloned into. */
  function CloneDest(workDir: string, url: string): string {
    Under(workDir, CloneDirName(url))
  }

  /** What `clone_repo` does before it clones: any old clone is deleted. */
  function Cleared(w: World, t: seq<Action>, dest: string): seq<Action> {
    if w.present(t, dest) then t + [RemoveTree(dest)] else t
  }

  /** The three commands of a clone. */
  function CloneCmds(auth: string, dest: string, branch: string): (r: seq<Action>)
    ensures forall k :: 0 <= k < |r| ==> r[k].Exec?
  {
    [CloneCmd(auth, dest), CheckoutBranchCmd(dest, branch), SetRemoteCmd(dest, auth)]
  }

  /** `clone_repo`: any old clone is deleted, the repository is cloned with credentials, the
      branch is created and the remote keeps the credentials. A URL that is not `https://`
      is refused after the old clone is gone and before any command runs. */
  function CloneRepo(w: World, t: seq<Action>, workDir: string, url: string, branch: string, token: string)
    : (r: Result<(string, seq<Action>), Stop>)
    ensures var dest := CloneDest(workDir, url);
      r.Success? ==> (StartsWith(url, HttpsPrefix) && r.value.0 == dest
        && r.value.1 == Cleared(w, t, dest) + [CloneCmd(Authed(url, token), dest)]
                        + [CheckoutBranchCmd(dest, branch)] + [SetRemoteCmd(dest, Authed(url, token))])
    ensures r.Failure? ==> r.error.error.NotHttps? || r.error.error.CommandFailed?
  {
    var dest := CloneDest(workDir, url);
    var t0 := Cleared(w, t, dest);
    match WithGithubToken(url, token)
    case Failure(e) => Failure(Stop(e, t0))
    case Success(auth) =>
      var cloned :- RunCmd(w, t0, CloneCmd(auth, dest));
      var branched :- RunCmd(w, cloned.1, CheckoutBranchCmd(dest, branch));
      var remote :- RunCmd(w, branched.1, SetRemoteCmd(dest, auth));
      Success((dest, remote.1))
  }

  /** A URL that is not `https://` is refused once any old clone is deleted and before any
      command runs. */
  lemma CloneNeedsHttps(w: World, t: seq<Action>, workDir: string, url: string, branch: string, token: string)
    requires !StartsWith(url, HttpsPrefix)
    ensures CloneRepo(w, t, workDir, url, branch, token) == Failure(Stop(NotHttps(url), Cleared(w, t, CloneDest(workDir, url))))
  {
  }

  /** `checkout_base`: a base commit missing from the clone is reported, with the HEAD and
      branch it found, before anything is checked out; otherwise the branch is reset to it. */
  function CheckoutBase(w: World, t: seq<Action>, dir: string, branch: string, sha: string): (r: Result<seq<Action>, Stop>)
    ensures r.Success? ==> r.value == t + [CatFileCmd(dir, sha)] + [CheckoutAtCmd(dir, branch, sha)]
    ensures r.Failure? ==> FromGit(r.error.error)
  {
    var (found, t1) := Probe(w, t, CatFileCmd(dir, sha));
    if !found then
      var head :- RunCmd(w, t1, HeadCmd(dir));
      var current :- RunCmd(w, head.1, BranchCmd(dir));
      Failure(Stop(BaseMismatch(Mismatch(Paths.Name(dir), sha, head.0, current.0, ShaMissing)), current.1))
    else
      var checkedOut :- RunCmd(w, t1, CheckoutAtCmd(dir, branch, sha));
      Success(checkedOut.1)
  }

  /** The relationship reported, checked in this order. */
  function Classify(found: bool, expectedIsAncestor: bool, headIsAncestor: bool): Relationship {
    if !found then ShaMissing
    else if expectedIsAncestor then ExpectedIsAncestor
    else if headIsAncestor then HeadIsAncestor
    else DifferentBranches
  }

  /** A base SHA that is present and not empty. */
  predicate IsSet(baseSha: Option<string>) {
    baseSha.Some? && baseSha.value != ""
  }

  /** `assert_base_sha`: silent without a base SHA, or when HEAD is that commit; otherwise
      the mismatch is raised with the relationship found. */
  function AssertBaseSha(w: World, t: seq<Action>, dir: string, baseSha: Option<string>): (r: Result<seq<Action>, Stop>)
    ensures !IsSet(baseSha) ==> r == Success(t)
    ensures IsSet(baseSha) && r.Success? ==>
      r.value == t + [HeadCmd(dir)] + [BranchCmd(dir)] + [CatFileCmd(dir, baseSha.value)]
    ensures r.Failure? ==> FromGit(r.error.error)
  {
    if !IsSet(baseSha) then Success(t)
    else
      var sha := baseSha.value;
      var head :- RunCmd(w, t, HeadCmd(dir));
      var current :- RunCmd(w, head.1, BranchCmd(dir));
      var (found, t3) := Probe(w, current.1, CatFileCmd(dir, sha));
      if found && head.0 == sha then Success(t3)
      else if !found then
        Failure(Stop(BaseMismatch(Mismatch(Paths.Name(dir), sha, head.0, current.0, Classify(false, false, false))), t3))
      else
        var (expectedIsAncestor, t4) := Probe(w, t3, AncestorCmd(dir, sha, "HEAD"));
        var (headIsAncestor, t5) := Probe(w, t4, AncestorCmd(dir, "HEAD", sha));
        var relationship := Classify(true, expectedIsAncestor, headIsAncestor);
        Failure(Stop(BaseMismatch(Mismatch(Paths.Name(dir), sha, head.0, current.0, relationship)), t5))
  }

  /** `commit_and_push`. */
  function CommitAndPush(w: World, t: seq<Action>, dir: string, message: string, branch: string): (r: Result<seq<Action>, Stop>)
    ensures var cmds := [AddCmd(dir), CommitCmd(dir, message), PushCmd(dir, branch)];
      && (r.Success? <==> AllExitZero(w, t, cmds))
      && (r.Success? ==> r.value == t + cmds)
      && (r.Failure? ==> exists i :: StopsAt(w, t, cmds, i, r.error))
    ensures r.Failure? ==> r.error.error.CommandFailed?
  {
    var a, b, c := AddCmd(dir), CommitCmd(dir, message), PushCmd(dir, branch);
    assert [a] == [] + [a] && [a, b] == [a] + [b] && [a, b, c] == [a, b] + [c];
    assert t + [] == t && t + [a, b] == t + [a] + [b] && t + [a, b, c] == t + [a, b] + [c];
    ExitZeroSnoc(w, t, [], a);
    ExitZeroSnoc(w, t, [a], b);
    ExitZeroSnoc(w, t, [a, b], c);
    StopsAtLast(w, t, [], a);
    StopsAtLast(w, t, [a], b);
    StopsAtLast(w, t, [a, b], c);
    StopsAtSnoc(w, t, [a], b);
    StopsAtSnoc(w, t, [a, b], c);
    var added :- RunCmd(w, t, AddCmd(dir));
    var committed :- RunCmd(w, added.1, CommitCmd(dir, message));
    var pushed :- RunCmd(w, committed.1, PushCmd(dir, branch));
    Success(pushed.1)
  }

  /** The relationships are tried in a fixed order: a missing commit first, then the expected
      SHA behind HEAD, then HEAD behind it, and only then different branches. */
  lemma ClassifyOrder(found: bool, expectedIsAncestor: bool, headIsAncestor: bool)
    ensures var rel := Classify(found, expectedIsAncestor, headIsAncestor);
      && (rel == ShaMissing <==> !found)
      && (rel == ExpectedIsAncestor <==> found && expectedIsAncestor)
      && (rel == HeadIsAncestor <==> found && !expectedIsAncestor && headIsAncestor)
      && (rel == DifferentBranches <==> found && !expectedIsAncestor && !headIsAncestor)
  {
  }

  /** With a base SHA, the check is silent exactly when HEAD and the branch can be read, the
      commit exists in the clone and HEAD is that commit. */
  lemma AssertSilentIff(w: World, t: seq<Action>, dir: string, sha: string)
    requires sha != ""
    ensures var t1 := t + [HeadCmd(dir)];
      var t2 := t1 + [BranchCmd(dir)];
      AssertBaseSha(w, t, dir, Some(sha)).Success? <==>
        (w.reply(t, HeadCmd(dir)).code == 0 && w.reply(t1, BranchCmd(dir)).code == 0
         && w.reply(t2, CatFileCmd(dir, sha)).code == 0 && Strip(w.reply(t, HeadCmd(dir)).stdout) == sha)
  {
  }

  /** A mismatch names the clone's directory, the expected SHA and the HEAD and branch read
      from the clone; a missing commit is reported without asking about ancestry, and
      otherwise the relationship is the one the two ancestry probes give, in order. */
  lemma AssertMismatch(w: World, t: seq<Action>, dir: string, sha: string)
    requires sha != ""
    requires AssertBaseSha(w, t, dir, Some(sha)).Failure?
    requires AssertBaseSha(w, t, dir, Some(sha)).error.error.BaseMismatch?
    ensures var stop := AssertBaseSha(w, t, dir, Some(sha)).error;
      var m := stop.error.mismatch;
      var t1 := t + [HeadCmd(dir)];
      var t2 := t1 + [BranchCmd(dir)];
      var t3 := t2 + [CatFileCmd(dir, sha)];
      var t4 := t3 + [AncestorCmd(dir, sha, "HEAD")];
      && m.repo == Paths.Name(dir) && m.expected == sha
      && m.current == Strip(w.reply(t, HeadCmd(dir)).stdout) && m.branch == Strip(w.reply(t1, BranchCmd(dir)).stdout)
      && (m.relationship == ShaMissing <==> w.reply(t2, CatFileCmd(dir, sha)).code != 0)
      && (m.relationship == ShaMissing ==> stop.trace == t3)
      && (m.relationship != ShaMissing ==>
            m.relationship == Classify(true, w.reply(t3, AncestorCmd(dir, sha, "HEAD")).code == 0,
                                       w.reply(t4, AncestorCmd(dir, "HEAD", sha)).code == 0)
            && stop.trace == t4 + [AncestorCmd(dir, "HEAD", sha)])
  {
  }

  /** A base commit missing from the clone fails `checkout_base` before anything is checked
      out: only the existence probe and the HEAD and branch queries run, and the mismatch says
      the commit was not found. A commit that exists is checked out, and that checkout's
      outcome is the step's. */
  lemma CheckoutBaseOutcome(w: World, t: seq<Action>, dir: string, branch: string, sha: string)
    ensures var r := CheckoutBase(w, t, dir, branch, sha);
      var t1 := t + [CatFileCmd(dir, sha)];
      if w.reply(t, CatFileCmd(dir, sha)).code != 0 then
        && r.Failure?
        && (r.error.trace == t1 + [HeadCmd(dir)] || r.error.trace == t1 + [HeadCmd(dir)] + [BranchCmd(dir)])
        && (r.error.error.BaseMismatch? ==>
              r.error.error.mismatch.relationship == ShaMissing && r.error.error.mismatch.expected == sha)
      else
        r.Success? <==> w.reply(t1, CheckoutAtCmd(dir, branch, sha)).code == 0
  {
  }

  /** The state after `checkout -B <branch> <sha>` in which the check that follows passes:
      `rev-parse HEAD` prints `sha` itself, the branch can be read and the commit is found.
      Git only puts HEAD at the commit `sha` names and prints that commit's full hexadecimal
      name, so this holds when `sha` is already that full lower-case name, the form `mkpatch`
      records; an abbreviated SHA or a ref name does not satisfy it
      (`AbbreviatedShaFailsAfterCheckout`). */
  predicate CheckoutHolds(w: World, t: seq<Action>, dir: string, branch: string, sha: string) {
    var u := t + [CatFileCmd(dir, sha)] + [CheckoutAtCmd(dir, branch, sha)];
    var head := w.reply(u, HeadCmd(dir));
    && head.code == 0 && Strip(head.stdout) == sha
    && w.reply(u + [HeadCmd(dir)], BranchCmd(dir)).code == 0
    && w.reply(u + [HeadCmd(dir)] + [BranchCmd(dir)], CatFileCmd(dir, sha)).code == 0
  }

  /** In that state, the check that follows `checkout_base` passes. */
  lemma CheckoutThenAssertPasses(w: World, t: seq<Action>, dir: string, branch: string, sha: string)
    requires sha != "" && CheckoutBase(w, t, dir, branch, sha).Success?
    requires CheckoutHolds(w, t, dir, branch, sha)
    ensures AssertBaseSha(w, CheckoutBase(w, t, dir, branch, sha).value, dir, Some(sha)).Success?
  {
    var u := CheckoutBase(w, t, dir, branch, sha).value;
    AssertSilentIff(w, u, dir, sha);
  }

  /** A base SHA that names HEAD's commit without being the name `rev-parse HEAD` prints (an
      abbreviated SHA, say) passes `checkout_base` and then fails `assert_base_sha`: the
      commit exists, the names differ, and the commit is an ancestor of HEAD (HEAD itself), so
      the mismatch reports that relationship. */
  lemma AbbreviatedShaFailsAfterCheckout(w: World, t: seq<Action>, dir: string, branch: string, sha: string)
    requires sha != "" && CheckoutBase(w, t, dir, branch, sha).Success?
    requires var u := CheckoutBase(w, t, dir, branch, sha).value;
      var head := w.reply(u, HeadCmd(dir));
      var v := u + [HeadCmd(dir)] + [BranchCmd(dir)];
      && head.code == 0 && Strip(head.stdout) != sha
      && w.reply(u + [HeadCmd(dir)], BranchCmd(dir)).code == 0
      && w.reply(v, CatFileCmd(dir, sha)).code == 0
      && w.reply(v + [CatFileCmd(dir, sha)], AncestorCmd(dir, sha, "HEAD")).code == 0
    ensures var u := CheckoutBase(w, t, dir, branch, sha).value;
      var r := AssertBaseSha(w, u, dir, Some(sha));
      && r.Failure? && r.error.error.BaseMismatch?
      && r.error.error.mismatch.expected == sha
      && r.error.error.mismatch.current == Strip(w.reply(u, HeadCmd(dir)).stdout)
      && r.error.error.mismatch.relationship == ExpectedIsAncestor
  {
  }

  /** The pull request's body. */
  function PrBody(bundle: string, c: Change): string {
    "Automated cross-repo publication for bundle `" + bundle + "`.\n\n"
    + "Applied patch: `" + c.patchPath + "`\n"
    + "Base SHA: `" + (if IsSet(c.baseSha) then c.baseSha.value else "not specified") + "`\n"
  }

  /** The options `main` runs with, and the bundle name read from the plan. */
  datatype Context = Context(org: string, root: string, workDir: string, baseBranch: string, dryRun: bool,
                             token: string, bundle: string)

  /** Where a change's patch is looked for. */
  function PatchOf(ctx: Context, c: Change): string {
    Under(ctx.root, c.patchPath)
  }

  /** The lines a dry run prints for one change after its heading. */
  function DryRunLines(ctx: Context, c: Change): seq<Line> {
    [WouldClone(RepoUrl(ctx.org, c.repo)),
     if IsSet(c.baseSha) then WouldCheckout(c.branch, c.baseSha.value) else KeepTip,
     WouldApply(PatchOf(ctx, c)),
     WouldCommit(c.commitMessage, c.branch),
     WouldOpenPr(ctx.baseBranch)]
  }

  function Says(lines: seq<Line>): (r: seq<Action>)
    ensures |r| == |lines| && forall k :: 0 <= k < |r| ==> r[k] == Say(lines[k])
  {
    seq(|lines|, k requires 0 <= k < |lines| => Say(lines[k]))
  }

  /** The commands of `checkout_base` and `assert_base_sha` when both pass. */
  function PinCmds(dir: string, c: Change): (r: seq<Action>)
    ensures forall k :: 0 <= k < |r| ==> r[k].Exec?
  {
    if IsSet(c.baseSha) then
      [CatFileCmd(dir, c.baseSha.value), CheckoutAtCmd(dir, c.branch, c.baseSha.value),
       HeadCmd(dir), BranchCmd(dir), CatFileCmd(dir, c.baseSha.value)]
    else []
  }

  /** The commands that publish a change: stage, commit, push, open the pull request. */
  function PublishCmds(ctx: Context, dir: string, c: Change): (r: seq<Action>)
    ensures |r| == 4 && forall k :: 0 <= k < |r| ==> r[k].Exec?
  {
    [AddCmd(dir), CommitCmd(dir, c.commitMessage), PushCmd(dir, c.branch),
     PrCmd(dir, c.branch, ctx.baseBranch, c.commitMessage, PrBody(ctx.bundle, c))]
  }

  /** The base SHA steps of a real run: `checkout_base` when the plan gives one, then
      `assert_base_sha`. */
  function PinBase(w: World, t: seq<Action>, dir: string, c: Change): (r: Result<seq<Action>, Stop>)
    ensures r.Success? ==> r.value == t + PinCmds(dir, c)
    ensures r.Failure? ==> FromGit(r.error.error)
  {
    var t1 :- if IsSet(c.baseSha) then CheckoutBase(w, t, dir, c.branch, c.baseSha.value) else Success(t);
    AssertBaseSha(w, t1, dir, c.baseSha)
  }

  /** After `git status`: with no changes, a line is printed and nothing is published;
      otherwise the change is committed, pushed and opened as a pull request. */
  function Finish(w: World, ctx: Context, t: seq<Action>, dir: string, status: string, c: Change)
    : (r: Result<seq<Action>, Stop>)
    ensures status == "" ==> r == Success(t + [Say(Unchanged)])
    ensures status != "" ==> (r.Success? <==> AllExitZero(w, t, PublishCmds(ctx, dir, c)))
    ensures status != "" && r.Success? ==>
      var pub := PublishCmds(ctx, dir, c);
      r.value == t + pub + [Say(OpenedPr(Strip(w.reply(t + pub[..3], pub[3]).stdout)))]
    ensures r.Failure? ==> exists i :: StopsAt(w, t, PublishCmds(ctx, dir, c), i, r.error)
    ensures r.Failure? ==> r.error.error.CommandFailed?
  {
    if status == "" then Success(t + [Say(Unchanged)])
    else
      var pub := PublishCmds(ctx, dir, c);
      assert pub[..3] == [AddCmd(dir), CommitCmd(dir, c.commitMessage), PushCmd(dir, c.branch)];
      assert pub == pub[..3] + [pub[3]] && t + pub == t + pub[..3] + [pub[3]];
      ExitZeroSnoc(w, t, pub[..3], pub[3]);
      StopsAtLast(w, t, pub[..3], pub[3]);
      StopsAtSnoc(w, t, pub[..3], pub[3]);
      var t1 :- CommitAndPush(w, t, dir, c.commitMessage, c.branch);
      var pr :- RunCmd(w, t1, PrCmd(dir, c.branch, ctx.baseBranch, c.commitMessage, PrBody(ctx.bundle, c)));
      Success(pr.1 + [Say(OpenedPr(pr.0))])
  }

  /** A real run of one change, after its heading; what it raises comes from git, gh or the
      URL check. */
  function RealRun(w: World, ctx: Context, t: seq<Action>, c: Change): (r: Result<seq<Action>, Stop>)
    ensures r.Failure? ==> FromGit(r.error.error) || r.error.error.NotHttps?
  {
    var cloned :- CloneRepo(w, t, ctx.workDir, RepoUrl(ctx.org, c.repo), c.branch, ctx.token);
    var dir := cloned.0;
    var t2 :- PinBase(w, cloned.1, dir, c);
    var applied :- RunCmd(w, t2, ApplyCmd(dir, PatchOf(ctx, c)));
    var status :- RunCmd(w, applied.1, StatusCmd(dir));
    Finish(w, ctx, status.1, dir, status.0, c)
  }

  /** One pass of `main`'s loop: the patch must exist; a dry run only prints; a real run
      clones, pins the base commit, applies the patch and publishes any changes. */
  function ProcessChange(w: World, ctx: Context, t: seq<Action>, c: Change): Result<seq<Action>, Stop> {
    var patch := PatchOf(ctx, c);
    if !w.present(t, patch) then Failure(Stop(PatchMissing(patch), t))
    else
      var t1 := t + [Say(Heading(c.repo))];
      if ctx.dryRun then Success(t1 + Says(DryRunLines(ctx, c)))
      else RealRun(w, ctx, t1, c)
  }

  /** The patch is looked for before anything else: when it is missing, `PatchMissing` is
      raised with nothing done for this change. */
  lemma PatchCheckedFirst(w: World, ctx: Context, t: seq<Action>, c: Change)
    requires !w.present(t, PatchOf(ctx, c))
    ensures ProcessChange(w, ctx, t, c) == Failure(Stop(PatchMissing(PatchOf(ctx, c)), t))
  {
  }

  /** A change never raises the token or plan errors, which only `main` raises before the
      loop, and it raises `PatchMissing` exactly when its patch is not there. */
  lemma ChangeErrors(w: World, ctx: Context, t: seq<Action>, c: Change)
    ensures var r := ProcessChange(w, ctx, t, c);
      r.Failure? ==> LoopError(r.error) && (r.error.error.PatchMissing? <==> !w.present(t, PatchOf(ctx, c)))
  {
    if !w.present(t, PatchOf(ctx, c)) {
      PatchCheckedFirst(w, ctx, t, c);
    } else if ctx.dryRun {
      DryRunChange(w, ctx, t, c);
    } else {
      var run := RealRun(w, ctx, t + [Say(Heading(c.repo))], c);
      assert ProcessChange(w, ctx, t, c) == run;
      assert run.Failure? ==> FromGit(run.error.error) || run.error.error.NotHttps?;
    }
  }

  /** Actions that are neither a subprocess nor a deletion: printed lines and the work
      directory's creation. */
  predicate Harmless(u: seq<Action>) {
    forall k :: 0 <= k < |u| ==> u[k].Say? || u[k].MakeDirs?
  }

  /** A dry run of a change with its patch present prints the heading and the five dry-run
      lines, and nothing else. */
  lemma DryRunChange(w: World, ctx: Context, t: seq<Action>, c: Change)
    requires ctx.dryRun && w.present(t, PatchOf(ctx, c))
    ensures ProcessChange(w, ctx, t, c) == Success(t + [Say(Heading(c.repo))] + Says(DryRunLines(ctx, c)))
  {
  }

  /** A dry run says which commit it would check out, or that it would keep the cloned
      branch tip when the plan gives no base SHA. */
  lemma DryRunNamesBase(w: World, ctx: Context, t: seq<Action>, c: Change)
    requires ctx.dryRun && w.present(t, PatchOf(ctx, c))
    ensures var r := ProcessChange(w, ctx, t, c);
      && (!IsSet(c.baseSha) ==> Say(KeepTip) in r.value)
      && (IsSet(c.baseSha) ==> Say(WouldCheckout(c.branch, c.baseSha.value)) in r.value)
  {
    DryRunChange(w, ctx, t, c);
    DryRunLinesNameBase(ctx, t, c);
  }

  /** The second dry-run line names the base commit, or says the tip is kept. */
  lemma DryRunLinesNameBase(ctx: Context, t: seq<Action>, c: Change)
    ensures var said := t + [Say(Heading(c.repo))] + Says(DryRunLines(ctx, c));
      && (!IsSet(c.baseSha) ==> Say(KeepTip) in said)
      && (IsSet(c.baseSha) ==> Say(WouldCheckout(c.branch, c.baseSha.value)) in said)
  {
    var lines := DryRunLines(ctx, c);
    assert lines[1] == if IsSet(c.baseSha) then WouldCheckout(c.branch, c.baseSha.value) else KeepTip;
    HarmlessSays(t, Heading(c.repo), lines);
  }

  /** Printing lines keeps a trace harmless, and every line printed is in it. */
  lemma HarmlessSays(t: seq<Action>, heading: Line, lines: seq<Line>)
    ensures Harmless(t) ==> Harmless(t + [Say(heading)] + Says(lines))
    ensures forall k :: 0 <= k < |lines| ==> Say(lines[k]) in t + [Say(heading)] + Says(lines)
  {
    var u := t + [Say(heading)];
    var said := Says(lines);
    assert forall k :: 0 <= k < |u + said| ==> (u + said)[k] == if k < |u| then u[k] else said[k - |u|];
    forall k | 0 <= k < |lines| ensures Say(lines[k]) in u + said {
      assert (u + said)[|u| + k] == Say(lines[k]);
    }
  }

  /** The commands of a real run up to `git status`: clone, create the branch, keep the
      credentials on the remote; when there is a base SHA, probe it, check it out and run
      the three queries of the check; then apply the patch and ask for the status. */
  function SetupCmds(ctx: Context, c: Change): seq<Action> {
    var url := RepoUrl(ctx.org, c.repo);
    var dir := CloneDest(ctx.workDir, url);
    CloneCmds(Authed(url, ctx.token), dir, c.branch) + PinCmds(dir, c) + ApplyCmds(dir, PatchOf(ctx, c))
  }

  /** Applying the patch and asking for the status. */
  function ApplyCmds(dir: string, patch: string): (r: seq<Action>)
    ensures forall k :: 0 <= k < |r| ==> r[k].Exec?
  {
    [ApplyCmd(dir, patch), StatusCmd(dir)]
  }

  /** The directory a change is cloned into. */
  function DirOf(ctx: Context, c: Change): string {
    CloneDest(ctx.workDir, RepoUrl(ctx.org, c.repo))
  }

  lemma CmdsAppend(u: seq<Action>, xs: seq<Action>)
    requires forall k :: 0 <= k < |xs| ==> xs[k].Exec?
    ensures Cmds(u + xs) == Cmds(u) + xs
  {
    CmdsConcat(u, xs);
    CmdsOfCmds(xs);
  }

  lemma CmdsSay(u: seq<Action>, line: Line)
    ensures Cmds(u + [Say(line)]) == Cmds(u)
  {
    assert (u + [Say(line)])[..|u|] == u;
  }

  lemma CmdsCleared(w: World, t: seq<Action>, dest: string)
    ensures Cmds(Cleared(w, t, dest)) == Cmds(t)
  {
    if w.present(t, dest) {
      assert (t + [RemoveTree(dest)])[..|t|] == t;
    }
  }

  /** Three appended commands are one appended list. */
  lemma AppendThree(u: seq<Action>, a: Action, b: Action, d: Action)
    ensures u + [a] + [b] + [d] == u + [a, b, d]
  {
  }

  /** The command bookkeeping of a successful real run, over the traces each step leaves. */
  lemma CommandsOfSteps(t: seq<Action>, t0: seq<Action>, t1: seq<Action>, t2: seq<Action>, t4: seq<Action>,
                        u: seq<Action>, clone: seq<Action>, pin: seq<Action>, tail: seq<Action>,
                        pub: seq<Action>, setup: seq<Action>, published: bool, line: Line)
    requires Cmds(t0) == Cmds(t)
    requires t1 == t0 + clone && t2 == t1 + pin && t4 == t2 + tail && setup == clone + pin + tail
    requires forall k :: 0 <= k < |clone| ==> clone[k].Exec?
    requires forall k :: 0 <= k < |pin| ==> pin[k].Exec?
    requires forall k :: 0 <= k < |tail| ==> tail[k].Exec?
    requires forall k :: 0 <= k < |pub| ==> pub[k].Exec?
    requires u == if published then t4 + pub + [Say(line)] else t4 + [Say(line)]
    ensures Cmds(u) == Cmds(t) + setup + (if published then pub else [])
  {
    CmdsAppend(t0, clone);
    CmdsAppend(t1, pin);
    CmdsAppend(t2, tail);
    ConcatAssoc(Cmds(t), clone, pin);
    ConcatAssoc(Cmds(t), clone + pin, tail);
    if published {
      CmdsAppend(t4, pub);
      CmdsSay(t4 + pub, line);
    } else {
      CmdsSay(t4, line);
    }
  }

  /** Two appended actions are one appended list. */
  lemma AppendTwo(u: seq<Action>, a: Action, b: Action)
    ensures u + [a] + [b] == u + [a, b]
  {
  }

  /** A real run that succeeds issues exactly the setup commands, in order, and then either
      nothing more, when `git status` shows no changes and the run says so, or the four
      publishing commands. */
  lemma RealRunCommands(w: World, ctx: Context, t: seq<Action>, c: Change)
    requires RealRun(w, ctx, t, c).Success?
    ensures var u := RealRun(w, ctx, t, c).value;
      && u != []
      && (Cmds(u) == Cmds(t) + SetupCmds(ctx, c) || Cmds(u) == Cmds(t) + SetupCmds(ctx, c) + PublishCmds(ctx, DirOf(ctx, c), c))
      && (Cmds(u) == Cmds(t) + SetupCmds(ctx, c) <==> u[|u| - 1] == Say(Unchanged))
  {
    var url := RepoUrl(ctx.org, c.repo);
    var cloned := CloneRepo(w, t, ctx.workDir, url, c.branch, ctx.token);
    assert cloned.Success?;
    var dir := cloned.value.0;
    var pinned := PinBase(w, cloned.value.1, dir, c);
    assert pinned.Success?;
    var applied := RunCmd(w, pinned.value, ApplyCmd(dir, PatchOf(ctx, c)));
    assert applied.Success?;
    var status := RunCmd(w, applied.value.1, StatusCmd(dir));
    assert status.Success?;
    var finished := Finish(w, ctx, status.value.1, dir, status.value.0, c);
    assert RealRun(w, ctx, t, c) == finished;
    var u := finished.value;
    var clone := CloneCmds(Authed(url, ctx.token), dir, c.branch);
    AppendThree(Cleared(w, t, dir), CloneCmd(Authed(url, ctx.token), dir), CheckoutBranchCmd(dir, c.branch),
                SetRemoteCmd(dir, Authed(url, ctx.token)));
    var pin := PinCmds(dir, c);
    var tail := ApplyCmds(dir, PatchOf(ctx, c));
    var pub := PublishCmds(ctx, dir, c);
    var setup := SetupCmds(ctx, c);
    AppendTwo(pinned.value, ApplyCmd(dir, PatchOf(ctx, c)), StatusCmd(dir));
    CmdsCleared(w, t, dir);
    if status.value.0 != "" {
      var prUrl := Strip(w.reply(status.value.1 + pub[..3], pub[3]).stdout);
      CommandsOfSteps(t, Cleared(w, t, dir), cloned.value.1, pinned.value, status.value.1, u,
                      clone, pin, tail, pub, setup, true, OpenedPr(prUrl));
      assert |Cmds(u)| != |Cmds(t) + setup|;
    } else {
      CommandsOfSteps(t, Cleared(w, t, dir), cloned.value.1, pinned.value, status.value.1, u,
                      clone, pin, tail, pub, setup, false, Unchanged);
    }
  }

  // ---------------------------------------------------------------------------------------
  // The whole run

  /** `GH_TOKEN or GITHUB_TOKEN`, the empty string standing for none. */
  function TokenOf(env: map<string, string>): (r: string)
    ensures r != "" <==> ("GH_TOKEN" in env && env["GH_TOKEN"] != "") || ("GITHUB_TOKEN" in env && env["GITHUB_TOKEN"] != "")
    ensures "GH_TOKEN" in env && env["GH_TOKEN"] != "" ==> r == env["GH_TOKEN"]
  {
    if "GH_TOKEN" in env && env["GH_TOKEN"] != "" then env["GH_TOKEN"]
    else if "GITHUB_TOKEN" in env then env["GITHUB_TOKEN"]
    else ""
  }

  /** The command line: the plan (already decoded from JSON), the workspace root patch paths
      are relative to, the work directory, the organisation, the base branch, `--dry-run`. */
  datatype Args = Args(plan: Json.Value, workspaceRoot: string, workDir: string, org: string, baseBranch: string,
                       dryRun: bool)

  function ContextOf(args: Args, token: string, plan: Plan): Context {
    Context(args.org, args.workspaceRoot, args.workDir, args.baseBranch, args.dryRun, token, plan.bundle)
  }

  /** The actions before the first change: the work directory is created and the plan
      announced. */
  function Opening(args: Args, plan: Plan): seq<Action> {
    [MakeDirs(args.workDir), Say(Processing(plan.bundle, |plan.changes|))]
  }

  /** One turn of the loop over the plan's changes. */
  function Step(w: World, ctx: Context): (seq<Action>, Change) -> Result<seq<Action>, Stop> {
    (u, c) => ProcessChange(w, ctx, u, c)
  }

  /** The loop over the plan's changes. */
  function Changes(w: World, ctx: Context, t: seq<Action>, changes: seq<Change>): Result<seq<Action>, Stop> {
    Fold(Step(w, ctx), t, changes)
  }

  /** `main`: the token check, the plan, then every change in order; the first error ends
      the run. */
  function Publish(args: Args, env: map<string, string>, w: World): Result<seq<Action>, Stop> {
    var token := TokenOf(env);
    if token == "" && !args.dryRun then Failure(Stop(NoToken, []))
    else
      match DecodePlan(args.plan)
      case Failure(e) => Failure(Stop(BadPlan(e), []))
      case Success(plan) => Changes(w, ContextOf(args, token, plan), Opening(args, plan), plan.changes)
  }

  /** An error no change raises: the token and the plan are only checked before the loop. */
  predicate LoopError(e: Stop) {
    !e.error.NoToken? && !e.error.BadPlan?
  }

  /** The loop over the changes never raises the token or plan errors. */
  lemma ChangesErrors(w: World, ctx: Context, t: seq<Action>, changes: seq<Change>)
    ensures Changes(w, ctx, t, changes).Failure? ==> LoopError(Changes(w, ctx, t, changes).error)
  {
    var step := Step(w, ctx);
    var good := (u: seq<Action>) => true;
    forall u, k | 0 <= k < |changes|
      ensures step(u, changes[k]).Failure? ==> LoopError(step(u, changes[k]).error)
    {
      ChangeErrors(w, ctx, u, changes[k]);
    }
    FoldKeeps(step, t, changes, good, LoopError);
  }

  /** The run stops with `NoToken`, having done nothing, exactly when neither variable holds
      a token and this is not a dry run; it stops with `BadPlan`, having done nothing,
      exactly when the token check passes and the plan does not load. */
  lemma StartupErrors(args: Args, env: map<string, string>, w: World)
    ensures var r := Publish(args, env, w);
      && ((r.Failure? && r.error.error.NoToken?) <==> (TokenOf(env) == "" && !args.dryRun))
      && ((r.Failure? && r.error.error.BadPlan?) <==>
          ((TokenOf(env) != "" || args.dryRun) && DecodePlan(args.plan).Failure?))
      && (r.Failure? && (r.error.error.NoToken? || r.error.error.BadPlan?) ==> r.error.trace == [])
  {
    var token := TokenOf(env);
    if (token != "" || args.dryRun) && DecodePlan(args.plan).Success? {
      var plan := DecodePlan(args.plan).value;
      ChangesErrors(w, ContextOf(args, token, plan), Opening(args, plan), plan.changes);
    }
  }

  /** What a failed dry run raises: a plan that does not load or a missing patch. */
  predicate DryRunStop(e: Stop) {
    Harmless(e.trace) && e.error.PatchMissing?
  }

  /** A dry loop over changes that starts from a harmless trace leaves one, and stops only at
      a missing patch. */
  lemma DryChanges(w: World, ctx: Context, t: seq<Action>, changes: seq<Change>)
    requires ctx.dryRun && Harmless(t)
    ensures var r := Changes(w, ctx, t, changes);
      && (r.Success? ==> Harmless(r.value))
      && (r.Failure? ==> DryRunStop(r.error))
  {
    var step := Step(w, ctx);
    forall u, k | 0 <= k < |changes| && Harmless(u)
      ensures step(u, changes[k]).Success? ==> Harmless(step(u, changes[k]).value)
      ensures step(u, changes[k]).Failure? ==> DryRunStop(step(u, changes[k]).error)
    {
      if w.present(u, PatchOf(ctx, changes[k])) {
        DryRunChange(w, ctx, u, changes[k]);
        HarmlessSays(u, Heading(changes[k].repo), DryRunLines(ctx, changes[k]));
      } else {
        PatchCheckedFirst(w, ctx, u, changes[k]);
      }
    }
    FoldKeeps(step, t, changes, Harmless, DryRunStop);
  }

  /** A dry run needs no token, runs no git or gh command and deletes nothing, whether it
      finishes or stops; it stops only when the plan does not load or a patch is missing. */
  lemma DryRunHarmless(args: Args, env: map<string, string>, w: World)
    requires args.dryRun
    ensures var r := Publish(args, env, w);
      && (r.Success? ==> Harmless(r.value))
      && (r.Failure? ==> Harmless(r.error.trace) && (r.error.error.BadPlan? || r.error.error.PatchMissing?))
  {
    if DecodePlan(args.plan).Success? {
      var plan := DecodePlan(args.plan).value;
      var opening := Opening(args, plan);
      assert opening[0].MakeDirs? && opening[1].Say?;
      DryChanges(w, ContextOf(args, TokenOf(env), plan), opening, plan.changes);
    }
  }

  /** The first change that fails ends the run with its error: the changes after it are not
      attempted. */
  lemma FirstErrorEndsRun(args: Args, env: map<string, string>, w: World, plan: Plan, j: nat, u: seq<Action>)
    requires TokenOf(env) != "" || args.dryRun
    requires DecodePlan(args.plan) == Success(plan) && j < |plan.changes|
    requires Changes(w, ContextOf(args, TokenOf(env), plan), Opening(args, plan), plan.changes[..j]) == Success(u)
    requires ProcessChange(w, ContextOf(args, TokenOf(env), plan), u, plan.changes[j]).Failure?
    ensures Publish(args, env, w) == ProcessChange(w, ContextOf(args, TokenOf(env), plan), u, plan.changes[j])
  {
    var ctx := ContextOf(args, TokenOf(env), plan);
    FoldStopsAt(Step(w, ctx), Opening(args, plan), plan.changes, j, u);
  }

  /** The pull request body ends by naming the base SHA, or by saying it was not specified
      when the plan has none. */
  lemma PrBodyBase(bundle: string, c: Change)
    ensures IsSet(c.baseSha) ==> EndsWith(PrBody(bundle, c), "Base SHA: `" + c.baseSha.value + "`\n")
    ensures !IsSet(c.baseSha) ==> EndsWith(PrBody(bundle, c), "Base SHA: `" + "not specified" + "`\n")
  {
    var head := "Automated cross-repo publication for bundle `" + bundle + "`.\n\n"
      + "Applied patch: `" + c.patchPath + "`\n";
    var base := if IsSet(c.baseSha) then c.baseSha.value else "not specified";
    var tail := "Base SHA: `" + base + "`\n";
    assert PrBody(bundle, c) == head + tail;
    assert (head + tail)[|head|..] == tail;
  }

  /** The `for change in plan.changes` loop of `main`, returning at the first error. */
  method RunChanges(w: World, ctx: Context, t: seq<Action>, changes: seq<Change>) returns (r: Result<seq<Action>, Stop>)
    ensures r == Changes(w, ctx, t, changes)
  {
    r := RunFold(Step(w, ctx), t, changes);
  }

  /** `main` as the program runs it: the token check, `load_plan`, the work directory and the
      header, then the loop over the changes. */
  method RunPlan(args: Args, env: map<string, string>, w: World) returns (r: Result<seq<Action>, Stop>)
    ensures r == Publish(args, env, w)
  {
    var token := TokenOf(env);
    if token == "" && !args.dryRun {
      return Failure(Stop(NoToken, []));
    }
    var loaded := LoadPlan(args.plan);
    if loaded.Failure? {
      return Failure(Stop(BadPlan(loaded.error), []));
    }
    var plan := loaded.value;
    r := RunChanges(w, ContextOf(args, token, plan), Opening(args, plan), plan.changes);
  }
}
