/** Bundling the uncommitted work of the checkouts under `deps/` into
    `patches/<bundle>/`: one patch per dirty checkout, a machine-readable plan and a report. */
module MkPatch {
  import opened Wrappers
  import opened Text
  import opened Host
  import opened Json
  import opened Retention
  import opened DirtyScan
  import opened Report

  // ---------------------------------------------------------------------------------------
  // Names derived from the bundle and the repository

  /** The branch a change is published on: the repository name with `_` turned into `-`. */
  function SuggestedBranch(bundle: string, repo: string): (r: string)
    ensures StartsWith(r, "codex/" + bundle + "/")
    ensures |r| == 7 + |bundle| + |repo|
    ensures forall i :: 0 <= i < |repo| ==>
      r[7 + |bundle| + i] == if repo[i] == '_' then '-' else repo[i]
  {
    ReplaceCharPointwise(repo, '_', '-');
    "codex/" + bundle + "/" + ReplaceAll(repo, "_", "-")
  }

  /** For a fixed repository, different bundles get different branches. */
  lemma BranchDistinguishesBundles(b1: string, b2: string, repo: string)
    requires SuggestedBranch(b1, repo) == SuggestedBranch(b2, repo)
    ensures b1 == b2
  {
    var r := SuggestedBranch(b1, repo);
    assert |b1| == |b2|;
    assert r[..7 + |b1|] == "codex/" + b1 + "/" && r[..7 + |b2|] == "codex/" + b2 + "/";
    assert b1 == ("codex/" + b1 + "/")[6..6 + |b1|];
    assert b2 == ("codex/" + b2 + "/")[6..6 + |b2|];
  }

  function SuggestedCommitMessage(bundle: string, repo: string): (r: string)
    ensures StartsWith(r, "Apply " + bundle + " updates for ")
    ensures EndsWith(r, repo)
    ensures |r| == 19 + |bundle| + |repo|
  {
    "Apply " + bundle + " updates for " + repo
  }

  /** For a fixed bundle, different repositories get different commit messages. */
  lemma MessageDistinguishesRepos(bundle: string, r1: string, r2: string)
    requires SuggestedCommitMessage(bundle, r1) == SuggestedCommitMessage(bundle, r2)
    ensures r1 == r2
  {
    var m := SuggestedCommitMessage(bundle, r1);
    assert |r1| == |r2|;
    assert m[19 + |bundle|..] == r1;
    assert SuggestedCommitMessage(bundle, r2)[19 + |bundle|..] == r2;
  }

  // ---------------------------------------------------------------------------------------
  // Bundle names from the clock

  /** A UTC date and time as `datetime` holds it. */
  datatype Instant = Instant(year: nat, month: nat, day: nat, hour: nat, minute: nat, second: nat, micro: nat)

  predicate ValidInstant(t: Instant) {
    && 1 <= t.year <= 9999 && 1 <= t.month <= 12 && 1 <= t.day <= 31
    && t.hour < 24 && t.minute < 60 && t.second < 60 && t.micro < 1_000_000
  }

  /** `t1` falls in an earlier second than `t2`. */
  predicate EarlierSecond(t1: Instant, t2: Instant) {
    || t1.year < t2.year
    || (t1.year == t2.year && t1.month < t2.month)
    || (t1.year == t2.year && t1.month == t2.month && t1.day < t2.day)
    || (t1.year == t2.year && t1.month == t2.month && t1.day == t2.day && t1.hour < t2.hour)
    || (t1.year == t2.year && t1.month == t2.month && t1.day == t2.day && t1.hour == t2.hour
        && t1.minute < t2.minute)
    || (t1.year == t2.year && t1.month == t2.month && t1.day == t2.day && t1.hour == t2.hour
        && t1.minute == t2.minute && t1.second < t2.second)
  }

  predicate SameSecond(t1: Instant, t2: Instant) {
    t1.year == t2.year && t1.month == t2.month && t1.day == t2.day
    && t1.hour == t2.hour && t1.minute == t2.minute && t1.second == t2.second
  }

  /** `%Y%m%d-%H%M%S`. */
  function Stamp(t: Instant): string {
    Pad(t.year, 4) + (Pad(t.month, 2) + (Pad(t.day, 2) + ("-" + (Pad(t.hour, 2)
      + (Pad(t.minute, 2) + Pad(t.second, 2))))))
  }

  /** `make_bundle_name`: `bundle-YYYYMMDD-HHMMSS`, a name the `bundle-*` scan picks up. */
  function MakeBundleName(t: Instant): (r: string)
    ensures |r| == 22
    ensures StartsWith(r, "bundle-")
    ensures r[15] == '-'
    ensures forall i :: 7 <= i < 22 && i != 15 ==> '0' <= r[i] <= '9'
  {
    "bundle-" + Stamp(t)
  }

  /** One zero-padded field followed by the rest: the field decides unless it is equal. */
  lemma PadThen(x1: nat, x2: nat, w: nat, r1: string, r2: string)
    requires x1 < Pow10(w) && x2 < Pow10(w)
    ensures LexLt(Pad(x1, w) + r1, Pad(x2, w) + r2) <==> x1 < x2 || (x1 == x2 && LexLt(r1, r2))
    ensures Pad(x1, w) + r1 == Pad(x2, w) + r2 <==> x1 == x2 && r1 == r2
  {
    PadOrder(x1, x2, w);
    LexLtConcat(Pad(x1, w), r1, Pad(x2, w), r2);
    if Pad(x1, w) + r1 == Pad(x2, w) + r2 {
      assert (Pad(x1, w) + r1)[..w] == Pad(x1, w) && (Pad(x2, w) + r2)[..w] == Pad(x2, w);
      assert (Pad(x1, w) + r1)[w..] == r1 && (Pad(x2, w) + r2)[w..] == r2;
    }
  }

  lemma TimeOfDayOrder(t1: Instant, t2: Instant)
    requires ValidInstant(t1) && ValidInstant(t2)
    ensures var a, b := Pad(t1.hour, 2) + (Pad(t1.minute, 2) + Pad(t1.second, 2)),
                        Pad(t2.hour, 2) + (Pad(t2.minute, 2) + Pad(t2.second, 2));
      && (LexLt(a, b) <==> (t1.hour < t2.hour || (t1.hour == t2.hour && (t1.minute < t2.minute
                                || (t1.minute == t2.minute && t1.second < t2.second)))))
      && (a == b <==> t1.hour == t2.hour && t1.minute == t2.minute && t1.second == t2.second)
  {
    assert Pow10(2) == 100;
    PadOrder(t1.second, t2.second, 2);
    PadThen(t1.minute, t2.minute, 2, Pad(t1.second, 2), Pad(t2.second, 2));
    PadThen(t1.hour, t2.hour, 2, Pad(t1.minute, 2) + Pad(t1.second, 2), Pad(t2.minute, 2) + Pad(t2.second, 2));
  }

  /** Bundle names sort as their instants do, to the second: a later bundle gets a larger
      name, and two instants share a name exactly when they fall in the same second. */
  lemma BundleNameOrder(t1: Instant, t2: Instant)
    requires ValidInstant(t1) && ValidInstant(t2)
    ensures LexLt(MakeBundleName(t1), MakeBundleName(t2)) <==> EarlierSecond(t1, t2)
    ensures MakeBundleName(t1) == MakeBundleName(t2) <==> SameSecond(t1, t2)
  {
    assert Pow10(2) == 100 && Pow10(4) == 10000;
    var h1 := Pad(t1.hour, 2) + (Pad(t1.minute, 2) + Pad(t1.second, 2));
    var h2 := Pad(t2.hour, 2) + (Pad(t2.minute, 2) + Pad(t2.second, 2));
    TimeOfDayOrder(t1, t2);
    LexLtCommonPrefix("-", h1, h2);
    var d1, d2 := Pad(t1.day, 2) + ("-" + h1), Pad(t2.day, 2) + ("-" + h2);
    PadThen(t1.day, t2.day, 2, "-" + h1, "-" + h2);
    var m1, m2 := Pad(t1.month, 2) + d1, Pad(t2.month, 2) + d2;
    PadThen(t1.month, t2.month, 2, d1, d2);
    PadThen(t1.year, t2.year, 4, m1, m2);
    assert Stamp(t1) == Pad(t1.year, 4) + m1 && Stamp(t2) == Pad(t2.year, 4) + m2;
    LexLtCommonPrefix("bundle-", Stamp(t1), Stamp(t2));
  }

  // ---------------------------------------------------------------------------------------
  // The plan

  /** The plan's `patch_path` for one repository, relative to the workspace root. */
  function PatchPath(bundle: string, repo: string): string {
    "patches/" + bundle + "/" + repo + ".patch"
  }

  /** One element of the plan's `changes`, members in the order `write_bundle` lists them. */
  function PlanEntry(bundle: string, r: DirtyRepo): Value {
    Object([
      Member("repo", Str(r.name)),
      Member("branch", Str(SuggestedBranch(bundle, r.name))),
      Member("commit_message", Str(SuggestedCommitMessage(bundle, r.name))),
      Member("patch_path", Str(PatchPath(bundle, r.name))),
      Member("base_sha", Str(r.baseSha))])
  }

  /** The document saved as `change_plan.json`: one change per dirty repository, in order. */
  function PlanDoc(bundle: string, repos: seq<DirtyRepo>): Value {
    Object([
      Member("schema_version", Int(1)),
      Member("bundle", Str(bundle)),
      Member("changes", Array(seq(|repos|, i requires 0 <= i < |repos| => PlanEntry(bundle, repos[i]))))])
  }

  // ---------------------------------------------------------------------------------------
  // Writing the bundle

  function PatchFileName(repo: string): string {
    repo + ".patch"
  }

  /** The patch files, written one repository after another. */
  function PatchFiles(repos: seq<DirtyRepo>): map<string, FileBody> {
    if repos == [] then map[]
    else
      var last := repos[|repos| - 1];
      PatchFiles(repos[..|repos| - 1])[PatchFileName(last.name) := Text(last.patchText)]
  }

  /** What the bundle directory holds once `write_bundle` is done. */
  function BundleFiles(bundle: string, repos: seq<DirtyRepo>): map<string, FileBody> {
    PatchFiles(repos)
      ["change_plan.json" := Document(PlanDoc(bundle, repos))]
      ["change_report.md" := Text(ChangeReport(bundle, repos))]
  }

  predicate DistinctRepos(repos: seq<DirtyRepo>) {
    forall i, j :: 0 <= i < j < |repos| ==> repos[i].name != repos[j].name
  }

  lemma PatchFileNameInjective(a: string, b: string)
    ensures PatchFileName(a) == PatchFileName(b) ==> a == b
    ensures PatchFileName(a) != "change_plan.json" && PatchFileName(a) != "change_report.md"
  {
    var pa, pb := PatchFileName(a), PatchFileName(b);
    if pa == pb {
      assert a == pa[..|a|] && b == pb[..|b|];
    }
    assert pa[|pa| - 6..] == ".patch";
    assert "change_plan.json"[10..] != ".patch" && "change_report.md"[10..] != ".patch";
  }

  /** One patch file per repository is written, named after it. */
  lemma {:induction false} PatchFilesKeys(repos: seq<DirtyRepo>)
    ensures PatchFiles(repos).Keys == set r | r in repos :: PatchFileName(r.name)
  {
    if repos != [] {
      var n := |repos| - 1;
      PatchFilesKeys(repos[..n]);
      assert forall r :: r in repos <==> r in repos[..n] || r == repos[n] by {
        assert repos == repos[..n] + [repos[n]];
      }
    }
  }

  /** Each repository's patch file holds its diff: no later repository overwrites it. */
  lemma {:induction false} PatchFilesContents(repos: seq<DirtyRepo>)
    requires DistinctRepos(repos)
    ensures PatchFiles(repos).Keys == set r | r in repos :: PatchFileName(r.name)
    ensures forall i :: 0 <= i < |repos| ==>
      PatchFiles(repos)[PatchFileName(repos[i].name)] == Text(repos[i].patchText)
  {
    PatchFilesKeys(repos);
    if repos != [] {
      var n := |repos| - 1;
      var init := repos[..n];
      PatchFilesContents(init);
      forall i | 0 <= i < |repos|
        ensures PatchFiles(repos)[PatchFileName(repos[i].name)] == Text(repos[i].patchText)
      {
        if i < n {
          PatchFileNameInjective(repos[i].name, repos[n].name);
          assert init[i] == repos[i];
        }
      }
    }
  }

  /** The bundle directory holds one patch per repository, with that repository's diff, the
      plan and the report, and nothing else. */
  lemma BundleFilesContents(bundle: string, repos: seq<DirtyRepo>)
    requires DistinctRepos(repos)
    ensures BundleFiles(bundle, repos).Keys ==
      (set r | r in repos :: PatchFileName(r.name)) + {"change_plan.json", "change_report.md"}
    ensures forall i :: 0 <= i < |repos| ==>
      BundleFiles(bundle, repos)[PatchFileName(repos[i].name)] == Text(repos[i].patchText)
    ensures BundleFiles(bundle, repos)["change_plan.json"] == Document(PlanDoc(bundle, repos))
    ensures BundleFiles(bundle, repos)["change_report.md"] == Text(ChangeReport(bundle, repos))
  {
    PatchFilesContents(repos);
    forall i | 0 <= i < |repos|
      ensures PatchFileName(repos[i].name) != "change_plan.json"
      ensures PatchFileName(repos[i].name) != "change_report.md"
    {
      PatchFileNameInjective(repos[i].name, repos[i].name);
    }
  }

  /** Why `write_bundle` wrote nothing: `mkdir` found the directory already there, or the
      name does not place the bundle directly inside `patches_dir` (a nested or absolute path,
      or `patches_dir` itself while it is missing), which this model does not follow. */
  datatype WriteError = BundleExists(name: string) | UnsupportedName(name: string)

  /** A name `patches_dir / name` resolves to a new entry directly inside `patches_dir`. */
  predicate SimpleName(s: string) {
    s != "" && s != "." && s != ".." && '/' !in s
  }

  /** `patches_dir / name` is `patches_dir` itself. */
  predicate NamesSelf(s: string) {
    s == "" || s == "."
  }

  /** The refusal `write_bundle` meets with a name that is not simple, and `patches/` after it.
      `..` is the parent, which always exists; when `patches_dir` is missing, `mkdir` first
      creates it as the parent of the path and only then fails. `patches_dir` itself exists
      once it is present. */
  function Refusal(patches: Listing, s: string): (WriteError, Listing)
    requires !SimpleName(s)
  {
    if s == ".." then (BundleExists(s), if patches.Missing? then Present([]) else patches)
    else if NamesSelf(s) && patches.Present? then (BundleExists(s), patches)
    else (UnsupportedName(s), patches)
  }

  /** `write_bundle(repos, patches_dir, bundle_name)`: creates the bundle directory and writes
      the patches, the plan and the report into it; returns the new directory. */
  method WriteBundle(repos: seq<DirtyRepo>, patches: Listing, bundle: string, now: int)
    returns (r: Result<Entry, WriteError>, after: Listing)
    ensures bundle == ".." ==>
      r == Failure(BundleExists(bundle)) && after == (if patches.Missing? then Present([]) else patches)
    ensures NamesSelf(bundle) && patches.Present? ==> r == Failure(BundleExists(bundle)) && after == patches
    ensures (NamesSelf(bundle) && patches.Missing?) || '/' in bundle ==>
      r == Failure(UnsupportedName(bundle)) && after == patches
    ensures SimpleName(bundle) && Lookup(patches, bundle).Some? ==>
      r == Failure(BundleExists(bundle)) && after == patches
    ensures SimpleName(bundle) && Lookup(patches, bundle).None? ==>
      r == Success(Entry(bundle, true, now, BundleFiles(bundle, repos))) && after == Added(patches, r.value)
  {
    if !SimpleName(bundle) {
      var (e, l) := Refusal(patches, bundle);
      return Failure(e), l;
    }
    if Lookup(patches, bundle).Some? {
      return Failure(BundleExists(bundle)), patches;
    }
    var files: map<string, FileBody> := map[];
    var i := 0;
    while i < |repos|
      invariant 0 <= i <= |repos|
      invariant files == PatchFiles(repos[..i])
    {
      assert repos[..i + 1][..i] == repos[..i];
      files := files[PatchFileName(repos[i].name) := Text(repos[i].patchText)];
      i := i + 1;
    }
    assert repos[..i] == repos;
    files := files["change_plan.json" := Document(PlanDoc(bundle, repos))];
    files := files["change_report.md" := Text(ChangeReport(bundle, repos))];
    var dir := Entry(bundle, true, now, files);
    return Success(dir), Added(patches, dir);
  }

  // ---------------------------------------------------------------------------------------
  // The command

  /** The command-line options `--bundle`, `--prune-old` and `--keep` (default 3). */
  datatype Options = Options(bundle: Option<string>, pruneOld: bool, keep: int)

  /** `args.bundle or make_bundle_name()`: an absent or empty override uses the clock. */
  function BundleNameFor(bundle: Option<string>, clock: Instant): string {
    if bundle.Some? && bundle.value != "" then bundle.value else MakeBundleName(clock)
  }

  lemma GeneratedNameIsSimple(t: Instant)
    ensures SimpleName(MakeBundleName(t))
  {
    var r := MakeBundleName(t);
    assert r[..7] == "bundle-";
    forall i | 0 <= i < |r| ensures r[i] != '/' {
      if i < 7 {
        assert r[i] == "bundle-"[i];
      }
    }
  }

  datatype Outcome = NothingToDo | Created(bundle: Entry, deleted: seq<Entry>)

  datatype MainError = GitFailed(git: GitError) | PruneFailed(prune: PruneError) | WriteFailed(write: WriteError)

  /** What `main` does to `patches/`, given the checkouts under `deps/`, the options, the
      clock, the new directory's modification time and the git replies. */
  function Effect(deps: Listing, patches: Listing, opts: Options, clock: Instant, mtime: int, git: Git)
    : (Result<Outcome, MainError>, Listing)
  {
    var dirty := DirtyRepos(deps, git);
    if dirty.Failure? then (Failure(GitFailed(dirty.error)), patches)
    else if dirty.value == [] then (Success(NothingToDo), patches)
    else if opts.pruneOld && opts.keep < 0 then (Failure(PruneFailed(NegativeKeep)), patches)
    else
      var deleted := if opts.pruneOld then Stale(patches, opts.keep) else [];
      var pruned := Without(patches, NamesOf(deleted));
      var name := BundleNameFor(opts.bundle, clock);
      if !SimpleName(name) then
        var (e, l) := Refusal(pruned, name);
        (Failure(WriteFailed(e)), l)
      else if Lookup(pruned, name).Some? then (Failure(WriteFailed(BundleExists(name))), pruned)
      else
        var e := Entry(name, true, mtime, BundleFiles(name, dirty.value));
        (Success(Created(e, deleted)), Added(pruned, e))
  }

  /** `main()`: list the dirty checkouts; with none, stop; otherwise prune if asked, then
      write the new bundle. */
  method Run(deps: Listing, patches: Listing, opts: Options, clock: Instant, mtime: int, git: Git)
    returns (r: Result<Outcome, MainError>, after: Listing)
    ensures (r, after) == Effect(deps, patches, opts, clock, mtime, git)
  {
    var dirty := ListDirtyRepos(deps, git);
    if dirty.Failure? {
      return Failure(GitFailed(dirty.error)), patches;
    }
    if dirty.value == [] {
      return Success(NothingToDo), patches;
    }
    var deleted: seq<Entry> := [];
    after := patches;
    if opts.pruneOld {
      var pruned;
      pruned, after := PruneOldBundles(patches, opts.keep);
      if pruned.Failure? {
        return Failure(PruneFailed(pruned.error)), after;
      }
      deleted := pruned.value;
    } else {
      WithoutNothing(patches);
      assert NamesOf([]) == {};
    }
    var name := BundleNameFor(opts.bundle, clock);
    var written;
    written, after := WriteBundle(dirty.value, after, name, mtime);
    if written.Failure? {
      return Failure(WriteFailed(written.error)), after;
    }
    return Success(Created(written.value, deleted)), after;
  }

  /** With no dirty checkout nothing is pruned or written, whatever the options, even a
      negative `--keep`. */
  lemma NothingDirtyChangesNothing(deps: Listing, patches: Listing, opts: Options, clock: Instant, mtime: int, git: Git)
    requires DirtyRepos(deps, git) == Success([])
    ensures Effect(deps, patches, opts, clock, mtime, git) == (Success(NothingToDo), patches)
  {
  }

  /** A negative `--keep` with `--prune-old` fails before anything is deleted or written. */
  lemma NegativeKeepWritesNothing(deps: Listing, patches: Listing, opts: Options, clock: Instant, mtime: int, git: Git)
    requires DirtyRepos(deps, git).Success? && DirtyRepos(deps, git).value != []
    requires opts.pruneOld && opts.keep < 0
    ensures Effect(deps, patches, opts, clock, mtime, git) == (Failure(PruneFailed(NegativeKeep)), patches)
  {
  }

  /** What a successful run did: it deleted the stale bundles if asked, then added the new
      bundle directory under a name that was free. */
  lemma EffectCreated(deps: Listing, patches: Listing, opts: Options, clock: Instant, mtime: int, git: Git)
    requires Effect(deps, patches, opts, clock, mtime, git).0.Success?
    requires Effect(deps, patches, opts, clock, mtime, git).0.value.Created?
    ensures var (r, after) := Effect(deps, patches, opts, clock, mtime, git);
      var name := BundleNameFor(opts.bundle, clock);
      var pruned := Without(patches, NamesOf(r.value.deleted));
      && DirtyRepos(deps, git).Success?
      && r.value.deleted == (if opts.pruneOld then Stale(patches, opts.keep) else [])
      && (opts.pruneOld ==> opts.keep >= 0)
      && SimpleName(name)
      && Lookup(pruned, name).None?
      && r.value.bundle == Entry(name, true, mtime, BundleFiles(name, DirtyRepos(deps, git).value))
      && after == Added(pruned, r.value.bundle)
  {
  }

  /** A successful run adds one directory, named as asked, holding a patch with the diff of
      every dirty checkout, the plan and the report; every other entry of `patches/` that is
      not a deleted stale bundle stays. */
  lemma CreatedBundleHoldsPatches(deps: Listing, patches: Listing, opts: Options, clock: Instant, mtime: int, git: Git)
    requires WellFormed(deps) && WellFormed(patches)
    requires Effect(deps, patches, opts, clock, mtime, git).0.Success?
    requires Effect(deps, patches, opts, clock, mtime, git).0.value.Created?
    ensures var (r, after) := Effect(deps, patches, opts, clock, mtime, git);
      var repos := DirtyRepos(deps, git).value;
      && WellFormed(after)
      && r.value.bundle in after.entries
      && r.value.bundle.name == BundleNameFor(opts.bundle, clock) && r.value.bundle.isDir
      && (forall k :: 0 <= k < |repos| ==> (PatchFileName(repos[k].name) in r.value.bundle.files
            && r.value.bundle.files[PatchFileName(repos[k].name)] == Text(repos[k].patchText)))
      && "change_plan.json" in r.value.bundle.files
      && r.value.bundle.files["change_plan.json"] == Document(PlanDoc(r.value.bundle.name, repos))
      && (forall e :: patches.Present? && e in patches.entries && e.name !in NamesOf(r.value.deleted) ==>
            e in after.entries)
  {
    EffectCreated(deps, patches, opts, clock, mtime, git);
    var (r, after) := Effect(deps, patches, opts, clock, mtime, git);
    var repos := DirtyRepos(deps, git).value;
    var name := BundleNameFor(opts.bundle, clock);
    assert DistinctRepos(repos) by {
      DirtyReposSelects(deps, git);
      forall i, j | 0 <= i < j < |repos| ensures repos[i].name != repos[j].name {
        LexLtIrreflexive(repos[i].name);
      }
    }
    BundleFilesContents(name, repos);
    AddedFresh(Without(patches, NamesOf(r.value.deleted)), r.value.bundle);
  }

  /** With `--prune-old --keep k`, a `bundle-*` name and a clock later than every existing
      bundle, a successful run leaves the new bundle first in the scan, followed by the `k`
      newest bundles there were before, in their order. */
  lemma PruneThenWrite(deps: Listing, patches: Listing, opts: Options, clock: Instant, mtime: int, git: Git)
    requires WellFormed(patches)
    requires opts.pruneOld
    requires StartsWith(BundleNameFor(opts.bundle, clock), "bundle-")
    requires forall e :: e in SortedBundleDirs(patches) ==> e.mtime < mtime
    requires Effect(deps, patches, opts, clock, mtime, git).0.Success?
    requires Effect(deps, patches, opts, clock, mtime, git).0.value.Created?
    ensures opts.keep >= 0
    ensures var (r, after) := Effect(deps, patches, opts, clock, mtime, git);
      SortedBundleDirs(after) == [r.value.bundle] + Kept(patches, opts.keep)
  {
    EffectCreated(deps, patches, opts, clock, mtime, git);
    var r := Effect(deps, patches, opts, clock, mtime, git).0;
    NewestAfterPrune(patches, opts.keep, r.value.bundle);
  }
}
