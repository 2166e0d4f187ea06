/** The plan `write_bundle` saves, read back by `load_plan`: every change comes back as
    `write_bundle` derived it. */
module RoundTrip {
  import opened Wrappers
  import opened Text
  import opened Json
  import Paths
  import opened DirtyScan
  import opened MkPatch
  import opened ChangePlan

  /** The change `load_plan` should read for one dirty repository of the bundle. */
  function Expected(bundle: string, r: DirtyRepo): Change {
    Change(r.name, SuggestedBranch(bundle, r.name), SuggestedCommitMessage(bundle, r.name),
           PatchPath(bundle, r.name), if r.baseSha == "" then None else Some(r.baseSha))
  }

  /** The file name `<repo>.patch` is a single plain path component. */
  lemma PatchFileIsPart(repo: string)
    requires '/' !in repo
    ensures '/' !in repo + ".patch" && Paths.IsPart(repo + ".patch")
  {
    assert '/' !in ".patch";
    assert |repo + ".patch"| >= 6;
  }

  /** `patches/<bundle>/<repo>.patch` is already in the form `Path` prints it. */
  lemma PatchPathIsNormal(bundle: string, repo: string)
    requires SimpleName(bundle) && '/' !in repo
    ensures Paths.Normalize(PatchPath(bundle, repo)) == PatchPath(bundle, repo)
  {
    var file := repo + ".patch";
    PatchFileIsPart(repo);
    assert '/' !in "patches";
    var xs := ["patches", bundle, file];
    assert Join("/", xs[2..]) == file;
    assert Join("/", xs[1..]) == bundle + "/" + file;
    assert Join("/", xs) == PatchPath(bundle, repo);
    Paths.NormalizePlain(xs);
  }

  /** `get` on an object laid out as a plan entry. */
  lemma EntryLookups(a: Value, b: Value, c: Value, d: Value, e: Value)
    ensures var m := [Member("repo", a), Member("branch", b), Member("commit_message", c),
                      Member("patch_path", d), Member("base_sha", e)];
      && Get(m, "repo") == Some(a) && Get(m, "branch") == Some(b) && Get(m, "commit_message") == Some(c)
      && Get(m, "patch_path") == Some(d) && Get(m, "base_sha") == Some(e)
  {
    var m := [Member("repo", a), Member("branch", b), Member("commit_message", c),
              Member("patch_path", d), Member("base_sha", e)];
    GetLast(m, "repo", 0);
    GetLast(m, "branch", 1);
    GetLast(m, "commit_message", 2);
    GetLast(m, "patch_path", 3);
    GetLast(m, "base_sha", 4);
  }

  /** `get` on an object laid out as a plan document. */
  lemma PlanLookups(a: Value, b: Value, c: Value)
    ensures var m := [Member("schema_version", a), Member("bundle", b), Member("changes", c)];
      && Get(m, "schema_version") == Some(a) && Get(m, "bundle") == Some(b) && Get(m, "changes") == Some(c)
  {
    var m := [Member("schema_version", a), Member("bundle", b), Member("changes", c)];
    GetLast(m, "schema_version", 0);
    GetLast(m, "bundle", 1);
    GetLast(m, "changes", 2);
  }

  /** An object whose required keys hold strings yields those strings, the patch path
      normalised. */
  lemma FieldsOfStrings(m: seq<Member>, repo: string, branch: string, message: string, path: string)
    requires Get(m, "patch_path") == Some(Str(path)) && Get(m, "repo") == Some(Str(repo))
    requires Get(m, "branch") == Some(Str(branch)) && Get(m, "commit_message") == Some(Str(message))
    ensures RequiredFields(Object(m)) == Success(Fields(Paths.Normalize(path), repo, branch, message))
  {
  }

  /** A string base SHA is kept unless it is empty. */
  lemma BaseShaOfString(m: seq<Member>, sha: string)
    requires Get(m, "base_sha") == Some(Str(sha))
    ensures BaseSha(m) == if sha == "" then None else Some(sha)
  {
  }

  /** An object laid out as a plan entry, with string values, decodes to the change holding
      those strings; the base SHA is dropped when it is empty. */
  lemma DecodeEntryLayout(repo: string, branch: string, message: string, path: string, sha: string)
    requires Paths.Normalize(path) == path
    ensures DecodeChange(Object([Member("repo", Str(repo)), Member("branch", Str(branch)),
                                 Member("commit_message", Str(message)), Member("patch_path", Str(path)),
                                 Member("base_sha", Str(sha))]))
      == Success(Change(repo, branch, message, path, if sha == "" then None else Some(sha)))
  {
    var m := [Member("repo", Str(repo)), Member("branch", Str(branch)),
              Member("commit_message", Str(message)), Member("patch_path", Str(path)),
              Member("base_sha", Str(sha))];
    EntryLookups(Str(repo), Str(branch), Str(message), Str(path), Str(sha));
    FieldsOfStrings(m, repo, branch, message, path);
    BaseShaOfString(m, sha);
  }

  /** One plan entry reads back as the change it was built from. */
  lemma EntryRoundTrip(bundle: string, r: DirtyRepo)
    requires SimpleName(bundle) && '/' !in r.name
    ensures DecodeChange(PlanEntry(bundle, r)) == Success(Expected(bundle, r))
  {
    PatchPathIsNormal(bundle, r.name);
    DecodeEntryLayout(r.name, SuggestedBranch(bundle, r.name), SuggestedCommitMessage(bundle, r.name),
                      PatchPath(bundle, r.name), r.baseSha);
  }

  /** A document holding schema version 1, a string bundle name and a list of changes that
      all decode is read as the plan of those changes. */
  lemma DecodePlanOf(m: seq<Member>, bundle: string, items: seq<Value>, changes: seq<Change>)
    requires Get(m, "schema_version") == Some(Int(1)) && Get(m, "bundle") == Some(Str(bundle))
    requires Get(m, "changes") == Some(Array(items)) && items != []
    requires DecodeChanges(items) == Success(changes)
    ensures DecodePlan(Object(m)) == Success(Plan(1, bundle, changes))
  {
    assert Subscript(Object(m), "schema_version") == Success(Int(1));
    assert Subscript(Object(m), "bundle") == Success(Str(bundle));
    assert PyInt(Int(1)) == Some(1) && PyStr(Str(bundle)) == bundle;
    var changesRaw := match Get(m, "changes") case Some(v) => v case None => Array([]);
    assert changesRaw == Array(items);
  }

  /** The whole plan reads back: schema version 1, the bundle name, and one change per dirty
      repository, in order, with the branch, message and patch path `write_bundle` derived and
      the base SHA it recorded. */
  lemma PlanRoundTrip(bundle: string, repos: seq<DirtyRepo>)
    requires repos != [] && SimpleName(bundle)
    requires forall k :: 0 <= k < |repos| ==> '/' !in repos[k].name
    ensures DecodePlan(PlanDoc(bundle, repos)) ==
      Success(Plan(1, bundle, seq(|repos|, i requires 0 <= i < |repos| => Expected(bundle, repos[i]))))
  {
    var items := seq(|repos|, i requires 0 <= i < |repos| => PlanEntry(bundle, repos[i]));
    var m := [Member("schema_version", Int(1)), Member("bundle", Str(bundle)), Member("changes", Array(items))];
    assert PlanDoc(bundle, repos) == Object(m);
    PlanLookups(Int(1), Str(bundle), Array(items));
    var expected := seq(|repos|, i requires 0 <= i < |repos| => Expected(bundle, repos[i]));
    forall k | 0 <= k < |items| ensures DecodeChange(items[k]) == Success(expected[k]) {
      EntryRoundTrip(bundle, repos[k]);
    }
    MapResultAll(DecodeChange, items, expected);
    DecodePlanOf(m, bundle, items, expected);
  }

  /** A plan with no changes, which `write_bundle` is never asked to write, is rejected. */
  lemma EmptyPlanRejected(bundle: string)
    ensures DecodePlan(PlanDoc(bundle, [])) == Failure(NoChanges)
  {
    PlanLookups(Int(1), Str(bundle), Array([]));
    assert PlanDoc(bundle, []).members[2].value.items == [];
  }
}
