/** `load_plan`: the decoded `change_plan.json` turned into a `Plan`, with the exceptions the
    Python built-ins raise on the way as `LoadError`s. */
module ChangePlan {
  import opened Wrappers
  import opened Json
  import Paths

  /** One repository's change: `patchPath` is the normalised `Path(item["patch_path"])`. */
  datatype Change = Change(repo: string, branch: string, commitMessage: string, patchPath: string,
                           baseSha: Option<string>)

  datatype Plan = Plan(schemaVersion: int, bundle: string, changes: seq<Change>)

  /** Why `load_plan` raises. */
  datatype LoadError =
    | NotSubscriptable(key: string)  // `v[key]` on a value that is not an object: TypeError
    | KeyMissing(key: string)        // `obj[key]` without that key: KeyError
    | NotAnInt                       // `int(v)` raised ValueError or TypeError
    | NotAPath                       // `Path(v)` of a value that is not a string: TypeError
    | NoChanges                      // "change plan must include at least one change"

  /** `v[key]` with a string key. */
  function Subscript(v: Value, key: string): (r: Result<Value, LoadError>)
    ensures r.Failure? ==> r.error == NotSubscriptable(key) || r.error == KeyMissing(key)
    ensures r.Success? <==> v.Object? && Get(v.members, key).Some?
    ensures r.Success? ==> Member(key, r.value) in v.members
  {
    match v
    case Object(members) =>
      (match Get(members, key)
       case Some(x) => Success(x)
       case None => Failure(KeyMissing(key)))
    case _ => Failure(NotSubscriptable(key))
  }

  /** `Path(v)` for a decoded value, as the string it prints as. */
  function ToPath(v: Value): (r: Result<string, LoadError>)
    ensures r.Success? <==> v.Str?
    ensures r.Success? ==> r.value == Paths.Normalize(v.s)
  {
    if v.Str? then Success(Paths.Normalize(v.s)) else Failure(NotAPath)
  }

  /** The optional base SHA: `str(item["base_sha"]) if item.get("base_sha") else None`. */
  function BaseSha(members: seq<Member>): (r: Option<string>)
    ensures r.None? <==> Get(members, "base_sha").None? || !Truthy(Get(members, "base_sha").value)
  {
    match Get(members, "base_sha")
    case Some(v) => if Truthy(v) then Some(PyStr(v)) else None
    case None => None
  }

  /** The four required fields of an item, read in the order the loop body reads them:
      `patch_path` first, then the `Change` arguments `repo`, `branch`, `commit_message`. */
  datatype Fields = Fields(patchPath: string, repo: string, branch: string, commitMessage: string)

  function RequiredFields(item: Value): (r: Result<Fields, LoadError>)
    ensures r.Success? ==> item.Object?
  {
    var raw :- Subscript(item, "patch_path");
    var path :- ToPath(raw);
    var repo :- Subscript(item, "repo");
    var branch :- Subscript(item, "branch");
    var message :- Subscript(item, "commit_message");
    Success(Fields(path, PyStr(repo), PyStr(branch), PyStr(message)))
  }

  /** One element of `changes`: its required fields and the optional base SHA. */
  function DecodeChange(item: Value): (r: Result<Change, LoadError>) {
    var f :- RequiredFields(item);
    Success(Change(f.repo, f.branch, f.commitMessage, f.patchPath, BaseSha(item.members)))
  }

  /** The loop over `changes_raw`: the first element that raises ends it. */
  function DecodeChanges(items: seq<Value>): Result<seq<Change>, LoadError> {
    MapResult(DecodeChange, items)
  }

  /** `load_plan` on the decoded document. */
  function DecodePlan(raw: Value): Result<Plan, LoadError> {
    var version :- Subscript(raw, "schema_version");
    var schema :- (match PyInt(version) case Some(n) => Success(n) case None => Failure(NotAnInt));
    var bundle :- Subscript(raw, "bundle");
    var changesRaw := match Get(raw.members, "changes") case Some(v) => v case None => Array([]);
    if !changesRaw.Array? || changesRaw.items == [] then Failure(NoChanges)
    else
      var changes :- DecodeChanges(changesRaw.items);
      Success(Plan(schema, PyStr(bundle), changes))
  }

  /** `load_plan` itself: the changes are appended one item at a time. */
  method LoadPlan(raw: Value) returns (r: Result<Plan, LoadError>)
    ensures r == DecodePlan(raw)
  {
    var version :- Subscript(raw, "schema_version");
    var schema: int;
    match PyInt(version) {
      case Some(n) => schema := n;
      case None => return Failure(NotAnInt);
    }
    var bundle :- Subscript(raw, "bundle");
    var changesRaw := Array([]);
    var got := Get(raw.members, "changes");
    if got.Some? {
      changesRaw := got.value;
    }
    if !changesRaw.Array? || changesRaw.items == [] {
      return Failure(NoChanges);
    }
    var items := changesRaw.items;
    var changes: seq<Change> := [];
    var i := 0;
    while i < |items|
      invariant 0 <= i <= |items|
      invariant DecodeChanges(items[..i]) == Success(changes)
    {
      assert items[..i + 1][..i] == items[..i];
      var c := DecodeChange(items[i]);
      if c.Failure? {
        MapResultPrefixFails(DecodeChange, items, i + 1);
        return Failure(c.error);
      }
      changes := changes + [c.value];
      i := i + 1;
    }
    assert items[..i] == items;
    r := Success(Plan(schema, PyStr(bundle), changes));
  }

  /** A successful loop yields one change per item, each the decoding of its own item, in
      the items' order. */
  lemma DecodeChangesEach(items: seq<Value>)
    requires DecodeChanges(items).Success?
    ensures |DecodeChanges(items).value| == |items|
    ensures forall k :: 0 <= k < |items| ==> DecodeChange(items[k]) == Success(DecodeChanges(items).value[k])
  {
    MapResultEach(DecodeChange, items);
  }

  /** The loop succeeds exactly when every item decodes; otherwise it reports the error of
      the first item that does not. */
  lemma DecodeChangesFirstError(items: seq<Value>)
    ensures DecodeChanges(items).Success? <==> forall k :: 0 <= k < |items| ==> DecodeChange(items[k]).Success?
    ensures DecodeChanges(items).Failure? ==> exists j :: (0 <= j < |items|
      && (forall k :: 0 <= k < j ==> DecodeChange(items[k]).Success?)
      && DecodeChange(items[j]) == Failure(DecodeChanges(items).error))
  {
    MapResultFirstError(DecodeChange, items);
  }

  /** `changes` missing, not a list, or empty: the plan is rejected, once the schema version
      and bundle have been read. */
  lemma NoChangesRejected(members: seq<Member>)
    requires Get(members, "schema_version").Some? && PyInt(Get(members, "schema_version").value).Some?
    requires Get(members, "bundle").Some?
    requires Get(members, "changes").None? || !Get(members, "changes").value.Array?
      || Get(members, "changes").value.items == []
    ensures DecodePlan(Object(members)) == Failure(NoChanges)
  {
  }

  /** A document without `schema_version`, or with it but without `bundle`, raises KeyError;
      one that is not an object cannot be indexed at all. */
  lemma MissingTopLevelKeys(raw: Value)
    ensures !raw.Object? ==> DecodePlan(raw) == Failure(NotSubscriptable("schema_version"))
    ensures raw.Object? && Get(raw.members, "schema_version").None? ==>
      DecodePlan(raw) == Failure(KeyMissing("schema_version"))
    ensures (raw.Object? && Get(raw.members, "schema_version").Some?
             && PyInt(Get(raw.members, "schema_version").value).None?) ==>
      DecodePlan(raw) == Failure(NotAnInt)
    ensures (raw.Object? && Get(raw.members, "schema_version").Some?
             && PyInt(Get(raw.members, "schema_version").value).Some?
             && Get(raw.members, "bundle").None?) ==>
      DecodePlan(raw) == Failure(KeyMissing("bundle"))
  {
  }

  /** An item decodes exactly when it is an object holding `patch_path` as a string and
      `repo`, `branch` and `commit_message`; a missing key raises KeyError for the first one
      the loop body reads. */
  lemma ChangeRequiredKeys(item: Value)
    ensures DecodeChange(item).Success? <==> (item.Object?
      && Get(item.members, "patch_path").Some? && Get(item.members, "patch_path").value.Str?
      && Get(item.members, "repo").Some? && Get(item.members, "branch").Some?
      && Get(item.members, "commit_message").Some?)
    ensures (item.Object? && Get(item.members, "patch_path").None?) ==>
      DecodeChange(item) == Failure(KeyMissing("patch_path"))
    ensures (item.Object? && Get(item.members, "patch_path").Some?
             && Get(item.members, "patch_path").value.Str? && Get(item.members, "repo").None?) ==>
      DecodeChange(item) == Failure(KeyMissing("repo"))
  {
  }

  /** A decoded change has no base SHA exactly when the item's `base_sha` is absent or falsy
      (null, `""`, `0`, `false`, an empty list or object), and otherwise its `str()`. */
  lemma ChangeBaseSha(item: Value)
    requires DecodeChange(item).Success?
    ensures DecodeChange(item).value.baseSha.None? <==>
      (Get(item.members, "base_sha").None? || !Truthy(Get(item.members, "base_sha").value))
    ensures DecodeChange(item).value.baseSha.Some? ==>
      DecodeChange(item).value.baseSha.value == PyStr(Get(item.members, "base_sha").value)
  {
    DecodedBaseSha(item);
  }

  lemma DecodedBaseSha(item: Value)
    requires DecodeChange(item).Success?
    ensures item.Object? && DecodeChange(item).value.baseSha == BaseSha(item.members)
  {
  }
}
