/** The outside world the tools act on, as values: directory listings whose entries carry a
    modification time, and the replies of external commands. */
module Host {
  import opened Wrappers
  import Json
  import Sorting

  /** What a name inside a directory holds: a text file, a JSON document (its encoding as text
      is not part of this model), or a subdirectory whose contents are not modelled. */
  datatype FileBody = Text(text: string) | Document(doc: Json.Value) | Subdir

  /** One directory entry: `isDir` says whether it is (or links to) a directory, `mtime` is
      its modification time, `files` the files directly inside it by name. */
  datatype Entry = Entry(name: string, isDir: bool, mtime: int, files: map<string, FileBody>)

  /** A directory that may not exist, listed in the order the operating system returns. */
  datatype Listing = Missing | Present(entries: seq<Entry>)

  /** The exit status and captured standard output of an external command. */
  datatype Reply = Reply(code: int, stdout: string)

  /** No two entries of a directory share a name. */
  predicate DistinctNames(s: seq<Entry>) {
    forall i, j :: 0 <= i < j < |s| ==> s[i].name != s[j].name
  }

  predicate WellFormed(dir: Listing) {
    dir.Present? ==> DistinctNames(dir.entries)
  }

  function NamesOf(s: seq<Entry>): set<string> {
    set e | e in s :: e.name
  }

  lemma NamesOfSnoc(s: seq<Entry>, e: Entry)
    ensures NamesOf(s + [e]) == NamesOf(s) + {e.name}
  {
    assert forall d :: d in s + [e] <==> d in s || d == e;
  }

  /** In a directory with distinct names, a name identifies its entry. */
  lemma SameName(s: seq<Entry>, a: Entry, b: Entry)
    requires DistinctNames(s) && a in s && b in s
    ensures a.name == b.name ==> a == b
  {
    var i :| 0 <= i < |s| && s[i] == a;
    var j :| 0 <= j < |s| && s[j] == b;
    assert i < j ==> a.name != b.name;
    assert j < i ==> a.name != b.name;
  }

  /** The entries whose names are not in `names`, in their original order. */
  function RemoveNamed(s: seq<Entry>, names: set<string>): (r: seq<Entry>)
    ensures forall e :: e in r <==> e in s && e.name !in names
    ensures DistinctNames(s) ==> DistinctNames(r)
  {
    if s == [] then []
    else
      var rest := RemoveNamed(s[1..], names);
      assert forall e :: e in s <==> e == s[0] || e in s[1..] by {
        assert s == [s[0]] + s[1..];
      }
      var r := if s[0].name in names then rest else [s[0]] + rest;
      assert DistinctNames(s) ==> DistinctNames(r) by {
        if DistinctNames(s) && s[0].name !in names {
          forall j | 0 <= j < |rest| ensures s[0].name != rest[j].name {
            assert rest[j] in s[1..];
            var k :| 0 <= k < |s[1..]| && s[1..][k] == rest[j];
            assert s[k + 1] == rest[j];
          }
        }
      }
      r
  }

  /** The directory after every entry named in `names` has been deleted. */
  function Without(dir: Listing, names: set<string>): (r: Listing)
    ensures r.Present? <==> dir.Present?
    ensures WellFormed(dir) ==> WellFormed(r)
  {
    match dir
    case Missing => Missing
    case Present(entries) => Present(RemoveNamed(entries, names))
  }

  lemma {:induction false} RemoveNothing(s: seq<Entry>)
    ensures RemoveNamed(s, {}) == s
  {
    if s != [] {
      RemoveNothing(s[1..]);
    }
  }

  /** Deleting no names leaves the directory as it was. */
  lemma WithoutNothing(dir: Listing)
    ensures Without(dir, {}) == dir
  {
    if dir.Present? {
      RemoveNothing(dir.entries);
    }
  }

  lemma {:induction false} RemoveNamedTwice(s: seq<Entry>, a: set<string>, b: set<string>)
    ensures RemoveNamed(RemoveNamed(s, a), b) == RemoveNamed(s, a + b)
  {
    if s != [] {
      RemoveNamedTwice(s[1..], a, b);
    }
  }

  /** Deleting the entries named in `a`, then those named in `b`, deletes those named in
      either. */
  lemma WithoutTwice(dir: Listing, a: set<string>, b: set<string>)
    ensures Without(Without(dir, a), b) == Without(dir, a + b)
  {
    if dir.Present? {
      RemoveNamedTwice(dir.entries, a, b);
    }
  }

  /** The entries of `s` that satisfy `p` have distinct names when those of `s` do. */
  lemma {:induction false} FilterDistinct(s: seq<Entry>, p: Entry -> bool)
    requires DistinctNames(s)
    ensures DistinctNames(Sorting.Filter(s, p))
  {
    if s != [] {
      FilterDistinct(s[1..], p);
      var rest := Sorting.Filter(s[1..], p);
      forall j | 0 <= j < |rest| ensures s[0].name != rest[j].name {
        assert rest[j] in s[1..];
        var k :| 0 <= k < |s[1..]| && s[1..][k] == rest[j];
        assert s[k + 1] == rest[j];
      }
    }
  }

  /** The entry named `name`, if the directory has one. */
  function Lookup(dir: Listing, name: string): (r: Option<Entry>)
    ensures r.Some? ==> dir.Present? && r.value in dir.entries && r.value.name == name
    ensures r.None? ==> dir.Missing? || name !in NamesOf(dir.entries)
  {
    match dir
    case Missing => None
    case Present(entries) => Find(entries, name)
  }

  function Find(s: seq<Entry>, name: string): (r: Option<Entry>)
    ensures r.Some? ==> r.value in s && r.value.name == name
    ensures r.None? ==> name !in NamesOf(s)
  {
    if s == [] then None
    else if s[0].name == name then Some(s[0])
    else
      var r := Find(s[1..], name);
      assert NamesOf(s) == {s[0].name} + NamesOf(s[1..]) by {
        assert s == [s[0]] + s[1..];
      }
      r
  }

  /** The directory once `e` is created in it; `parents=True` creates a missing directory. */
  function Added(dir: Listing, e: Entry): (r: Listing)
    ensures r.Present?
    ensures forall d :: d in r.entries <==> d == e || (dir.Present? && d in dir.entries)
  {
    match dir
    case Missing => Present([e])
    case Present(entries) => Present(entries + [e])
  }

  /** Adding an entry under a fresh name keeps names distinct. */
  lemma AddedFresh(dir: Listing, e: Entry)
    requires WellFormed(dir) && Lookup(dir, e.name).None?
    ensures WellFormed(Added(dir, e))
  {
    if dir.Present? {
      var s := Added(dir, e).entries;
      forall i, j | 0 <= i < j < |s| ensures s[i].name != s[j].name {
        if j == |s| - 1 {
          assert s[i] in dir.entries;
        }
      }
    }
  }
}
