/** Which `bundle-*` directories under `patches/` are kept: newest first by modification
    time, then by name, and everything beyond the first `keep` is deleted. */
module Retention {
  import opened Wrappers
  import opened Text
  import opened Sorting
  import opened Host

  /** What `glob("bundle-*")` followed by `is_dir()` keeps. */
  predicate IsBundleDir(e: Entry) {
    e.isDir && StartsWith(e.name, "bundle-")
  }

  /** `a` comes before `b` when sorting by the key (mtime, name) with `reverse=True`. */
  predicate Newer(a: Entry, b: Entry) {
    a.mtime > b.mtime || (a.mtime == b.mtime && LexLt(b.name, a.name))
  }

  lemma NewerIsStrictOrder()
    ensures IsStrictOrder(Newer)
  {
    forall a: Entry ensures !Newer(a, a) {
      LexLtIrreflexive(a.name);
    }
    forall a: Entry, b: Entry, c: Entry | Newer(a, b) && Newer(b, c) ensures Newer(a, c) {
      if a.mtime == b.mtime && b.mtime == c.mtime {
        LexLtTransitive(c.name, b.name, a.name);
      }
    }
  }

  /** `sorted_bundle_dirs`: the bundle directories, newest first. */
  function SortedBundleDirs(dir: Listing): (r: seq<Entry>)
    ensures forall e :: e in r <==> dir.Present? && e in dir.entries && IsBundleDir(e)
    ensures dir.Missing? ==> r == []
  {
    match dir
    case Missing => []
    case Present(entries) => SortBy(Newer, Filter(entries, IsBundleDir))
  }

  /** The scan is ordered newest first, ties broken by the larger name; since names in a
      directory are distinct, no two bundles tie and the order is total. */
  lemma BundleOrder(dir: Listing)
    requires WellFormed(dir)
    ensures Sorted(Newer, SortedBundleDirs(dir))
    ensures DistinctNames(SortedBundleDirs(dir))
  {
    NewerIsStrictOrder();
    if dir.Present? {
      var f := Filter(dir.entries, IsBundleDir);
      FilterDistinct(dir.entries, IsBundleDir);
      forall i, j | 0 <= i < |f| && 0 <= j < |f| && i != j ensures Newer(f[i], f[j]) || Newer(f[j], f[i]) {
        if i < j {
          LexLtTotal(f[i].name, f[j].name);
        } else {
          LexLtTotal(f[j].name, f[i].name);
        }
      }
      SortBySorted(Newer, f);
      var r := SortedBundleDirs(dir);
      forall i, j | 0 <= i < j < |r| ensures r[i].name != r[j].name {
        assert Newer(r[i], r[j]);
        assert r[i] != r[j];
        SameName(dir.entries, r[i], r[j]);
      }
    }
  }

  /** The scan lists exactly the bundle directories whose names are not in `names` once those
      are deleted. */
  lemma ScanWithout(dir: Listing, names: set<string>)
    ensures forall e :: e in SortedBundleDirs(Without(dir, names)) <==> e in SortedBundleDirs(dir) && e.name !in names
  {
  }

  /** `bundle_dirs[keep:]`: what `prune_old_bundles` deletes. */
  function Stale(dir: Listing, keep: nat): seq<Entry> {
    var sorted := SortedBundleDirs(dir);
    if keep < |sorted| then sorted[keep..] else []
  }

  /** The bundles that survive pruning: the first `keep` of the scan. */
  function Kept(dir: Listing, keep: nat): seq<Entry> {
    var sorted := SortedBundleDirs(dir);
    if keep < |sorted| then sorted[..keep] else sorted
  }

  datatype PruneError = NegativeKeep

  /** `shutil.rmtree` on one entry of the directory. */
  function RemoveTree(dir: Listing, name: string): Listing {
    Without(dir, {name})
  }

  /** `prune_old_bundles(patches_dir, keep)`: returns the deleted bundles and the directory
      after deleting them one by one. */
  method PruneOldBundles(dir: Listing, keep: int) returns (r: Result<seq<Entry>, PruneError>, after: Listing)
    ensures keep < 0 ==> r == Failure(NegativeKeep) && after == dir
    ensures keep >= 0 ==> r == Success(Stale(dir, keep))
    ensures keep >= 0 ==> |r.value| == if |SortedBundleDirs(dir)| > keep then |SortedBundleDirs(dir)| - keep else 0
    ensures keep >= 0 ==> after == Without(dir, NamesOf(r.value))
  {
    if keep < 0 {
      return Failure(NegativeKeep), dir;
    }
    var stale := Stale(dir, keep);
    after := RemoveTrees(dir, stale);
    r := Success(stale);
  }

  /** `for old in stale: shutil.rmtree(old)`: the entries are deleted one by one. */
  method RemoveTrees(dir: Listing, stale: seq<Entry>) returns (after: Listing)
    ensures after == Without(dir, NamesOf(stale))
  {
    after := dir;
    WithoutNothing(dir);
    assert NamesOf(stale[..0]) == {};
    var i := 0;
    while i < |stale|
      invariant 0 <= i <= |stale|
      invariant after == Without(dir, NamesOf(stale[..i]))
    {
      WithoutTwice(dir, NamesOf(stale[..i]), {stale[i].name});
      TakeSnoc(stale, i);
      NamesOfSnoc(stale[..i], stale[i]);
      after := RemoveTree(after, stale[i].name);
      i := i + 1;
    }
    assert stale[..i] == stale;
  }

  /** The scan splits into the kept bundles followed by the stale ones. */
  lemma KeptThenStale(dir: Listing, keep: nat)
    requires WellFormed(dir)
    ensures SortedBundleDirs(dir) == Kept(dir, keep) + Stale(dir, keep)
    ensures Sorted(Newer, Kept(dir, keep))
    ensures forall e :: e in Kept(dir, keep) <==> e in SortedBundleDirs(dir) && e.name !in NamesOf(Stale(dir, keep))
  {
    var sorted := SortedBundleDirs(dir);
    var kept, stale := Kept(dir, keep), Stale(dir, keep);
    BundleOrder(dir);
    var k := if keep < |sorted| then keep else |sorted|;
    assert kept == sorted[..k] && stale == sorted[k..];
    assert sorted == kept + stale;
    forall e ensures e in kept <==> e in sorted && e.name !in NamesOf(stale) {
      if e in kept {
        var i :| 0 <= i < k && sorted[i] == e;
        forall d | d in stale ensures d.name != e.name {
          var j :| k <= j < |sorted| && sorted[j] == d;
          assert sorted[i].name != sorted[j].name;
        }
      }
      if e in sorted && e !in kept {
        var i :| 0 <= i < |sorted| && sorted[i] == e;
        assert sorted[i] in stale;
      }
    }
  }

  /** After pruning with `keep`, the scan finds exactly the bundles that came first before,
      in the same order. */
  lemma PruneKeepsNewest(dir: Listing, keep: nat)
    requires WellFormed(dir)
    ensures SortedBundleDirs(Without(dir, NamesOf(Stale(dir, keep)))) == Kept(dir, keep)
  {
    var after := Without(dir, NamesOf(Stale(dir, keep)));
    KeptThenStale(dir, keep);
    BundleOrder(after);
    ScanWithout(dir, NamesOf(Stale(dir, keep)));
    NewerIsStrictOrder();
    SortedUnique(Newer, SortedBundleDirs(after), Kept(dir, keep));
  }

  /** Pruning twice with the same `keep` deletes nothing the second time. */
  lemma PruneIdempotent(dir: Listing, keep: nat)
    requires WellFormed(dir)
    ensures Stale(Without(dir, NamesOf(Stale(dir, keep))), keep) == []
  {
    PruneKeepsNewest(dir, keep);
  }

  /** Pruning deletes bundle directories only: every other entry stays. */
  lemma PruneSparesOthers(dir: Listing, keep: nat, e: Entry)
    requires WellFormed(dir) && dir.Present?
    requires e in dir.entries && !IsBundleDir(e)
    ensures e in Without(dir, NamesOf(Stale(dir, keep))).entries
  {
    var stale := Stale(dir, keep);
    forall d | d in stale ensures d.name != e.name {
      assert d in SortedBundleDirs(dir);
      assert IsBundleDir(d) && d != e;
      SameName(dir.entries, d, e);
    }
  }

  /** Five bundle directories, listed oldest first, with distinct names and strictly
      increasing modification times (`bundle-20240101-00000<i>` at 10000 + i, say). */
  predicate FiveAging(b: seq<Entry>) {
    && |b| == 5
    && (forall i :: 0 <= i < 5 ==> IsBundleDir(b[i]))
    && (forall i, j :: 0 <= i < j < 5 ==> b[i].mtime < b[j].mtime && b[i].name != b[j].name)
  }

  /** Five such bundles, newest first, are in scan order. */
  lemma FiveReversedSorted(b: seq<Entry>)
    requires FiveAging(b)
    ensures Sorted(Newer, [b[4], b[3], b[2], b[1], b[0]])
  {
    var expected := [b[4], b[3], b[2], b[1], b[0]];
    forall i, j | 0 <= i < j < 5 ensures Newer(expected[i], expected[j]) {
      assert expected[i] == b[4 - i] && expected[j] == b[4 - j];
    }
  }

  /** The scan of five such bundles lists them newest first. */
  lemma FiveBundlesSorted(b: seq<Entry>)
    requires FiveAging(b)
    ensures SortedBundleDirs(Present(b)) == [b[4], b[3], b[2], b[1], b[0]]
  {
    var expected := [b[4], b[3], b[2], b[1], b[0]];
    BundleOrder(Present(b));
    NewerIsStrictOrder();
    FiveReversedSorted(b);
    forall e ensures e in SortedBundleDirs(Present(b)) <==> e in expected {
      assert e in b <==> e == b[0] || e == b[1] || e == b[2] || e == b[3] || e == b[4];
    }
    SortedUnique(Newer, SortedBundleDirs(Present(b)), expected);
  }

  /** With five bundles in the scan, keeping three deletes the last two. */
  lemma KeepThreeOfFive(dir: Listing, s: seq<Entry>)
    requires |s| == 5 && SortedBundleDirs(dir) == s
    ensures Stale(dir, 3) == [s[3], s[4]]
    ensures Kept(dir, 3) == [s[0], s[1], s[2]]
  {
    assert s[3..] == [s[3], s[4]];
    assert s[..3] == [s[0], s[1], s[2]];
  }

  /** Keeping three of five bundles deletes the two oldest, newest first, and keeps the
      three newest. */
  lemma PruneFiveKeepThree(b: seq<Entry>)
    requires FiveAging(b)
    ensures Stale(Present(b), 3) == [b[1], b[0]]
    ensures Kept(Present(b), 3) == [b[4], b[3], b[2]]
  {
    FiveBundlesSorted(b);
    KeepThreeOfFive(Present(b), [b[4], b[3], b[2], b[1], b[0]]);
  }

  /** Pruning to `keep` and then creating a bundle directory newer than all the others under
      a free name: the scan lists the new bundle, then the kept ones in their order. */
  lemma NewestAfterPrune(dir: Listing, keep: nat, e: Entry)
    requires WellFormed(dir) && IsBundleDir(e)
    requires Lookup(Without(dir, NamesOf(Stale(dir, keep))), e.name).None?
    requires forall d :: d in SortedBundleDirs(dir) ==> d.mtime < e.mtime
    ensures SortedBundleDirs(Added(Without(dir, NamesOf(Stale(dir, keep))), e)) == [e] + Kept(dir, keep)
  {
    var pruned := Without(dir, NamesOf(Stale(dir, keep)));
    var after := Added(pruned, e);
    var kept := Kept(dir, keep);
    PruneKeepsNewest(dir, keep);
    KeptThenStale(dir, keep);
    AddedFresh(pruned, e);
    BundleOrder(after);
    NewerIsStrictOrder();
    var expected := [e] + kept;
    assert Sorted(Newer, expected) by {
      forall d | d in kept ensures Newer(e, d) {
        assert d in SortedBundleDirs(dir);
      }
      SortedCons(Newer, e, kept);
    }
    forall x ensures x in SortedBundleDirs(after) <==> x in expected {
      assert x in SortedBundleDirs(pruned) <==> x in kept;
    }
    SortedUnique(Newer, SortedBundleDirs(after), expected);
  }
}
