/** The CI check on `patches/`: at most `max` bundle directories may remain; otherwise the
    stale ones are reported, newest first. */
module RetentionCheck {
  import opened Host
  import opened Sorting
  import opened Retention

  /** How the check ends: the option was rejected, the check passed, or the policy is
      violated and `stale` lists the bundles to remove. */
  datatype Verdict =
    | UsageError
    | Passed(count: nat, max: nat)
    | Violated(count: nat, max: nat, stale: seq<Entry>)

  /** The process exit status for each verdict (argparse's `error` exits with 2). */
  function ExitCode(v: Verdict): int {
    match v
    case UsageError => 2
    case Passed(_, _) => 0
    case Violated(_, _, _) => 1
  }

  /** The decision in the check's `main`, on the listing of `patches/`. */
  function CheckRetention(dir: Listing, maxBundles: int): (v: Verdict)
    ensures v.UsageError? <==> maxBundles < 0
    ensures v.Passed? <==> 0 <= maxBundles && |SortedBundleDirs(dir)| <= maxBundles
    ensures v.Violated? ==> v.count == |SortedBundleDirs(dir)| && |v.stale| == v.count - maxBundles > 0
    ensures v.Violated? ==> v.stale == SortedBundleDirs(dir)[maxBundles..]
  {
    if maxBundles < 0 then UsageError
    else
      var bundles := SortedBundleDirs(dir);
      if |bundles| <= maxBundles then Passed(|bundles|, maxBundles)
      else Violated(|bundles|, maxBundles, bundles[maxBundles..])
  }

  /** The exit status is 0 exactly when the option is valid and the count is within it, and
      2 exactly when the option is negative. */
  lemma ExitCodes(dir: Listing, maxBundles: int)
    ensures ExitCode(CheckRetention(dir, maxBundles)) == 0 <==> 0 <= maxBundles && |SortedBundleDirs(dir)| <= maxBundles
    ensures ExitCode(CheckRetention(dir, maxBundles)) == 2 <==> maxBundles < 0
    ensures ExitCode(CheckRetention(dir, maxBundles)) == 1 <==> 0 <= maxBundles < |SortedBundleDirs(dir)|
  {
  }

  /** A missing `patches/` directory holds no bundles, so any valid maximum passes. */
  lemma MissingDirectoryPasses(maxBundles: nat)
    ensures CheckRetention(Missing, maxBundles) == Passed(0, maxBundles)
  {
  }

  /** The check and `prune_old_bundles` agree: with the same bound, the check passes exactly
      when pruning would delete nothing, and otherwise it reports what pruning would delete. */
  lemma CheckAgreesWithPrune(dir: Listing, k: nat)
    ensures CheckRetention(dir, k).Passed? <==> Stale(dir, k) == []
    ensures CheckRetention(dir, k).Violated? ==> CheckRetention(dir, k).stale == Stale(dir, k)
  {
  }

  /** The reported stale bundles are listed newest first. */
  lemma StaleNewestFirst(dir: Listing, maxBundles: int)
    requires WellFormed(dir)
    requires CheckRetention(dir, maxBundles).Violated?
    ensures Sorted(Newer, CheckRetention(dir, maxBundles).stale)
  {
    var sorted := SortedBundleDirs(dir);
    var stale := CheckRetention(dir, maxBundles).stale;
    BundleOrder(dir);
    forall i, j | 0 <= i < j < |stale| ensures Newer(stale[i], stale[j]) {
      assert stale[i] == sorted[maxBundles + i] && stale[j] == sorted[maxBundles + j];
    }
  }

  /** After pruning with `keep = k`, the check with `max = k` passes. */
  lemma PassesAfterPrune(dir: Listing, k: nat)
    requires WellFormed(dir)
    ensures CheckRetention(Without(dir, NamesOf(Stale(dir, k))), k).Passed?
  {
    PruneKeepsNewest(dir, k);
  }
}
