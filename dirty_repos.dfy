/** `list_dirty_repos`: which checkouts under `deps/` have uncommitted work, and what is
    recorded about each, with the `git` commands answered by an oracle. */
module DirtyScan {
  import opened Wrappers
  import opened Text
  import opened Sorting
  import opened Host

  /** The `git` commands `list_dirty_repos` runs inside a checkout. */
  datatype GitQuery = StatusPorcelain | RevParseHead | StatusShort | DiffHead

  /** A checkout with uncommitted work: its HEAD, short status and diff against HEAD. */
  datatype DirtyRepo = DirtyRepo(name: string, baseSha: string, summary: string, patchText: string)

  /** `run_git` raised because the command exited with a non-zero status. */
  datatype GitError = GitError(repo: string, query: GitQuery, code: int)

  /** The git replies, per checkout name and command. */
  type Git = (string, GitQuery) -> Reply

  /** A subdirectory holding a `.git` entry. */
  predicate IsCheckout(e: Entry) {
    e.isDir && ".git" in e.files
  }

  /** Paths under one directory sort by their last component. */
  predicate NameBefore(a: Entry, b: Entry) {
    LexLt(a.name, b.name)
  }

  /** `run_git(repo, args).stdout`. */
  function RunGit(git: Git, repo: string, q: GitQuery): Result<string, GitError> {
    var reply := git(repo, q);
    if reply.code != 0 then Failure(GitError(repo, q, reply.code)) else Success(reply.stdout)
  }

  /** The porcelain status of the checkout is not blank. */
  predicate IsDirty(git: Git, repo: string) {
    Strip(git(repo, StatusPorcelain).stdout) != ""
  }

  /** The record `list_dirty_repos` builds for a dirty checkout. */
  function Record(git: Git, repo: string): DirtyRepo {
    DirtyRepo(repo, Strip(git(repo, RevParseHead).stdout), Strip(git(repo, StatusShort).stdout),
      git(repo, DiffHead).stdout)
  }

  /** Every command the loop runs in this checkout succeeds. */
  predicate Answers(git: Git, repo: string) {
    && git(repo, StatusPorcelain).code == 0
    && (IsDirty(git, repo) ==>
          git(repo, RevParseHead).code == 0 && git(repo, StatusShort).code == 0
          && git(repo, DiffHead).code == 0)
  }

  /** One iteration of the loop: `None` for a clean checkout. */
  function Inspect(git: Git, repo: string): (r: Result<Option<DirtyRepo>, GitError>)
    ensures r.Success? <==> Answers(git, repo)
    ensures r.Success? ==> (r.value.Some? <==> IsDirty(git, repo))
    ensures r.Success? && r.value.Some? ==> r.value.value == Record(git, repo)
  {
    var status, head, summary, patch :=
      git(repo, StatusPorcelain), git(repo, RevParseHead), git(repo, StatusShort), git(repo, DiffHead);
    if status.code != 0 then Failure(GitError(repo, StatusPorcelain, status.code))
    else if !IsDirty(git, repo) then Success(None)
    else if head.code != 0 then Failure(GitError(repo, RevParseHead, head.code))
    else if summary.code != 0 then Failure(GitError(repo, StatusShort, summary.code))
    else if patch.code != 0 then Failure(GitError(repo, DiffHead, patch.code))
    else Success(Some(Record(git, repo)))
  }

  /** The checkouts, in sorted name order. */
  function Checkouts(entries: seq<Entry>): seq<Entry> {
    SortBy(NameBefore, Filter(entries, IsCheckout))
  }

  /** The loop of `list_dirty_repos` over `checkouts`, stopping at the first failed command. */
  function Collect(git: Git, checkouts: seq<Entry>): Result<seq<DirtyRepo>, GitError> {
    if checkouts == [] then Success([])
    else
      var one :- Inspect(git, checkouts[0].name);
      var rest :- Collect(git, checkouts[1..]);
      Success((if one.Some? then [one.value] else []) + rest)
  }

  /** `list_dirty_repos(deps_dir)`. */
  function DirtyRepos(deps: Listing, git: Git): Result<seq<DirtyRepo>, GitError> {
    match deps
    case Missing => Success([])
    case Present(entries) => Collect(git, Checkouts(entries))
  }

  function Names(rs: seq<DirtyRepo>): set<string> {
    set r | r in rs :: r.name
  }

  /** `xs` followed by whatever `r` yields, if it succeeds. */
  function Prefixed(xs: seq<DirtyRepo>, r: Result<seq<DirtyRepo>, GitError>): Result<seq<DirtyRepo>, GitError> {
    if r.Success? then Success(xs + r.value) else r
  }

  /** One step of the loop: inspect the checkout at `i`, then carry on with the rest. */
  lemma CollectStep(git: Git, cs: seq<Entry>, i: nat)
    requires i < |cs|
    ensures var one := Inspect(git, cs[i].name);
      Collect(git, cs[i..]) == if one.Failure? then Failure(one.error)
        else Prefixed(if one.value.Some? then [one.value.value] else [], Collect(git, cs[i + 1..]))
  {
    assert cs[i..][0] == cs[i] && cs[i..][1..] == cs[i + 1..];
  }

  lemma PrefixedTwice(xs: seq<DirtyRepo>, ys: seq<DirtyRepo>, r: Result<seq<DirtyRepo>, GitError>)
    ensures Prefixed(xs, Prefixed(ys, r)) == Prefixed(xs + ys, r)
  {
    if r.Success? {
      assert xs + (ys + r.value) == (xs + ys) + r.value;
    }
  }

  /** `list_dirty_repos`: the loop appends a record for each dirty checkout in turn. */
  method ListDirtyRepos(deps: Listing, git: Git) returns (r: Result<seq<DirtyRepo>, GitError>)
    ensures r == DirtyRepos(deps, git)
    ensures deps.Missing? ==> r == Success([])
  {
    if deps.Missing? {
      return Success([]);
    }
    var checkouts := Checkouts(deps.entries);
    var dirty: seq<DirtyRepo> := [];
    assert DirtyRepos(deps, git) == Prefixed(dirty, Collect(git, checkouts[0..])) by {
      assert checkouts[0..] == checkouts;
      var c := Collect(git, checkouts);
      assert c.Success? ==> [] + c.value == c.value;
    }
    var i := 0;
    while i < |checkouts|
      invariant 0 <= i <= |checkouts|
      invariant DirtyRepos(deps, git) == Prefixed(dirty, Collect(git, checkouts[i..]))
    {
      var repo := checkouts[i].name;
      var rest := Collect(git, checkouts[i + 1..]);
      ghost var one := Inspect(git, repo);
      assert DirtyRepos(deps, git) == Prefixed(dirty, if one.Failure? then Failure(one.error)
        else Prefixed(if one.value.Some? then [one.value.value] else [], rest)) by {
        CollectStep(git, checkouts, i);
      }
      var status := git(repo, StatusPorcelain);
      if status.code != 0 {
        return Failure(GitError(repo, StatusPorcelain, status.code));
      }
      if Strip(status.stdout) != "" {
        var head := git(repo, RevParseHead);
        if head.code != 0 {
          return Failure(GitError(repo, RevParseHead, head.code));
        }
        var summary := git(repo, StatusShort);
        if summary.code != 0 {
          return Failure(GitError(repo, StatusShort, summary.code));
        }
        var patch := git(repo, DiffHead);
        if patch.code != 0 {
          return Failure(GitError(repo, DiffHead, patch.code));
        }
        var record := DirtyRepo(repo, Strip(head.stdout), Strip(summary.stdout), patch.stdout);
        assert one == Success(Some(record));
        PrefixedTwice(dirty, [record], rest);
        dirty := dirty + [record];
      } else {
        assert one == Success(None);
        PrefixedTwice(dirty, [], rest);
        assert dirty + [] == dirty;
      }
      i := i + 1;
    }
    assert checkouts[i..] == [];
    assert dirty + [] == dirty;
    r := Success(dirty);
  }

  /** The loop fails exactly when some command it runs in some checkout fails. */
  lemma {:induction false} CollectSucceeds(git: Git, cs: seq<Entry>)
    ensures Collect(git, cs).Success? <==> forall e :: e in cs ==> Answers(git, e.name)
  {
    if cs != [] {
      CollectSucceeds(git, cs[1..]);
      assert forall e :: e in cs <==> e == cs[0] || e in cs[1..] by {
        assert cs == [cs[0]] + cs[1..];
      }
    }
  }

  /** A successful loop over a non-empty list: the first checkout's record, if dirty, then
      the rest. */
  lemma CollectCons(git: Git, cs: seq<Entry>)
    requires cs != [] && Collect(git, cs).Success?
    ensures Collect(git, cs[1..]).Success?
    ensures Collect(git, cs).value == (if IsDirty(git, cs[0].name) then [Record(git, cs[0].name)] else [])
      + Collect(git, cs[1..]).value
  {
  }

  /** Each record the loop keeps is the one its checkout's git replies give. */
  lemma {:induction false} CollectRecords(git: Git, cs: seq<Entry>)
    requires Collect(git, cs).Success?
    ensures forall r :: r in Collect(git, cs).value ==> r == Record(git, r.name)
  {
    if cs != [] {
      CollectCons(git, cs);
      CollectRecords(git, cs[1..]);
    }
  }

  /** The loop keeps exactly the dirty checkouts. */
  lemma {:induction false} CollectKeepsDirty(git: Git, cs: seq<Entry>)
    requires Collect(git, cs).Success?
    ensures forall n :: n in Names(Collect(git, cs).value) <==> exists e :: e in cs && e.name == n && IsDirty(git, n)
  {
    if cs != [] {
      CollectCons(git, cs);
      CollectKeepsDirty(git, cs[1..]);
      var rest := Collect(git, cs[1..]).value;
      var head := if IsDirty(git, cs[0].name) then [Record(git, cs[0].name)] else [];
      var rs := Collect(git, cs).value;
      assert rs == head + rest;
      assert Names(rs) == Names(head) + Names(rest);
      assert Names(head) == if IsDirty(git, cs[0].name) then {cs[0].name} else {};
      assert forall e :: e in cs <==> e == cs[0] || e in cs[1..] by {
        assert cs == [cs[0]] + cs[1..];
      }
    }
  }

  /** Over checkouts in increasing name order, the kept names increase too. */
  lemma {:induction false} CollectIncreasing(git: Git, cs: seq<Entry>)
    requires Sorted(NameBefore, cs)
    requires Collect(git, cs).Success?
    ensures var rs := Collect(git, cs).value;
      forall i, j :: 0 <= i < j < |rs| ==> LexLt(rs[i].name, rs[j].name)
  {
    if cs != [] {
      CollectCons(git, cs);
      var rest := Collect(git, cs[1..]).value;
      var rs := Collect(git, cs).value;
      assert Sorted(NameBefore, cs[1..]);
      CollectIncreasing(git, cs[1..]);
      if IsDirty(git, cs[0].name) {
        CollectKeepsDirty(git, cs[1..]);
        forall j | 0 < j < |rs| ensures LexLt(rs[0].name, rs[j].name) {
          assert rs[j] == rest[j - 1];
          assert rest[j - 1].name in Names(rest);
          var e :| e in cs[1..] && e.name == rest[j - 1].name;
          var m :| 0 <= m < |cs[1..]| && cs[1..][m] == e;
          assert cs[m + 1] == e;
        }
        assert rs == [rs[0]] + rest;
        assert forall i :: 0 < i < |rs| ==> rs[i] == rest[i - 1];
      }
    }
  }

  /** The checkouts in sorted order are exactly the subdirectories holding `.git`, and their
      names strictly increase. */
  lemma CheckoutsSorted(entries: seq<Entry>)
    requires DistinctNames(entries)
    ensures Sorted(NameBefore, Checkouts(entries))
    ensures forall e :: e in Checkouts(entries) <==> e in entries && IsCheckout(e)
  {
    var f := Filter(entries, IsCheckout);
    FilterDistinct(entries, IsCheckout);
    assert IsStrictOrder(NameBefore) by {
      forall a: Entry ensures !NameBefore(a, a) {
        LexLtIrreflexive(a.name);
      }
      forall a: Entry, b: Entry, c: Entry | NameBefore(a, b) && NameBefore(b, c) ensures NameBefore(a, c) {
        LexLtTransitive(a.name, b.name, c.name);
      }
    }
    forall i, j | 0 <= i < |f| && 0 <= j < |f| && i != j ensures NameBefore(f[i], f[j]) || NameBefore(f[j], f[i]) {
      if i < j {
        LexLtTotal(f[i].name, f[j].name);
      } else {
        LexLtTotal(f[j].name, f[i].name);
      }
    }
    SortBySorted(NameBefore, f);
  }

  /** `list_dirty_repos`: no `deps/` gives no repos; otherwise the names strictly increase,
      they are exactly the checkouts whose porcelain status is not blank, and each record
      carries that checkout's stripped HEAD, short status and diff. */
  lemma DirtyReposSelects(deps: Listing, git: Git)
    requires WellFormed(deps)
    requires DirtyRepos(deps, git).Success?
    ensures deps.Missing? ==> DirtyRepos(deps, git).value == []
    ensures var rs := DirtyRepos(deps, git).value;
      && (forall i, j :: 0 <= i < j < |rs| ==> LexLt(rs[i].name, rs[j].name))
      && (forall r :: r in rs ==> r == Record(git, r.name))
      && (deps.Present? ==> forall e :: e in deps.entries && IsCheckout(e) ==>
            (e.name in Names(rs) <==> IsDirty(git, e.name)))
      && (deps.Present? ==> forall n :: n in Names(rs) ==>
            exists e :: e in deps.entries && IsCheckout(e) && e.name == n)
  {
    if deps.Present? {
      CheckoutsSorted(deps.entries);
      CollectKeepsDirty(git, Checkouts(deps.entries));
      CollectRecords(git, Checkouts(deps.entries));
      CollectIncreasing(git, Checkouts(deps.entries));
    }
  }
}
