/** `pathlib.PurePosixPath`: how a path string is normalised and how `/` joins two paths. */
module Paths {
  import opened Text
  import Sorting

  /** A component that `PurePosixPath` keeps: empty components and `.` are dropped. */
  predicate IsPart(x: string) {
    x != "" && x != "."
  }

  /** Exactly two leading slashes are kept as a root of their own; one or three or more
      collapse to `/`. */
  function Root(s: string): (r: string)
    ensures StartsWith(s, r)
    ensures r == "" <==> !StartsWith(s, "/")
  {
    if StartsWith(s, "//") && !StartsWith(s, "///") then "//"
    else if StartsWith(s, "/") then "/"
    else ""
  }

  /** The components of `s`, in order. */
  function Parts(s: string): (r: seq<string>)
    ensures forall k :: 0 <= k < |r| ==> IsPart(r[k]) && '/' !in r[k]
  {
    var r := Sorting.Filter(Split(s, '/'), IsPart);
    SplitPieces(s, '/');
    assert forall k :: 0 <= k < |r| ==> r[k] in Split(s, '/');
    r
  }

  /** `str(PurePosixPath(s))`. */
  function Normalize(s: string): (r: string)
    ensures r != []
    ensures r == "." || StartsWith(r, Root(s))
  {
    var body := Root(s) + Join("/", Parts(s));
    if body == "" then "." else body
  }

  predicate IsNormal(s: string) {
    Normalize(s) == s
  }

  /** `PurePosixPath(a) / b` for normalised `a` and `b`. */
  function JoinPath(a: string, b: string): string {
    if StartsWith(b, "/") then b
    else if b == "." then a
    else if a == "." then b
    else if EndsWith(a, "/") then a + b
    else a + "/" + b
  }

  /** `PurePosixPath(p).name`: the last component, empty for `.` and for a bare root. */
  function Name(p: string): (r: string)
    ensures '/' !in r
  {
    if p == "." then "" else AfterLast(p, '/')
  }

  /** A relative path built from plain components is already normal. */
  lemma NormalizePlain(xs: seq<string>)
    requires xs != []
    requires forall k :: 0 <= k < |xs| ==> IsPart(xs[k]) && '/' !in xs[k]
    ensures Normalize(Join("/", xs)) == Join("/", xs)
  {
    var s := Join("/", xs);
    SplitJoin('/', xs);
    Sorting.FilterAll(xs, IsPart);
    JoinStartsWith("/", xs);
    assert s[0] == xs[0][0];
    assert Root(s) == "";
  }

  /** Extending a path that is more than a bare root does not change its root. */
  lemma RootExtend(a: string, t: string)
    requires a != [] && a != "/" && a != "//"
    ensures Root(a + t) == Root(a)
  {
    var s := a + t;
    assert s[0] == a[0];
    if |a| >= 3 {
      assert s[..3] == a[..3] && s[..2] == a[..2] && s[..1] == a[..1];
    } else if |a| == 2 {
      assert s[..2] == a[..2] && s[..1] == a[..1];
      assert a[0] != '/' || a[1] != '/';
    } else {
      assert s[..1] == a;
      assert a[0] != '/';
    }
  }

  /** What `Normalize` computes, given the root and components. */
  lemma NormalizeOf(s: string, r: string, ps: seq<string>)
    requires Root(s) == r && Parts(s) == ps
    ensures Normalize(s) == if r + Join("/", ps) == "" then "." else r + Join("/", ps)
  {
  }

  /** The root and components of two paths written with a slash between them. */
  lemma SlashConcat(a: string, b: string)
    requires a != [] && a != "/" && a != "//"
    ensures Root(a + "/" + b) == Root(a)
    ensures Parts(a + "/" + b) == Parts(a) + Parts(b)
  {
    assert Root(a + "/" + b) == Root(a) by {
      RootExtend(a, "/" + b);
      assert a + "/" + b == a + ("/" + b);
    }
    SplitConcat(a, '/', b);
    Sorting.FilterConcat(Split(a, '/'), Split(b, '/'), IsPart);
  }

  /** Two non-empty lists of components joined as paths: neither side is `.` and the
      components of both sides join with one slash between them. */
  lemma JoinBoth(ra: string, pa: seq<string>, pb: seq<string>)
    requires pa != [] && pb != []
    requires forall k :: 0 <= k < |pa| ==> IsPart(pa[k])
    requires forall k :: 0 <= k < |pb| ==> IsPart(pb[k])
    ensures ra + Join("/", pa) != "." && Join("/", pb) != "."
    ensures ra + Join("/", pa + pb) == (ra + Join("/", pa)) + "/" + Join("/", pb)
  {
    JoinConcat("/", pa, pb);
    JoinStartsWith("/", pa);
    JoinStartsWith("/", pb);
    var ja, jb := Join("/", pa), Join("/", pb);
    assert |ja| >= |pa[0]| > 0 && ja[..|pa[0]|] == pa[0];
    assert |jb| >= |pb[0]| > 0 && jb[..|pb[0]|] == pb[0];
    assert ra + ja != "." by {
      if ra == "" {
        assert ra + ja == ja;
      }
    }
  }

  /** Joining agrees with normalising the two paths written one after the other, as long as
      the left one is not a bare root. */
  lemma JoinPathNormalize(a: string, b: string)
    requires IsNormal(a) && IsNormal(b)
    requires !StartsWith(b, "/") && !EndsWith(a, "/")
    ensures JoinPath(a, b) == Normalize(a + "/" + b)
  {
    var s := a + "/" + b;
    var ra, pa, pb := Root(a), Parts(a), Parts(b);
    assert a != "/" && a != "//" by {
      assert EndsWith("/", "/") && EndsWith("//", "/");
    }
    SlashConcat(a, b);
    NormalizeOf(s, ra, pa + pb);
    NormalizeOf(a, ra, pa);
    NormalizeOf(b, "", pb);
    if pb == [] {
      assert b == ".";
      assert pa + pb == pa;
    } else if pa == [] {
      assert ra == "";
      assert a == ".";
      assert pa + pb == pb;
    } else {
      JoinBoth(ra, pa, pb);
    }
  }
}
