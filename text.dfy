/** The parts of Python's `str` type that the tools rely on: stripping, prefix tests,
    searching, replacing, splitting, joining, code-point ordering and decimal formatting. */
module Text {

  /** Python's `str.isspace()`: the characters `strip()`, `lstrip()` and `rstrip()` remove
      when called without an argument. */
  predicate IsSpace(c: char) {
    || c == ' ' || c == '\t' || c == '\n' || c == '\r' || c == '\U{B}' || c == '\U{C}'
    || ('\U{1C}' <= c <= '\U{1F}') || c == '\U{85}' || c == '\U{A0}' || c == '\U{1680}'
    || ('\U{2000}' <= c <= '\U{200A}') || c == '\U{2028}' || c == '\U{2029}'
    || c == '\U{202F}' || c == '\U{205F}' || c == '\U{3000}'
  }

  predicate StartsWith(s: string, prefix: string) {
    |prefix| <= |s| && s[..|prefix|] == prefix
  }

  predicate EndsWith(s: string, suffix: string) {
    |suffix| <= |s| && s[|s| - |suffix|..] == suffix
  }

  /** `pat` occurs in `s` starting at index `i`. */
  predicate OccursAt(s: string, pat: string, i: int) {
    0 <= i && i + |pat| <= |s| && s[i..i + |pat|] == pat
  }

  predicate Contains(s: string, pat: string) {
    exists i :: 0 <= i <= |s| && OccursAt(s, pat, i)
  }

  /** `s.rstrip()`: the longest prefix of `s` that does not end in whitespace. */
  function RStrip(s: string): (r: string)
    ensures |r| <= |s|
    ensures r == [] || !IsSpace(r[|r| - 1])
    ensures forall i :: |r| <= i < |s| ==> IsSpace(s[i])
  {
    if s != [] && IsSpace(s[|s| - 1]) then RStrip(s[..|s| - 1]) else s
  }

  /** `s.lstrip()`: the longest suffix of `s` that does not start with whitespace. */
  function LStrip(s: string): (r: string)
    ensures |r| <= |s|
    ensures r == [] || !IsSpace(r[0])
    ensures forall i :: 0 <= i < |s| - |r| ==> IsSpace(s[i])
  {
    if s != [] && IsSpace(s[0]) then LStrip(s[1..]) else s
  }

  /** What `rstrip` leaves is a prefix of its argument. */
  lemma {:induction false} RStripIsPrefix(s: string)
    ensures RStrip(s) == s[..|RStrip(s)|]
  {
    if s != [] && IsSpace(s[|s| - 1]) {
      RStripIsPrefix(s[..|s| - 1]);
    }
  }

  /** What `lstrip` leaves is a suffix of its argument. */
  lemma {:induction false} LStripIsSuffix(s: string)
    ensures LStrip(s) == s[|s| - |LStrip(s)|..]
  {
    if s != [] && IsSpace(s[0]) {
      LStripIsSuffix(s[1..]);
    }
  }

  /** `s.strip()`. */
  function Strip(s: string): string {
    LStrip(RStrip(s))
  }

  /** Index of the first `c` in `s`, or `|s|` when there is none. */
  function IndexOf(s: string, c: char): (i: nat)
    ensures i <= |s|
    ensures i < |s| ==> s[i] == c
    ensures forall j :: 0 <= j < i ==> s[j] != c
  {
    if s == [] then 0 else if s[0] == c then 0 else 1 + IndexOf(s[1..], c)
  }

  /** `s.split(c, 1)[0]`: everything before the first `c`. */
  function BeforeFirst(s: string, c: char): (r: string)
    ensures c !in r
    ensures StartsWith(s, r)
    ensures c !in s ==> r == s
  {
    s[..IndexOf(s, c)]
  }

  /** `s.split(c)[-1]`: everything after the last `c` (all of `s` when there is none). */
  function AfterLast(s: string, c: char): (r: string)
    ensures c !in r
    ensures EndsWith(s, r)
    ensures c !in s ==> r == s
  {
    if s == [] then []
    else if s[|s| - 1] == c then []
    else AfterLast(s[..|s| - 1], c) + [s[|s| - 1]]
  }

  /** `s.partition(c)`: the text before the first `c`, whether `c` was found, and the rest. */
  function Partition(s: string, c: char): (r: (string, bool, string))
    ensures r.0 + (if r.1 then [c] else []) + r.2 == s
    ensures c !in r.0
    ensures r.1 <==> c in s
  {
    var i := IndexOf(s, c);
    if i < |s| then (s[..i], true, s[i + 1..]) else (s, false, [])
  }

  /** The index of the leftmost occurrence of `pat` in `s` (as `str.find`), if any. */
  function Find(s: string, pat: string): (r: Found)
    ensures r.FoundAt? ==> OccursAt(s, pat, r.index)
    ensures r.FoundAt? ==> forall j :: 0 <= j < r.index ==> !OccursAt(s, pat, j)
    ensures r.NotFound? ==> forall j :: !OccursAt(s, pat, j)
  {
    FindFrom(s, pat, 0)
  }

  /** The leftmost occurrence of `pat` in `s` at or after index `i`. */
  function FindFrom(s: string, pat: string, i: nat): (r: Found)
    ensures r.FoundAt? ==> i <= r.index && OccursAt(s, pat, r.index)
    ensures r.FoundAt? ==> forall j :: i <= j < r.index ==> !OccursAt(s, pat, j)
    ensures r.NotFound? ==> forall j :: i <= j ==> !OccursAt(s, pat, j)
    decreases |s| + 1 - i
  {
    if i + |pat| > |s| then NotFound
    else if OccursAt(s, pat, i) then FoundAt(i)
    else FindFrom(s, pat, i + 1)
  }

  datatype Found = NotFound | FoundAt(index: nat)

  /** `s.replace(old, new, 1)`. */
  function ReplaceFirst(s: string, pat: string, repl: string): string {
    match Find(s, pat)
    case NotFound => s
    case FoundAt(i) => s[..i] + repl + s[i + |pat|..]
  }

  lemma {:induction false} FindPrefix(s: string, pat: string)
    requires StartsWith(s, pat)
    ensures Find(s, pat) == FoundAt(0)
  {
  }

  /** `s.replace(old, new)`: every non-overlapping occurrence, scanned left to right. */
  function ReplaceAll(s: string, pat: string, repl: string): string
    requires pat != []
    decreases |s|
  {
    if s == [] then []
    else if StartsWith(s, pat) then repl + ReplaceAll(s[|pat|..], pat, repl)
    else [s[0]] + ReplaceAll(s[1..], pat, repl)
  }

  /** Replacing one character by another changes exactly the positions that held it. */
  lemma {:induction false} ReplaceCharPointwise(s: string, a: char, b: char)
    ensures |ReplaceAll(s, [a], [b])| == |s|
    ensures forall i :: 0 <= i < |s| ==>
      ReplaceAll(s, [a], [b])[i] == if s[i] == a then b else s[i]
    decreases |s|
  {
    if s != [] {
      ReplaceCharPointwise(s[1..], a, b);
    }
  }

  /** Deleting every occurrence of a pattern introduces no new character. */
  lemma {:induction false} DeleteKeepsOut(s: string, pat: string, c: char)
    requires pat != [] && c !in s
    ensures c !in ReplaceAll(s, pat, [])
    decreases |s|
  {
    if s != [] {
      if StartsWith(s, pat) {
        DeleteKeepsOut(s[|pat|..], pat, c);
      } else {
        DeleteKeepsOut(s[1..], pat, c);
      }
    }
  }

  /** When `pat` does not occur in `s`, replacing it leaves `s` unchanged. */
  lemma {:induction false} ReplaceAbsent(s: string, pat: string, repl: string)
    requires pat != [] && forall j :: !OccursAt(s, pat, j)
    ensures ReplaceAll(s, pat, repl) == s
    decreases |s|
  {
    if s != [] {
      assert !OccursAt(s, pat, 0);
      forall j ensures !OccursAt(s[1..], pat, j) {
        assert !OccursAt(s, pat, j + 1);
        if 0 <= j && j + |pat| <= |s| - 1 {
          assert s[1..][j..j + |pat|] == s[j + 1..j + 1 + |pat|];
        }
      }
      ReplaceAbsent(s[1..], pat, repl);
    }
  }

  /** `s.split(c)`: the pieces between occurrences of `c`; never empty. */
  function Split(s: string, c: char): (r: seq<string>)
    ensures |r| > 0
    decreases |s|
  {
    var i := IndexOf(s, c);
    if i == |s| then [s] else [s[..i]] + Split(s[i + 1..], c)
  }

  /** No piece of a split holds the separator. */
  lemma {:induction false} SplitPieces(s: string, c: char)
    ensures forall k :: 0 <= k < |Split(s, c)| ==> c !in Split(s, c)[k]
    decreases |s|
  {
    var i := IndexOf(s, c);
    if i < |s| {
      SplitPieces(s[i + 1..], c);
      SplitAt(s, c, i);
    }
  }

  /** `sep.join(xs)`. */
  function Join(sep: string, xs: seq<string>): string {
    if xs == [] then []
    else if |xs| == 1 then xs[0]
    else xs[0] + sep + Join(sep, xs[1..])
  }

  /** Splitting a join on a separator that no piece contains gives the pieces back. */
  lemma {:induction false} SplitJoin(c: char, xs: seq<string>)
    requires |xs| > 0
    requires forall k :: 0 <= k < |xs| ==> c !in xs[k]
    ensures Split(Join([c], xs), c) == xs
  {
    if |xs| == 1 {
      SplitNone(xs[0], c);
    } else {
      var rest := Join([c], xs[1..]);
      assert Join([c], xs) == xs[0] + [c] + rest;
      SplitFirst(xs[0], c, rest);
      SplitJoin(c, xs[1..]);
      assert xs == [xs[0]] + xs[1..];
    }
  }

  /** The first `c` of `x + y` is the first one of `x`, or else the first one of `y`. */
  lemma {:induction false} IndexOfConcat(x: string, y: string, c: char)
    ensures IndexOf(x + y, c) == if IndexOf(x, c) < |x| then IndexOf(x, c) else |x| + IndexOf(y, c)
  {
    if x == [] {
      assert x + y == y;
    } else {
      assert (x + y)[1..] == x[1..] + y;
      IndexOfConcat(x[1..], y, c);
    }
  }

  /** Where `x` holds no separator, splitting `x + [c] + y` splits off `x` whole. */
  lemma SplitNoSepPrefix(x: string, c: char, y: string)
    requires IndexOf(x, c) == |x|
    ensures Split(x + [c] + y, c) == [x] + Split(y, c)
  {
    var s := x + [c] + y;
    assert IndexOf(s, c) == |x| by {
      assert s == x + ([c] + y);
      IndexOfConcat(x, [c] + y, c);
    }
    SplitAt(s, c, |x|);
    ConcatAssoc(x, [c], y);
    PrefixOfConcat(x, [c] + y, |x|);
    assert x[..|x|] == x;
    assert ([c] + y)[1..] == y;
    SuffixOfConcat(x, [c] + y, |x|);
  }

  /** Where `x` holds a separator at `i`, splitting `x + [c] + y` first splits off `x[..i]`. */
  lemma SplitSepInPrefix(x: string, c: char, y: string, i: nat)
    requires i == IndexOf(x, c) < |x|
    ensures Split(x + [c] + y, c) == [x[..i]] + Split(x[i + 1..] + [c] + y, c)
  {
    var s := x + [c] + y;
    assert IndexOf(s, c) == i by {
      assert s == x + ([c] + y);
      IndexOfConcat(x, [c] + y, c);
    }
    SplitAt(s, c, i);
    ConcatAssoc(x, [c], y);
    PrefixOfConcat(x, [c] + y, i);
    SuffixOfConcat(x, [c] + y, i + 1);
    ConcatAssoc(x[i + 1..], [c], y);
  }

  /** Splitting at the first separator. */
  lemma SplitAt(s: string, c: char, i: nat)
    requires i == IndexOf(s, c) < |s|
    ensures Split(s, c) == [s[..i]] + Split(s[i + 1..], c)
  {
  }

  /** Splitting at a separator that joins two strings splits each of them. */
  lemma {:induction false} SplitConcat(x: string, c: char, y: string)
    ensures Split(x + [c] + y, c) == Split(x, c) + Split(y, c)
    decreases |x|
  {
    var i := IndexOf(x, c);
    if i < |x| {
      SplitSepInPrefix(x, c, y, i);
      SplitConcat(x[i + 1..], c, y);
      ConcatAssoc([x[..i]], Split(x[i + 1..], c), Split(y, c));
    } else {
      SplitNoSepPrefix(x, c, y);
    }
  }

  lemma ConcatAssoc<T>(a: seq<T>, b: seq<T>, d: seq<T>)
    ensures a + (b + d) == (a + b) + d
  {
  }

  lemma PrefixOfConcat<T>(a: seq<T>, b: seq<T>, i: nat)
    requires i <= |a|
    ensures (a + b)[..i] == a[..i]
  {
  }

  lemma SuffixOfConcat<T>(a: seq<T>, b: seq<T>, i: nat)
    requires i <= |a|
    ensures (a + b)[i..] == a[i..] + b
  {
  }

  /** A first piece free of the separator is the first element of the split. */
  lemma SplitFirst(x: string, c: char, y: string)
    requires c !in x
    ensures Split(x + [c] + y, c) == [x] + Split(y, c)
  {
    SplitConcat(x, c, y);
    SplitNone(x, c);
  }

  /** A last piece free of the separator is the last element of the split. */
  lemma SplitLast(x: string, c: char, y: string)
    requires c !in y
    ensures Split(x + [c] + y, c) == Split(x, c) + [y]
  {
    SplitConcat(x, c, y);
    SplitNone(y, c);
  }

  /** A trailing separator ends the split with an empty piece. */
  lemma SplitTrailing(x: string, c: char)
    ensures Split(x + [c], c) == Split(x, c) + [""]
  {
    SplitLast(x, c, []);
    assert x + [c] + [] == x + [c];
  }

  /** An empty line and then a last piece free of the separator. */
  lemma SplitBlankThenLast(x: string, c: char, y: string)
    requires c !in y
    ensures Split(x + [c] + [c] + y, c) == Split(x, c) + ["", y]
  {
    SplitLast(x, c, []);
    assert x + [c] + [] == x + [c];
    SplitLast(x + [c], c, y);
  }

  /** A string free of the separator splits into itself alone. */
  lemma SplitNone(x: string, c: char)
    requires c !in x
    ensures Split(x, c) == [x]
  {
    assert IndexOf(x, c) == |x|;
  }

  /** Joining two non-empty lists puts one separator between their joins. */
  lemma {:induction false} JoinConcat(sep: string, xs: seq<string>, ys: seq<string>)
    requires xs != [] && ys != []
    ensures Join(sep, xs + ys) == Join(sep, xs) + sep + Join(sep, ys)
    decreases |xs|
  {
    if |xs| == 1 {
      assert (xs + ys)[0] == xs[0] && (xs + ys)[1..] == ys;
    } else {
      assert (xs + ys)[0] == xs[0] && (xs + ys)[1..] == xs[1..] + ys;
      JoinConcat(sep, xs[1..], ys);
    }
  }

  /** A character in neither the separator nor any piece is not in the join. */
  lemma {:induction false} JoinFree(sep: string, xs: seq<string>, c: char)
    requires c !in sep
    requires forall k :: 0 <= k < |xs| ==> c !in xs[k]
    ensures c !in Join(sep, xs)
  {
    if |xs| > 1 {
      JoinFree(sep, xs[1..], c);
    }
  }

  /** A join starts with its first piece. */
  lemma {:induction false} JoinStartsWith(sep: string, xs: seq<string>)
    requires xs != []
    ensures StartsWith(Join(sep, xs), xs[0])
  {
    if |xs| > 1 {
      assert Join(sep, xs) == xs[0] + (sep + Join(sep, xs[1..]));
    }
  }

  /** Python's line boundaries for `str.splitlines()`. */
  predicate IsLineBreak(c: char) {
    || c == '\n' || c == '\r' || c == '\U{B}' || c == '\U{C}' || c == '\U{1C}' || c == '\U{1D}'
    || c == '\U{1E}' || c == '\U{85}' || c == '\U{2028}' || c == '\U{2029}'
  }

  /** Index of the first line boundary in `s`, or `|s|`. */
  function LineEnd(s: string): (i: nat)
    ensures i <= |s|
    ensures i < |s| ==> IsLineBreak(s[i])
    ensures forall j :: 0 <= j < i ==> !IsLineBreak(s[j])
  {
    if s == [] then 0 else if IsLineBreak(s[0]) then 0 else 1 + LineEnd(s[1..])
  }

  /** `s.splitlines()`: the lines without their terminators; `\r\n` counts as one boundary
      and a final terminator does not start another line. */
  function SplitLines(s: string): (r: seq<string>)
    ensures r == [] <==> s == []
    ensures forall k :: 0 <= k < |r| ==> forall j :: 0 <= j < |r[k]| ==> !IsLineBreak(r[k][j])
    decreases |s|
  {
    if s == [] then []
    else
      var i := LineEnd(s);
      if i == |s| then [s]
      else if s[i] == '\r' && i + 1 < |s| && s[i + 1] == '\n' then [s[..i]] + SplitLines(s[i + 2..])
      else [s[..i]] + SplitLines(s[i + 1..])
  }

  /** Python's `<` on `str`: lexicographic by code point, a proper prefix first. */
  predicate LexLt(a: string, b: string)
    decreases |a|
  {
    if a == [] then b != []
    else if b == [] then false
    else if a[0] != b[0] then a[0] < b[0]
    else LexLt(a[1..], b[1..])
  }

  lemma {:induction false} LexLtIrreflexive(a: string)
    ensures !LexLt(a, a)
    decreases |a|
  {
    if a != [] {
      LexLtIrreflexive(a[1..]);
    }
  }

  lemma {:induction false} LexLtTransitive(a: string, b: string, c: string)
    requires LexLt(a, b) && LexLt(b, c)
    ensures LexLt(a, c)
    decreases |a|
  {
    if a != [] && b != [] && c != [] && a[0] == b[0] && b[0] == c[0] {
      LexLtTransitive(a[1..], b[1..], c[1..]);
    }
  }

  lemma {:induction false} LexLtTotal(a: string, b: string)
    requires a != b
    ensures LexLt(a, b) || LexLt(b, a)
    decreases |a|
  {
    if a != [] && b != [] && a[0] == b[0] {
      assert a == [a[0]] + a[1..] && b == [b[0]] + b[1..];
      LexLtTotal(a[1..], b[1..]);
    }
  }

  lemma {:induction false} LexLtAsymmetric(a: string, b: string)
    requires LexLt(a, b)
    ensures !LexLt(b, a)
  {
    if LexLt(b, a) {
      LexLtTransitive(a, b, a);
      LexLtIrreflexive(a);
    }
  }

  /** Comparing two strings that share a prefix compares what follows it. */
  lemma {:induction false} LexLtCommonPrefix(p: string, a: string, b: string)
    ensures LexLt(p + a, p + b) <==> LexLt(a, b)
    decreases |p|
  {
    if p != [] {
      assert (p + a)[0] == p[0] == (p + b)[0];
      assert (p + a)[1..] == p[1..] + a && (p + b)[1..] == p[1..] + b;
      LexLtCommonPrefix(p[1..], a, b);
      assert p + a != [] && p + b != [];
    } else {
      assert p + a == a && p + b == b;
    }
  }

  /** For equally long heads, the heads decide unless they are equal. */
  lemma {:induction false} LexLtConcat(a1: string, a2: string, b1: string, b2: string)
    requires |a1| == |b1|
    ensures LexLt(a1 + a2, b1 + b2) <==> LexLt(a1, b1) || (a1 == b1 && LexLt(a2, b2))
    decreases |a1|
  {
    if a1 == [] {
      assert b1 == [] && a1 + a2 == a2 && b1 + b2 == b2;
    } else {
      assert (a1 + a2)[0] == a1[0] && (b1 + b2)[0] == b1[0];
      assert (a1 + a2)[1..] == a1[1..] + a2 && (b1 + b2)[1..] == b1[1..] + b2;
      assert a1 == [a1[0]] + a1[1..] && b1 == [b1[0]] + b1[1..];
      LexLtConcat(a1[1..], a2, b1[1..], b2);
    }
  }

  function Digit(d: nat): (c: char)
    requires d < 10
    ensures '0' <= c <= '9'
  {
    "0123456789"[d]
  }

  function Pow10(w: nat): (r: nat)
    ensures r > 0
  {
    if w == 0 then 1 else 10 * Pow10(w - 1)
  }

  /** The last `w` decimal digits of `n`, zero-padded: `format(n, "0<w>d")` for any `n` below
      `10^w`. */
  function Pad(n: nat, w: nat): (r: string)
    ensures |r| == w
    ensures forall i :: 0 <= i < w ==> '0' <= r[i] <= '9'
  {
    if w == 0 then [] else Pad(n / 10, w - 1) + [Digit(n % 10)]
  }

  lemma DigitValue(d: nat)
    requires d < 10
    ensures Digit(d) as int - '0' as int == d
  {
  }

  /** Numbers compare by all but their last decimal digit, then by that digit. */
  lemma DecimalOrder(a: nat, b: nat)
    ensures a < b <==> a / 10 < b / 10 || (a / 10 == b / 10 && a % 10 < b % 10)
    ensures a == b <==> a / 10 == b / 10 && a % 10 == b % 10
  {
  }

  lemma ShiftBound(a: nat, w: nat)
    requires w > 0 && a < Pow10(w)
    ensures a / 10 < Pow10(w - 1)
  {
  }

  lemma SnocEqual(p: string, x: char, q: string, y: char)
    requires |p| == |q|
    ensures p + [x] == q + [y] <==> p == q && x == y
  {
    if p + [x] == q + [y] {
      assert (p + [x])[..|p|] == p && (q + [y])[..|q|] == q;
      assert (p + [x])[|p|] == x && (q + [y])[|q|] == y;
    }
  }

  /** Zero-padded numbers of equal width compare as strings exactly as they compare as numbers. */
  lemma {:induction false} PadOrder(a: nat, b: nat, w: nat)
    requires a < Pow10(w) && b < Pow10(w)
    ensures LexLt(Pad(a, w), Pad(b, w)) <==> a < b
    ensures Pad(a, w) == Pad(b, w) <==> a == b
  {
    if w == 0 {
      LexLtIrreflexive([]);
    } else {
      ShiftBound(a, w);
      ShiftBound(b, w);
      PadOrder(a / 10, b / 10, w - 1);
      var da, db := Digit(a % 10), Digit(b % 10);
      LexLtConcat(Pad(a / 10, w - 1), [da], Pad(b / 10, w - 1), [db]);
      DigitValue(a % 10);
      DigitValue(b % 10);
      SnocEqual(Pad(a / 10, w - 1), da, Pad(b / 10, w - 1), db);
      DecimalOrder(a, b);
    }
  }

  /** `str(n)` for an integer. */
  function IntToString(n: int): (r: string)
    ensures r != []
  {
    if n < 0 then "-" + NatToString(-n) else NatToString(n)
  }

  function NatToString(n: nat): (r: string)
    ensures r != []
    ensures forall i :: 0 <= i < |r| ==> '0' <= r[i] <= '9'
  {
    if n < 10 then [Digit(n)] else NatToString(n / 10) + [Digit(n % 10)]
  }
}
