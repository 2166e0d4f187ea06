/** Decoded JSON documents as `json.loads` returns them, and the Python built-ins the plan
    loader applies to them: `obj[key]`, `obj.get(key)`, truthiness, `str()` and `int()`. */
module Json {
  import opened Wrappers
  import opened Text

  /** A decoded document; an object keeps its members in document order. */
  datatype Value =
    | Null
    | Bool(b: bool)
    | Int(i: int)
    | Str(s: string)
    | Array(items: seq<Value>)
    | Object(members: seq<Member>)

  datatype Member = Member(key: string, value: Value)

  /** `obj.get(key)` on a decoded object: of repeated keys, the last one wins. */
  function Get(members: seq<Member>, key: string): (r: Option<Value>)
    ensures r.None? <==> forall i :: 0 <= i < |members| ==> members[i].key != key
    ensures r.Some? ==> Member(key, r.value) in members
  {
    if members == [] then None
    else
      var n := |members| - 1;
      if members[n].key == key then Some(members[n].value)
      else
        assert forall i :: 0 <= i < n ==> members[..n][i] == members[i];
        Get(members[..n], key)
  }

  /** The value `get` finds is the one of the last member with that key. */
  lemma {:induction false} GetLast(members: seq<Member>, key: string, i: nat)
    requires i < |members| && members[i].key == key
    requires forall j :: i < j < |members| ==> members[j].key != key
    ensures Get(members, key) == Some(members[i].value)
    decreases |members|
  {
    var n := |members| - 1;
    if i < n {
      GetLast(members[..n], key, i);
    }
  }

  /** Python truthiness of a decoded value. */
  predicate Truthy(v: Value) {
    match v
    case Null => false
    case Bool(b) => b
    case Int(i) => i != 0
    case Str(s) => s != ""
    case Array(items) => items != []
    case Object(members) => members != []
  }

  /** `str(v)`. */
  function PyStr(v: Value): string {
    match v
    case Str(s) => s
    case _ => Repr(v)
  }

  /** `repr(v)` as Python prints the decoded value. */
  function Repr(v: Value): string
    decreases v, 1
  {
    match v
    case Null => "None"
    case Bool(b) => if b then "True" else "False"
    case Int(i) => IntToString(i)
    case Str(s) => "'" + s + "'"
    case Array(items) => "[" + ReprItems(items) + "]"
    case Object(members) => "{" + ReprMembers(members) + "}"
  }

  function ReprItems(items: seq<Value>): string
    decreases items, 0
  {
    if items == [] then ""
    else if |items| == 1 then Repr(items[0])
    else Repr(items[0]) + ", " + ReprItems(items[1..])
  }

  function ReprMembers(members: seq<Member>): string
    decreases members, 0
  {
    if members == [] then ""
    else
      var m := members[0];
      var one := "'" + m.key + "': " + Repr(m.value);
      if |members| == 1 then one else one + ", " + ReprMembers(members[1..])
  }

  predicate IsDigit(c: char) {
    '0' <= c <= '9'
  }

  /** The number a non-empty run of decimal digits denotes. */
  function DigitsValue(s: string): nat
    requires forall k :: 0 <= k < |s| ==> IsDigit(s[k])
  {
    if s == [] then 0
    else
      assert IsDigit(s[|s| - 1]);
      DigitsValue(s[..|s| - 1]) * 10 + (s[|s| - 1] as int - '0' as int)
  }

  /** `int(s)` for a string: surrounding whitespace, an optional sign and decimal digits. */
  function ParseInt(s: string): (r: Option<int>)
    ensures r.Some? ==> Strip(s) != ""
  {
    var t := Strip(s);
    var neg := t != [] && t[0] == '-';
    var digits := if t != [] && (t[0] == '+' || t[0] == '-') then t[1..] else t;
    if digits != [] && forall k :: 0 <= k < |digits| ==> IsDigit(digits[k]) then
      var v: int := DigitsValue(digits);
      Some(if neg then -v else v)
    else None
  }

  /** `int(v)`: `None` stands for the `TypeError` or `ValueError` Python raises. */
  function PyInt(v: Value): Option<int> {
    match v
    case Bool(b) => Some(if b then 1 else 0)
    case Int(i) => Some(i)
    case Str(s) => ParseInt(s)
    case _ => None
  }

  lemma {:induction false} DigitsOfNat(n: nat)
    ensures forall k :: 0 <= k < |NatToString(n)| ==> IsDigit(NatToString(n)[k])
    ensures DigitsValue(NatToString(n)) == n
  {
    var s := NatToString(n);
    if n >= 10 {
      DigitsOfNat(n / 10);
      assert s[..|s| - 1] == NatToString(n / 10);
    }
    assert "0123456789"[n % 10] as int - '0' as int == n % 10;
  }

  /** Stripping a string without whitespace leaves it unchanged. */
  lemma StripNoSpace(s: string)
    requires forall k :: 0 <= k < |s| ==> !IsSpace(s[k])
    ensures Strip(s) == s
  {
    assert RStrip(s) == s;
    assert LStrip(s) == s;
  }

  /** A run of decimal digits parses as its value. */
  lemma ParseDigits(d: string)
    requires d != [] && forall k :: 0 <= k < |d| ==> IsDigit(d[k])
    ensures ParseInt(d) == Some(DigitsValue(d))
  {
    StripNoSpace(d);
  }

  /** A minus sign and a run of decimal digits parse as the negated value. */
  lemma ParseNegDigits(d: string)
    requires d != [] && forall k :: 0 <= k < |d| ==> IsDigit(d[k])
    ensures ParseInt("-" + d).Some? && ParseInt("-" + d).value + DigitsValue(d) == 0
  {
    var m := "-" + d;
    forall k | 0 <= k < |m| ensures !IsSpace(m[k]) {
      if k > 0 {
        assert m[k] == d[k - 1];
      }
    }
    StripNoSpace(m);
    assert m[1..] == d;
  }

  /** `int(str(i)) == i`: decimal formatting and parsing are inverse. */
  lemma IntRoundTrip(i: int)
    ensures PyInt(Str(IntToString(i))) == Some(i)
  {
    var n: nat := if i < 0 then -i else i;
    DigitsOfNat(n);
    if i < 0 {
      ParseNegDigits(NatToString(n));
    } else {
      ParseDigits(NatToString(n));
    }
  }
}
