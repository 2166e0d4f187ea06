/** `urllib.parse.quote(s, safe="")`: every character other than an ASCII letter, digit or
    one of `_.-~` is replaced by the `%XX` escapes of its UTF-8 bytes. */
module Quoting {

  /** The characters `quote` never escapes. */
  predicate Unreserved(c: char) {
    ('A' <= c <= 'Z') || ('a' <= c <= 'z') || ('0' <= c <= '9') || c == '_' || c == '.' || c == '-' || c == '~'
  }

  predicate IsHexUpper(c: char) {
    ('0' <= c <= '9') || ('A' <= c <= 'F')
  }

  function HexDigit(d: nat): (c: char)
    requires d < 16
    ensures IsHexUpper(c)
  {
    if d < 10 then (d + 48) as char else (d - 10 + 65) as char
  }

  function HexValue(c: char): nat
    requires IsHexUpper(c)
  {
    if c <= '9' then c as nat - 48 else c as nat - 55
  }

  lemma HexDigitValue(d: nat)
    requires d < 16
    ensures HexValue(HexDigit(d)) == d
  {
  }

  /** The UTF-8 encoding of one character, as byte values. */
  function Utf8(c: char): (r: seq<nat>)
    ensures 1 <= |r| <= 4 && forall k :: 0 <= k < |r| ==> r[k] < 256
    ensures |r| == 1 <==> c as int < 128
    ensures |r| == 1 ==> r[0] == c as int
  {
    var n := c as int;
    if n < 0x80 then [n]
    else if n < 0x800 then [0xC0 + n / 64, 0x80 + n % 64]
    else if n < 0x1_0000 then [0xE0 + n / 4096, 0x80 + (n / 64) % 64, 0x80 + n % 64]
    else [0xF0 + n / 262144, 0x80 + (n / 4096) % 64, 0x80 + (n / 64) % 64, 0x80 + n % 64]
  }

  /** `%XX` for one byte, with upper-case hexadecimal digits. */
  function Escape(b: nat): (r: string)
    requires b < 256
    ensures |r| == 3 && r[0] == '%' && IsHexUpper(r[1]) && IsHexUpper(r[2])
  {
    ['%', HexDigit(b / 16), HexDigit(b % 16)]
  }

  function EscapeBytes(bs: seq<nat>): (r: string)
    requires forall k :: 0 <= k < |bs| ==> bs[k] < 256
    ensures forall c :: c in r ==> c == '%' || IsHexUpper(c)
  {
    if bs == [] then [] else Escape(bs[0]) + EscapeBytes(bs[1..])
  }

  function QuoteChar(c: char): (r: string)
    ensures forall d :: d in r ==> Unreserved(d) || d == '%' || IsHexUpper(d)
  {
    if Unreserved(c) then [c] else EscapeBytes(Utf8(c))
  }

  /** `quote(s, safe="")`: what it yields holds only unreserved characters and escapes, so
      no `/`, `:`, `@` or other character with a meaning inside a URL. */
  function Quote(s: string): (r: string)
    ensures forall d :: d in r ==> Unreserved(d) || d == '%' || IsHexUpper(d)
  {
    if s == [] then [] else QuoteChar(s[0]) + Quote(s[1..])
  }

  /** A string of unreserved characters (a GitHub token, say) is left as it is. */
  lemma {:induction false} QuoteUnreserved(s: string)
    requires forall k :: 0 <= k < |s| ==> Unreserved(s[k])
    ensures Quote(s) == s
  {
    if s != [] {
      QuoteUnreserved(s[1..]);
      assert s == [s[0]] + s[1..];
    }
  }

  /** Percent-decoding of `%XX` escapes into the characters with those codes. */
  function Unquote(s: string): string
    decreases |s|
  {
    if s == [] then []
    else if |s| >= 3 && s[0] == '%' && IsHexUpper(s[1]) && IsHexUpper(s[2]) then
      [(HexValue(s[1]) * 16 + HexValue(s[2])) as char] + Unquote(s[3..])
    else [s[0]] + Unquote(s[1..])
  }

  /** One ASCII character, quoted and then decoded, comes back. */
  lemma UnquoteChar(c: char, rest: string)
    requires c as int < 128
    ensures Unquote(QuoteChar(c) + rest) == [c] + Unquote(rest)
  {
    if Unreserved(c) {
      assert (QuoteChar(c) + rest)[1..] == rest;
    } else {
      var n := c as int;
      var e := Escape(n);
      assert Utf8(c) == [n];
      assert EscapeBytes([n]) == e + EscapeBytes([]);
      assert QuoteChar(c) + rest == e + rest;
      HexDigitValue(n / 16);
      HexDigitValue(n % 16);
      assert (e + rest)[3..] == rest;
    }
  }

  /** An ASCII string quoted and then decoded comes back unchanged. */
  lemma {:induction false} QuoteAsciiRoundTrip(s: string)
    requires forall k :: 0 <= k < |s| ==> s[k] as int < 128
    ensures Unquote(Quote(s)) == s
  {
    if s != [] {
      QuoteAsciiRoundTrip(s[1..]);
      UnquoteChar(s[0], Quote(s[1..]));
      assert s == [s[0]] + s[1..];
    }
  }
}
