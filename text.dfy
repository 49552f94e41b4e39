/**
  Text helpers shared by the client and the backends: bytes, the UTF-8
  encoding that `String.data(using: .utf8)` performs, decimal rendering of
  integers as Swift string interpolation does it, searching for the last
  occurrence of a character, and ASCII lower-casing.
 */
module Text {
  import opened Wrappers

  type byte = x: int | 0 <= x < 256

  // ---------------------------------------------------------------------------
  // UTF-8

  /**
    The length of the UTF-8 sequence that a byte starts (RFC 3629, section 3),
    or 0 for a byte that cannot start one.
   */
  function SequenceLength(b: byte): nat
  {
    if b < 0x80 then 1
    else if 0xC0 <= b < 0xE0 then 2
    else if 0xE0 <= b < 0xF0 then 3
    else if 0xF0 <= b < 0xF8 then 4
    else 0
  }

  /** The UTF-8 encoding of one Unicode scalar value (RFC 3629, section 3). */
  function Utf8Char(c: char): (r: seq<byte>)
    ensures 1 <= |r| <= 4
    ensures (c as int < 0x80) <==> |r| == 1
    ensures SequenceLength(r[0]) == |r|
  {
    var n := c as int;
    if n < 0x80 then [n]
    else if n < 0x800 then [0xC0 + n / 64, 0x80 + n % 64]
    else if n < 0x10000 then [0xE0 + n / 64 / 64, 0x80 + n / 64 % 64, 0x80 + n % 64]
    else [0xF0 + n / 64 / 64 / 64, 0x80 + n / 64 / 64 % 64, 0x80 + n / 64 % 64, 0x80 + n % 64]
  }

  /** The UTF-8 encoding of a string. */
  function Utf8(s: string): seq<byte>
  {
    if s == [] then [] else Utf8Char(s[0]) + Utf8(s[1..])
  }

  /** Decodes a byte sequence that is exactly one UTF-8 encoded scalar value. */
  function DecodeUtf8Char(b: seq<byte>): Option<char>
  {
    var v: int :=
      if |b| == 1 && b[0] < 0x80 then b[0] as int
      else if |b| == 2 && 0xC0 <= b[0] < 0xE0 && 0x80 <= b[1] < 0xC0 then
        (b[0] as int - 0xC0) * 64 + (b[1] as int - 0x80)
      else if |b| == 3 && 0xE0 <= b[0] < 0xF0 && 0x80 <= b[1] < 0xC0 && 0x80 <= b[2] < 0xC0 then
        (b[0] as int - 0xE0) * 4096 + (b[1] as int - 0x80) * 64 + (b[2] as int - 0x80)
      else if |b| == 4 && 0xF0 <= b[0] < 0xF8 && 0x80 <= b[1] < 0xC0 && 0x80 <= b[2] < 0xC0
              && 0x80 <= b[3] < 0xC0 then
        (b[0] as int - 0xF0) * 262144 + (b[1] as int - 0x80) * 4096
        + (b[2] as int - 0x80) * 64 + (b[3] as int - 0x80)
      else -1;
    if 0 <= v < 0xD800 || 0xE000 <= v < 0x11_0000 then Some(v as char) else None
  }

  /** Encoding a scalar value and decoding the bytes gives the value back. */
  lemma Utf8CharRoundTrip(c: char)
    ensures DecodeUtf8Char(Utf8Char(c)) == Some(c)
  {
    var n := c as int;
    if n < 0x80 {
    } else if n < 0x800 {
      TwoByteRoundTrip(n);
    } else if n < 0x10000 {
      ThreeByteRoundTrip(n);
    } else {
      FourByteRoundTrip(n);
    }
  }

  lemma TwoByteRoundTrip(n: int)
    requires 0x80 <= n < 0x800
    ensures DecodeUtf8Char([0xC0 + n / 64, 0x80 + n % 64]) == Some(n as char)
  {
    assert (n / 64) * 64 + n % 64 == n;
  }

  lemma ThreeByteRoundTrip(n: int)
    requires 0x800 <= n < 0x10000 && !(0xD800 <= n < 0xE000)
    ensures DecodeUtf8Char([0xE0 + n / 64 / 64, 0x80 + n / 64 % 64, 0x80 + n % 64]) == Some(n as char)
  {
    var q1, q2 := n / 64, n / 64 / 64;
    assert n == q1 * 64 + n % 64 && q1 == q2 * 64 + q1 % 64;
  }

  lemma FourByteRoundTrip(n: int)
    requires 0x10000 <= n < 0x11_0000
    ensures DecodeUtf8Char([0xF0 + n / 64 / 64 / 64, 0x80 + n / 64 / 64 % 64, 0x80 + n / 64 % 64, 0x80 + n % 64])
            == Some(n as char)
  {
    var q1, q2, q3 := n / 64, n / 64 / 64, n / 64 / 64 / 64;
    assert n == q1 * 64 + n % 64 && q1 == q2 * 64 + q1 % 64 && q2 == q3 * 64 + q2 % 64;
  }

  /** Decodes a byte sequence made of whole UTF-8 encoded scalar values, one after the other. */
  function DecodeUtf8(b: seq<byte>): Option<string>
    decreases |b|
  {
    if b == [] then Some([])
    else
      var k := SequenceLength(b[0]);
      if k == 0 || |b| < k then None
      else match DecodeUtf8Char(b[..k])
        case None => None
        case Some(c) =>
          match DecodeUtf8(b[k..])
          case None => None
          case Some(rest) => Some([c] + rest)
  }

  /** The UTF-8 bytes of any string decode back to that string. */
  lemma {:induction false} Utf8RoundTrip(s: string)
    ensures DecodeUtf8(Utf8(s)) == Some(s)
  {
    if s != [] {
      var e := Utf8Char(s[0]);
      var b := Utf8(s);
      assert b == e + Utf8(s[1..]);
      assert b[0] == e[0] && b[..|e|] == e && b[|e|..] == Utf8(s[1..]);
      Utf8CharRoundTrip(s[0]);
      Utf8RoundTrip(s[1..]);
      assert [s[0]] + s[1..] == s;
    }
  }

  /** A run of bytes inside a longer sequence that is the UTF-8 of a string decodes back to it. */
  lemma Utf8RoundTripAt(b: seq<byte>, i: nat, j: nat, s: string)
    requires i <= j <= |b| && b[i..j] == Utf8(s)
    ensures DecodeUtf8(b[i..j]) == Some(s)
  {
    Utf8RoundTrip(s);
  }

  /** Different strings never have the same UTF-8 bytes. */
  lemma Utf8Injective(s: string, t: string)
    ensures Utf8(s) == Utf8(t) ==> s == t
  {
    Utf8RoundTrip(s);
    Utf8RoundTrip(t);
  }

  /** UTF-8 encoding distributes over concatenation. */
  lemma {:induction false} Utf8Append(a: string, b: string)
    ensures Utf8(a + b) == Utf8(a) + Utf8(b)
  {
    if a == [] {
      assert a + b == b;
    } else {
      assert (a + b)[1..] == a[1..] + b;
      Utf8Append(a[1..], b);
    }
  }

  /** A string of ASCII characters encodes to one byte per character, the code itself. */
  lemma {:induction false} Utf8Ascii(s: string)
    requires forall i :: 0 <= i < |s| ==> s[i] as int < 0x80
    ensures |Utf8(s)| == |s|
    ensures forall i :: 0 <= i < |s| ==> Utf8(s)[i] == s[i] as int
  {
    if s != [] {
      Utf8Ascii(s[1..]);
    }
  }

  // ---------------------------------------------------------------------------
  // Decimal rendering

  function DigitChar(d: nat): char
    requires d < 10
  {
    "0123456789"[d]
  }

  /** The decimal digits of a natural number, most significant first, without leading zeros. */
  function Digits(n: nat): (r: string)
    ensures |r| >= 1
    ensures forall i :: 0 <= i < |r| ==> '0' <= r[i] <= '9'
    ensures |r| > 1 ==> r[0] != '0'
  {
    if n < 10 then [DigitChar(n)] else Digits(n / 10) + [DigitChar(n % 10)]
  }

  /** How Swift's string interpolation renders an `Int`. */
  function Decimal(n: int): string
  {
    if n < 0 then "-" + Digits(-n) else Digits(n)
  }

  /** The value of a string of decimal digits. */
  function DigitsValue(s: string): int
  {
    if s == [] then 0
    else DigitsValue(s[..|s| - 1]) * 10 + (s[|s| - 1] as int - '0' as int)
  }

  /** Reading back the rendered digits gives the number. */
  lemma {:induction false} DigitsRoundTrip(n: nat)
    ensures DigitsValue(Digits(n)) == n
  {
    if n >= 10 {
      var q, d := n / 10, n % 10;
      DigitsRoundTrip(q);
      var s := Digits(n);
      assert s == Digits(q) + [DigitChar(d)];
      assert s[..|s| - 1] == Digits(q) && s[|s| - 1] == DigitChar(d);
      DigitCharValue(d);
      assert DigitsValue(s) == DigitsValue(Digits(q)) * 10 + d;
    } else {
      DigitCharValue(n);
    }
  }

  lemma DigitCharValue(d: nat)
    requires d < 10
    ensures DigitChar(d) as int - '0' as int == d
  {
  }

  // ---------------------------------------------------------------------------
  // Searching and case

  /** The index of the last occurrence of `c` in `s`, if there is one. */
  function LastIndexOf(s: string, c: char): (r: Option<nat>)
    ensures r.Some? ==> r.value < |s| && s[r.value] == c
    ensures r.Some? ==> forall j :: r.value < j < |s| ==> s[j] != c
    ensures r.None? ==> forall j :: 0 <= j < |s| ==> s[j] != c
  {
    if s == [] then None
    else if s[|s| - 1] == c then Some(|s| - 1)
    else LastIndexOf(s[..|s| - 1], c)
  }

  /** An occurrence with none after it is the last one. */
  lemma LastIndexOfIs(s: string, c: char, k: nat)
    requires k < |s| && s[k] == c
    requires forall j :: k < j < |s| ==> s[j] != c
    ensures LastIndexOf(s, c) == Some(k)
  {
    var r := LastIndexOf(s, c);
    assert r.Some? && k <= r.value by {
      assert s[k] == c;
    }
  }

  function LowerChar(c: char): char
  {
    if 'A' <= c <= 'Z' then (c as int + 32) as char else c
  }

  /** ASCII lower-casing. */
  function Lower(s: string): (r: string)
    ensures |r| == |s|
  {
    seq(|s|, i requires 0 <= i < |s| => LowerChar(s[i]))
  }
}
