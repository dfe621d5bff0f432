/** UTF-8 (RFC 3629, section 3) and percent-encoding (RFC 3986, sections 2.1 and 2.3). */
module Utf8 {
  import opened Wrappers

  type Byte = n: int | 0 <= n < 256

  function EncodeChar(c: char): seq<Byte> {
    var n := c as int;
    if n < 0x80 then [n]
    else if n < 0x800 then [0xC0 + n / 0x40, 0x80 + n % 0x40]
    else if n < 0x10000 then [0xE0 + n / 0x1000, 0x80 + n / 0x40 % 0x40, 0x80 + n % 0x40]
    else [0xF0 + n / 0x40000, 0x80 + n / 0x1000 % 0x40, 0x80 + n / 0x40 % 0x40, 0x80 + n % 0x40]
  }

  function Encode(s: string): seq<Byte> {
    if s == "" then [] else EncodeChar(s[0]) + Encode(s[1..])
  }

  /** Whether `n` is a Unicode scalar value. */
  predicate IsScalar(n: int) { 0 <= n < 0xD800 || 0xE000 <= n < 0x110000 }

  predicate Tail(b: Byte) { 0x80 <= b < 0xC0 }

  function Two(a: int, b: int): int { (a - 0xC0) * 0x40 + (b - 0x80) }

  function Three(a: int, b: int, c: int): int { (a - 0xE0) * 0x1000 + (b - 0x80) * 0x40 + (c - 0x80) }

  function Four(a: int, b: int, c: int, d: int): int {
    (a - 0xF0) * 0x40000 + (b - 0x80) * 0x1000 + (c - 0x80) * 0x40 + (d - 0x80)
  }

  /** The scalar value of the sequence that begins with `bs[0]`, and its length; None when the
      bytes are no sequence, or an overlong one, or encode a surrogate. */
  function DecodeFirst(bs: seq<Byte>): (r: Option<(int, nat)>)
    requires bs != []
    ensures r.Some? ==> IsScalar(r.value.0) && 1 <= r.value.1 <= |bs|
  {
    var b := bs[0];
    if b < 0x80 then Some((b, 1))
    else if 0xC2 <= b < 0xE0 && |bs| >= 2 && Tail(bs[1]) then Some((Two(b, bs[1]), 2))
    else if 0xE0 <= b < 0xF0 && |bs| >= 3 && Tail(bs[1]) && Tail(bs[2]) then
      var n := Three(b, bs[1], bs[2]);
      if n >= 0x800 && IsScalar(n) then Some((n, 3)) else None
    else if 0xF0 <= b < 0xF5 && |bs| >= 4 && Tail(bs[1]) && Tail(bs[2]) && Tail(bs[3]) then
      var n := Four(b, bs[1], bs[2], bs[3]);
      if n >= 0x10000 && IsScalar(n) then Some((n, 4)) else None
    else None
  }

  /** `String::from_utf8` */
  function Decode(bs: seq<Byte>): Option<string>
    decreases |bs|
  {
    if bs == [] then Some("")
    else
      match DecodeFirst(bs)
      case None => None
      case Some((n, k)) =>
        match Decode(bs[k..])
        case None => None
        case Some(s) => Some([n as char] + s)
  }

  /** A number in base 64. */
  lemma Digits(n: int)
    requires n >= 0
    ensures n == n / 0x40 * 0x40 + n % 0x40 && 0 <= n % 0x40 < 0x40
    ensures n / 0x40 == n / 0x1000 * 0x40 + n / 0x40 % 0x40 && 0 <= n / 0x40 % 0x40 < 0x40
    ensures n / 0x1000 == n / 0x40000 * 0x40 + n / 0x1000 % 0x40 && 0 <= n / 0x1000 % 0x40 < 0x40
  {
    NestedQuotient(n, 0x40);
    NestedQuotient(n, 0x1000);
  }

  lemma NestedQuotient(n: int, d: int)
    requires n >= 0 && (d == 0x40 || d == 0x1000)
    ensures n / (d * 0x40) == n / d / 0x40
  {
  }

  lemma DecodeFirstOfEncoded(c: char, rest: seq<Byte>)
    ensures DecodeFirst(EncodeChar(c) + rest) == Some((c as int, |EncodeChar(c)|))
  {
    var n := c as int;
    var bs := EncodeChar(c) + rest;
    Digits(n);
    if n < 0x80 {
    } else if n < 0x800 {
      assert bs[0] == 0xC0 + n / 0x40 && bs[1] == 0x80 + n % 0x40;
    } else if n < 0x10000 {
      assert bs[0] == 0xE0 + n / 0x1000 && bs[1] == 0x80 + n / 0x40 % 0x40 && bs[2] == 0x80 + n % 0x40;
    } else {
      assert bs[0] == 0xF0 + n / 0x40000 && bs[1] == 0x80 + n / 0x1000 % 0x40;
      assert bs[2] == 0x80 + n / 0x40 % 0x40 && bs[3] == 0x80 + n % 0x40;
    }
  }

  /** Decoding undoes encoding. */
  lemma {:induction false} RoundTrip(s: string)
    ensures Decode(Encode(s)) == Some(s)
  {
    if s != "" {
      DecodeFirstOfEncoded(s[0], Encode(s[1..]));
      RoundTrip(s[1..]);
      assert Encode(s)[|EncodeChar(s[0])|..] == Encode(s[1..]);
      assert [s[0]] + s[1..] == s;
    }
  }

  lemma TwoOf(a: int, b: int, n: int)
    requires 0xC2 <= a < 0xE0 && 0x80 <= b < 0xC0 && n == Two(a, b)
    ensures 0x80 <= n < 0x800 && n / 0x40 == a - 0xC0 && n % 0x40 == b - 0x80
  {
  }

  lemma ThreeOf(a: int, b: int, c: int, n: int)
    requires 0xE0 <= a < 0xF0 && 0x80 <= b < 0xC0 && 0x80 <= c < 0xC0 && n == Three(a, b, c)
    ensures n < 0x10000 && n / 0x1000 == a - 0xE0 && n / 0x40 % 0x40 == b - 0x80 && n % 0x40 == c - 0x80
  {
    assert n / 0x40 == (a - 0xE0) * 0x40 + (b - 0x80);
  }

  lemma FourOf(a: int, b: int, c: int, d: int, n: int)
    requires 0xF0 <= a < 0xF5 && 0x80 <= b < 0xC0 && 0x80 <= c < 0xC0 && 0x80 <= d < 0xC0 && n == Four(a, b, c, d)
    ensures n / 0x40000 == a - 0xF0 && n / 0x1000 % 0x40 == b - 0x80 && n / 0x40 % 0x40 == c - 0x80 && n % 0x40 == d - 0x80
  {
    assert n / 0x40 == (a - 0xF0) * 0x1000 + (b - 0x80) * 0x40 + (c - 0x80);
    assert n / 0x1000 == (a - 0xF0) * 0x40 + (b - 0x80);
  }

  /** What decodes is the one encoding of its character. */
  lemma DecodedFirstIsEncoded(bs: seq<Byte>)
    requires bs != [] && DecodeFirst(bs).Some?
    ensures var (n, k) := DecodeFirst(bs).value; EncodeChar(n as char) == bs[..k]
  {
    var (n, k) := DecodeFirst(bs).value;
    if k == 2 {
      TwoOf(bs[0], bs[1], n);
    } else if k == 3 {
      ThreeOf(bs[0], bs[1], bs[2], n);
    } else if k == 4 {
      FourOf(bs[0], bs[1], bs[2], bs[3], n);
    }
  }

  /** Only encodings decode: no overlong forms, no surrogates, no stray or missing bytes. */
  lemma {:induction false} DecodesIff(bs: seq<Byte>, s: string)
    ensures Decode(bs) == Some(s) <==> Encode(s) == bs
    decreases |bs|
  {
    if Encode(s) == bs { RoundTrip(s); }
    if Decode(bs) == Some(s) && bs != [] {
      var (n, k) := DecodeFirst(bs).value;
      DecodedFirstIsEncoded(bs);
      DecodesIff(bs[k..], s[1..]);
      assert bs == bs[..k] + bs[k..];
    }
  }

  // ---- Percent-encoding

  predicate Unreserved(b: Byte) {
    0x30 <= b <= 0x39 || 0x41 <= b <= 0x5A || 0x61 <= b <= 0x7A || b == 0x2D || b == 0x2E || b == 0x5F || b == 0x7E
  }

  function HexDigit(n: int): char
    requires 0 <= n < 16
  {
    if n < 10 then (0x30 + n) as char else (0x41 + n - 10) as char
  }

  function HexValue(b: Byte): Option<int> {
    if 0x30 <= b <= 0x39 then Some(b - 0x30)
    else if 0x41 <= b <= 0x46 then Some(b - 0x41 + 10)
    else if 0x61 <= b <= 0x66 then Some(b - 0x61 + 10)
    else None
  }

  function PercentEncodeByte(b: Byte): string {
    if Unreserved(b) then [b as char] else ['%', HexDigit(b / 16), HexDigit(b % 16)]
  }

  function PercentEncodeBytes(bs: seq<Byte>): string {
    if bs == [] then "" else PercentEncodeByte(bs[0]) + PercentEncodeBytes(bs[1..])
  }

  /** `urlencoding::encode` */
  function PercentEncode(s: string): string { PercentEncodeBytes(Encode(s)) }

  /** A `%` that two hexadecimal digits do not follow stands for itself. */
  function PercentDecodeBytes(bs: seq<Byte>): seq<Byte>
    decreases |bs|
  {
    if bs == [] then []
    else if bs[0] == 0x25 && |bs| >= 3 && HexValue(bs[1]).Some? && HexValue(bs[2]).Some?
    then [HexValue(bs[1]).value * 16 + HexValue(bs[2]).value] + PercentDecodeBytes(bs[3..])
    else [bs[0]] + PercentDecodeBytes(bs[1..])
  }

  /** `urlencoding::decode` */
  function PercentDecode(s: string): Option<string> { Decode(PercentDecodeBytes(Encode(s))) }

  /** The characters `urlencoding::encode` may write. */
  predicate UrlSafe(c: char) { c as int < 0x80 && (c == '%' || Unreserved(c as int)) }

  lemma PercentEncodedByte(b: Byte)
    ensures forall c :: c in PercentEncodeByte(b) ==> UrlSafe(c)
  {
  }

  lemma {:induction false} PercentEncodedIsSafe(bs: seq<Byte>)
    ensures forall c :: c in PercentEncodeBytes(bs) ==> UrlSafe(c)
  {
    if bs != [] {
      PercentEncodedByte(bs[0]);
      PercentEncodedIsSafe(bs[1..]);
    }
  }

  lemma {:induction false} EncodeAppend(s: string, t: string)
    ensures Encode(s + t) == Encode(s) + Encode(t)
  {
    if s == "" {
      assert s + t == t;
    } else {
      assert (s + t)[1..] == s[1..] + t;
      EncodeAppend(s[1..], t);
    }
  }

  lemma DecodeEncodedByte(b: Byte, rest: seq<Byte>)
    ensures PercentDecodeBytes(Encode(PercentEncodeByte(b)) + rest) == [b] + PercentDecodeBytes(rest)
  {
    if Unreserved(b) {
      AsciiEncode(b as char, "");
      assert [b as char] + "" == [b as char];
      assert ([b] + rest)[1..] == rest;
    } else {
      var h, l := HexDigit(b / 16), HexDigit(b % 16);
      AsciiEncode('%', [h, l]);
      AsciiEncode(h, [l]);
      AsciiEncode(l, "");
      assert [l] + "" == [l];
      var bs := Encode(PercentEncodeByte(b)) + rest;
      assert bs == [0x25, h as int, l as int] + rest;
      assert bs[3..] == rest;
      assert HexValue(h as int) == Some(b / 16) && HexValue(l as int) == Some(b % 16);
    }
  }

  lemma AsciiEncode(c: char, s: string)
    requires c as int < 0x80
    ensures Encode([c] + s) == [c as int] + Encode(s)
  {
    assert ([c] + s)[1..] == s;
  }

  lemma {:induction false} PercentBytesRoundTrip(bs: seq<Byte>)
    ensures PercentDecodeBytes(Encode(PercentEncodeBytes(bs))) == bs
  {
    if bs != [] {
      EncodeAppend(PercentEncodeByte(bs[0]), PercentEncodeBytes(bs[1..]));
      DecodeEncodedByte(bs[0], Encode(PercentEncodeBytes(bs[1..])));
      PercentBytesRoundTrip(bs[1..]);
    }
  }

  /** Every string survives percent-encoding. */
  lemma PercentRoundTrip(s: string)
    ensures PercentDecode(PercentEncode(s)) == Some(s)
  {
    PercentBytesRoundTrip(Encode(s));
    RoundTrip(s);
  }

  // ---- Decoding text the encoder did not write

  /** Hexadecimal digits count in either case. */
  lemma HexValueIff(b: Byte, v: int)
    ensures HexValue(b) == Some(v) <==>
      0 <= v < 16 && (b == "0123456789ABCDEF"[v] as int || b == "0123456789abcdef"[v] as int)
  {
  }

  predicate Escaped(bs: seq<Byte>, i: nat) {
    i + 2 < |bs| && bs[i] == 0x25 && HexValue(bs[i + 1]).Some? && HexValue(bs[i + 2]).Some?
  }

  /** Text without an escape stands for itself, stray percent signs included. */
  lemma {:induction false} NothingEscaped(bs: seq<Byte>)
    requires forall i: nat :: !Escaped(bs, i)
    ensures PercentDecodeBytes(bs) == bs
  {
    if bs != [] {
      assert !Escaped(bs, 0);
      forall i: nat ensures !Escaped(bs[1..], i) { assert !Escaped(bs, i + 1); }
      NothingEscaped(bs[1..]);
    }
  }

  /** An escape behind such text stands for the byte of its two digits. */
  lemma {:induction false} FirstEscape(bs: seq<Byte>, i: nat)
    requires Escaped(bs, i) && forall k: nat :: k < i ==> !Escaped(bs, k)
    ensures PercentDecodeBytes(bs)
         == bs[..i] + [16 * HexValue(bs[i + 1]).value + HexValue(bs[i + 2]).value] + PercentDecodeBytes(bs[i + 3..])
  {
    if i > 0 {
      var tail := bs[1..];
      assert !Escaped(bs, 0);
      assert Escaped(tail, i - 1);
      forall k: nat | k < i - 1 ensures !Escaped(tail, k) { assert !Escaped(bs, k + 1); }
      FirstEscape(tail, i - 1);
      assert tail[i - 1 + 3..] == bs[i + 3..];
      assert bs[..i] == [bs[0]] + tail[..i - 1];
    }
  }
}
