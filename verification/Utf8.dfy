// UTF-8 as both canonicalizers use it: validity, encoding and byte order
// (RFC 3629, sections 1, 3 and 4).
module Utf8 {
  import opened Collections

  newtype byte = x: int | 0 <= x < 256

  function Tail(v: int): byte
    requires v >= 0
  {
    (128 + v % 64) as byte
  }

  function EncodeChar(c: char): seq<byte> {
    var v := c as int;
    if v < 0x80 then [v as byte]
    else if v < 0x800 then [(192 + v / 64) as byte, Tail(v)]
    else if v < 0x10000 then [(224 + v / 64 / 64) as byte, Tail(v / 64), Tail(v)]
    else [(240 + v / 64 / 64 / 64) as byte, Tail(v / 64 / 64), Tail(v / 64), Tail(v)]
  }

  function Encode(s: string): seq<byte> {
    if s == "" then [] else EncodeChar(s[0]) + Encode(s[1..])
  }

  predicate Scalar(v: int) {
    0 <= v < 0xD800 || 0xE000 <= v < 0x110000
  }

  predicate Continues(b: seq<byte>, n: nat) {
    n < |b| && forall i :: 1 <= i <= n ==> 128 <= b[i] < 192
  }

  function Low(b: byte): int
    requires 128 <= b < 192
  {
    b as int - 128
  }

  /** The first scalar value of b and its length, by the table of RFC 3629. */
  function DecodeChar(b: seq<byte>): Option<(char, nat)> {
    if b == [] then None
    else if b[0] < 128 then Some((b[0] as char, 1))
    else if 192 <= b[0] < 224 && Continues(b, 1) then
      Accept((b[0] as int - 192) * 64 + Low(b[1]), 0x80, 2)
    else if 224 <= b[0] < 240 && Continues(b, 2) then
      Accept(((b[0] as int - 224) * 64 + Low(b[1])) * 64 + Low(b[2]), 0x800, 3)
    else if 240 <= b[0] < 248 && Continues(b, 3) then
      Accept((((b[0] as int - 240) * 64 + Low(b[1])) * 64 + Low(b[2])) * 64 + Low(b[3]), 0x10000, 4)
    else None
  }

  /** No value below the least one that needs this many bytes, and no surrogate. */
  function Accept(v: int, least: int, width: nat): Option<(char, nat)> {
    if v >= least && Scalar(v) then Some((v as char, width)) else None
  }

  function Decode(b: seq<byte>): Option<string>
    decreases |b|
  {
    if b == [] then Some("")
    else
      match DecodeChar(b)
      case None => None
      case Some(first) =>
        if first.1 == 0 || first.1 > |b| then None
        else
          match Decode(b[first.1..])
          case None => None
          case Some(rest) => Some([first.0] + rest)
  }

  lemma {:induction false} CharDecodes(c: char, rest: seq<byte>)
    ensures DecodeChar(EncodeChar(c) + rest) == Some((c, |EncodeChar(c)|))
  {
    var v := c as int;
    assert v == v / 64 * 64 + v % 64;
    assert v / 64 == v / 64 / 64 * 64 + v / 64 % 64;
    assert v / 64 / 64 == v / 64 / 64 / 64 * 64 + v / 64 / 64 % 64;
  }

  lemma {:induction false} Digits(high: int, low: int)
    requires 0 <= low < 64
    ensures (high * 64 + low) / 64 == high && (high * 64 + low) % 64 == low
  {
  }

  lemma {:induction false} TwoBytes(a: byte, b: byte, v: int)
    requires 192 <= a < 224 && 128 <= b < 192 && v == (a as int - 192) * 64 + Low(b) && v >= 0x80
    ensures EncodeChar(v as char) == [a, b]
  {
    Digits(a as int - 192, Low(b));
  }

  lemma {:induction false} ThreeBytes(a: byte, b: byte, c: byte, v: int)
    requires 224 <= a < 240 && 128 <= b < 192 && 128 <= c < 192
    requires v == ((a as int - 224) * 64 + Low(b)) * 64 + Low(c) && v >= 0x800 && Scalar(v)
    ensures EncodeChar(v as char) == [a, b, c]
  {
    Digits(a as int - 224, Low(b));
    Digits((a as int - 224) * 64 + Low(b), Low(c));
  }

  lemma {:induction false} FourBytes(a: byte, b: byte, c: byte, d: byte, v: int)
    requires 240 <= a < 248 && 128 <= b < 192 && 128 <= c < 192 && 128 <= d < 192
    requires v == (((a as int - 240) * 64 + Low(b)) * 64 + Low(c)) * 64 + Low(d) && v >= 0x10000 && Scalar(v)
    ensures EncodeChar(v as char) == [a, b, c, d]
  {
    Digits(a as int - 240, Low(b));
    Digits((a as int - 240) * 64 + Low(b), Low(c));
    Digits(((a as int - 240) * 64 + Low(b)) * 64 + Low(c), Low(d));
  }

  lemma {:induction false} CharEncodes(b: seq<byte>)
    requires DecodeChar(b).Some?
    ensures var (c, n) := DecodeChar(b).value; 1 <= n <= |b| && EncodeChar(c) == b[..n]
  {
    var (c, n) := DecodeChar(b).value;
    if n == 2 {
      TwoBytes(b[0], b[1], c as int);
      assert b[..2] == [b[0], b[1]];
    } else if n == 3 {
      ThreeBytes(b[0], b[1], b[2], c as int);
      assert b[..3] == [b[0], b[1], b[2]];
    } else if n == 4 {
      FourBytes(b[0], b[1], b[2], b[3], c as int);
      assert b[..4] == [b[0], b[1], b[2], b[3]];
    } else {
      assert c as int == b[0] as int && n == 1;
      assert b[..1] == [b[0]];
    }
  }

  /** Decoding is the inverse of encoding... */
  lemma {:induction false} DecodeEncode(s: string)
    ensures Decode(Encode(s)) == Some(s)
  {
    if s != "" {
      CharDecodes(s[0], Encode(s[1..]));
      DecodeEncode(s[1..]);
      assert Encode(s) == EncodeChar(s[0]) + Encode(s[1..]);
      assert Encode(s)[|EncodeChar(s[0])|..] == Encode(s[1..]);
      assert s == [s[0]] + s[1..];
    }
  }

  /** ... and the valid byte sequences are exactly the encodings. */
  lemma {:induction false} EncodeDecode(b: seq<byte>)
    ensures Decode(b).Some? ==> Encode(Decode(b).value) == b
    decreases |b|
  {
    if b != [] && Decode(b).Some? {
      var c, n := DecodeStep(b);
      var back := b[n..];
      EncodeDecode(back);
      EncodeCons(c, Decode(back).value);
      assert b == b[..n] + back;
    }
  }

  lemma {:induction false} DecodeStep(b: seq<byte>) returns (c: char, n: nat)
    requires b != [] && Decode(b).Some?
    ensures 1 <= n <= |b| && EncodeChar(c) == b[..n]
    ensures Decode(b[n..]).Some? && Decode(b).value == [c] + Decode(b[n..]).value
  {
    CharEncodes(b);
    c, n := DecodeChar(b).value.0, DecodeChar(b).value.1;
  }

  lemma {:induction false} EncodeCons(c: char, s: string)
    ensures Encode([c] + s) == EncodeChar(c) + Encode(s)
  {
    assert ([c] + s)[1..] == s;
  }

  lemma {:induction false} EncodeInjective(s: string, t: string)
    requires Encode(s) == Encode(t)
    ensures s == t
  {
    DecodeEncode(s);
    DecodeEncode(t);
  }

  // ----- order -----

  predicate BytesLess(a: seq<byte>, b: seq<byte>) {
    b != [] && (a == [] || a[0] < b[0] || (a[0] == b[0] && BytesLess(a[1..], b[1..])))
  }

  predicate CharsLess(s: string, t: string) {
    t != "" && (s == "" || s[0] < t[0] || (s[0] == t[0] && CharsLess(s[1..], t[1..])))
  }

  lemma {:induction false} SharedPrefix(p: seq<byte>, a: seq<byte>, b: seq<byte>)
    ensures BytesLess(p + a, p + b) <==> BytesLess(a, b)
  {
    if p == [] {
      assert p + a == a && p + b == b;
    } else {
      SharedPrefix(p[1..], a, b);
      assert (p + a)[1..] == p[1..] + a && (p + b)[1..] == p[1..] + b;
    }
  }

  /** Some position decides the order of two sequences. */
  lemma {:induction false} DecidedAt(a: seq<byte>, b: seq<byte>, k: nat)
    requires k < |a| && k < |b| && a[..k] == b[..k] && a[k] < b[k]
    ensures BytesLess(a, b) && !BytesLess(b, a)
  {
    if k > 0 {
      assert a[0] == a[..k][0] == b[..k][0] == b[0];
      assert a[1..][..k - 1] == a[..k][1..] == b[..k][1..] == b[1..][..k - 1];
      DecidedAt(a[1..], b[1..], k - 1);
    }
  }

  /** A smaller scalar value has the smaller encoding, whatever follows. */
  lemma {:induction false} CharOrder(c: char, d: char, x: seq<byte>, y: seq<byte>)
    requires c < d
    ensures BytesLess(EncodeChar(c) + x, EncodeChar(d) + y) && !BytesLess(EncodeChar(d) + y, EncodeChar(c) + x)
  {
    var k := FirstDifference(c, d);
    DecidedAt(EncodeChar(c) + x, EncodeChar(d) + y, k);
  }

  lemma {:induction false} FirstDifference(c: char, d: char) returns (k: nat)
    requires c < d
    ensures k < |EncodeChar(c)| && k < |EncodeChar(d)|
    ensures EncodeChar(c)[..k] == EncodeChar(d)[..k] && EncodeChar(c)[k] < EncodeChar(d)[k]
  {
    var width := |EncodeChar(c)|;
    if width != |EncodeChar(d)| || width == 1 {
      LeadDiffers(c, d);
      k := 0;
    } else if width == 2 {
      k := DifferenceInTwo(c, d);
    } else if width == 3 {
      k := DifferenceInThree(c, d);
    } else {
      k := DifferenceInFour(c, d);
    }
  }

  lemma {:induction false} LeadDiffers(c: char, d: char)
    requires c < d && (|EncodeChar(c)| != |EncodeChar(d)| || |EncodeChar(c)| == 1)
    ensures EncodeChar(c)[0] < EncodeChar(d)[0]
  {
  }

  lemma {:induction false} DifferenceInTwo(c: char, d: char) returns (k: nat)
    requires c < d && |EncodeChar(c)| == |EncodeChar(d)| == 2
    ensures k < 2 && EncodeChar(c)[..k] == EncodeChar(d)[..k] && EncodeChar(c)[k] < EncodeChar(d)[k]
  {
    HighDigits(c as int, d as int);
    k := if c as int / 64 == d as int / 64 then 1 else 0;
  }

  lemma {:induction false} DifferenceInThree(c: char, d: char) returns (k: nat)
    requires c < d && |EncodeChar(c)| == |EncodeChar(d)| == 3
    ensures k < 3 && EncodeChar(c)[..k] == EncodeChar(d)[..k] && EncodeChar(c)[k] < EncodeChar(d)[k]
  {
    var v, w := c as int, d as int;
    HighDigits(v, w);
    HighDigits(v / 64, w / 64);
    k := if v / 64 == w / 64 then 2 else if v / 64 / 64 == w / 64 / 64 then 1 else 0;
  }

  lemma {:induction false} DifferenceInFour(c: char, d: char) returns (k: nat)
    requires c < d && |EncodeChar(c)| == |EncodeChar(d)| == 4
    ensures k < 4 && EncodeChar(c)[..k] == EncodeChar(d)[..k] && EncodeChar(c)[k] < EncodeChar(d)[k]
  {
    var v, w := c as int, d as int;
    HighDigits(v, w);
    HighDigits(v / 64, w / 64);
    HighDigits(v / 64 / 64, w / 64 / 64);
    k := if v / 64 == w / 64 then 3
         else if v / 64 / 64 == w / 64 / 64 then 2
         else if v / 64 / 64 / 64 == w / 64 / 64 / 64 then 1 else 0;
  }

  lemma {:induction false} HighDigits(v: int, w: int)
    requires 0 <= v <= w
    ensures v / 64 <= w / 64 && (v / 64 == w / 64 && v < w ==> v % 64 < w % 64)
  {
  }

  /** Sorting by UTF-8 bytes and sorting by code points is the same order. */
  lemma {:induction false} OrdersAgree(s: string, t: string)
    ensures BytesLess(Encode(s), Encode(t)) <==> CharsLess(s, t)
  {
    if s != "" && t != "" {
      if s[0] == t[0] {
        SharedPrefix(EncodeChar(s[0]), Encode(s[1..]), Encode(t[1..]));
        OrdersAgree(s[1..], t[1..]);
      } else if s[0] < t[0] {
        CharOrder(s[0], t[0], Encode(s[1..]), Encode(t[1..]));
      } else {
        CharOrder(t[0], s[0], Encode(t[1..]), Encode(s[1..]));
      }
    }
  }
}
