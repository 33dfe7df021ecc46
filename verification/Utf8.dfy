/**
 UTF-8 text.  A Dafny `char` is a Unicode scalar value, so a `string` is exactly
 a valid Unicode string; `Encode` gives the bytes a Go string holding it carries.
 `Decode` is total, as Go's rune decoding is: a byte that starts no well-formed
 sequence becomes U+FFFD and is skipped on its own.
 */
module Utf8 {

  type Byte = b: int | 0 <= b < 256
  type Bytes = seq<Byte>

  const REPLACEMENT: char := '\U{FFFD}'

  predicate IsScalar(c: int) {
    0 <= c < 0xD800 || 0xE000 <= c < 0x110000
  }

  function EncodeChar(ch: char): (r: Bytes)
    ensures 1 <= |r| <= 4
  {
    var c := ch as int;
    if c < 0x80 then [c]
    else if c < 0x800 then [0xC0 + c / 64, 0x80 + c % 64]
    else if c < 0x10000 then [0xE0 + c / 4096, 0x80 + c / 64 % 64, 0x80 + c % 64]
    else [0xF0 + c / 262144, 0x80 + c / 4096 % 64, 0x80 + c / 64 % 64, 0x80 + c % 64]
  }

  function Encode(s: string): Bytes {
    if s == [] then [] else EncodeChar(s[0]) + Encode(s[1..])
  }

  predicate Continues(b: Bytes, n: nat)
  {
    n < |b| && forall i :: 1 <= i <= n ==> 0x80 <= b[i] < 0xC0
  }

  function Digits3(x: int, y: int, z: int): int {
    x * 4096 + y * 64 + z
  }

  // The first code point of `b` and the number of bytes it takes.
  function DecodeChar(b: Bytes): (r: (char, nat))
    requires b != []
    ensures 1 <= r.1 <= |b|
  {
    var h: int := b[0];
    if h < 0x80 then (h as char, 1)
    else if 0xC2 <= h < 0xE0 && Continues(b, 1) then
      (Digits3(0, h - 0xC0, b[1] - 0x80) as char, 2)
    else if 0xE0 <= h < 0xF0 && Continues(b, 2) then
      var c := Digits3(h - 0xE0, b[1] - 0x80, b[2] - 0x80);
      if c >= 0x800 && IsScalar(c) then (c as char, 3) else (REPLACEMENT, 1)
    else if 0xF0 <= h < 0xF5 && Continues(b, 3) then
      var c := (h - 0xF0) * 262144 + Digits3(b[1] - 0x80, b[2] - 0x80, b[3] - 0x80);
      if c >= 0x10000 && IsScalar(c) then (c as char, 4) else (REPLACEMENT, 1)
    else (REPLACEMENT, 1)
  }

  function Decode(b: Bytes): string {
    if b == [] then [] else
    var (c, n) := DecodeChar(b);
    [c] + Decode(b[n..])
  }

  lemma Split3(c: int)
    requires 0 <= c
    ensures c == Digits3(c / 4096, c / 64 % 64, c % 64)
    ensures c == c / 262144 * 262144 + Digits3(c / 4096 % 64, c / 64 % 64, c % 64)
  {
    assert c / 64 / 64 == c / 4096;
    assert c / 4096 / 64 == c / 262144;
  }

  lemma DecodeEncodeChar(ch: char, rest: Bytes)
    ensures DecodeChar(EncodeChar(ch) + rest) == (ch, |EncodeChar(ch)|)
  {
    var e := EncodeChar(ch);
    var b := e + rest;
    Split3(ch as int);
    assert b[0] == e[0];
    if |e| == 2 {
      assert b[1] == e[1];
      assert Continues(b, 1);
    } else if |e| == 3 {
      assert b[1] == e[1] && b[2] == e[2];
      assert Continues(b, 2);
    } else if |e| == 4 {
      assert b[1] == e[1] && b[2] == e[2] && b[3] == e[3];
      assert Continues(b, 3);
    }
  }

  // Decoding inverts encoding for every Unicode string.
  lemma {:induction false} DecodeEncode(s: string)
    ensures Decode(Encode(s)) == s
  {
    if s != [] {
      var e, rest := EncodeChar(s[0]), Encode(s[1..]);
      DecodeEncodeChar(s[0], rest);
      assert (e + rest)[|e|..] == rest;
      DecodeEncode(s[1..]);
      assert s == [s[0]] + s[1..];
    }
  }

  lemma EncodeInjective(s: string, t: string)
    requires Encode(s) == Encode(t)
    ensures s == t
  {
    DecodeEncode(s);
    DecodeEncode(t);
  }

  // Byte-wise comparison, the order of Go's `<` on strings.
  predicate BytesLess(a: Bytes, b: Bytes) {
    b != [] && (a == [] || a[0] < b[0] || (a[0] == b[0] && BytesLess(a[1..], b[1..])))
  }

  predicate Less(a: string, b: string) {
    BytesLess(Encode(a), Encode(b))
  }

  lemma {:induction false} BytesLessTotal(a: Bytes, b: Bytes)
    ensures BytesLess(a, b) || BytesLess(b, a) || a == b
    ensures !(BytesLess(a, b) && BytesLess(b, a))
    ensures !BytesLess(a, a)
  {
    if a != [] {
      BytesLessTotal(a[1..], a[1..]);
      if b != [] && a[0] == b[0] {
        BytesLessTotal(a[1..], b[1..]);
        assert a == [a[0]] + a[1..] && b == [b[0]] + b[1..];
      }
    }
  }

  lemma {:induction false} BytesLessTransitive(a: Bytes, b: Bytes, c: Bytes)
    requires BytesLess(a, b) && BytesLess(b, c)
    ensures BytesLess(a, c)
  {
    if a != [] && a[0] == b[0] == c[0] {
      BytesLessTransitive(a[1..], b[1..], c[1..]);
    }
  }

  // The byte order is a strict total order on strings.
  lemma LessIsStrictTotal(a: string, b: string)
    ensures Less(a, b) || Less(b, a) || a == b
    ensures !(Less(a, b) && Less(b, a)) && !Less(a, a)
  {
    BytesLessTotal(Encode(a), Encode(b));
    BytesLessTotal(Encode(a), Encode(a));
    if Encode(a) == Encode(b) { EncodeInjective(a, b); }
  }

  // ------------------------------------------------- bytes against code points

  // The order of code points.
  predicate ScalarLess(a: string, b: string) {
    b != "" && (a == "" || a[0] < b[0] || (a[0] == b[0] && ScalarLess(a[1..], b[1..])))
  }

  lemma HeadDecides(p: Byte, x: Bytes, q: Byte, y: Bytes)
    ensures BytesLess([p] + x, [q] + y) <==> p < q || (p == q && BytesLess(x, y))
  {
    assert ([p] + x)[1..] == x && ([q] + y)[1..] == y;
  }

  lemma TwoDecide(e: Bytes, x: Bytes, f: Bytes, y: Bytes)
    requires |e| == |f| == 2
    ensures BytesLess(e + x, f + y) <==>
      e[0] < f[0] || (e[0] == f[0] && (e[1] < f[1] || (e[1] == f[1] && BytesLess(x, y))))
  {
    assert e + x == [e[0]] + ([e[1]] + x) && f + y == [f[0]] + ([f[1]] + y);
    HeadDecides(e[0], [e[1]] + x, f[0], [f[1]] + y);
    HeadDecides(e[1], x, f[1], y);
  }

  lemma ThreeDecide(e: Bytes, x: Bytes, f: Bytes, y: Bytes)
    requires |e| == |f| == 3
    ensures BytesLess(e + x, f + y) <==> e[0] < f[0] || (e[0] == f[0] && BytesLess(e[1..] + x, f[1..] + y))
  {
    assert e + x == [e[0]] + (e[1..] + x) && f + y == [f[0]] + (f[1..] + y);
    HeadDecides(e[0], e[1..] + x, f[0], f[1..] + y);
  }

  lemma FourDecide(e: Bytes, x: Bytes, f: Bytes, y: Bytes)
    requires |e| == |f| == 4
    ensures BytesLess(e + x, f + y) <==> e[0] < f[0] || (e[0] == f[0] && BytesLess(e[1..] + x, f[1..] + y))
  {
    assert e + x == [e[0]] + (e[1..] + x) && f + y == [f[0]] + (f[1..] + y);
    HeadDecides(e[0], e[1..] + x, f[0], f[1..] + y);
  }

  lemma PairsDecide(c: char, x: Bytes, d: char, y: Bytes)
    requires |EncodeChar(c)| == |EncodeChar(d)| == 2
    ensures BytesLess(EncodeChar(c) + x, EncodeChar(d) + y) <==> c < d || (c == d && BytesLess(x, y))
  {
    TwoDecide(EncodeChar(c), x, EncodeChar(d), y);
  }

  lemma TriplesDecide(c: char, x: Bytes, d: char, y: Bytes)
    requires |EncodeChar(c)| == |EncodeChar(d)| == 3
    ensures BytesLess(EncodeChar(c) + x, EncodeChar(d) + y) <==> c < d || (c == d && BytesLess(x, y))
  {
    var e, f := EncodeChar(c), EncodeChar(d);
    ThreeDecide(e, x, f, y);
    TwoDecide(e[1..], x, f[1..], y);
    Split3(c as int);
    Split3(d as int);
  }

  lemma QuadruplesDecide(c: char, x: Bytes, d: char, y: Bytes)
    requires |EncodeChar(c)| == |EncodeChar(d)| == 4
    ensures BytesLess(EncodeChar(c) + x, EncodeChar(d) + y) <==> c < d || (c == d && BytesLess(x, y))
  {
    var e, f := EncodeChar(c), EncodeChar(d);
    FourDecide(e, x, f, y);
    ThreeDecide(e[1..], x, f[1..], y);
    TwoDecide(e[1..][1..], x, f[1..][1..], y);
    Split3(c as int);
    Split3(d as int);
  }

  // One character decides, or the rest does.
  lemma CharDecides(c: char, x: Bytes, d: char, y: Bytes)
    ensures BytesLess(EncodeChar(c) + x, EncodeChar(d) + y) <==> c < d || (c == d && BytesLess(x, y))
  {
    var e, f := EncodeChar(c), EncodeChar(d);
    if |e| != |f| {
      LengthDecides(c, x, d, y);
    } else if |e| == 1 {
      assert e == [e[0]] && f == [f[0]];
      HeadDecides(e[0], x, f[0], y);
    } else if |e| == 2 {
      PairsDecide(c, x, d, y);
    } else if |e| == 3 {
      TriplesDecide(c, x, d, y);
    } else {
      QuadruplesDecide(c, x, d, y);
    }
  }

  lemma LeadBytes(c: char, d: char)
    requires |EncodeChar(c)| != |EncodeChar(d)|
    ensures EncodeChar(c)[0] != EncodeChar(d)[0] && (EncodeChar(c)[0] < EncodeChar(d)[0] <==> c < d)
  {
  }

  lemma LengthDecides(c: char, x: Bytes, d: char, y: Bytes)
    requires |EncodeChar(c)| != |EncodeChar(d)|
    ensures BytesLess(EncodeChar(c) + x, EncodeChar(d) + y) <==> c < d
  {
    var e, f := EncodeChar(c), EncodeChar(d);
    LeadBytes(c, d);
    assert e + x == [e[0]] + (e[1..] + x) && f + y == [f[0]] + (f[1..] + y);
    HeadDecides(e[0], e[1..] + x, f[0], f[1..] + y);
  }

  // The byte order of encoded text is the order of its code points.
  lemma {:induction false} LessIsScalarOrder(a: string, b: string)
    ensures Less(a, b) <==> ScalarLess(a, b)
  {
    if a != "" && b != "" {
      CharDecides(a[0], Encode(a[1..]), b[0], Encode(b[1..]));
      LessIsScalarOrder(a[1..], b[1..]);
    }
  }

  // One character of each length, as section 3 of RFC 3629 encodes it.
  lemma EncodesAsSpecified()
    ensures EncodeChar('A') == [0x41] && EncodeChar('\U{e9}') == [0xC3, 0xA9]
    ensures EncodeChar('\U{20ac}') == [0xE2, 0x82, 0xAC] && EncodeChar('\U{1f600}') == [0xF0, 0x9F, 0x98, 0x80]
    ensures forall c: char :: c < '\U{80}' ==> EncodeChar(c) == [c as int]
  {
  }
}
