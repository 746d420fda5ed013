/** The UTF-8 form of a text, and a strict decoder for it (section 3 of RFC 3629). */
module Utf8 {
  import opened Common
  import opened JsText

  const REPLACEMENT: Unit := 0xfffd

  predicate Surrogate(code: int) { 0xd800 <= code < 0xe000 }
  predicate Scalar(code: int) { 0 <= code < 0x110000 && !Surrogate(code) }

  /** Half a surrogate pair has no UTF-8 form and is written as U+FFFD. */
  function Mend(u: Unit): Unit { if Surrogate(u) then REPLACEMENT else u }

  predicate StartsPair(s: Text) { |s| > 1 && HighSurrogate(s[0]) && LowSurrogate(s[1]) }

  function PairCode(s: Text): (code: int)
    requires StartsPair(s)
    ensures 0x10000 <= code < 0x110000
  {
    0x10000 + (s[0] as int - 0xd800) * 0x400 + (s[1] as int - 0xdc00)
  }

  /** The text with every lone half replaced. */
  function Mended(s: Text): (r: Text)
    ensures |r| == |s|
    decreases |s|
  {
    if s == [] then [] else if StartsPair(s) then s[..2] + Mended(s[2..]) else [Mend(s[0])] + Mended(s[1..])
  }

  function EncodeOne(c: int): (b: Text)
    requires Scalar(c)
    ensures b != [] && AllBytes(b)
  {
    if c < 0x80 then [c]
    else if c < 0x800 then [0xc0 + c / 0x40, 0x80 + c % 0x40]
    else if c < 0x10000 then [0xe0 + c / 0x1000, 0x80 + c / 0x40 % 0x40, 0x80 + c % 0x40]
    else [0xf0 + c / 0x40000, 0x80 + c / 0x1000 % 0x40, 0x80 + c / 0x40 % 0x40, 0x80 + c % 0x40]
  }

  function Encode(s: Text): Text
    decreases |s|
  {
    if s == [] then []
    else if StartsPair(s) then EncodeOne(PairCode(s)) + Encode(s[2..])
    else EncodeOne(Mend(s[0])) + Encode(s[1..])
  }

  predicate Trail(u: Unit) { 0x80 <= u < 0xc0 }

  /** The first code point and the bytes after it; None for overlong forms, surrogates and anything malformed. */
  function DecodeOne(b: Text): Option<(int, Text)> {
    if b == [] then None
    else if b[0] < 0x80 then Some((b[0] as int, b[1..]))
    else if 0xc2 <= b[0] < 0xe0 && |b| > 1 && Trail(b[1]) then
      Some(((b[0] as int - 0xc0) * 0x40 + (b[1] as int - 0x80), b[2..]))
    else if 0xe0 <= b[0] < 0xf0 && |b| > 2 && Trail(b[1]) && Trail(b[2]) then
      var c := (b[0] as int - 0xe0) * 0x1000 + (b[1] as int - 0x80) * 0x40 + (b[2] as int - 0x80);
      if c < 0x800 || Surrogate(c) then None else Some((c, b[3..]))
    else if 0xf0 <= b[0] < 0xf5 && |b| > 3 && Trail(b[1]) && Trail(b[2]) && Trail(b[3]) then
      var c := (b[0] as int - 0xf0) * 0x40000 + (b[1] as int - 0x80) * 0x1000 + (b[2] as int - 0x80) * 0x40
               + (b[3] as int - 0x80);
      if c < 0x10000 || c >= 0x110000 then None else Some((c, b[4..]))
    else None
  }

  /** The code units of a code point. */
  function UnitsOf(c: int): Text
    requires 0 <= c < 0x110000
  {
    if c < 0x10000 then [c] else [0xd800 + (c - 0x10000) / 0x400, 0xdc00 + (c - 0x10000) % 0x400]
  }

  function Decode(b: Text): Option<Text>
    decreases |b|
  {
    if b == [] then Some([])
    else
      var first := DecodeOne(b);
      if first.None? || |first.value.1| >= |b| || !(0 <= first.value.0 < 0x110000) then None
      else
        var more :- Decode(first.value.1);
        Some(UnitsOf(first.value.0) + more)
  }

  lemma SmallReads(c: int, rest: Text)
    requires Scalar(c) && c < 0x800
    ensures DecodeOne(EncodeOne(c) + rest) == Some((c, rest))
  {}

  lemma ThreeReads(c: int, rest: Text)
    requires Scalar(c) && 0x800 <= c < 0x10000
    ensures DecodeOne(EncodeOne(c) + rest) == Some((c, rest))
  {
    var h, m, l := c / 0x1000, c / 0x40 % 0x40, c % 0x40;
    assert c == h * 0x1000 + m * 0x40 + l;
    assert h < 0x10;
    var b := EncodeOne(c) + rest;
    assert b[0] == 0xe0 + h && b[1] == 0x80 + m && b[2] == 0x80 + l && b[3..] == rest;
  }

  lemma Quotients(c: nat)
    ensures c / 0x1000 == c / 0x40 / 0x40 && c / 0x40000 == c / 0x1000 / 0x40
  {}

  /** A code point is its four groups of bits. */
  lemma Groups(c: nat)
    requires c < 0x110000
    ensures c == c / 0x40000 * 0x40000 + c / 0x1000 % 0x40 * 0x1000 + c / 0x40 % 0x40 * 0x40 + c % 0x40
    ensures c / 0x40000 < 5
  {
    Quotients(c);
    var a, b := c / 0x40, c / 0x1000;
    assert c == a * 0x40 + c % 0x40;
    assert a == b * 0x40 + a % 0x40;
    assert b == b / 0x40 * 0x40 + b % 0x40;
  }

  lemma FourReads(c: int, rest: Text)
    requires 0x10000 <= c < 0x110000
    ensures DecodeOne(EncodeOne(c) + rest) == Some((c, rest))
  {
    Groups(c);
    var b := EncodeOne(c) + rest;
    assert b[4..] == rest;
    hide EncodeOne;
    FourDecode(b, c / 0x40000, c / 0x1000 % 0x40, c / 0x40 % 0x40, c % 0x40);
  }

  lemma FourDecode(b: Text, h: int, n: int, m: int, l: int)
    requires |b| > 3 && b[0] == 0xf0 + h && b[1] == 0x80 + n && b[2] == 0x80 + m && b[3] == 0x80 + l
    requires 0 <= h < 5 && 0 <= n < 0x40 && 0 <= m < 0x40 && 0 <= l < 0x40
    requires 0x10000 <= h * 0x40000 + n * 0x1000 + m * 0x40 + l < 0x110000
    ensures DecodeOne(b) == Some((h * 0x40000 + n * 0x1000 + m * 0x40 + l, b[4..]))
  {}

  lemma OneReads(c: int, rest: Text)
    requires Scalar(c)
    ensures DecodeOne(EncodeOne(c) + rest) == Some((c, rest))
  {
    hide DecodeOne, EncodeOne;
    if c < 0x800 { SmallReads(c, rest); } else if c < 0x10000 { ThreeReads(c, rest); } else { FourReads(c, rest); }
  }

  lemma PairUnits(s: Text)
    requires StartsPair(s)
    ensures UnitsOf(PairCode(s)) == s[..2]
  {}

  /** Decoding gives the text back, its lone halves replaced. */
  lemma {:induction false} EncodedReads(s: Text)
    ensures Decode(Encode(s)) == Some(Mended(s))
    decreases |s|
  {
    hide DecodeOne, EncodeOne, PairCode;
    if s != [] {
      if StartsPair(s) {
        OneReads(PairCode(s), Encode(s[2..]));
        EncodedReads(s[2..]);
        PairUnits(s);
      } else {
        OneReads(Mend(s[0]), Encode(s[1..]));
        EncodedReads(s[1..]);
      }
    }
  }

  /** Half of a pair: a high surrogate before a low one, or a low one after a high one. */
  ghost predicate Paired(s: Text, i: nat)
    requires i < |s|
  {
    || (HighSurrogate(s[i]) && i + 1 < |s| && LowSurrogate(s[i + 1]))
    || (LowSurrogate(s[i]) && i > 0 && HighSurrogate(s[i - 1]))
  }

  /** Exactly the surrogates that are not half of a pair are replaced. */
  lemma {:induction false} MendedExactly(s: Text, i: nat)
    requires i < |s|
    ensures Mended(s)[i] == if 0xd800 <= s[i] < 0xe000 && !Paired(s, i) then 0xfffd else s[i]
    decreases |s|
  {
    if StartsPair(s) {
      if i >= 2 {
        MendedExactly(s[2..], i - 2);
        assert Paired(s[2..], i - 2) <==> Paired(s, i);
      }
    } else if i >= 1 {
      MendedExactly(s[1..], i - 1);
      assert Paired(s[1..], i - 1) <==> Paired(s, i);
    }
  }

  /** Text without surrogates is not changed. */
  lemma {:induction false} NothingToMend(s: Text)
    requires forall i :: 0 <= i < |s| ==> !Surrogate(s[i])
    ensures Mended(s) == s
  {
    if s != [] { NothingToMend(s[1..]); }
  }

  /** No pair spans the seam of `a` and `b`. */
  predicate Apart(a: Text, b: Text) { a == [] || b == [] || !(HighSurrogate(a[|a| - 1]) && LowSurrogate(b[0])) }

  lemma {:induction false} MendParts(a: Text, b: Text)
    requires Apart(a, b)
    ensures Mended(a + b) == Mended(a) + Mended(b)
    decreases |a|
  {
    if a == [] {
      assert a + b == b;
    } else if StartsPair(a) {
      assert (a + b)[2..] == a[2..] + b && (a + b)[..2] == a[..2];
      MendParts(a[2..], b);
    } else {
      assert (a + b)[1..] == a[1..] + b;
      assert !StartsPair(a + b);
      MendParts(a[1..], b);
    }
  }
}
