/**
 * Text on a PDF page: the WinAnsi encoding, the escaping of literal strings with
 * a reader for them, and the wrapping of long lines.
 */
module PdfText {
  import opened Common
  import opened JsText
  import Utf8

  /* ------------------------------------- WinAnsi ------------------------------------- */

  /** The characters of WinAnsi's 0x80-0x9F block. */
  function Extra(code: int): (r: Option<Unit>)
    ensures r.Some? ==> code > 255 && 0x80 <= r.value <= 0x9f
  {
    if code == 0x20ac then Some(0x80) else if code == 0x201a then Some(0x82)
    else if code == 0x0192 then Some(0x83) else if code == 0x201e then Some(0x84)
    else if code == 0x2026 then Some(0x85) else if code == 0x2020 then Some(0x86)
    else if code == 0x2021 then Some(0x87) else if code == 0x02c6 then Some(0x88)
    else if code == 0x2030 then Some(0x89) else if code == 0x0160 then Some(0x8a)
    else if code == 0x2039 then Some(0x8b) else if code == 0x0152 then Some(0x8c)
    else if code == 0x017d then Some(0x8e) else if code == 0x2018 then Some(0x91)
    else if code == 0x2019 then Some(0x92) else if code == 0x201c then Some(0x93)
    else if code == 0x201d then Some(0x94) else if code == 0x2022 then Some(0x95)
    else if code == 0x2013 then Some(0x96) else if code == 0x2014 then Some(0x97)
    else if code == 0x02dc then Some(0x98) else if code == 0x2122 then Some(0x99)
    else if code == 0x0161 then Some(0x9a) else if code == 0x203a then Some(0x9b)
    else if code == 0x0153 then Some(0x9c) else if code == 0x017e then Some(0x9e)
    else if code == 0x0178 then Some(0x9f) else None
  }

  predicate Latin(code: int) { 32 <= code <= 126 || 160 <= code <= 255 }
  predicate Representable(code: int) { Extra(code).Some? || Latin(code) }

  function ByteOf(code: int): (b: Unit)
    ensures 32 <= b < 256 && b != 127
  {
    if Extra(code).Some? then Extra(code).value else if Latin(code) then code else 63
  }

  function BytesOf(codes: seq<int>): (r: Text)
    ensures |r| == |codes| && Printable(r)
  {
    seq(|codes|, i requires 0 <= i < |codes| => ByteOf(codes[i]))
  }

  /** No control byte, in particular no line end. */
  predicate Printable(s: Text) { forall i :: 0 <= i < |s| ==> 32 <= s[i] < 256 }

  function WinAnsi(s: Text): Text { BytesOf(CodePoints(s)) }

  /**
   * How a reader decodes WinAnsi (Annex D.2 of ISO 32000-1): the block from 0x80 on,
   * with 0 where no character is assigned; everything else is Latin-1.
   */
  const BLOCK_80: seq<int> := [
    0x20ac, 0, 0x201a, 0x0192, 0x201e, 0x2026, 0x2020, 0x2021, 0x02c6, 0x2030, 0x0160, 0x2039, 0x0152, 0, 0x017d, 0,
    0, 0x2018, 0x2019, 0x201c, 0x201d, 0x2022, 0x2013, 0x2014, 0x02dc, 0x2122, 0x0161, 0x203a, 0x0153, 0, 0x017e, 0x0178]

  function Decoded(b: Unit): int {
    if 0x80 <= b <= 0x9f then BLOCK_80[b - 0x80] else b
  }

  /** Every printable character of the encoding decodes to itself; any other one is a question mark. */
  lemma DecodesBack(code: int)
    ensures Decoded(ByteOf(code)) ==
            if (code != 0 && code in BLOCK_80) || 32 <= code <= 126 || 160 <= code <= 255 then code else 63
    ensures Representable(code) <==> (code != 0 && code in BLOCK_80) || 32 <= code <= 126 || 160 <= code <= 255
  {
    if Extra(code).Some? {
      ExtraDecodes(code);
      hide Extra;
      assert BLOCK_80[Extra(code).value - 0x80] == code;
    } else if code != 0 && code in BLOCK_80 {
      hide Extra;
      var k :| 0 <= k < 32 && BLOCK_80[k] == code;
      BlockIsExtra(k);
    }
  }

  lemma BlockIsExtra(k: nat)
    requires k < 32 && BLOCK_80[k] != 0
    ensures Extra(BLOCK_80[k]) == Some(0x80 + k)
  {
    match k
    case 0 => case 2 => case 3 => case 4 => case 5 => case 6 => case 7 => case 8 => case 9 => case 10 => case 11 =>
    case 12 => case 14 => case 17 => case 18 => case 19 => case 20 => case 21 => case 22 => case 23 => case 24 =>
    case 25 => case 26 => case 27 => case 28 => case 30 => case 31 =>
    case _ =>
  }

  lemma ExtraDecodes(code: int)
    requires Extra(code).Some?
    ensures Decoded(Extra(code).value) == code
  {}

  function AllUnits(codes: seq<int>): Text
    requires forall i :: 0 <= i < |codes| ==> 0 <= codes[i] < 0x110000
  {
    if codes == [] then [] else Utf8.UnitsOf(codes[0]) + AllUnits(codes[1..])
  }

  /** Code points are the text, with no surrogate pair left in two. */
  lemma {:induction false} CodePointsAre(s: Text)
    ensures var codes := CodePoints(s);
            && (forall i :: 0 <= i < |codes| ==> 0 <= codes[i] < 0x110000) && AllUnits(codes) == s
            && (forall i :: 0 <= i < |codes| - 1 ==>
                  !(0xd800 <= codes[i] < 0xdc00 && 0xdc00 <= codes[i + 1] < 0xe000))
    decreases |s|
  {
    var codes := CodePoints(s);
    if s != [] {
      if |s| > 1 && HighSurrogate(s[0]) && LowSurrogate(s[1]) {
        hide Utf8.UnitsOf;
        CodePointsAre(s[2..]);
        Utf8.PairUnits(s);
        assert codes[1..] == CodePoints(s[2..]);
        assert s == [s[0], s[1]] + s[2..];
      } else {
        CodePointsAre(s[1..]);
        assert codes[1..] == CodePoints(s[1..]);
        if |s| > 1 { FirstUnit(s[1..]); }
      }
    }
  }

  lemma FirstUnit(s: Text)
    requires s != []
    ensures CodePoints(s) != [] && (0xdc00 <= CodePoints(s)[0] < 0xe000 ==> CodePoints(s)[0] == s[0])
  {}

  lemma NextCodePoint(s: Text, i: nat, code: int, next: nat)
    requires i < |s|
    requires (code, next) == if i + 1 < |s| && HighSurrogate(s[i]) && LowSurrogate(s[i + 1])
                             then (0x10000 + (s[i] as int - 0xd800) * 0x400 + (s[i + 1] as int - 0xdc00), i + 2)
                             else (s[i] as int, i + 1)
    ensures WinAnsi(s[i..]) == [ByteOf(code)] + WinAnsi(s[next..])
  {
    hide ByteOf;
    assert s[i..][1..] == s[i + 1..];
    if next == i + 2 { assert s[i..][2..] == s[i + 2..]; }
    assert CodePoints(s[i..]) == [code] + CodePoints(s[next..]);
  }

  method ToWinAnsi(s: Text) returns (bytes: Text)
    ensures bytes == WinAnsi(s)
  {
    hide WinAnsi, Extra, HighSurrogate, LowSurrogate;
    bytes := [];
    var i := 0;
    while i < |s|
      invariant 0 <= i <= |s|
      invariant WinAnsi(s) == bytes + WinAnsi(s[i..])
    {
      var code: int, next := s[i], i + 1;
      if i + 1 < |s| && HighSurrogate(s[i]) && LowSurrogate(s[i + 1]) {
        code, next := 0x10000 + (s[i] as int - 0xd800) * 0x400 + (s[i + 1] as int - 0xdc00), i + 2;
      }
      NextCodePoint(s, i, code, next);
      if Extra(code).Some? { bytes := bytes + [Extra(code).value]; }
      else if 32 <= code <= 126 { bytes := bytes + [code]; }
      else if 160 <= code <= 255 { bytes := bytes + [code]; }
      else { bytes := bytes + [63]; }
      i := next;
    }
    NoCodePoints();
    assert s[i..] == [];
  }

  lemma NoCodePoints()
    ensures WinAnsi([]) == []
  {}

  /* ---------------------------------- literal strings ---------------------------------- */

  const BACKSLASH: Unit := 92
  const OPEN: Unit := 40
  const CLOSE: Unit := 41

  function Replace(s: Text, u: Unit, replacement: Text): Text {
    if s == [] then [] else (if s[0] == u then replacement else [s[0]]) + Replace(s[1..], u, replacement)
  }

  /** The three replacements, one after the other. */
  function ThreeReplaces(s: Text): Text {
    Replace(Replace(Replace(s, BACKSLASH, [BACKSLASH, BACKSLASH]), OPEN, [BACKSLASH, OPEN]), CLOSE, [BACKSLASH, CLOSE])
  }

  function PdfEscape(text: Text): Text { ThreeReplaces(WinAnsi(text)) }

  predicate Special(u: Unit) { u == BACKSLASH || u == OPEN || u == CLOSE }

  /** What they amount to: one pass that puts a backslash before each special byte. */
  function Escaped(s: Text): Text {
    if s == [] then [] else (if Special(s[0]) then [BACKSLASH, s[0]] else [s[0]]) + Escaped(s[1..])
  }

  lemma {:induction false} ReplaceParts(a: Text, b: Text, u: Unit, replacement: Text)
    ensures Replace(a + b, u, replacement) == Replace(a, u, replacement) + Replace(b, u, replacement)
  {
    if a == [] {
      assert a + b == b;
    } else {
      assert (a + b)[1..] == a[1..] + b;
      ReplaceParts(a[1..], b, u, replacement);
    }
  }

  lemma ReplaceOne(x: Unit, u: Unit, replacement: Text)
    ensures Replace([x], u, replacement) == if x == u then replacement else [x]
  {}

  lemma ReplaceTwo(x: Unit, y: Unit, u: Unit, replacement: Text)
    requires x != u
    ensures Replace([x, y], u, replacement) == [x] + if y == u then replacement else [y]
  {
    ReplaceOne(y, u, replacement);
    assert [x, y][1..] == [y];
  }

  lemma OneByte(x: Unit)
    ensures ThreeReplaces([x]) == if Special(x) then [BACKSLASH, x] else [x]
  {
    ReplaceOne(x, BACKSLASH, [BACKSLASH, BACKSLASH]);
    ReplaceOne(x, OPEN, [BACKSLASH, OPEN]);
    ReplaceOne(x, CLOSE, [BACKSLASH, CLOSE]);
    if x == BACKSLASH {
      ReplaceTwo(x, x, OPEN, [BACKSLASH, OPEN]);
      ReplaceTwo(x, x, CLOSE, [BACKSLASH, CLOSE]);
    } else if x == OPEN {
      ReplaceTwo(BACKSLASH, x, CLOSE, [BACKSLASH, CLOSE]);
    }
  }

  /** The later replacements never touch what the earlier ones inserted. */
  lemma {:induction false} EscapesOnce(s: Text)
    ensures ThreeReplaces(s) == Escaped(s)
  {
    if s != [] {
      hide Special;
      var a, b := [s[0]], s[1..];
      assert s == a + b;
      ReplaceParts(a, b, BACKSLASH, [BACKSLASH, BACKSLASH]);
      ReplaceParts(Replace(a, BACKSLASH, [BACKSLASH, BACKSLASH]), Replace(b, BACKSLASH, [BACKSLASH, BACKSLASH]),
                   OPEN, [BACKSLASH, OPEN]);
      ReplaceParts(Replace(Replace(a, BACKSLASH, [BACKSLASH, BACKSLASH]), OPEN, [BACKSLASH, OPEN]),
                   Replace(Replace(b, BACKSLASH, [BACKSLASH, BACKSLASH]), OPEN, [BACKSLASH, OPEN]),
                   CLOSE, [BACKSLASH, CLOSE]);
      OneByte(s[0]);
      EscapesOnce(b);
    }
  }

  predicate IsOctal(u: Unit) { 48 <= u <= 55 }

  /** The character a backslash makes of `u`; None when the backslash is to be ignored. */
  function EscapeChar(u: Unit): Option<Unit> {
    if u == 110 then Some(10) else if u == 114 then Some(13) else if u == 116 then Some(9)
    else if u == 98 then Some(8) else if u == 102 then Some(12) else if Special(u) then Some(u) else None
  }

  /** How many of the first at most three units are octal digits. */
  function OctalRun(s: Text, max: nat): (n: nat)
    ensures n <= max && n <= |s|
  {
    if max == 0 || s == [] || !IsOctal(s[0]) then 0 else 1 + OctalRun(s[1..], max - 1)
  }

  function OctalValue(s: Text): int {
    if s == [] then 0 else 8 * OctalValue(s[..|s| - 1]) + (s[|s| - 1] as int - 48)
  }

  /**
   * The literal-string reader of section 7.3.4.2 of ISO 32000-1, after the opening
   * parenthesis: balanced parentheses belong to the string, a backslash starts an
   * escape (a character, up to three octal digits, or an ignored line end), any
   * line end reads as LF. Gives the string and what follows its closing parenthesis.
   */
  function ReadLiteral(s: Text, depth: nat, sofar: Text): Option<(Text, Text)>
    decreases |s|
  {
    if s == [] then None
    else if s[0] == CLOSE then
      if depth == 0 then Some((sofar, s[1..])) else ReadLiteral(s[1..], depth - 1, sofar + [CLOSE])
    else if s[0] == OPEN then ReadLiteral(s[1..], depth + 1, sofar + [OPEN])
    else if s[0] == 13 then
      ReadLiteral(if |s| > 1 && s[1] == 10 then s[2..] else s[1..], depth, sofar + [10])
    else if s[0] != BACKSLASH then ReadLiteral(s[1..], depth, sofar + [s[0]])
    else if |s| == 1 then None
    else if s[1] == 13 then ReadLiteral(if |s| > 2 && s[2] == 10 then s[3..] else s[2..], depth, sofar)
    else if s[1] == 10 then ReadLiteral(s[2..], depth, sofar)
    else if IsOctal(s[1]) then
      var n := OctalRun(s[1..], 3);
      ReadLiteral(s[1 + n..], depth, sofar + [OctalValue(s[1..1 + n]) % 256])
    else if EscapeChar(s[1]).Some? then ReadLiteral(s[2..], depth, sofar + [EscapeChar(s[1]).value])
    else ReadLiteral(s[1..], depth, sofar)
  }

  /** An escaped printable string is read to its end as itself. */
  lemma {:induction false} EscapedReads(s: Text, rest: Text, sofar: Text)
    requires Printable(s)
    ensures ReadLiteral(Escaped(s) + [CLOSE] + rest, 0, sofar) == Some((sofar + s, rest))
    decreases |s|
  {
    var all := Escaped(s) + [CLOSE] + rest;
    if s == [] {
      assert all[1..] == rest;
      assert sofar + s == sofar;
    } else {
      var n := if Special(s[0]) then 2 else 1;
      assert all[n..] == Escaped(s[1..]) + [CLOSE] + rest;
      assert Special(s[0]) ==> all[0] == BACKSLASH && all[1] == s[0];
      EscapedReads(s[1..], rest, sofar + [s[0]]);
      assert sofar + [s[0]] + s[1..] == sofar + s;
    }
  }

  /** What `(${pdfEscape(text)})` reads as: the WinAnsi bytes of the text. */
  lemma EscapeReadsBack(text: Text, rest: Text)
    ensures ReadLiteral(PdfEscape(text) + [CLOSE] + rest, 0, []) == Some((WinAnsi(text), rest))
  {
    EscapesOnce(WinAnsi(text));
    EscapedReads(WinAnsi(text), rest, []);
    assert [] + WinAnsi(text) == WinAnsi(text);
  }

  lemma {:induction false} EscapedIsBytes(s: Text)
    requires Printable(s)
    ensures AllBytes(Escaped(s))
  {
    if s != [] { EscapedIsBytes(s[1..]); }
  }
}
