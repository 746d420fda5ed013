/** Strings as JavaScript has them: sequences of UTF-16 code units. */
module JsText {
  import opened Common

  type Unit = u: int | 0 <= u < 0x10000
  type Text = seq<Unit>

  /** A literal; the model's literals are ASCII. */
  function T(s: string): (t: Text)
    ensures |t| == |s| && AllBytes(t)
  {
    seq(|s|, i requires 0 <= i < |s| => if s[i] as int < 0x100 then s[i] as int else 63)
  }

  /** Every unit fits a byte, so that the Latin-1 encoding of the text is the text. */
  predicate AllBytes(s: Text) { forall i :: 0 <= i < |s| ==> s[i] < 0x100 }

  /** White space and line terminators, as `trim` understands them. */
  predicate IsSpace(u: Unit) {
    || 9 <= u <= 13 || u == 32 || u == 160 || u == 0x1680 || 0x2000 <= u <= 0x200a
    || u == 0x2028 || u == 0x2029 || u == 0x202f || u == 0x205f || u == 0x3000 || u == 0xfeff
  }

  predicate AllSpace(s: Text) { forall i :: 0 <= i < |s| ==> IsSpace(s[i]) }

  function TrimStart(s: Text): (r: Text)
    ensures |r| <= |s|
  {
    if s == [] || !IsSpace(s[0]) then s else TrimStart(s[1..])
  }

  function TrimEnd(s: Text): (r: Text)
    ensures |r| <= |s|
  {
    if s == [] || !IsSpace(s[|s| - 1]) then s else TrimEnd(s[..|s| - 1])
  }

  /** Trimming the front drops white space only, and all of it. */
  lemma {:induction false} TrimStartSplits(s: Text)
    ensures var r := TrimStart(s);
            s == s[..|s| - |r|] + r && AllSpace(s[..|s| - |r|]) && (r == [] || !IsSpace(r[0]))
  {
    hide IsSpace;
    if s != [] && IsSpace(s[0]) {
      var r := TrimStart(s);
      TrimStartSplits(s[1..]);
      assert s[..|s| - |r|] == [s[0]] + s[1..][..|s| - 1 - |r|];
    }
  }

  lemma {:induction false} TrimEndSplits(s: Text)
    ensures var r := TrimEnd(s);
            s == r + s[|r|..] && AllSpace(s[|r|..]) && (r == [] || !IsSpace(r[|r| - 1]))
  {
    hide IsSpace;
    if s != [] && IsSpace(s[|s| - 1]) {
      var (r, init) := (TrimEnd(s), s[..|s| - 1]);
      TrimEndSplits(init);
      assert r == TrimEnd(init) && init == r + init[|r|..];
      assert s[|r|..] == init[|r|..] + [s[|s| - 1]];
      assert s == r + s[|r|..];
    } else {
      assert TrimEnd(s) == s && s[|s|..] == [];
    }
  }

  function Trim(s: Text): Text { TrimEnd(TrimStart(s)) }

  /** The white space and line terminators of sections 12.2 and 12.3 of ECMA-262, one by one. */
  lemma WhiteSpaceIs(u: Unit)
    ensures IsSpace(u) <==>
            u in {0x09, 0x0a, 0x0b, 0x0c, 0x0d, 0x20, 0xa0, 0x1680, 0x2000, 0x2001, 0x2002, 0x2003, 0x2004, 0x2005,
                  0x2006, 0x2007, 0x2008, 0x2009, 0x200a, 0x2028, 0x2029, 0x202f, 0x205f, 0x3000, 0xfeff}
  {}

  /** Trimming leaves nothing exactly of a text that is all white space. */
  lemma TrimsToNothing(s: Text)
    ensures Trim(s) == [] <==> AllSpace(s)
  {
    var r := TrimStart(s);
    TrimStartSplits(s);
    TrimEndSplits(r);
    assert r != [] ==> s[|s| - |r|] == r[0];
  }

  /** An ASCII literal is its character codes. */
  lemma LiteralIs(s: string)
    ensures |T(s)| == |s| && forall i :: 0 <= i < |s| && s[i] < 128 as char ==> T(s)[i] == s[i] as int
  {}

  function Join(parts: seq<Text>, sep: Text): Text {
    if parts == [] then []
    else if |parts| == 1 then parts[0]
    else parts[0] + sep + Join(parts[1..], sep)
  }

  /** ASCII lower case: the letters that can occur in what it is applied to. */
  function Lower(s: Text): (r: Text)
    ensures |r| == |s|
  {
    seq(|s|, i requires 0 <= i < |s| => if 65 <= s[i] <= 90 then s[i] + 32 else s[i])
  }

  /** The last index of `u` in `s`. */
  function LastIndexOf(s: Text, u: Unit): (r: Option<nat>)
    ensures r.None? ==> u !in s
    ensures r.Some? ==> r.value < |s| && s[r.value] == u && u !in s[r.value + 1..]
  {
    if s == [] then None
    else if s[|s| - 1] == u then Some(|s| - 1)
    else
      var r := LastIndexOf(s[..|s| - 1], u);
      assert r.Some? ==> s[r.value + 1..] == s[..|s| - 1][r.value + 1..] + [s[|s| - 1]];
      r
  }

  predicate HighSurrogate(u: Unit) { 0xd800 <= u < 0xdc00 }
  predicate LowSurrogate(u: Unit) { 0xdc00 <= u < 0xe000 }

  /** What iterating over a string yields: surrogate pairs are one code point, lone halves stay. */
  function CodePoints(s: Text): seq<int>
    decreases |s|
  {
    if s == [] then []
    else if |s| > 1 && HighSurrogate(s[0]) && LowSurrogate(s[1]) then
      [0x10000 + (s[0] as int - 0xd800) * 0x400 + (s[1] as int - 0xdc00)] + CodePoints(s[2..])
    else [s[0]] + CodePoints(s[1..])
  }
}
