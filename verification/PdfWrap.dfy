/** Wrapping of report lines and their division into pages. */
module PdfWrap {
  import opened Common
  import opened JsText

  const MAX_LINE_CHARS := 95
  const LINES_PER_PAGE := (842 - 2 * 40) / 14

  const SEPARATOR: Text := [32, 124, 32]
  const INDENT: Text := [32, 32, 32, 32]

  predicate SeparatorAt(s: Text, i: int) { 0 <= i && i + 3 <= |s| && s[i..i + 3] == SEPARATOR }

  /** `lastIndexOf(' | ', from)`. */
  function LastSeparator(s: Text, from: int): (r: int)
    ensures r >= 0 ==> r <= from && SeparatorAt(s, r)
    ensures forall i :: r < i <= from ==> !SeparatorAt(s, i)
    decreases from
  {
    if from < 0 then -1 else if SeparatorAt(s, from) then from else LastSeparator(s, from - 1)
  }

  function CutPoint(s: Text, width: nat): (cut: nat)
    requires 0 < width < |s|
    ensures 0 < cut <= width + 2 && cut <= |s|
  {
    var idx := LastSeparator(s, width);
    if idx > 0 then idx + 2 else width
  }

  function Width(first: bool): nat { if first then MAX_LINE_CHARS else MAX_LINE_CHARS - 4 }

  function Cut(rest: Text, first: bool): (cut: nat)
    requires rest != []
    ensures 0 < cut <= |rest| && cut <= Width(first) + 2
  {
    if |rest| <= Width(first) then |rest| else CutPoint(rest, Width(first))
  }

  function Piece(rest: Text, first: bool): Text
    requires rest != []
  {
    (if first then [] else INDENT) + TrimEnd(rest[..Cut(rest, first)])
  }

  function Pieces(rest: Text, first: bool): seq<Text>
    decreases |rest|
  {
    if rest == [] then []
    else [Piece(rest, first)] + Pieces(TrimStart(rest[Cut(rest, first)..]), false)
  }

  function Wrapped(text: Text): seq<Text> {
    if |text| <= MAX_LINE_CHARS then [text] else Pieces(text, true)
  }

  method Wrap(text: Text) returns (out: seq<Text>)
    ensures out == Wrapped(text)
    ensures out != [] && forall i :: 0 <= i < |out| ==> |out[i]| <= MAX_LINE_CHARS + 2
  {
    hide TrimStart, TrimEnd, AllSpace, IsSpace, CutPoint;
    if |text| <= MAX_LINE_CHARS { return [text]; }
    out := [];
    var rest, first := text, true;
    while |rest| > 0
      invariant Pieces(text, true) == out + Pieces(rest, first)
      invariant forall i :: 0 <= i < |out| ==> |out[i]| <= MAX_LINE_CHARS + 2
      invariant first ==> rest == text
      invariant first <==> out == []
      decreases |rest|
    {
      var width := if first then MAX_LINE_CHARS else MAX_LINE_CHARS - 4;
      var cut := if |rest| <= width then |rest| else CutPoint(rest, width);
      out := out + [(if first then [] else INDENT) + TrimEnd(rest[..cut])];
      rest := TrimStart(rest[cut..]);
      first := false;
    }
  }

  /** The non-blank characters, in order. */
  function Ink(s: Text): Text {
    if s == [] then [] else (if IsSpace(s[0]) then [] else [s[0]]) + Ink(s[1..])
  }

  function InkOfAll(lines: seq<Text>): Text {
    if lines == [] then [] else Ink(lines[0]) + InkOfAll(lines[1..])
  }

  lemma {:induction false} InkParts(a: Text, b: Text)
    ensures Ink(a + b) == Ink(a) + Ink(b)
  {
    if a == [] {
      assert a + b == b;
    } else {
      assert (a + b)[1..] == a[1..] + b;
      InkParts(a[1..], b);
    }
  }

  lemma {:induction false} NoInk(s: Text)
    requires AllSpace(s)
    ensures Ink(s) == []
  {
    if s != [] { NoInk(s[1..]); }
  }

  lemma TrimKeepsInk(s: Text)
    ensures Ink(TrimStart(s)) == Ink(s) && Ink(TrimEnd(s)) == Ink(s)
  {
    var a, b := TrimStart(s), TrimEnd(s);
    TrimStartSplits(s);
    TrimEndSplits(s);
    InkParts(s[..|s| - |a|], a);
    NoInk(s[..|s| - |a|]);
    InkParts(b, s[|b|..]);
    NoInk(s[|b|..]);
  }

  lemma InkOfIndent(first: bool)
    ensures Ink(if first then [] else INDENT) == []
  {
    NoInk(if first then [] else INDENT);
  }

  lemma InkOfPiece(rest: Text, first: bool)
    requires rest != []
    ensures Ink(Piece(rest, first)) == Ink(rest[..Cut(rest, first)])
  {
    hide Ink, Cut;
    var kept := rest[..Cut(rest, first)];
    TrimKeepsInk(kept);
    InkParts(if first then [] else INDENT, TrimEnd(kept));
    InkOfIndent(first);
  }

  lemma PiecesOne(rest: Text, first: bool)
    requires rest != []
    ensures InkOfAll(Pieces(rest, first)) ==
            Ink(Piece(rest, first)) + InkOfAll(Pieces(TrimStart(rest[Cut(rest, first)..]), false))
  {
    hide Ink, Cut, Piece, TrimStart;
    var ps := Pieces(rest, first);
    assert ps[0] == Piece(rest, first) && ps[1..] == Pieces(TrimStart(rest[Cut(rest, first)..]), false);
  }

  lemma {:induction false} PiecesKeepInk(rest: Text, first: bool)
    ensures InkOfAll(Pieces(rest, first)) == Ink(rest)
    decreases |rest|
  {
    if rest != [] {
      hide Ink, InkOfAll, Pieces, Cut, Piece, TrimStart;
      var cut := Cut(rest, first);
      var tail := TrimStart(rest[cut..]);
      PiecesKeepInk(tail, false);
      TrimKeepsInk(rest[cut..]);
      InkOfPiece(rest, first);
      InkParts(rest[..cut], rest[cut..]);
      assert rest == rest[..cut] + rest[cut..];
      PiecesOne(rest, first);
    }
  }

  /** Wrapping loses, adds and reorders no non-blank character. */
  lemma WrapKeepsInk(text: Text)
    ensures InkOfAll(Wrapped(text)) == Ink(text)
  {
    if |text| <= MAX_LINE_CHARS {
      assert InkOfAll([text]) == Ink(text) + InkOfAll([text][1..]);
    } else {
      PiecesKeepInk(text, true);
    }
  }

  lemma {:induction false} PiecesFit(rest: Text, first: bool, i: nat)
    requires i < |Pieces(rest, first)|
    ensures |Pieces(rest, first)[i]| <= MAX_LINE_CHARS + 2
    ensures i > 0 || !first ==> INDENT <= Pieces(rest, first)[i]
    decreases |rest|
  {
    hide TrimStart, TrimEnd, AllSpace, IsSpace, Cut;
    if i > 0 { PiecesFit(TrimStart(rest[Cut(rest, first)..]), false, i - 1); }
  }

  /** No line is longer than 97 characters, and every continuation line is indented. */
  lemma WrappedFit(text: Text, i: nat)
    requires i < |Wrapped(text)|
    ensures |Wrapped(text)[i]| <= 97
    ensures i > 0 ==> INDENT <= Wrapped(text)[i]
  {
    if |text| > MAX_LINE_CHARS { PiecesFit(text, true, i); }
  }

  /** A cut falls in the middle of a column only when the window holds no separator to cut after. */
  lemma CutsAfterSeparators(rest: Text, first: bool)
    requires |rest| > Width(first)
    ensures var cut := Cut(rest, first);
            if exists i :: 0 < i <= Width(first) && SeparatorAt(rest, i)
            then cut >= 3 && SeparatorAt(rest, cut - 2) && forall i :: cut - 2 < i <= Width(first) ==> !SeparatorAt(rest, i)
            else cut == Width(first)
  {}

  function WrapAll(lines: seq<Text>): seq<Text> {
    if lines == [] then [] else Wrapped(lines[0]) + WrapAll(lines[1..])
  }

  lemma {:induction false} WrapAllParts(a: seq<Text>, b: seq<Text>)
    ensures WrapAll(a + b) == WrapAll(a) + WrapAll(b)
  {
    if a == [] {
      assert a + b == b;
    } else {
      assert (a + b)[1..] == a[1..] + b;
      WrapAllParts(a[1..], b);
    }
  }

  /* ------------------------------- what the lines hold ------------------------------- */

  /**
   * The lines are the text cut into pieces: each holds a stretch of it, in order and
   * behind the indent unless it is the first, and only white space between two stretches
   * or after the last is left out.
   */
  ghost predicate CutFrom(lines: seq<Text>, text: Text, first: bool)
    decreases |lines|
  {
    if lines == [] then text == []
    else exists m, k :: 0 <= m <= k <= |text| && Stretch(lines[0], text, first, m, k) && CutFrom(lines[1..], text[k..], false)
  }

  /** The line is the first `m` units of the text, and up to `k` there is only white space. */
  ghost predicate Stretch(line: Text, text: Text, first: bool, m: nat, k: nat)
    requires m <= k <= |text|
  {
    line == (if first then [] else [32, 32, 32, 32]) + text[..m] && forall i :: m <= i < k ==> IsSpace(text[i])
  }

  lemma CutOff(lines: seq<Text>, text: Text, first: bool, m: nat, k: nat)
    requires lines != [] && m <= k <= |text|
    requires Stretch(lines[0], text, first, m, k) && CutFrom(lines[1..], text[k..], false)
    ensures CutFrom(lines, text, first)
  {
    hide Stretch;
  }

  lemma SpaceBetween(rest: Text, cut: nat)
    requires cut <= |rest|
    ensures var (kept, tail) := (TrimEnd(rest[..cut]), TrimStart(rest[cut..]));
            var k := |rest| - |tail|;
            |kept| <= k <= |rest| && rest[..|kept|] == kept && rest[k..] == tail
            && forall i :: |kept| <= i < k ==> IsSpace(rest[i])
  {
    var (a, b) := (rest[..cut], rest[cut..]);
    var (kept, tail) := (TrimEnd(a), TrimStart(b));
    TrimEndSplits(a);
    TrimStartSplits(b);
    hide TrimStart, TrimEnd, AllSpace;
    assert rest == a + b;
    Middle(rest, kept, a[|kept|..], b[..|b| - |tail|], tail);
  }

  lemma Middle(s: Text, a: Text, x: Text, y: Text, b: Text)
    requires s == (a + x) + (y + b) && AllSpace(x) && AllSpace(y)
    ensures |a| <= |s| - |b| && s[..|a|] == a && s[|s| - |b|..] == b
    ensures forall i :: |a| <= i < |s| - |b| ==> IsSpace(s[i])
  {
    forall i | |a| <= i < |s| - |b| ensures IsSpace(s[i]) {
      assert s[i] == if i < |a| + |x| then x[i - |a|] else y[i - |a| - |x|];
    }
  }

  lemma {:induction false} PiecesAreCut(rest: Text, first: bool)
    ensures CutFrom(Pieces(rest, first), rest, first)
    decreases |rest|
  {
    if rest != [] {
      hide Cut, TrimStart, TrimEnd, CutFrom, IsSpace;
      var cut := Cut(rest, first);
      var tail := TrimStart(rest[cut..]);
      SpaceBetween(rest, cut);
      PiecesAreCut(tail, false);
      var lines, m, k := Pieces(rest, first), |TrimEnd(rest[..cut])|, |rest| - |tail|;
      assert lines[0] == Piece(rest, first) && lines[1..] == Pieces(tail, false);
      CutOff(lines, rest, first, m, k);
    } else {
      assert Pieces(rest, first) == [];
    }
  }

  /** Wrapping cuts the text and leaves out only white space at the cuts; a short text is one line as it is. */
  lemma WrappedIsCut(text: Text)
    ensures Wrapped(text) != [] && CutFrom(Wrapped(text), text, true)
    ensures |text| <= 95 ==> Wrapped(text) == [text]
  {
    if |text| <= MAX_LINE_CHARS {
      assert text[|text|..] == [] && [text][1..] == [] && text[..|text|] == text;
      CutOff([text], text, true, |text|, |text|);
    } else {
      PiecesAreCut(text, true);
      hide CutFrom;
    }
  }

  /** The lines are those of each row, in order. */
  ghost predicate LinesOf(lines: seq<Text>, rows: seq<Text>)
    decreases |rows|
  {
    if rows == [] then lines == []
    else exists n :: 0 < n <= |lines| && CutFrom(lines[..n], rows[0], true) && LinesOf(lines[n..], rows[1..])
  }

  lemma {:induction false} WrapAllIsCut(rows: seq<Text>)
    ensures LinesOf(WrapAll(rows), rows)
    decreases |rows|
  {
    hide Wrapped, CutFrom;
    if rows != [] {
      WrappedIsCut(rows[0]);
      WrapAllIsCut(rows[1..]);
      var n := |Wrapped(rows[0])|;
      assert WrapAll(rows)[..n] == Wrapped(rows[0]) && WrapAll(rows)[n..] == WrapAll(rows[1..]);
    }
  }

  /* --------------------------------------- pages --------------------------------------- */

  function Pages(lines: seq<Text>): seq<seq<Text>> {
    if lines == [] then []
    else if |lines| <= LINES_PER_PAGE then [lines]
    else [lines[..LINES_PER_PAGE]] + Pages(lines[LINES_PER_PAGE..])
  }

  function Concat<A>(parts: seq<seq<A>>): seq<A> { if parts == [] then [] else parts[0] + Concat(parts[1..]) }

  /** Pages hold at most 54 lines, none is empty, all but the last are full, and together they are the lines. */
  lemma {:induction false} PagesAreTheLines(lines: seq<Text>)
    ensures Concat(Pages(lines)) == lines
    ensures forall k :: 0 <= k < |Pages(lines)| ==>
      1 <= |Pages(lines)[k]| <= 54 && (k < |Pages(lines)| - 1 ==> |Pages(lines)[k]| == 54)
  {
    if |lines| > LINES_PER_PAGE {
      PagesAreTheLines(lines[LINES_PER_PAGE..]);
    } else if lines != [] {
      assert Concat([lines]) == lines + Concat([lines][1..]);
    }
  }

  method Paginate(lines: seq<Text>) returns (pages: seq<seq<Text>>)
    ensures pages == Pages(lines)
  {
    hide Pages;
    pages := [];
    var i := 0;
    NoPages();
    assert lines[0..] == lines;
    while i < |lines|
      invariant 0 <= i && Pages(lines) == pages + if i < |lines| then Pages(lines[i..]) else []
    {
      var end := if i + LINES_PER_PAGE <= |lines| then i + LINES_PER_PAGE else |lines|;
      NextPage(lines, i, end);
      ghost var more := if end < |lines| then Pages(lines[end..]) else [];
      assert pages + ([lines[i..end]] + more) == pages + [lines[i..end]] + more;
      pages := pages + [lines[i..end]];
      i := i + LINES_PER_PAGE;
    }
  }

  lemma NoPages()
    ensures Pages([]) == []
  {}

  lemma NextPage(lines: seq<Text>, i: nat, end: nat)
    requires i < |lines| && end == if i + LINES_PER_PAGE <= |lines| then i + LINES_PER_PAGE else |lines|
    ensures Pages(lines[i..]) == [lines[i..end]] + if end < |lines| then Pages(lines[end..]) else []
  {
    if end < |lines| {
      assert lines[i..][..LINES_PER_PAGE] == lines[i..end];
      assert lines[i..][LINES_PER_PAGE..] == lines[end..];
    } else {
      assert lines[i..] == lines[i..end];
    }
  }
}
