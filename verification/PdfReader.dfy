/**
 * A reader for the PDF files the report writes. It starts where section 7.5 of
 * ISO 32000-1 says a reader starts, at `startxref`, and reaches every object
 * through the cross-reference table; it takes a stream's bytes by its /Length
 * and its strings by section 7.3.4.2. It knows the dictionaries the report uses,
 * not all of the format.
 */
module PdfReader {
  import opened Common
  import opened JsText
  import opened Decimal
  import opened ReportRows
  import opened PdfText
  import opened PdfWrap
  import opened PdfLayout

  /* ------------------------------------- the reader ------------------------------------- */

  /** What follows `literal`, if `s` starts with it. */
  function Expect(s: Text, literal: Text): Option<Text> {
    if literal <= s then Some(s[|literal|..]) else None
  }

  function DigitRun(s: Text): (n: nat)
    ensures n <= |s| && AllDigits(s[..n])
  {
    if s == [] || !IsDigit(s[0]) then 0
    else
      var n := DigitRun(s[1..]);
      assert s[..1 + n] == [s[0]] + s[1..][..n];
      1 + n
  }

  function ReadNat(s: Text): Option<(nat, Text)> {
    var n := DigitRun(s);
    if n == 0 then None else Some((Value(s[..n]), s[n..]))
  }

  function ReadRef(s: Text): Option<(nat, Text)> {
    var id :- ReadNat(s);
    var rest :- Expect(id.1, T(" 0 R"));
    Some((id.0, rest))
  }

  /** References separated by single spaces. */
  function ReadRefs(s: Text): Option<(seq<nat>, Text)>
    decreases |s|
  {
    var first :- ReadRef(s);
    if first.1 == [] || first.1[0] != 32 || |first.1| >= |s| then Some(([first.0], first.1))
    else
      var more :- ReadRefs(first.1[1..]);
      Some(([first.0] + more.0, more.1))
  }

  function TrailingDigits(s: Text): (n: nat)
    ensures n <= |s| && AllDigits(s[|s| - n..])
  {
    if s == [] || !IsDigit(s[|s| - 1]) then 0
    else
      var n := TrailingDigits(s[..|s| - 1]);
      assert s[|s| - 1 - n..] == s[..|s| - 1][|s| - 1 - n..] + [s[|s| - 1]];
      1 + n
  }

  predicate EndsWith(s: Text, suffix: Text) { |suffix| <= |s| && s[|s| - |suffix|..] == suffix }

  function ReadStart(f: Text): Option<nat> {
    if !EndsWith(f, T("\n%%EOF\n")) then None
    else
      var s := f[..|f| - 7];
      var n := TrailingDigits(s);
      if n == 0 || !EndsWith(s[..|s| - n], T("startxref\n")) then None else Some(Value(s[|s| - n..]))
  }

  datatype XrefEntry = XrefEntry(offset: nat, inUse: bool)

  /** A 20-byte entry of section 7.5.4: ten digits, a space, five digits, a space, `n` or `f`, and a line end. */
  function ReadEntry(s: Text): Option<(XrefEntry, Text)> {
    if |s| >= 20 && AllDigits(s[..10]) && s[10] == 32 && AllDigits(s[11..16]) && s[16] == 32
       && (s[17] == 110 || s[17] == 102) && s[18..20] in {[32, 13], [32, 10], [13, 10]}
    then Some((XrefEntry(Value(s[..10]), s[17] == 110), s[20..])) else None
  }

  function ReadEntries(s: Text, n: nat): Option<(seq<XrefEntry>, Text)> {
    if n == 0 then Some(([], s))
    else
      var entry :- ReadEntry(s);
      var more :- ReadEntries(entry.1, n - 1);
      Some(([entry.0] + more.0, more.1))
  }

  /** The body of object `id`, and whatever follows it in the file. */
  function ObjectAt(f: Text, table: seq<XrefEntry>, id: nat): Option<Text> {
    if id >= |table| || !table[id].inUse || table[id].offset > |f| then None
    else
      var number :- ReadNat(f[table[id].offset..]);
      if number.0 != id then None else Expect(number.1, T(" 0 obj\n"))
  }

  /** The operands of the show operators of a content stream, up to `ET`. */
  function ReadShows(s: Text): Option<seq<Text>>
    decreases |s|
  {
    if s == T("ET") then Some([])
    else
      var inside :- Expect(s, [OPEN]);
      var line :- ReadLiteral(inside, 0, []);
      var rest :- Expect(line.1, T(" Tj T*\n"));
      if |rest| >= |s| then None
      else
        var more :- ReadShows(rest);
        Some([line.0] + more)
  }

  function StreamStart(): Text { T("BT\n") + T("/F1 9 Tf\n") + T("14 TL\n") + T("40 802 Td\n") }

  function ReadContent(f: Text, table: seq<XrefEntry>, id: nat): Option<seq<Text>> {
    var body :- ObjectAt(f, table, id);
    var length :- Expect(body, T("<< /Length "));
    var n :- ReadNat(length);
    var stream :- Expect(n.1, T(" >>\nstream\n"));
    if |stream| < n.0 then None
    else
      var after :- Expect(stream[n.0..], T("\nendstream\nendobj\n"));
      var shows :- Expect(stream[..n.0], StreamStart());
      ReadShows(shows)
  }

  /** The parent, font and contents of a page dictionary. */
  function ReadPageBody(body: Text): Option<(nat, nat, nat)> {
    var a :- Expect(body, T("<< /Type /Page /Parent "));
    var up :- ReadRef(a);
    var b :- Expect(up.1, T(" /MediaBox [0 0 595 842] /Resources << /Font << /F1 "));
    var font :- ReadRef(b);
    var c :- Expect(font.1, T(" >> >> /Contents "));
    var contents :- ReadRef(c);
    var end :- Expect(contents.1, T(" >>\nendobj\n"));
    Some((up.0, font.0, contents.0))
  }

  /** The strings of a page whose parent is `parent` and whose font is a font object. */
  function ReadPage(f: Text, table: seq<XrefEntry>, parent: nat, id: nat): Option<seq<Text>> {
    var body :- ObjectAt(f, table, id);
    var refs :- ReadPageBody(body);
    var font :- ObjectAt(f, table, refs.1);
    var end :- Expect(font, T("<< /Type /Font /Subtype /Type1 /BaseFont /Helvetica /Encoding /WinAnsiEncoding >>"));
    if refs.0 != parent then None else ReadContent(f, table, refs.2)
  }

  function ReadPages(f: Text, table: seq<XrefEntry>, parent: nat, kids: seq<nat>): Option<seq<seq<Text>>> {
    if kids == [] then Some([])
    else
      var page :- ReadPage(f, table, parent, kids[0]);
      var more :- ReadPages(f, table, parent, kids[1..]);
      Some([page] + more)
  }

  /** The table, and the object number of the catalog. */
  function ReadXref(f: Text, start: nat): Option<(seq<XrefEntry>, nat)> {
    if start > |f| then None
    else
      var a :- Expect(f[start..], T("xref\n0 "));
      var count :- ReadNat(a);
      var b :- Expect(count.1, NEWLINE);
      var entries :- ReadEntries(b, count.0);
      var c :- Expect(entries.1, T("trailer\n<< /Size "));
      var size :- ReadNat(c);
      var d :- Expect(size.1, T(" /Root "));
      var root :- ReadRef(d);
      var e :- Expect(root.1, T(" >>\n"));
      if size.0 != count.0 then None else Some((entries.0, root.0))
  }

  function ReadTree(f: Text, table: seq<XrefEntry>, root: nat): Option<seq<seq<Text>>> {
    var catalog :- ObjectAt(f, table, root);
    var a :- Expect(catalog, T("<< /Type /Catalog /Pages "));
    var tree :- ReadRef(a);
    var b :- Expect(tree.1, T(" >>\nendobj\n"));
    var node :- ObjectAt(f, table, tree.0);
    var c :- Expect(node, T("<< /Type /Pages /Kids ["));
    var kids :- ReadRefs(c);
    var d :- Expect(kids.1, T("] /Count "));
    var count :- ReadNat(d);
    var e :- Expect(count.1, T(" >>\nendobj\n"));
    if count.0 != |kids.0| then None else ReadPages(f, table, tree.0, kids.0)
  }

  /** The pages of the file, each the list of strings it shows. */
  function ReadPdf(f: Text): Option<seq<seq<Text>>> {
    var start :- ReadStart(f);
    var xref :- ReadXref(f, start);
    ReadTree(f, xref.0, xref.1)
  }

  /* -------------------------------- reading what was printed -------------------------------- */

  lemma Expected(literal: Text, rest: Text)
    ensures Expect(literal + rest, literal) == Some(rest)
  {}

  predicate NoDigit(rest: Text) { rest == [] || !IsDigit(rest[0]) }

  lemma {:induction false} DigitsRun(d: Text, rest: Text)
    requires AllDigits(d) && NoDigit(rest)
    ensures DigitRun(d + rest) == |d|
  {
    if d == [] {
      assert d + rest == rest;
    } else {
      assert (d + rest)[1..] == d[1..] + rest;
      DigitsRun(d[1..], rest);
    }
  }

  lemma NatReads(n: nat, rest: Text)
    requires NoDigit(rest)
    ensures ReadNat(Digits(n) + rest) == Some((n, rest))
  {
    DigitsRun(Digits(n), rest);
    PrintThenRead(n);
    assert (Digits(n) + rest)[..|Digits(n)|] == Digits(n);
  }

  lemma RefReads(n: nat, rest: Text)
    ensures ReadRef(Ref(n) + rest) == Some((n, rest))
  {
    var tail := T(" 0 R");
    assert Ref(n) + rest == Digits(n) + (tail + rest);
    NatReads(n, tail + rest);
    Expected(tail, rest);
  }

  lemma {:induction false} DigitsTrail(head: Text, d: Text)
    requires AllDigits(d) && (head == [] || !IsDigit(head[|head| - 1]))
    ensures TrailingDigits(head + d) == |d|
    decreases |d|
  {
    if d == [] {
      assert head + d == head;
    } else {
      assert (head + d)[..|head + d| - 1] == head + d[..|d| - 1];
      DigitsTrail(head, d[..|d| - 1]);
    }
  }

  lemma StartReads(head: Text, x: nat)
    ensures ReadStart(head + T("startxref\n") + Digits(x) + T("\n%%EOF\n")) == Some(x)
  {
    var marker := T("startxref\n");
    var before := head + marker;
    assert marker[|marker| - 1] == 10;
    var f := before + Digits(x) + T("\n%%EOF\n");
    assert f[..|f| - 7] == before + Digits(x);
    DigitsTrail(before, Digits(x));
    PrintThenRead(x);
    assert (before + Digits(x))[|before|..] == Digits(x);
    assert (before + Digits(x))[..|before|] == before;
    assert before[|before| - |marker|..] == marker;
  }

  function Refs(ids: seq<nat>): seq<Text> { seq(|ids|, k requires 0 <= k < |ids| => Ref(ids[k])) }

  lemma {:induction false} RefsRead(ids: seq<nat>, rest: Text)
    requires ids != [] && (rest == [] || rest[0] != 32)
    ensures ReadRefs(Join(Refs(ids), SPACE) + rest) == Some((ids, rest))
    decreases |ids|
  {
    hide Ref, ReadRef;
    if |ids| == 1 {
      RefReads(ids[0], rest);
      assert ids == [ids[0]];
    } else {
      assert Refs(ids)[1..] == Refs(ids[1..]);
      var after := SPACE + (Join(Refs(ids[1..]), SPACE) + rest);
      assert Join(Refs(ids), SPACE) + rest == Ref(ids[0]) + after;
      RefReads(ids[0], after);
      RefNonEmpty(ids[0]);
      assert after[1..] == Join(Refs(ids[1..]), SPACE) + rest;
      RefsRead(ids[1..], rest);
      assert ids == [ids[0]] + ids[1..];
    }
  }

  lemma RefNonEmpty(n: nat)
    ensures Ref(n) != []
  {}

  /* ------------------------------------- offsets ------------------------------------- */

  function After(objects: seq<Text>, i: nat): Text
    requires i <= |objects|
  {
    Concat(ObjectTexts(objects)[i..]) + Xref(objects)
  }

  /** The file from `Offset(i)` on: the objects from `i` on, and the table. */
  lemma FromOffset(objects: seq<Text>, i: nat)
    requires i <= |objects|
    ensures Offset(objects, i) <= |File(objects)|
    ensures File(objects)[Offset(objects, i)..] == After(objects, i)
  {
    hide ObjectTexts, Xref, FileHeader;
    var texts := ObjectTexts(objects);
    assert |texts| == |objects| by { TextCount(objects); }
    var before := FileHeader() + Concat(texts[..i]);
    ConcatParts(texts[..i], texts[i..]);
    assert texts == texts[..i] + texts[i..];
    assert File(objects) == before + After(objects, i);
  }

  lemma TextCount(objects: seq<Text>)
    ensures |ObjectTexts(objects)| == |objects|
  {}

  lemma FirstAfter(objects: seq<Text>, i: nat)
    requires i < |objects|
    ensures After(objects, i) == ObjectText(i, objects[i]) + After(objects, i + 1)
  {
    hide ObjectText, Xref;
    var texts := ObjectTexts(objects);
    assert texts[i..][0] == ObjectText(i, objects[i]) && texts[i..][1..] == texts[i + 1..];
  }

  /**
   * The layout: byte `Offset(i)` starts object `i + 1`, its entry in the table says
   * that offset, and is 20 bytes long exactly when the offset is below 10^10; the
   * table starts where `startxref` says.
   */
  lemma LayoutIsRight(objects: seq<Text>, i: nat)
    requires i < |objects|
    ensures Offset(objects, i) <= |File(objects)|
    ensures Digits(i + 1) + T(" 0 obj\n") + objects[i] + T("\nendobj\n") <= File(objects)[Offset(objects, i)..]
    ensures |Entries(objects)[i]| == 20 <==> Offset(objects, i) < Pow10(10)
    ensures Offset(objects, |objects|) <= |File(objects)|
    ensures T("xref\n") <= File(objects)[Offset(objects, |objects|)..]
    ensures ReadStart(File(objects)) == Some(Offset(objects, |objects|))
  {
    hide ReadStart, File, Padded;
    FromOffset(objects, i);
    FirstAfter(objects, i);
    PaddedReads(Offset(objects, i), 10);
    FromOffset(objects, |objects|);
    TableStarts(objects);
    StartOfFile(objects);
  }

  lemma TableStarts(objects: seq<Text>)
    ensures After(objects, |objects|) == Xref(objects)
    ensures T("xref\n") <= Xref(objects)
  {
    assert T("xref\n0 ")[..5] == T("xref\n");
    assert ObjectTexts(objects)[|objects|..] == [];
  }

  lemma StartOfFile(objects: seq<Text>)
    ensures ReadStart(File(objects)) == Some(Offset(objects, |objects|))
  {
    hide ReadStart, Table, Offset, ObjectTexts, Concat, Ref;
    var x := Offset(objects, |objects|);
    var head := FileHeader() + Concat(ObjectTexts(objects)) + (T("xref\n0 ") + Digits(|objects| + 1) + NEWLINE
      + Table(objects) + (T("trailer\n<< /Size ") + Digits(|objects| + 1) + T(" /Root ") + Ref(1) + T(" >>\n")));
    assert File(objects) == head + T("startxref\n") + Digits(x) + T("\n%%EOF\n");
    StartReads(head, x);
  }
}
