/** The PDF export reads back: exactly when its offsets fit the table, and then page by page. */
module PdfRoundTrip {
  import opened Common
  import opened JsText
  import opened Decimal
  import opened ReportRows
  import opened PdfText
  import opened PdfWrap
  import opened PdfLayout
  import opened PdfReader

  /* ------------------------------------- the table ------------------------------------- */

  function Printed(offsets: seq<nat>): seq<Text> {
    seq(|offsets|, i requires 0 <= i < |offsets| => Entry(offsets[i]))
  }

  function InUse(offsets: seq<nat>): seq<XrefEntry> {
    seq(|offsets|, i requires 0 <= i < |offsets| => XrefEntry(offsets[i], true))
  }

  predicate Fit(offsets: seq<nat>) { forall i :: 0 <= i < |offsets| ==> offsets[i] < Pow10(10) }

  lemma EntryReads(o: nat, rest: Text)
    ensures ReadEntry(Entry(o) + rest) == if o < Pow10(10) then Some((XrefEntry(o, true), rest)) else None
  {
    hide Padded, Pow10;
    PaddedReads(o, 10);
    PaddedLength(o, 10);
    var s := Entry(o) + rest;
    if o < Pow10(10) {
      assert s[..10] == Padded(o, 10);
      assert s[11..16] == Entry(o)[11..16];
      assert s[18..20] == [32, 10];
      assert s[20..] == rest;
    } else {
      assert s[10] == Padded(o, 10)[10];
    }
  }

  lemma PaddedLength(n: nat, width: nat)
    ensures |Padded(n, width)| >= width
  {}

  /** A wide entry stops the reader: the byte after ten digits is a digit. */
  lemma {:induction false} EntriesRead(offsets: seq<nat>, rest: Text)
    ensures ReadEntries(Concat(Printed(offsets)) + rest, |offsets|) ==
            if Fit(offsets) then Some((InUse(offsets), rest)) else None
  {
    hide ReadEntry, Entry;
    if offsets == [] {
      assert Concat(Printed(offsets)) + rest == rest;
    } else {
      var o, others := offsets[0], offsets[1..];
      assert Printed(offsets)[1..] == Printed(others);
      var after := Concat(Printed(others)) + rest;
      assert Concat(Printed(offsets)) + rest == Entry(o) + after;
      EntryReads(o, after);
      EntriesRead(others, rest);
      assert Fit(offsets) <==> o < Pow10(10) && Fit(others);
      assert InUse(offsets) == [XrefEntry(o, true)] + InUse(others);
    }
  }

  lemma FreeEntryReads(rest: Text)
    ensures ReadEntry(FreeEntry() + rest) == Some((XrefEntry(0, false), rest))
  {
    var s := FreeEntry() + rest;
    assert s[..10] == Zeros(10) + [];
    LeadingZeros(10, []);
    assert s[18..20] == [32, 10];
    assert s[20..] == rest;
  }

  function Offsets(objects: seq<Text>): seq<nat> {
    seq(|objects|, i requires 0 <= i < |objects| => Offset(objects, i))
  }

  function TableOf(objects: seq<Text>): seq<XrefEntry> { [XrefEntry(0, false)] + InUse(Offsets(objects)) }

  lemma TableReads(objects: seq<Text>, rest: Text)
    ensures ReadEntries(Table(objects) + rest, |objects| + 1) ==
            if Fit(Offsets(objects)) then Some((TableOf(objects), rest)) else None
  {
    hide ReadEntry, FreeEntry, Offset, Fit;
    var after := Concat(Entries(objects)) + rest;
    assert Table(objects) + rest == FreeEntry() + after;
    FreeEntryReads(after);
    assert Entries(objects) == Printed(Offsets(objects));
    EntriesRead(Offsets(objects), rest);
  }

  /** The offsets fit exactly when the last one does: the objects are written one after the other. */
  lemma FitIffLastFits(objects: seq<Text>)
    requires objects != []
    ensures Fit(Offsets(objects)) <==> Offset(objects, |objects| - 1) < Pow10(10)
  {
    hide FileHeader, ObjectTexts, Pow10;
    TextCount(objects);
    var texts := ObjectTexts(objects);
    var last := |objects| - 1;
    forall i | 0 <= i < |objects| ensures Offset(objects, i) <= Offset(objects, last) {
      assert texts[..last] == texts[..i] + texts[i..last];
      ConcatParts(texts[..i], texts[i..last]);
    }
    assert Offsets(objects)[last] == Offset(objects, last);
  }

  function TrailerHead(size: nat): Text { T("trailer\n<< /Size ") + Digits(size) + T(" /Root ") + Ref(1) + T(" >>\n") }

  lemma TrailerReads(size: nat, rest: Text)
    ensures var c := Expect(TrailerHead(size) + rest, T("trailer\n<< /Size "));
            && c.Some? && ReadNat(c.value).Some? && ReadNat(c.value).value.0 == size
            && var d := Expect(ReadNat(c.value).value.1, T(" /Root "));
            && d.Some? && ReadRef(d.value).Some? && ReadRef(d.value).value.0 == 1
            && Expect(ReadRef(d.value).value.1, T(" >>\n")) == Some(rest)
  {
    hide ReadNat, ReadRef, Expect, Ref;
    var e := T(" >>\n") + rest;
    var d := T(" /Root ") + (Ref(1) + e);
    assert TrailerHead(size) + rest == T("trailer\n<< /Size ") + (Digits(size) + d);
    Expected(T("trailer\n<< /Size "), Digits(size) + d);
    NatReads(size, d);
    Expected(T(" /Root "), Ref(1) + e);
    RefReads(1, e);
    Expected(T(" >>\n"), rest);
  }

  lemma XrefReads(objects: seq<Text>)
    ensures ReadXref(File(objects), Offset(objects, |objects|)) ==
            if Fit(Offsets(objects)) then Some((TableOf(objects), 1)) else None
  {
    hide File, Offset, Table, TableOf, Fit, ReadEntries, ReadNat, ReadRef, Expect, TrailerHead, Ref, Concat, ObjectTexts;
    var x, n := Offset(objects, |objects|), |objects| + 1;
    FromOffset(objects, |objects|);
    TableStarts(objects);
    var rest := T("startxref\n") + Digits(x) + T("\n%%EOF\n");
    XrefShape(objects);
    var after := TrailerHead(n) + rest;
    Expected(T("xref\n0 "), Digits(n) + (NEWLINE + (Table(objects) + after)));
    NatReads(n, NEWLINE + (Table(objects) + after));
    Expected(NEWLINE, Table(objects) + after);
    TableReads(objects, after);
    TrailerReads(n, rest);
  }

  lemma XrefShape(objects: seq<Text>)
    ensures var (x, n) := (Offset(objects, |objects|), |objects| + 1);
            var rest := T("startxref\n") + Digits(x) + T("\n%%EOF\n");
            Xref(objects) == T("xref\n0 ") + (Digits(n) + (NEWLINE + (Table(objects) + (TrailerHead(n) + rest))))
  {
    hide Table, Offset, Ref;
  }

  /* ------------------------------------- objects ------------------------------------- */

  /** Object `i + 1` is found through the table. */
  lemma ObjectReads(objects: seq<Text>, i: nat)
    requires i < |objects|
    ensures ObjectAt(File(objects), TableOf(objects), i + 1) ==
            Some(objects[i] + T("\nendobj\n") + After(objects, i + 1))
  {
    hide File, Offset, After, ReadNat, Expect;
    FromOffset(objects, i);
    FirstAfter(objects, i);
    var rest := objects[i] + T("\nendobj\n") + After(objects, i + 1);
    assert ObjectText(i, objects[i]) + After(objects, i + 1) == Digits(i + 1) + (T(" 0 obj\n") + rest);
    NatReads(i + 1, T(" 0 obj\n") + rest);
    Expected(T(" 0 obj\n"), rest);
  }

  lemma PageBodyReads(c: nat, rest: Text)
    ensures ReadPageBody(PageBody(c) + T("\nendobj\n") + rest) == Some((2, 3, c))
  {
    hide ReadRef, Expect, Ref;
    var e := T(" >>\nendobj\n") + rest;
    var d := T(" >> >> /Contents ") + (Ref(c) + e);
    var b := T(" /MediaBox [0 0 595 842] /Resources << /Font << /F1 ") + (Ref(3) + d);
    PageBodyShape(c, rest);
    Expected(T("<< /Type /Page /Parent "), Ref(2) + b);
    RefReads(2, b);
    Expected(T(" /MediaBox [0 0 595 842] /Resources << /Font << /F1 "), Ref(3) + d);
    RefReads(3, d);
    Expected(T(" >> >> /Contents "), Ref(c) + e);
    RefReads(c, e);
    Expected(T(" >>\nendobj\n"), rest);
  }

  lemma Closing(rest: Text)
    ensures T(" >>") + T("\nendobj\n") + rest == T(" >>\nendobj\n") + rest
  {
    assert T(" >>") + T("\nendobj\n") == T(" >>\nendobj\n");
  }

  lemma PageBodyShape(c: nat, rest: Text)
    ensures var e := T(" >>\nendobj\n") + rest;
            var d := T(" >> >> /Contents ") + (Ref(c) + e);
            var b := T(" /MediaBox [0 0 595 842] /Resources << /Font << /F1 ") + (Ref(3) + d);
            PageBody(c) + T("\nendobj\n") + rest == T("<< /Type /Page /Parent ") + (Ref(2) + b)
  {
    Closing(rest);
    hide Ref, T;
    assert PageBody(c) + T("\nendobj\n") + rest ==
      T("<< /Type /Page /Parent ") + (Ref(2) + (T(" /MediaBox [0 0 595 842] /Resources << /Font << /F1 ") + (Ref(3)
      + (T(" >> >> /Contents ") + (Ref(c) + (T(" >>") + T("\nendobj\n") + rest))))));
  }

  /* ------------------------------------- streams ------------------------------------- */

  function EndAll(parts: seq<Text>): Text { if parts == [] then [] else parts[0] + NEWLINE + EndAll(parts[1..]) }

  lemma {:induction false} JoinedLast(parts: seq<Text>, last: Text)
    ensures Join(parts + [last], NEWLINE) == EndAll(parts) + last
  {
    if parts == [] {
      assert parts + [last] == [last];
    } else {
      assert (parts + [last])[1..] == parts[1..] + [last];
      JoinedLast(parts[1..], last);
    }
  }

  lemma {:induction false} EndAllParts(a: seq<Text>, b: seq<Text>)
    ensures EndAll(a + b) == EndAll(a) + EndAll(b)
  {
    if a == [] {
      assert a + b == b;
    } else {
      assert (a + b)[1..] == a[1..] + b;
      EndAllParts(a[1..], b);
    }
  }

  lemma LineEnds()
    ensures T("BT") + NEWLINE == T("BT\n") && T("/F1 9 Tf") + NEWLINE == T("/F1 9 Tf\n")
    ensures T("14 TL") + NEWLINE == T("14 TL\n") && T("40 802 Td") + NEWLINE == T("40 802 Td\n")
    ensures T("\nendstream") + T("\nendobj\n") == T("\nendstream\nendobj\n")
  {}

  lemma EndAllFirst(first: Text, others: seq<Text>)
    ensures EndAll([first] + others) == first + NEWLINE + EndAll(others)
  {
    assert ([first] + others)[1..] == others;
  }

  lemma PrologueText()
    ensures EndAll(Prologue()) == StreamStart()
  {
    LineEnds();
    hide T, EndAll;
    var d := [T("40 802 Td")];
    var c := [T("14 TL")] + d;
    var b := [T("/F1 9 Tf")] + c;
    assert Prologue() == [T("BT")] + b;
    EndAllFirst(T("BT"), b);
    EndAllFirst(T("/F1 9 Tf"), c);
    EndAllFirst(T("14 TL"), d);
    assert d == d + [];
    EndAllFirst(T("40 802 Td"), []);
    NothingToEnd();
  }

  lemma NothingToEnd()
    ensures EndAll([]) == []
  {}

  lemma StreamShape(page: seq<Text>)
    ensures Stream(page) == StreamStart() + (EndAll(Shows(page)) + T("ET"))
  {
    hide Prologue, StreamStart, Shows;
    JoinedLast(Prologue() + Shows(page), T("ET"));
    EndAllParts(Prologue(), Shows(page));
    PrologueText();
  }

  function Shown(page: seq<Text>): seq<Text> { seq(|page|, i requires 0 <= i < |page| => WinAnsi(page[i])) }

  lemma ShowShape(line: Text, rest: Text)
    ensures Show(line) + NEWLINE + rest == [OPEN] + (PdfEscape(line) + [CLOSE] + (T(" Tj T*\n") + rest))
  {
    hide PdfEscape;
    assert T(" Tj T*") + NEWLINE == T(" Tj T*\n");
  }

  /** Each show operator reads as the WinAnsi bytes of its line. */
  lemma {:induction false} ShowsRead(page: seq<Text>)
    ensures ReadShows(EndAll(Shows(page)) + T("ET")) == Some(Shown(page))
    decreases |page|
  {
    hide ReadLiteral, PdfEscape, Show, WinAnsi;
    if page == [] {
      assert EndAll(Shows(page)) + T("ET") == T("ET");
    } else {
      var rest := EndAll(Shows(page[1..])) + T("ET");
      assert Shows(page)[1..] == Shows(page[1..]);
      var s := EndAll(Shows(page)) + T("ET");
      assert s == Show(page[0]) + NEWLINE + rest;
      ShowShape(page[0], rest);
      assert s[0] == OPEN;
      Expected([OPEN], PdfEscape(page[0]) + [CLOSE] + (T(" Tj T*\n") + rest));
      EscapeReadsBack(page[0], T(" Tj T*\n") + rest);
      Expected(T(" Tj T*\n"), rest);
      ShowsRead(page[1..]);
      assert Shown(page) == [WinAnsi(page[0])] + Shown(page[1..]);
    }
  }

  lemma Reassociate(a: Text, b: Text, c: Text, d: Text, e: Text, f: Text, g: Text)
    ensures a + b + c + d + e + f + g == a + (b + (c + (d + (e + f + g))))
  {}

  lemma ContentShape(stream: Text, rest: Text)
    ensures Content(stream) + T("\nendobj\n") + rest ==
      T("<< /Length ") + (Digits(|stream|) + (T(" >>\nstream\n") + (stream + (T("\nendstream\nendobj\n") + rest))))
  {
    hide T, Digits;
    LineEnds();
    Reassociate(T("<< /Length "), Digits(|stream|), T(" >>\nstream\n"), stream, T("\nendstream"), T("\nendobj\n"), rest);
  }

  /** The content object of page `k`: /Length is the byte count of its stream, whose strings are the page's lines. */
  lemma ContentReads(pages: seq<seq<Text>>, k: nat)
    requires k < |pages|
    ensures var objects := Objects(pages);
            ReadContent(File(objects), TableOf(objects), ContentId(k)) == Some(Shown(pages[k]))
  {
    hide Objects, File, TableOf, ObjectAt, Content, Stream, StreamStart, ReadShows, Shows, Shown, After, ReadNat, Expect;
    var objects := Objects(pages);
    var i := ContentId(k) - 1;
    ObjectIs(pages, i);
    var stream := Stream(pages[k]);
    assert objects[i] == Content(stream);
    ObjectReads(objects, i);
    var rest := After(objects, i + 1);
    var e := T("\nendstream\nendobj\n") + rest;
    ContentShape(stream, rest);
    Expected(T("<< /Length "), Digits(|stream|) + (T(" >>\nstream\n") + (stream + e)));
    NatReads(|stream|, T(" >>\nstream\n") + (stream + e));
    Expected(T(" >>\nstream\n"), stream + e);
    assert (stream + e)[|stream|..] == e && (stream + e)[..|stream|] == stream;
    Expected(T("\nendstream\nendobj\n"), rest);
    StreamShape(pages[k]);
    Expected(StreamStart(), EndAll(Shows(pages[k])) + T("ET"));
    ShowsRead(pages[k]);
  }

  lemma ObjectIs(pages: seq<seq<Text>>, i: nat)
    requires i < 3 + 2 * |pages|
    ensures |Objects(pages)| == 3 + 2 * |pages| && Objects(pages)[i] == ObjectBody(pages, i)
  {}

  /* -------------------------------------- pages -------------------------------------- */

  lemma FontReads(pages: seq<seq<Text>>)
    ensures var objects := Objects(pages);
            var font := ObjectAt(File(objects), TableOf(objects), 3);
            font.Some? && Expect(font.value,
              T("<< /Type /Font /Subtype /Type1 /BaseFont /Helvetica /Encoding /WinAnsiEncoding >>")).Some?
  {
    hide Objects, File, TableOf, ObjectAt, After, Expect, T;
    var objects := Objects(pages);
    ObjectIs(pages, 2);
    ObjectReads(objects, 2);
    assert Font() + T("\nendobj\n") + After(objects, 3) == Font() + (T("\nendobj\n") + After(objects, 3));
    Expected(Font(), T("\nendobj\n") + After(objects, 3));
  }

  lemma PageReads(pages: seq<seq<Text>>, k: nat)
    requires k < |pages|
    ensures var objects := Objects(pages);
            ReadPage(File(objects), TableOf(objects), 2, PageId(k)) == Some(Shown(pages[k]))
  {
    hide Objects, File, TableOf, ObjectAt, ReadPageBody, ReadContent, PageBody, Font, Shown, After, Expect, T;
    var objects := Objects(pages);
    var i := PageId(k) - 1;
    ObjectIs(pages, i);
    assert objects[i] == PageBody(ContentId(k));
    ObjectReads(objects, i);
    PageBodyReads(ContentId(k), After(objects, i + 1));
    FontReads(pages);
    ContentReads(pages, k);
  }

  function KidIds(from: nat, count: nat): seq<nat>
    requires from <= count
  {
    seq<nat>(count - from, k requires 0 <= k < count - from => PageId(from + k))
  }

  function AllShown(pages: seq<seq<Text>>): seq<seq<Text>> {
    seq(|pages|, k requires 0 <= k < |pages| => Shown(pages[k]))
  }

  lemma {:induction false} PagesRead(pages: seq<seq<Text>>, from: nat)
    requires from <= |pages|
    ensures var objects := Objects(pages);
            ReadPages(File(objects), TableOf(objects), 2, KidIds(from, |pages|)) == Some(AllShown(pages)[from..])
    decreases |pages| - from
  {
    hide Objects, File, TableOf, ReadPage, Shown;
    if from < |pages| {
      PageReads(pages, from);
      PagesRead(pages, from + 1);
      assert KidIds(from, |pages|)[0] == PageId(from);
      assert KidIds(from, |pages|)[1..] == KidIds(from + 1, |pages|);
      assert AllShown(pages)[from..] == [Shown(pages[from])] + AllShown(pages)[from + 1..];
    } else {
      assert KidIds(from, |pages|) == [] && AllShown(pages)[from..] == [];
    }
  }

  lemma TreeShape(count: nat, rest: Text)
    ensures PageTree(count) + T("\nendobj\n") + rest ==
      T("<< /Type /Pages /Kids [") + (Join(Refs(KidIds(0, count)), SPACE)
      + (T("] /Count ") + (Digits(count) + (T(" >>\nendobj\n") + rest))))
  {
    Closing(rest);
    assert Refs(KidIds(0, count)) == Kids(count);
    hide T, Join;
    assert PageTree(count) + T("\nendobj\n") + rest == T("<< /Type /Pages /Kids [") + (Join(Kids(count), SPACE)
      + (T("] /Count ") + (Digits(count) + (T(" >>") + T("\nendobj\n") + rest))));
  }

  lemma CatalogShape(rest: Text)
    ensures Catalog() + T("\nendobj\n") + rest == T("<< /Type /Catalog /Pages ") + (Ref(2) + (T(" >>\nendobj\n") + rest))
  {
    Closing(rest);
    hide T, Ref;
    assert Catalog() + T("\nendobj\n") + rest ==
      T("<< /Type /Catalog /Pages ") + (Ref(2) + (T(" >>") + T("\nendobj\n") + rest));
  }

  lemma CatalogReads(pages: seq<seq<Text>>)
    ensures var objects := Objects(pages);
            var catalog := ObjectAt(File(objects), TableOf(objects), 1);
            && catalog.Some?
            && var a := Expect(catalog.value, T("<< /Type /Catalog /Pages "));
            && a.Some? && ReadRef(a.value).Some? && ReadRef(a.value).value.0 == 2
            && Expect(ReadRef(a.value).value.1, T(" >>\nendobj\n")).Some?
  {
    hide Objects, File, TableOf, ObjectAt, Catalog, After, Expect, Ref, ReadRef;
    var objects := Objects(pages);
    ObjectIs(pages, 0);
    ObjectReads(objects, 0);
    CatalogShape(After(objects, 1));
    var e := T(" >>\nendobj\n") + After(objects, 1);
    Expected(T("<< /Type /Catalog /Pages "), Ref(2) + e);
    RefReads(2, e);
    Expected(T(" >>\nendobj\n"), After(objects, 1));
  }

  lemma NodeReads(pages: seq<seq<Text>>)
    requires pages != []
    ensures var objects := Objects(pages);
            var node := ObjectAt(File(objects), TableOf(objects), 2);
            && node.Some?
            && var c := Expect(node.value, T("<< /Type /Pages /Kids ["));
            && c.Some? && ReadRefs(c.value).Some? && ReadRefs(c.value).value.0 == KidIds(0, |pages|)
            && var d := Expect(ReadRefs(c.value).value.1, T("] /Count "));
            && d.Some? && ReadNat(d.value).Some? && ReadNat(d.value).value.0 == |pages|
            && Expect(ReadNat(d.value).value.1, T(" >>\nendobj\n")).Some?
  {
    hide Objects, File, TableOf, ObjectAt, PageTree, After, Expect, ReadRefs, ReadNat, Refs, Join;
    var objects := Objects(pages);
    ObjectIs(pages, 1);
    ObjectReads(objects, 1);
    TreeShape(|pages|, After(objects, 2));
    var e := T(" >>\nendobj\n") + After(objects, 2);
    var d := T("] /Count ") + (Digits(|pages|) + e);
    Expected(T("<< /Type /Pages /Kids ["), Join(Refs(KidIds(0, |pages|)), SPACE) + d);
    RefsRead(KidIds(0, |pages|), d);
    Expected(T("] /Count "), Digits(|pages|) + e);
    NatReads(|pages|, e);
    Expected(T(" >>\nendobj\n"), After(objects, 2));
  }

  lemma TreeReads(pages: seq<seq<Text>>)
    requires pages != []
    ensures var objects := Objects(pages);
            ReadTree(File(objects), TableOf(objects), 1) == Some(AllShown(pages))
  {
    hide Objects, File, TableOf, ObjectAt, Expect, ReadRef, ReadRefs, ReadNat, ReadPages;
    CatalogReads(pages);
    NodeReads(pages);
    PagesRead(pages, 0);
    assert AllShown(pages)[0..] == AllShown(pages);
  }

  lemma FileReads(pages: seq<seq<Text>>)
    requires pages != []
    ensures ReadPdf(File(Objects(pages))) ==
            if Offset(Objects(pages), |Objects(pages)| - 1) < Pow10(10) then Some(AllShown(pages)) else None
  {
    hide Objects, File, TableOf, ReadStart, ReadXref, ReadTree, Offset, Pow10;
    var objects := Objects(pages);
    ObjectIs(pages, 0);
    StartOfFile(objects);
    XrefReads(objects);
    FitIffLastFits(objects);
    TreeReads(pages);
  }

  /**
   * The whole export: a reader that starts at `startxref` gets exactly the wrapped
   * lines of the report, page by page, as WinAnsi bytes, if and only if the last
   * object starts below byte 10^10, the first offset a table entry cannot hold.
   */
  lemma PdfReadsBack(title: Text, sessions: seq<SessionRow>)
    ensures var pages := Pages(ReportLines(title, sessions));
            ReadPdf(PdfFile(title, sessions)) ==
            if Offset(Objects(pages), 2 + 2 * |pages|) < Pow10(10) then Some(AllShown(pages)) else None
  {
    hide Pages, ReportLines, File, ReadPdf, Offset, Pow10;
    var pages := Pages(ReportLines(title, sessions));
    SomePage(title, sessions);
    ObjectIs(pages, 0);
    FileReads(pages);
  }

  /* ----------------------------- what a reader of the report reads ----------------------------- */

  /** Eight cells in a row, with ` | ` between them. */
  ghost predicate InRow(line: Text, v: Record) {
    |v| == 8
    && line == v[0] + [32, 124, 32] + (v[1] + [32, 124, 32] + (v[2] + [32, 124, 32] + (v[3] + [32, 124, 32]
               + (v[4] + [32, 124, 32] + (v[5] + [32, 124, 32] + (v[6] + [32, 124, 32] + v[7]))))))
  }

  ghost predicate RowTells(line: Text, s: SessionRow) { exists v: Record :: Tells(v, s) && InRow(line, v) }

  ghost predicate HeaderRow(line: Text) {
    exists v: Record :: InRow(line, v) && forall c :: 0 <= c < 8 ==> v[c] == T(HEADER[c])
  }

  /** The title, an empty row, the names of the columns, and a row for each session. */
  ghost predicate ReportOf(rows: seq<Text>, title: Text, sessions: seq<SessionRow>) {
    && |rows| == 3 + |sessions| && rows[0] == title && rows[1] == [] && HeaderRow(rows[2])
    && forall i :: 0 <= i < |sessions| ==> RowTells(rows[3 + i], sessions[i])
  }

  lemma JoinStep(v: Record)
    requires |v| > 1
    ensures Join(v, SEPARATOR) == v[0] + SEPARATOR + Join(v[1..], SEPARATOR)
  {}

  lemma JoinEight(v: Record)
    requires |v| == 8
    ensures InRow(Join(v, SEPARATOR), v)
  {
    hide Join;
    JoinStep(v);
    JoinStep(v[1..]);
    JoinStep(v[2..]);
    JoinStep(v[3..]);
    JoinStep(v[4..]);
    JoinStep(v[5..]);
    JoinStep(v[6..]);
    assert v[7..] == [v[7]];
    assert Join([v[7]], SEPARATOR) == v[7] by { JoinLast(v[7]); }
    assert v[1..][1..] == v[2..] && v[2..][1..] == v[3..] && v[3..][1..] == v[4..];
    assert v[4..][1..] == v[5..] && v[5..][1..] == v[6..] && v[6..][1..] == v[7..];
  }

  lemma JoinLast(x: Text)
    ensures Join([x], SEPARATOR) == x
  {}

  lemma RowsReport(title: Text, sessions: seq<SessionRow>)
    ensures ReportOf(Rows(title, sessions), title, sessions)
  {
    hide Columns, RowValues, Join, InRow, Tells, T;
    JoinEight(Columns());
    forall c | 0 <= c < 8 ensures Columns()[c] == T(HEADER[c]) { HeaderIs(c); }
    assert HeaderRow(Join(Columns(), SEPARATOR));
    forall i | 0 <= i < |sessions| ensures RowTells(Rows(title, sessions)[3 + i], sessions[i]) {
      ValuesTell(sessions[i]);
      JoinEight(RowValues(sessions[i]));
    }
  }

  lemma {:induction false} ShownTogether(pages: seq<seq<Text>>)
    ensures Concat(AllShown(pages)) == Shown(Concat(pages))
  {
    hide WinAnsi;
    if pages != [] {
      ShownTogether(pages[1..]);
      assert AllShown(pages)[1..] == AllShown(pages[1..]);
      assert Shown(pages[0] + Concat(pages[1..])) == Shown(pages[0]) + Shown(Concat(pages[1..]));
    }
  }

  /**
   * Whatever a reader gets from the file is the report: the lines of its pages, taken
   * together, are the rows of the title, the columns and the sessions, cut into lines,
   * as WinAnsi bytes; and each session's row tells its fields.
   */
  lemma PdfTells(title: Text, sessions: seq<SessionRow>)
    ensures var read := ReadPdf(PdfFile(title, sessions));
            read.Some? ==>
              exists rows, lines ::
                && ReportOf(rows, title, sessions) && LinesOf(lines, rows)
                && |Concat(read.value)| == |lines|
                && forall i :: 0 <= i < |lines| ==> Concat(read.value)[i] == WinAnsi(lines[i])
  {
    hide ReadPdf, PdfFile, ReportOf, LinesOf, WinAnsi, Rows, WrapAll, Pages, Concat, Offset, Objects;
    PdfReadsBack(title, sessions);
    var rows := Rows(title, sessions);
    var lines := ReportLines(title, sessions);
    RowsReport(title, sessions);
    WrapAllIsCut(rows);
    PagesAreTheLines(lines);
    ShownTogether(Pages(lines));
  }

  /* -------------------------------------- bytes -------------------------------------- */

  lemma {:induction false} JoinIsBytes(parts: seq<Text>, sep: Text)
    requires AllBytes(sep) && forall i :: 0 <= i < |parts| ==> AllBytes(parts[i])
    ensures AllBytes(Join(parts, sep))
  {
    if |parts| > 1 { JoinIsBytes(parts[1..], sep); }
  }

  lemma {:induction false} ConcatIsBytes(parts: seq<Text>)
    requires forall i :: 0 <= i < |parts| ==> AllBytes(parts[i])
    ensures AllBytes(Concat(parts))
  {
    if parts != [] { ConcatIsBytes(parts[1..]); }
  }

  lemma ShowIsBytes(line: Text)
    ensures AllBytes(Show(line))
  {
    hide T, WinAnsi;
    WinAnsiPrints(line);
    EscapesOnce(WinAnsi(line));
    EscapedIsBytes(WinAnsi(line));
  }

  lemma WinAnsiPrints(line: Text)
    ensures Printable(WinAnsi(line))
  {}

  lemma StreamIsBytes(page: seq<Text>)
    ensures AllBytes(Stream(page))
  {
    hide T, Show;
    var parts := Prologue() + Shows(page) + [T("ET")];
    forall i | 0 <= i < |parts| ensures AllBytes(parts[i]) {
      if 4 <= i < 4 + |page| { ShowIsBytes(page[i - 4]); assert parts[i] == Show(page[i - 4]); }
    }
    JoinIsBytes(parts, NEWLINE);
  }

  lemma TreeIsBytes(count: nat)
    ensures AllBytes(PageTree(count))
  {
    hide T, Digits;
    JoinIsBytes(Kids(count), SPACE);
  }

  lemma BodiesAreBytes(stream: Text, contentId: nat)
    requires AllBytes(stream)
    ensures AllBytes(Content(stream)) && AllBytes(PageBody(contentId))
  {
    hide T, Digits;
  }

  lemma FixedAreBytes()
    ensures AllBytes(Catalog()) && AllBytes(Font())
  {
    hide T, Digits;
  }

  lemma ObjectIsBytes(pages: seq<seq<Text>>, i: nat)
    requires i < 3 + 2 * |pages|
    ensures AllBytes(ObjectBody(pages, i))
  {
    hide AllBytes, Catalog, Font, Content, PageBody, Stream, PageTree;
    FixedAreBytes();
    TreeIsBytes(|pages|);
    if i >= 3 {
      StreamIsBytes(pages[(i - 3) / 2]);
      BodiesAreBytes(Stream(pages[(i - 3) / 2]), i);
    }
  }

  /** Every unit of the file fits a byte, so writing it as Latin-1 loses nothing. */
  lemma PdfIsBytes(title: Text, sessions: seq<SessionRow>)
    ensures AllBytes(PdfFile(title, sessions))
  {
    hide Pages, ReportLines, ObjectBody, T, Digits, Padded, Offset;
    var pages := Pages(ReportLines(title, sessions));
    var objects := Objects(pages);
    forall i | 0 <= i < |objects| ensures AllBytes(ObjectTexts(objects)[i]) {
      ObjectIsBytes(pages, i);
    }
    ConcatIsBytes(ObjectTexts(objects));
    ConcatIsBytes(Entries(objects));
  }
}
