/**
 * The PDF export: its objects, their byte offsets, and the cross-reference table.
 * Everything written is Latin-1, so the file is a text of units below 256, one a byte.
 */
module PdfLayout {
  import opened JsText
  import opened Decimal
  import opened ReportRows
  import opened PdfText
  import opened PdfWrap

  const NEWLINE: Text := [10]
  const SPACE: Text := [32]

  function Rows(title: Text, sessions: seq<SessionRow>): seq<Text> {
    [title, [], Join(Columns(), SEPARATOR)]
    + seq(|sessions|, i requires 0 <= i < |sessions| => Join(RowValues(sessions[i]), SEPARATOR))
  }

  function ReportLines(title: Text, sessions: seq<SessionRow>): seq<Text> { WrapAll(Rows(title, sessions)) }

  /** An indirect reference to object `n`. */
  function Ref(n: nat): Text { Digits(n) + T(" 0 R") }

  function Show(line: Text): Text { [OPEN] + PdfEscape(line) + [CLOSE] + T(" Tj T*") }
  function Shows(page: seq<Text>): seq<Text> { seq(|page|, i requires 0 <= i < |page| => Show(page[i])) }

  function Prologue(): seq<Text> { [T("BT"), T("/F1 9 Tf"), T("14 TL"), T("40 802 Td")] }

  function Stream(page: seq<Text>): Text { Join(Prologue() + Shows(page) + [T("ET")], NEWLINE) }

  function Catalog(): Text { T("<< /Type /Catalog /Pages ") + Ref(2) + T(" >>") }

  function Font(): Text {
    T("<< /Type /Font /Subtype /Type1 /BaseFont /Helvetica /Encoding /WinAnsiEncoding >>")
  }

  function PageId(k: nat): nat { 5 + 2 * k }
  function ContentId(k: nat): nat { 4 + 2 * k }

  function Kids(count: nat): seq<Text> { seq(count, k requires 0 <= k < count => Ref(PageId(k))) }

  function PageTree(count: nat): Text {
    T("<< /Type /Pages /Kids [") + Join(Kids(count), SPACE) + T("] /Count ") + Digits(count) + T(" >>")
  }

  function Content(stream: Text): Text {
    T("<< /Length ") + Digits(|stream|) + T(" >>\nstream\n") + stream + T("\nendstream")
  }

  function PageBody(contentId: nat): Text {
    T("<< /Type /Page /Parent ") + Ref(2) + T(" /MediaBox [0 0 595 842] /Resources << /Font << /F1 ") + Ref(3)
    + T(" >> >> /Contents ") + Ref(contentId) + T(" >>")
  }

  /** Object `i + 1`: catalog, page tree, font, then a content stream and its page for each page in turn. */
  function ObjectBody(pages: seq<seq<Text>>, i: nat): Text
    requires i < 3 + 2 * |pages|
  {
    if i == 0 then Catalog() else if i == 1 then PageTree(|pages|) else if i == 2 then Font()
    else if i % 2 == 1 then Content(Stream(pages[(i - 3) / 2]))
    else PageBody(i)
  }

  function Objects(pages: seq<seq<Text>>): seq<Text> {
    seq(3 + 2 * |pages|, i requires 0 <= i < 3 + 2 * |pages| => ObjectBody(pages, i))
  }

  function ObjectText(i: nat, body: Text): Text { Digits(i + 1) + T(" 0 obj\n") + body + T("\nendobj\n") }

  function ObjectTexts(objects: seq<Text>): seq<Text> {
    seq(|objects|, i requires 0 <= i < |objects| => ObjectText(i, objects[i]))
  }

  function FileHeader(): Text { T("%PDF-1.4\n") }

  /** The byte at which object `i + 1` starts; for `i == |objects|`, where the table starts. */
  function Offset(objects: seq<Text>, i: nat): nat
    requires i <= |objects|
  {
    |FileHeader()| + |Concat(ObjectTexts(objects)[..i])|
  }

  function Entry(offset: nat): Text { Padded(offset, 10) + T(" 00000 n \n") }

  function Entries(objects: seq<Text>): seq<Text> {
    seq(|objects|, i requires 0 <= i < |objects| => Entry(Offset(objects, i)))
  }

  function FreeEntry(): Text { T("0000000000 65535 f \n") }

  function Table(objects: seq<Text>): Text { FreeEntry() + Concat(Entries(objects)) }

  function Trailer(size: nat, xrefStart: nat): Text {
    T("trailer\n<< /Size ") + Digits(size) + T(" /Root ") + Ref(1) + T(" >>\n")
    + T("startxref\n") + Digits(xrefStart) + T("\n%%EOF\n")
  }

  function Xref(objects: seq<Text>): Text {
    T("xref\n0 ") + Digits(|objects| + 1) + NEWLINE + Table(objects)
    + Trailer(|objects| + 1, Offset(objects, |objects|))
  }

  function File(objects: seq<Text>): Text { FileHeader() + Concat(ObjectTexts(objects)) + Xref(objects) }

  function PdfFile(title: Text, sessions: seq<SessionRow>): Text {
    File(Objects(Pages(ReportLines(title, sessions))))
  }

  lemma {:induction false} ConcatParts<A>(a: seq<seq<A>>, b: seq<seq<A>>)
    ensures Concat(a + b) == Concat(a) + Concat(b)
  {
    if a == [] {
      assert a + b == b;
    } else {
      assert (a + b)[1..] == a[1..] + b;
      ConcatParts(a[1..], b);
    }
  }

  lemma ConcatPush<A>(a: seq<seq<A>>, x: seq<A>)
    ensures Concat(a + [x]) == Concat(a) + x
  {
    ConcatParts(a, [x]);
    assert Concat([x]) == x + Concat([x][1..]);
  }

  /* ------------------------------------- the code ------------------------------------- */

  method RowsOf(title: Text, sessions: seq<SessionRow>) returns (rows: seq<Text>)
    ensures rows == Rows(title, sessions)
  {
    hide RowValues, Columns, Join;
    rows := [title, [], Join(Columns(), SEPARATOR)];
    for i := 0 to |sessions|
      invariant rows == Rows(title, sessions)[..3 + i]
    {
      rows := rows + [Join(RowValues(sessions[i]), SEPARATOR)];
    }
    assert Rows(title, sessions)[..3 + |sessions|] == Rows(title, sessions);
  }

  method WrapEach(rows: seq<Text>) returns (lines: seq<Text>)
    ensures lines == WrapAll(rows)
  {
    hide Wrapped;
    lines := [];
    for i := 0 to |rows|
      invariant lines == WrapAll(rows[..i])
    {
      var wrapped := Wrap(rows[i]);
      lines := lines + wrapped;
      assert rows[..i + 1] == rows[..i] + [rows[i]];
      WrapAllParts(rows[..i], [rows[i]]);
      assert WrapAll([rows[i]]) == Wrapped(rows[i]) + WrapAll([rows[i]][1..]);
    }
    assert rows[..|rows|] == rows;
  }

  method StreamOf(page: seq<Text>) returns (stream: Text)
    ensures stream == Stream(page)
  {
    hide PdfEscape, T;
    var parts := Prologue();
    for i := 0 to |page|
      invariant parts == Prologue() + Shows(page)[..i]
    {
      var bytes := ToWinAnsi(page[i]);
      assert ThreeReplaces(bytes) == PdfEscape(page[i]) by { EscapeIs(page[i]); }
      parts := parts + [[OPEN] + ThreeReplaces(bytes) + [CLOSE] + T(" Tj T*")];
    }
    assert Shows(page)[..|page|] == Shows(page);
    stream := Join(parts + [T("ET")], NEWLINE);
  }

  lemma EscapeIs(text: Text)
    ensures PdfEscape(text) == ThreeReplaces(WinAnsi(text))
  {}

  /** Adds the objects in order; the page tree is filled in once the page ids are known. */
  method LayOut(pages: seq<seq<Text>>) returns (objects: seq<Text>)
    ensures objects == Objects(pages)
  {
    hide Catalog, Font, Stream, Content, PageBody, Ref, T;
    objects := [Catalog(), T("PLACEHOLDER"), Font()];
    var kids: seq<Text> := [];
    for k := 0 to |pages|
      invariant |objects| == 3 + 2 * k
      invariant forall i :: 0 <= i < |objects| && i != 1 ==> objects[i] == ObjectBody(pages, i)
      invariant kids == Kids(|pages|)[..k]
    {
      var stream := StreamOf(pages[k]);
      objects := objects + [Content(stream)];
      var contentId := |objects|;
      objects := objects + [PageBody(contentId)];
      var pageId := |objects|;
      kids := kids + [Ref(pageId)];
    }
    assert Kids(|pages|)[..|pages|] == Kids(|pages|);
    objects := objects[1 := T("<< /Type /Pages /Kids [") + Join(kids, SPACE) + T("] /Count ") + Digits(|kids|) + T(" >>")];
  }

  /** Writes the objects one after the other, noting where each starts, and then the table. */
  method Write(objects: seq<Text>) returns (file: Text)
    ensures file == File(objects)
  {
    hide ObjectText, Entry, T, Trailer, FileHeader, FreeEntry;
    file := FileHeader();
    var position, offsets := |FileHeader()|, [];
    for i := 0 to |objects|
      invariant file == FileHeader() + Concat(ObjectTexts(objects)[..i]) && position == Offset(objects, i)
      invariant |offsets| == i && forall j :: 0 <= j < i ==> offsets[j] == Offset(objects, j)
    {
      offsets := offsets + [position];
      var text := ObjectText(i, objects[i]);
      ConcatPush(ObjectTexts(objects)[..i], text);
      assert ObjectTexts(objects)[..i + 1] == ObjectTexts(objects)[..i] + [text];
      file := file + text;
      position := position + |text|;
    }
    assert ObjectTexts(objects)[..|objects|] == ObjectTexts(objects);
    var entries: Text := [];
    for i := 0 to |offsets|
      invariant entries == Concat(Entries(objects)[..i])
    {
      entries := entries + Entry(offsets[i]);
      ConcatPush(Entries(objects)[..i], Entry(offsets[i]));
      assert Entries(objects)[..i + 1] == Entries(objects)[..i] + [Entry(offsets[i])];
    }
    assert Entries(objects)[..|objects|] == Entries(objects);
    file := file + (T("xref\n0 ") + Digits(|objects| + 1) + NEWLINE + (FreeEntry() + entries)
                    + Trailer(|objects| + 1, position));
  }

  /** There is always a page: the branch for none is never taken. */
  lemma SomePage(title: Text, sessions: seq<SessionRow>)
    ensures Pages(ReportLines(title, sessions)) != []
  {
    hide Columns, RowValues, Join;
    var rows := Rows(title, sessions);
    assert rows[0] == title && WrapAll(rows) == Wrapped(title) + WrapAll(rows[1..]);
    assert Wrapped(title) != [];
  }

  method RenderPdf(title: Text, sessions: seq<SessionRow>) returns (file: Text)
    ensures file == PdfFile(title, sessions)
  {
    hide Rows, Pages, Wrapped, Objects, File;
    var rows := RowsOf(title, sessions);
    var lines := WrapEach(rows);
    var pages := Paginate(lines);
    SomePage(title, sessions);
    if |pages| == 0 { pages := [[title]]; }
    var objects := LayOut(pages);
    file := Write(objects);
  }
}
