/** The CSV export, and a reader for the format of section 2 of RFC 4180 that undoes it. */
module CsvReport {
  import opened Common
  import opened JsText
  import opened ReportRows

  const QUOTE: Unit := 34
  const COMMA: Unit := 44
  const CR: Unit := 13
  const LF: Unit := 10
  const CRLF: Text := [CR, LF]
  const BOM: Unit := 0xfeff
  const APOSTROPHE: Unit := 39

  /** What a spreadsheet would run as a formula: `=`, `+`, `-`, `@`, tab or CR first. */
  predicate StartsFormula(v: Text) {
    v != [] && (v[0] == 61 || v[0] == 43 || v[0] == 45 || v[0] == 64 || v[0] == 9 || v[0] == CR)
  }

  function NeutraliseFormula(v: Text): (r: Text)
    ensures !StartsFormula(r)
  {
    if StartsFormula(v) then [APOSTROPHE] + v else v
  }

  predicate NeedsQuotes(v: Text) {
    exists i :: 0 <= i < |v| && (v[i] == QUOTE || v[i] == COMMA || v[i] == CR || v[i] == LF)
  }

  function DoubleQuotes(v: Text): Text {
    if v == [] then [] else (if v[0] == QUOTE then [QUOTE, QUOTE] else [v[0]]) + DoubleQuotes(v[1..])
  }

  function CsvField(v: Text): Text {
    var safe := NeutraliseFormula(v);
    if NeedsQuotes(safe) then [QUOTE] + DoubleQuotes(safe) + [QUOTE] else safe
  }

  function Fields(r: Record): Record { seq(|r|, i requires 0 <= i < |r| => CsvField(r[i])) }

  function Line(r: Record): Text { Join(Fields(r), [COMMA]) }

  function Lines(sessions: seq<SessionRow>): seq<Text> {
    [Join(Columns(), [COMMA])] + seq(|sessions|, i requires 0 <= i < |sessions| => Line(RowValues(sessions[i])))
  }

  /** The file as text; its bytes are the UTF-8 form of this. */
  function RenderCsv(sessions: seq<SessionRow>): Text {
    [BOM] + Join(Lines(sessions), CRLF) + CRLF
  }

  /* -------------------------------------- the reader -------------------------------------- */

  /**
   * Records separated by CRLF, the last one ended by CRLF; fields separated by
   * commas; a field that starts with a quote runs to the next quote that is not
   * doubled; a bare field holds no quote, comma, CR or LF.
   */
  datatype Reader = Reader(records: seq<Record>, fields: Record, cell: Text, at: Position)
  datatype Position = Start | Bare | Quoted | QuoteSeen | CrSeen | Bad

  function Step(r: Reader, u: Unit): Reader {
    match r.at
    case Bad => r
    case Quoted => if u == QUOTE then r.(at := QuoteSeen) else r.(cell := r.cell + [u])
    case CrSeen =>
      if u == LF then Reader(r.records + [r.fields + [r.cell]], [], [], Start) else r.(at := Bad)
    case _ =>
      if u == COMMA then Reader(r.records, r.fields + [r.cell], [], Start)
      else if u == CR then r.(at := CrSeen)
      else if u == QUOTE then
        if r.at.Start? then r.(at := Quoted)
        else if r.at.QuoteSeen? then Reader(r.records, r.fields, r.cell + [QUOTE], Quoted)
        else r.(at := Bad)
      else if u == LF || r.at.QuoteSeen? then r.(at := Bad)
      else Reader(r.records, r.fields, r.cell + [u], Bare)
  }

  function Feed(r: Reader, s: Text): Reader
    decreases |s|
  {
    if s == [] then r else Feed(Step(r, s[0]), s[1..])
  }

  function ReadCsv(s: Text): Option<seq<Record>> {
    var r := Feed(Reader([], [], [], Start), s);
    if r.at.Start? && r.fields == [] && r.cell == [] then Some(r.records) else None
  }

  lemma {:induction false} FeedTwice(r: Reader, a: Text, b: Text)
    ensures Feed(r, a + b) == Feed(Feed(r, a), b)
    decreases |a|
  {
    if a == [] {
      assert a + b == b;
    } else {
      assert (a + b)[1..] == a[1..] + b;
      FeedTwice(Step(r, a[0]), a[1..], b);
    }
  }

  /** Inside quotes, doubled quotes and anything else come back as they were. */
  lemma {:induction false} FeedQuoted(r: Reader, v: Text)
    requires r.at.Quoted?
    ensures Feed(r, DoubleQuotes(v)) == r.(cell := r.cell + v)
    decreases |v|
  {
    if v == [] {
      assert r.cell + v == r.cell;
    } else {
      var first := if v[0] == QUOTE then [QUOTE, QUOTE] else [v[0]];
      FeedTwice(r, first, DoubleQuotes(v[1..]));
      assert Feed(r, first) == r.(cell := r.cell + [v[0]]) by {
        if v[0] == QUOTE { assert Feed(r, first) == Feed(Step(Step(r, QUOTE), QUOTE), first[1..][1..]); }
      }
      FeedQuoted(r.(cell := r.cell + [v[0]]), v[1..]);
      assert r.cell + [v[0]] + v[1..] == r.cell + v;
    }
  }

  lemma {:induction false} FeedBare(r: Reader, v: Text)
    requires (r.at.Start? || r.at.Bare?) && !NeedsQuotes(v)
    ensures Feed(r, v) == if v == [] then r else Reader(r.records, r.fields, r.cell + v, Bare)
    decreases |v|
  {
    if v != [] {
      assert !NeedsQuotes(v[1..]);
      FeedBare(Step(r, v[0]), v[1..]);
      assert r.cell + [v[0]] + v[1..] == r.cell + v;
    }
  }

  /** A printed field is read to its end as one cell holding the neutralised value. */
  lemma FeedField(r: Reader, v: Text)
    requires r.at.Start? && r.cell == []
    ensures var r' := Feed(r, CsvField(v));
            (r'.at.Start? || r'.at.Bare? || r'.at.QuoteSeen?)
            && r' == r.(cell := NeutraliseFormula(v), at := r'.at)
  {
    var safe := NeutraliseFormula(v);
    if NeedsQuotes(safe) {
      var open := Step(r, QUOTE);
      assert CsvField(v)[1..] == DoubleQuotes(safe) + [QUOTE];
      FeedTwice(open, DoubleQuotes(safe), [QUOTE]);
      FeedQuoted(open, safe);
      assert [] + safe == safe;
    } else {
      FeedBare(r, safe);
      assert [] + safe == safe;
    }
  }

  function Neutralised(r: Record): Record { seq(|r|, i requires 0 <= i < |r| => NeutraliseFormula(r[i])) }

  /** A printed record followed by CRLF is read as one record, whatever its cells hold. */
  lemma {:induction false} FeedLine(r: Reader, cells: Record)
    requires r.at.Start? && r.cell == [] && cells != []
    ensures Feed(r, Line(cells) + CRLF) == Reader(r.records + [r.fields + Neutralised(cells)], [], [], Start)
    decreases |cells|
  {
    hide CsvField, NeutraliseFormula;
    var first := CsvField(cells[0]);
    var r1 := Feed(r, first);
    FeedField(r, cells[0]);
    if |cells| == 1 {
      FeedTwice(r, first, CRLF);
      assert Feed(r1, CRLF) == Feed(Step(Step(r1, CR), LF), CRLF[1..][1..]);
      assert [NeutraliseFormula(cells[0])] == Neutralised(cells);
    } else {
      assert Fields(cells)[1..] == Fields(cells[1..]);
      assert Line(cells) + CRLF == first + ([COMMA] + (Line(cells[1..]) + CRLF));
      FeedTwice(r, first, [COMMA] + (Line(cells[1..]) + CRLF));
      var r2 := Step(r1, COMMA);
      assert Feed(r1, [COMMA] + (Line(cells[1..]) + CRLF)) == Feed(r2, Line(cells[1..]) + CRLF);
      FeedLine(r2, cells[1..]);
      assert r.fields + Neutralised(cells) == r.fields + [NeutraliseFormula(cells[0])] + Neutralised(cells[1..]);
    }
  }

  /** Every line ended by CRLF: what joining and one final CRLF make. */
  function Ended(lines: seq<Text>): Text { if lines == [] then [] else lines[0] + CRLF + Ended(lines[1..]) }

  lemma {:induction false} JoinedIsEnded(lines: seq<Text>)
    requires lines != []
    ensures Join(lines, CRLF) + CRLF == Ended(lines)
  {
    if |lines| == 1 {
      assert Ended(lines[1..]) == [];
    } else {
      JoinedIsEnded(lines[1..]);
      assert Join(lines, CRLF) + CRLF == lines[0] + CRLF + (Join(lines[1..], CRLF) + CRLF);
    }
  }

  function Printed(tables: seq<Record>): seq<Text> { seq(|tables|, i requires 0 <= i < |tables| => Line(tables[i])) }
  function AllNeutralised(table: seq<Record>): seq<Record> {
    seq(|table|, i requires 0 <= i < |table| => Neutralised(table[i]))
  }

  lemma {:induction false} FeedLines(r: Reader, table: seq<Record>)
    requires r.at.Start? && r.cell == [] && r.fields == []
    requires forall i :: 0 <= i < |table| ==> table[i] != []
    ensures Feed(r, Ended(Printed(table))) == Reader(r.records + AllNeutralised(table), [], [], Start)
    decreases |table|
  {
    hide Line, Neutralised, Step;
    if table == [] {
      assert r.records + AllNeutralised(table) == r.records;
    } else {
      assert Printed(table)[1..] == Printed(table[1..]);
      FeedTwice(r, Line(table[0]) + CRLF, Ended(Printed(table[1..])));
      FeedLine(r, table[0]);
      assert r.fields + Neutralised(table[0]) == Neutralised(table[0]);
      FeedLines(Reader(r.records + [Neutralised(table[0])], [], [], Start), table[1..]);
      assert r.records + [Neutralised(table[0])] + AllNeutralised(table[1..]) == r.records + AllNeutralised(table);
    }
  }

  /** The report's table: the header and one record a session. */
  function Table(sessions: seq<SessionRow>): seq<Record> {
    [Columns()] + seq(|sessions|, i requires 0 <= i < |sessions| => RowValues(sessions[i]))
  }

  lemma PlainFields(r: Record)
    requires forall i :: 0 <= i < |r| ==> !StartsFormula(r[i]) && !NeedsQuotes(r[i])
    ensures Fields(r) == r && Neutralised(r) == r
  {}

  lemma PlainColumns()
    ensures Fields(Columns()) == Columns() && Neutralised(Columns()) == Columns()
  {
    PlainFields(Columns());
  }

  /**
   * Reading the export after its byte-order mark gives back the header and
   * exactly one record a session, cell by cell the neutralised values, whatever
   * quotes, commas and line breaks the values hold.
   */
  lemma ReadsBack(sessions: seq<SessionRow>)
    ensures RenderCsv(sessions)[0] == BOM
    ensures ReadCsv(RenderCsv(sessions)[1..]) ==
            Some([Columns()] + seq(|sessions|, i requires 0 <= i < |sessions| => Neutralised(RowValues(sessions[i]))))
  {
    hide Columns, RowValues, Neutralised, Fields, Step;
    PlainColumns();
    var table := Table(sessions);
    assert |Columns()| == 8;
    assert Lines(sessions) == Printed(table);
    JoinedIsEnded(Lines(sessions));
    assert RenderCsv(sessions)[1..] == Join(Lines(sessions), CRLF) + CRLF;
    FeedLines(Reader([], [], [], Start), table);
    assert [] + AllNeutralised(table) ==
      [Columns()] + seq(|sessions|, i requires 0 <= i < |sessions| => Neutralised(RowValues(sessions[i])));
  }

  /** No cell that is read back starts a formula, and each is the value itself or, if that would start one, the value behind an apostrophe. */
  lemma CellsAreHarmless(sessions: seq<SessionRow>, i: nat, c: nat)
    requires i < |sessions| && c < 8
    ensures var table := ReadCsv(RenderCsv(sessions)[1..]);
            && table.Some? && |table.value| == |sessions| + 1 && |table.value[i + 1]| == 8
            && Shows(table.value[i + 1][c], RowValues(sessions[i])[c])
            && !(table.value[i + 1][c] != [] && table.value[i + 1][c][0] in FORMULA_STARTS)
  {
    hide Step, Columns, RowValues;
    ReadsBack(sessions);
    NeutralisedShows(RowValues(sessions[i])[c]);
  }

  /** `=`, `+`, `-`, `@`, tab and carriage return. */
  const FORMULA_STARTS: set<Unit> := {61, 43, 45, 64, 9, 13}

  /** The cell is the value, behind an apostrophe exactly if it starts as a formula would. */
  ghost predicate Shows(cell: Text, v: Text) {
    cell == if v != [] && v[0] in FORMULA_STARTS then [39] + v else v
  }

  lemma NeutralisedShows(v: Text)
    ensures Shows(NeutraliseFormula(v), v)
    ensures !(NeutraliseFormula(v) != [] && NeutraliseFormula(v)[0] in FORMULA_STARTS)
  {}

  /** The record shows a session, column by column. */
  ghost predicate ShowsSession(r: Record, s: SessionRow) {
    exists v: Record :: Tells(v, s) && |r| == 8 && forall c :: 0 <= c < 8 ==> Shows(r[c], v[c])
  }

  lemma NeutralisedShowsSession(s: SessionRow)
    ensures ShowsSession(Neutralised(RowValues(s)), s)
  {
    ValuesTell(s);
    hide Tells, RowValues, Shows, NeutraliseFormula;
    forall c | 0 <= c < 8 ensures Shows(Neutralised(RowValues(s))[c], RowValues(s)[c]) { NeutralisedShows(RowValues(s)[c]); }
  }

  /** Reading the export gives the header and one record a session, which tells its fields. */
  lemma CsvTells(sessions: seq<SessionRow>, i: nat, c: nat)
    requires c < 8
    ensures var table := ReadCsv(RenderCsv(sessions)[1..]);
            && table.Some? && |table.value| == |sessions| + 1
            && |table.value[0]| == 8 && table.value[0][c] == T(HEADER[c])
            && (i < |sessions| ==> ShowsSession(table.value[i + 1], sessions[i]))
  {
    hide Step, Columns, RowValues, ShowsSession;
    ReadsBack(sessions);
    HeaderIs(c);
    if i < |sessions| { NeutralisedShowsSession(sessions[i]); }
  }
}
