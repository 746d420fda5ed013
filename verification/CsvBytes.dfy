/** The CSV export as bytes: its UTF-8 form, decoded and read back. */
module CsvBytes {
  import opened Common
  import opened JsText
  import opened ReportRows
  import opened CsvReport
  import opened Decimal
  import opened Utf8

  function RenderCsvBytes(sessions: seq<SessionRow>): Text { Encode(RenderCsv(sessions)) }

  function MendRecord(r: Record): Record { seq(|r|, i requires 0 <= i < |r| => Mended(r[i])) }
  function MendTable(table: seq<Record>): seq<Record> {
    seq(|table|, i requires 0 <= i < |table| => MendRecord(table[i]))
  }

  lemma MendOne(u: Unit)
    requires !Surrogate(u)
    ensures Mended([u]) == [u]
  {
    NothingToMend([u]);
  }

  lemma MendAfter(u: Unit, v: Text)
    requires !Surrogate(u)
    ensures Mended([u] + v) == [u] + Mended(v)
  {
    MendOne(u);
    MendParts([u], v);
  }

  lemma MendBefore(v: Text, u: Unit)
    requires !Surrogate(u)
    ensures Mended(v + [u]) == Mended(v) + [u]
  {
    MendOne(u);
    MendParts(v, [u]);
  }

  lemma MendNeutralised(v: Text)
    ensures NeutraliseFormula(Mended(v)) == Mended(NeutraliseFormula(v))
  {
    if v != [] { MendedExactly(v, 0); }
    MendAfter(APOSTROPHE, v);
  }

  lemma MendNeedsQuotes(v: Text)
    ensures NeedsQuotes(Mended(v)) <==> NeedsQuotes(v)
  {
    forall i | 0 <= i < |v| ensures Mended(v)[i] == v[i] || (Surrogate(v[i]) && Mended(v)[i] == REPLACEMENT) {
      MendedExactly(v, i);
    }
    if NeedsQuotes(v) {
      var i :| 0 <= i < |v| && (v[i] == QUOTE || v[i] == COMMA || v[i] == CR || v[i] == LF);
      assert Mended(v)[i] == v[i];
    }
  }

  lemma QuotesStart(v: Text)
    ensures DoubleQuotes(v) == [] <==> v == []
    ensures v != [] ==> DoubleQuotes(v)[0] == v[0]
  {}

  lemma QuotesSplit(v: Text)
    ensures DoubleQuotes([]) == []
    ensures v != [] ==> DoubleQuotes(v) == (if v[0] == QUOTE then [QUOTE, QUOTE] else [v[0]]) + DoubleQuotes(v[1..])
  {}

  /** Doubling quotes goes by parts. */
  lemma {:induction false} QuotesParts(a: Text, b: Text)
    ensures DoubleQuotes(a + b) == DoubleQuotes(a) + DoubleQuotes(b)
    decreases |a|
  {
    hide DoubleQuotes;
    QuotesSplit(a);
    QuotesSplit(a + b);
    if a == [] {
      assert a + b == b;
    } else {
      assert (a + b)[1..] == a[1..] + b;
      QuotesParts(a[1..], b);
    }
  }

  /** Neither half of a pair is a quote. */
  lemma PairHasNoQuotes(pair: Text)
    requires |pair| == 2 && StartsPair(pair)
    ensures DoubleQuotes(pair) == pair
  {
    hide DoubleQuotes;
    QuotesSplit(pair);
    QuotesSplit(pair[1..]);
    assert pair[1..][1..] == [] && pair[1..] == [pair[1]] && pair == [pair[0]] + [pair[1]];
  }

  lemma {:induction false} MendQuotes(v: Text)
    ensures DoubleQuotes(Mended(v)) == Mended(DoubleQuotes(v))
    decreases |v|
  {
    hide DoubleQuotes;
    QuotesSplit(v);
    if StartsPair(v) {
      var (pair, rest) := (v[..2], v[2..]);
      MendQuotes(rest);
      PairHasNoQuotes(pair);
      QuotesParts(pair, rest);
      QuotesParts(pair, Mended(rest));
      assert v == pair + rest;
      hide Mended;
      PairFirst(pair, DoubleQuotes(rest));
      PairFirst(pair, rest);
    } else if v != [] {
      MendQuotes(v[1..]);
      MendFirstQuote(v);
    } else {
      NothingToMend([]);
    }
  }

  lemma MendFirstQuote(v: Text)
    requires v != [] && !StartsPair(v) && DoubleQuotes(Mended(v[1..])) == Mended(DoubleQuotes(v[1..]))
    ensures DoubleQuotes(Mended(v)) == Mended(DoubleQuotes(v))
  {
    var (rest, first) := (v[1..], if v[0] == QUOTE then [QUOTE, QUOTE] else [v[0]]);
    QuotesSplit(v);
    QuotesSplit(Mended(v));
    assert Mended(v)[1..] == Mended(rest);
    assert Apart(first, DoubleQuotes(rest)) by { QuotesStart(rest); }
    MendParts(first, DoubleQuotes(rest));
    if v[0] == QUOTE { NothingToMend(first); } else { assert Mended([v[0]]) == [Mended(v)[0]]; }
    hide DoubleQuotes, Mended;
  }

  lemma PairFirst(pair: Text, rest: Text)
    requires |pair| == 2 && StartsPair(pair)
    ensures Mended(pair + rest) == pair + Mended(rest)
  {
    assert (pair + rest)[..2] == pair && (pair + rest)[2..] == rest;
  }

  lemma MendField(v: Text)
    ensures CsvField(Mended(v)) == Mended(CsvField(v))
  {
    var safe := NeutraliseFormula(v);
    MendNeutralised(v);
    MendNeedsQuotes(safe);
    MendQuotes(safe);
    MendAfter(QUOTE, DoubleQuotes(safe) + [QUOTE]);
    MendBefore(DoubleQuotes(safe), QUOTE);
    assert [QUOTE] + (DoubleQuotes(safe) + [QUOTE]) == [QUOTE] + DoubleQuotes(safe) + [QUOTE];
    assert [QUOTE] + (Mended(DoubleQuotes(safe)) + [QUOTE]) == [QUOTE] + Mended(DoubleQuotes(safe)) + [QUOTE];
    hide NeutraliseFormula, NeedsQuotes, DoubleQuotes, Mended;
  }

  lemma {:induction false} MendLine(r: Record)
    ensures Line(MendRecord(r)) == Mended(Line(r))
    decreases |r|
  {
    hide CsvField, Mended;
    if |r| == 0 {
      NothingToMend([]);
    } else if |r| == 1 {
      MendField(r[0]);
    } else {
      var rest := r[1..];
      assert Fields(r)[1..] == Fields(rest) && Fields(MendRecord(r))[1..] == Fields(MendRecord(rest));
      MendField(r[0]);
      MendLine(rest);
      assert Line(r) == CsvField(r[0]) + ([COMMA] + Line(rest));
      MendAfter(COMMA, Line(rest));
      MendParts(CsvField(r[0]), [COMMA] + Line(rest));
      assert Line(MendRecord(r)) == CsvField(Mended(r[0])) + ([COMMA] + Line(MendRecord(rest)));
    }
  }

  lemma {:induction false} MendLines(table: seq<Record>)
    ensures Ended(Printed(MendTable(table))) == Mended(Ended(Printed(table)))
    decreases |table|
  {
    hide Line, Mended, MendRecord;
    if table == [] {
      NothingToMend([]);
    } else {
      var rest := table[1..];
      assert Printed(table)[1..] == Printed(rest) && Printed(MendTable(table))[1..] == Printed(MendTable(rest));
      MendLine(table[0]);
      MendLines(rest);
      var line, more := Line(table[0]), Ended(Printed(rest));
      assert Ended(Printed(table)) == line + ([CR] + ([LF] + more));
      MendAfter(LF, more);
      MendAfter(CR, [LF] + more);
      MendParts(line, [CR] + ([LF] + more));
      assert Ended(Printed(MendTable(table))) == Mended(line) + ([CR] + ([LF] + Mended(more)));
    }
  }

  lemma RenderedIs(sessions: seq<SessionRow>)
    ensures RenderCsv(sessions) == [BOM] + Ended(Printed(Table(sessions)))
  {
    hide Columns, RowValues, Fields;
    PlainColumns();
    assert Lines(sessions) == Printed(Table(sessions));
    JoinedIsEnded(Lines(sessions));
    assert [BOM] + Join(Lines(sessions), CRLF) + CRLF == [BOM] + (Join(Lines(sessions), CRLF) + CRLF);
  }

  /** One record a session: its values, halves of surrogate pairs replaced, neutralised. */
  function ReadTable(sessions: seq<SessionRow>): seq<Record> {
    AllNeutralised(MendTable(Table(sessions)))
  }

  /**
   * The bytes of the export, decoded as UTF-8 and read by section 2 of RFC 4180 after
   * the byte-order mark, are the header and one record a session with the
   * neutralised values, whatever text they hold; only halves of surrogate pairs,
   * which no UTF-8 text can hold, are replaced.
   */
  lemma BytesReadBack(sessions: seq<SessionRow>)
    ensures var text := Decode(RenderCsvBytes(sessions));
            && text.Some? && text.value != [] && text.value[0] == BOM
            && ReadCsv(text.value[1..]) == Some(ReadTable(sessions))
  {
    var table := Table(sessions);
    EncodedReads(RenderCsv(sessions));
    RenderedIs(sessions);
    MendAfter(BOM, Ended(Printed(table)));
    MendLines(table);
    hide Mended, Encode, Decode, Columns, RowValues, Step, Line, Neutralised;
    TableIsFull(sessions);
    FeedLines(Reader([], [], [], Start), MendTable(table));
    assert [] + AllNeutralised(MendTable(table)) == AllNeutralised(MendTable(table));
    assert ([BOM] + Ended(Printed(MendTable(table))))[1..] == Ended(Printed(MendTable(table)));
  }

  lemma TableIsFull(sessions: seq<SessionRow>)
    ensures forall i :: 0 <= i < |MendTable(Table(sessions))| ==> MendTable(Table(sessions))[i] != []
  {
    hide Columns, RowValues, Mended;
  }

  /** The header, and the cell of each session and column. */
  lemma ReadTableIs(sessions: seq<SessionRow>, i: nat, c: nat)
    requires c < 8
    ensures |ReadTable(sessions)| == |sessions| + 1
    ensures |ReadTable(sessions)[0]| == 8 && ReadTable(sessions)[0][c] == Columns()[c]
    ensures i < |sessions| ==>
              |ReadTable(sessions)[i + 1]| == 8
              && ReadTable(sessions)[i + 1][c] == NeutraliseFormula(Mended(RowValues(sessions[i])[c]))
  {
    hide NeutraliseFormula, Mended, RowValues;
    ColumnsAreMended();
    assert Neutralised(Columns())[c] == Columns()[c] by { PlainColumns(); }
  }

  lemma ColumnsAreMended()
    ensures MendRecord(Columns()) == Columns()
  {
    hide Columns;
    forall c | 0 <= c < 8 ensures Mended(Columns()[c]) == Columns()[c] {
      ColumnsAreBytes(c);
      NothingToMend(Columns()[c]);
    }
  }

  lemma ColumnsAreBytes(c: nat)
    requires c < 8
    ensures AllBytes(Columns()[c])
  {
    hide T;
  }

  /** The session with the texts that UTF-8 can hold. */
  function MendedSession(s: SessionRow): SessionRow {
    SessionRow(Mended(s.sessionId), Mended(s.testerName), Mended(s.status), Mended(s.startedAt),
               match s.endedAt case None => None case Some(t) => Some(Mended(t)), s.durationMs, s.valid,
               match s.averageRating case None => None case Some(t) => Some(Mended(t)))
  }

  lemma PlainMends(v: Text)
    requires AllBytes(v)
    ensures Mended(v) == v
  {
    NothingToMend(v);
  }

  lemma NumeralsAreBytes(n: int)
    ensures AllBytes(Print(n))
  {}

  lemma MendedValues(s: SessionRow)
    ensures MendRecord(RowValues(s)) == RowValues(MendedSession(s))
  {
    hide Mended, T, Print;
    PlainMends([]);
    PlainMends(T("sim"));
    PlainMends(T("nao"));
    if s.durationMs.Some? {
      NumeralsAreBytes(s.durationMs.value);
      PlainMends(Print(s.durationMs.value));
    }
  }

  /**
   * The bytes of the export, decoded and read, tell every session: its eight columns
   * say what its fields say, whatever text they hold.
   */
  lemma BytesTell(sessions: seq<SessionRow>, i: nat, c: nat)
    requires c < 8
    ensures var text := Decode(RenderCsvBytes(sessions));
            && text.Some? && text.value != []
            && var table := ReadCsv(text.value[1..]);
               && table.Some? && |table.value| == |sessions| + 1
               && |table.value[0]| == 8 && table.value[0][c] == T(HEADER[c])
               && (i < |sessions| ==> ShowsSession(table.value[i + 1], MendedSession(sessions[i])))
  {
    hide Decode, RenderCsvBytes, ReadCsv, RowValues, ShowsSession, Mended, Columns, NeutraliseFormula, MendedSession;
    BytesReadBack(sessions);
    ReadTableIs(sessions, i, c);
    HeaderIs(c);
    if i < |sessions| {
      MendedValues(sessions[i]);
      NeutralisedShowsSession(MendedSession(sessions[i]));
      assert ReadTable(sessions)[i + 1] == Neutralised(RowValues(MendedSession(sessions[i])));
    }
  }
}
