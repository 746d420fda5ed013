/** The rows of the session report, shared by its CSV and PDF forms. */
module ReportRows {
  import opened Common
  import opened JsText
  import opened Decimal

  /**
   * One session of the report. Dates are given as their ISO text and the average
   * rating as its two-decimal text: printing those is the runtime's business.
   */
  datatype SessionRow = SessionRow(sessionId: Text, testerName: Text, status: Text, startedAt: Text,
                                   endedAt: Option<Text>, durationMs: Option<int>, valid: Option<bool>,
                                   averageRating: Option<Text>)

  type Record = seq<Text>

  function Columns(): (r: Record)
    ensures |r| == 8
  {
    [T("sessao"), T("testador"), T("status"), T("inicio"), T("fim"), T("duracao_ms"), T("valida"), T("nota_media")]
  }

  function RowValues(s: SessionRow): (r: Record)
    ensures |r| == 8
  {
    [ s.sessionId, s.testerName, s.status, s.startedAt,
      if s.endedAt.Some? then s.endedAt.value else [],
      if s.durationMs.Some? then Print(s.durationMs.value) else [],
      if s.valid.None? then [] else if s.valid.value then T("sim") else T("nao"),
      if s.averageRating.Some? then s.averageRating.value else [] ]
  }

  const HEADER: seq<string> := ["sessao", "testador", "status", "inicio", "fim", "duracao_ms", "valida", "nota_media"]

  lemma HeaderIs(c: nat)
    requires c < 8
    ensures Columns()[c] == T(HEADER[c])
  {
    hide T;
  }

  /** What the columns of a session's row say of it. */
  ghost predicate Tells(r: Record, s: SessionRow) {
    && |r| == 8
    && r[0] == s.sessionId && r[1] == s.testerName && r[2] == s.status && r[3] == s.startedAt
    && r[4] == (match s.endedAt case None => [] case Some(t) => t)
    && (match s.durationMs case None => r[5] == [] case Some(ms) => Numeral(r[5], ms))
    && (r[6] == [] <==> s.valid == None)
    && (r[6] == T("sim") <==> s.valid == Some(true))
    && (r[6] == T("nao") <==> s.valid == Some(false))
    && r[7] == (match s.averageRating case None => [] case Some(t) => t)
  }

  lemma ValuesTell(s: SessionRow)
    ensures Tells(RowValues(s), s)
  {
    LiteralIs("sim");
    LiteralIs("nao");
    assert T("sim")[0] != T("nao")[0];
    hide T, Numeral;
    if s.durationMs.Some? { PrintIsNumeral(s.durationMs.value); }
  }
}
