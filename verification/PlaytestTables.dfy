/**
 * The rows of the playtest lifecycle and the effect of each database
 * transaction on them. A transaction is one function from the tables before
 * it to the tables after it; a transaction that rolls back returns the tables
 * it was given.
 */
module PlaytestTables {
  import opened Common

  datatype TestStatus = DraftTest | Published | PausedTest | FinishedTest | ExpiredTest

  datatype ParticipationStatus =
    Reserved | Tutorial | Downloading | Ready | Playing | FormPending | InReview
    | Completed | Rejected | Abandoned

  datatype SessionStatus =
    Starting | Recording | Paused | Finishing | Processing | CompletedSession | Invalidated

  datatype MediaStatus = MediaProcessing | MediaReady | MediaFailed | MediaUnavailable

  datatype TestRow = TestRow(organizationId: Id, status: TestStatus, endsAt: Option<int>,
                             slotsTaken: nat, slotsTotal: nat)
  datatype ParticipationRow = ParticipationRow(testId: Id, userId: Id, status: ParticipationStatus)
  datatype SessionRow = SessionRow(participationId: Id, testId: Id, organizationId: Id,
                                   status: SessionStatus, startedAt: int,
                                   endedAt: Option<int>, durationMs: Option<int>)
  datatype ValidationRow = ValidationRow(valid: bool, reason: Option<string>)
  datatype RatingRow = RatingRow(ratedBy: Id, rating: int, comment: Option<string>, markedInvalid: bool)
  datatype RecordingRow = RecordingRow(sessionId: Id, status: MediaStatus)
  /** A row of `xp_events` whose `source_type` is 'session' (nothing else writes that table). */
  datatype XpRow = XpRow(userId: Id, sourceId: Id, xp: int)

  datatype Tables = Tables(
    tests: map<Id, TestRow>,
    participations: map<Id, ParticipationRow>,
    sessions: map<Id, SessionRow>,
    validations: map<Id, ValidationRow>,
    ratings: map<Id, RatingRow>,
    recordings: map<Id, RecordingRow>,
    xpEvents: map<Id, XpRow>)

  const EMPTY_TABLES := Tables(map[], map[], map[], map[], map[], map[], map[])

  const SESSION_COMPLETION_XP := 50
  const TIMEOUT_REASON := "Sessão encerrada por timeout de heartbeat"
  const NO_DURATION_REASON := "Sessão sem duração registrada"
  const RECORDING_REASON := "Gravação da sessão falhou no processamento"
  const STUDIO_INVALID_REASON := "Marcada como inválida pelo estúdio"

  /** Still holds the (test, user) slot: the predicate of the partial unique index. */
  predicate Active(s: ParticipationStatus) {
    !(s.Completed? || s.Rejected? || s.Abandoned?)
  }

  predicate Startable(s: ParticipationStatus) {
    s.Reserved? || s.Tutorial? || s.Downloading? || s.Ready?
  }

  /** The player has not ended it yet (the compare-and-set list of finish and of the timeout sweep). */
  predicate Unfinished(s: SessionStatus) {
    s.Starting? || s.Recording? || s.Paused?
  }

  /** Blocks a second start: the longer list, `finishing` and `processing` included. */
  predicate StillRunning(s: SessionStatus) {
    Unfinished(s) || s.Finishing? || s.Processing?
  }

  predicate Closed(s: SessionStatus) { !Unfinished(s) }

  predicate SamePair(p: ParticipationRow, testId: Id, userId: Id) {
    p.testId == testId && p.userId == userId
  }

  predicate NotExpired(test: TestRow, now: int) {
    test.endsAt.None? || test.endsAt.value > now
  }

  predicate HasActive(t: Tables, testId: Id, userId: Id) {
    exists p :: p in t.participations && SamePair(t.participations[p], testId, userId)
                && Active(t.participations[p].status)
  }

  predicate HasCompleted(t: Tables, testId: Id, userId: Id) {
    exists p :: p in t.participations && SamePair(t.participations[p], testId, userId)
                && t.participations[p].status.Completed?
  }

  /* ------------------------------ reserveParticipation ------------------------------ */

  datatype ReserveOutcome = Joined(id: Id) | SlotsExhausted | NotOpen | AlreadyActive

  predicate SlotFree(t: Tables, now: int, testId: Id) {
    testId in t.tests && t.tests[testId].status.Published? && NotExpired(t.tests[testId], now)
    && t.tests[testId].slotsTaken < t.tests[testId].slotsTotal
  }

  function TakeSlot(t: Tables, testId: Id): Tables
    requires testId in t.tests
  {
    t.(tests := t.tests[testId := t.tests[testId].(slotsTaken := t.tests[testId].slotsTaken + 1)])
  }

  function Reserve(t: Tables, now: int, testId: Id, userId: Id, newId: Id): (Tables, ReserveOutcome) {
    if !SlotFree(t, now, testId) then
      (t, if testId in t.tests && t.tests[testId].status.Published?
             && t.tests[testId].slotsTaken >= t.tests[testId].slotsTotal
          then SlotsExhausted else NotOpen)
    else if HasActive(t, testId, userId) then
      (t, AlreadyActive)
    else
      (TakeSlot(t, testId).(participations :=
         t.participations[newId := ParticipationRow(testId, userId, Reserved)]),
       Joined(newId))
  }

  /* ---------------------------------- startSession ---------------------------------- */

  datatype StartOutcome = Started(id: Id) | SessionStillOpen | AlreadyPlayed

  predicate HasRunningSession(t: Tables, participationId: Id) {
    exists s :: s in t.sessions && t.sessions[s].participationId == participationId
                && StillRunning(t.sessions[s].status)
  }

  function SetParticipation(t: Tables, id: Id, status: ParticipationStatus): Tables {
    if id in t.participations then
      t.(participations := t.participations[id := t.participations[id].(status := status)])
    else t
  }

  function StartSession(t: Tables, now: int, participationId: Id, testId: Id, organizationId: Id, newId: Id)
    : (Tables, StartOutcome)
  {
    if HasRunningSession(t, participationId) then (t, SessionStillOpen)
    else if participationId !in t.participations
            || !Startable(t.participations[participationId].status) then (t, AlreadyPlayed)
    else
      (SetParticipation(t, participationId, Playing).(sessions :=
         t.sessions[newId := SessionRow(participationId, testId, organizationId, Starting, now, None, None)]),
       Started(newId))
  }

  /* ------------------------- markRecording, finishSession, timeout ------------------------- */

  function MarkRecording(t: Tables, sessionId: Id): Tables {
    if sessionId in t.sessions && t.sessions[sessionId].status.Starting?
    then t.(sessions := t.sessions[sessionId := t.sessions[sessionId].(status := Recording)])
    else t
  }

  function Min(a: int, b: int): int { if a < b then a else b }
  function Max(a: int, b: int): int { if a < b then b else a }

  /** `min(tMs, elapsed)` with the elapsed time clamped at zero. */
  function PlayedMs(tMs: int, startedAt: int, endedAt: int): int {
    Min(tMs, Max(0, endedAt - startedAt))
  }

  function FinishSession(t: Tables, sessionId: Id, participationId: Id, endedAt: int, durationMs: int)
    : (Tables, bool)
  {
    if sessionId !in t.sessions || !Unfinished(t.sessions[sessionId].status) then (t, false)
    else
      (SetParticipation(t, participationId, InReview).(sessions :=
         t.sessions[sessionId := t.sessions[sessionId].(status := Processing, endedAt := Some(endedAt),
                                                        durationMs := Some(durationMs))]),
       true)
  }

  function TimeOut(t: Tables, sessionId: Id, now: int): Tables {
    if sessionId in t.sessions && Unfinished(t.sessions[sessionId].status)
    then t.(sessions := t.sessions[sessionId :=
               t.sessions[sessionId].(status := Invalidated, endedAt := Some(now))])
    else t
  }

  /* --------------------------------- session.validate --------------------------------- */

  predicate HasFailedRecording(t: Tables, sessionId: Id) {
    exists r :: r in t.recordings && t.recordings[r].sessionId == sessionId
                && t.recordings[r].status.MediaFailed?
  }

  /** The branches of the worker, from the session row it read and its recordings query. */
  function Verdict(session: SessionRow, failedRecording: bool): ValidationRow {
    if session.status.Invalidated? then ValidationRow(false, Some(TIMEOUT_REASON))
    else if session.durationMs.None? || session.durationMs.value <= 0 then
      ValidationRow(false, Some(NO_DURATION_REASON))
    else if failedRecording then ValidationRow(false, Some(RECORDING_REASON))
    else ValidationRow(true, None)
  }

  /** The check of the XP credit: this player already has a session event on this test. */
  predicate Rewarded(t: Tables, userId: Id, testId: Id) {
    exists e :: e in t.xpEvents && t.xpEvents[e].userId == userId
                && t.xpEvents[e].sourceId in t.sessions
                && t.sessions[t.xpEvents[e].sourceId].testId == testId
  }

  /** The insert of the XP credit; the unique index on (user, source) makes a repeat a no-op. */
  function InsertXp(t: Tables, userId: Id, sessionId: Id, newId: Id): Tables {
    if exists e :: e in t.xpEvents && t.xpEvents[e].userId == userId && t.xpEvents[e].sourceId == sessionId
    then t
    else t.(xpEvents := t.xpEvents[newId := XpRow(userId, sessionId, SESSION_COMPLETION_XP)])
  }

  /** Validation row, session status and participation status, in that order. */
  function WriteVerdict(t: Tables, sessionId: Id, session: SessionRow, verdict: ValidationRow): Tables {
    var t1 := t.(validations := t.validations[sessionId := verdict]);
    var t2 := if sessionId in t1.sessions
              then t1.(sessions := t1.sessions[sessionId := t1.sessions[sessionId].(
                         status := if verdict.valid then CompletedSession else Invalidated)])
              else t1;
    SetParticipation(t2, session.participationId, if verdict.valid then Completed else Rejected)
  }

  /**
   * Everything the validation transaction leaves behind when it commits.
   * `rewarded` is what its XP check saw earlier in the same transaction.
   */
  function CommitVerdict(t: Tables, sessionId: Id, session: SessionRow, verdict: ValidationRow,
                         rewarded: bool, newId: Id): Tables
  {
    var t' := WriteVerdict(t, sessionId, session, verdict);
    if verdict.valid && session.participationId in t.participations && !rewarded
    then InsertXp(t', t.participations[session.participationId].userId, sessionId, newId)
    else t'
  }

  /* ------------------------------------ rateSession ------------------------------------ */

  datatype RateOutcome = Rated(row: RatingRow) | SessionNotFound | NotValidatedYet

  function PutRating(t: Tables, sessionId: Id, row: RatingRow): Tables {
    t.(ratings := t.ratings[sessionId := row])
  }

  /** Marking overrides only a valid verdict; un-marking reverts only what the studio wrote. */
  function Reconsidered(current: ValidationRow, markedInvalid: bool): ValidationRow {
    if markedInvalid then
      if current.valid then ValidationRow(false, Some(STUDIO_INVALID_REASON)) else current
    else
      if current.reason == Some(STUDIO_INVALID_REASON) then ValidationRow(true, None) else current
  }

  function RateSession(t: Tables, organizationId: Id, sessionId: Id, row: RatingRow): (Tables, RateOutcome) {
    if sessionId !in t.sessions || t.sessions[sessionId].organizationId != organizationId then
      (t, SessionNotFound)
    else if sessionId in t.validations then
      (PutRating(t, sessionId, row).(validations :=
         t.validations[sessionId := Reconsidered(t.validations[sessionId], row.markedInvalid)]), Rated(row))
    else if row.markedInvalid then (t, NotValidatedYet)
    else (PutRating(t, sessionId, row), Rated(row))
  }
}
