/**
 * What each transaction of the lifecycle answers and when, and what changes a session
 * and a participation: which step of which process, under which condition, to what.
 * Nothing else does.
 */
module PlaytestChanges {
  import opened Common
  import opened PlaytestTables
  import opened PlaytestProtocol
  import opened PlaytestInvariant
  import opened PlaytestSteps

  /* ------------------------------------ transactions ------------------------------------ */

  /** The test takes players at this moment. */
  ghost predicate Admits(t: Tables, now: int, testId: Id) {
    && testId in t.tests && t.tests[testId].status == Published
    && (t.tests[testId].endsAt == None || now < t.tests[testId].endsAt.value)
  }

  ghost predicate Full(t: Tables, testId: Id) {
    testId in t.tests && t.tests[testId].slotsTaken >= t.tests[testId].slotsTotal
  }

  /** The player has a participation in the test with one of these statuses. */
  ghost predicate SomeOf(t: Tables, testId: Id, userId: Id, statuses: set<ParticipationStatus>) {
    exists p :: p in t.participations && t.participations[p].testId == testId && t.participations[p].userId == userId
                && t.participations[p].status in statuses
  }

  const ONGOING: set<ParticipationStatus> := {Reserved, Tutorial, Downloading, Ready, Playing, FormPending, InReview}

  lemma SomeOfIs(t: Tables, testId: Id, userId: Id)
    ensures HasActive(t, testId, userId) <==> SomeOf(t, testId, userId, ONGOING)
    ensures HasCompleted(t, testId, userId) <==> SomeOf(t, testId, userId, {Completed})
  {
    if HasActive(t, testId, userId) {
      var p :| p in t.participations && SamePair(t.participations[p], testId, userId) && Active(t.participations[p].status);
      assert t.participations[p].status in ONGOING;
    }
    if SomeOf(t, testId, userId, ONGOING) {
      var p :| p in t.participations && t.participations[p].testId == testId && t.participations[p].userId == userId
               && t.participations[p].status in ONGOING;
      assert SamePair(t.participations[p], testId, userId);
    }
    if HasCompleted(t, testId, userId) {
      var p :| p in t.participations && SamePair(t.participations[p], testId, userId) && t.participations[p].status.Completed?;
      assert t.participations[p].status in {Completed};
    }
    if SomeOf(t, testId, userId, {Completed}) {
      var p :| p in t.participations && t.participations[p].testId == testId && t.participations[p].userId == userId
               && t.participations[p].status in {Completed};
      assert SamePair(t.participations[p], testId, userId);
    }
  }

  /**
   * Joining: the refusals tell a published test without slots, even past its end, from
   * one that is not open; a player with an ongoing participation gets no second one.
   */
  lemma ReserveAnswers(t: Tables, now: int, testId: Id, userId: Id, n: Id)
    ensures var (t', out) := Reserve(t, now, testId, userId, n);
            var soldOut := Full(t, testId) && t.tests[testId].status == Published;
            && (out == SlotsExhausted <==> soldOut)
            && (out == NotOpen <==> !soldOut && !Admits(t, now, testId))
            && (out == AlreadyActive <==> !soldOut && Admits(t, now, testId) && SomeOf(t, testId, userId, ONGOING))
            && (out == Joined(n) <==> !soldOut && Admits(t, now, testId) && !SomeOf(t, testId, userId, ONGOING))
            && t' == if out != Joined(n) then t
                     else t.(participations := t.participations[n := ParticipationRow(testId, userId, Reserved)],
                             tests := t.tests[testId := t.tests[testId].(slotsTaken := t.tests[testId].slotsTaken + 1)])
  {
    SomeOfIs(t, testId, userId);
    hide HasActive, HasCompleted, SomeOf;
  }

  const RUNNING: set<SessionStatus> := {Starting, Recording, Paused, Finishing, Processing}

  /** Starting: one running session at a time, and only from a participation that was not played yet. */
  lemma StartAnswers(t: Tables, now: int, p: Id, testId: Id, organizationId: Id, n: Id)
    ensures var (t', out) := StartSession(t, now, p, testId, organizationId, n);
            var running := exists i :: i in t.sessions && t.sessions[i].participationId == p && t.sessions[i].status in RUNNING;
            var unplayed := p in t.participations && t.participations[p].status in {Reserved, Tutorial, Downloading, Ready};
            && (out == SessionStillOpen <==> running)
            && (out == AlreadyPlayed <==> !running && !unplayed)
            && (out == Started(n) <==> !running && unplayed)
            && t' == if out != Started(n) then t
                     else t.(participations := t.participations[p := t.participations[p].(status := Playing)],
                             sessions := t.sessions[n := SessionRow(p, testId, organizationId, Starting, now, None, None)])
  {
    if HasRunningSession(t, p) {
      var i :| i in t.sessions && t.sessions[i].participationId == p && StillRunning(t.sessions[i].status);
      assert t.sessions[i].status in RUNNING;
    }
    if i :| i in t.sessions && t.sessions[i].participationId == p && t.sessions[i].status in RUNNING {
      assert StillRunning(t.sessions[i].status);
    }
    hide HasRunningSession;
  }

  const OPEN_SESSION_STATUSES: set<SessionStatus> := {Starting, Recording, Paused}

  ghost predicate StillOpen(t: Tables, i: Id) { i in t.sessions && t.sessions[i].status in OPEN_SESSION_STATUSES }

  /** Finishing and timing out close a session that is still open, and do nothing to any other. */
  lemma FinishAnswers(t: Tables, i: Id, p: Id, at: int, ms: int)
    requires p in t.participations
    ensures var (t', ok) := FinishSession(t, i, p, at, ms);
            && ok == StillOpen(t, i)
            && t' == if !StillOpen(t, i) then t
                     else t.(participations := t.participations[p := t.participations[p].(status := InReview)],
                             sessions := t.sessions[i := t.sessions[i].(status := Processing, endedAt := Some(at),
                                                                        durationMs := Some(ms))])
  {}

  lemma TimeOutAndMark(t: Tables, i: Id, now: int)
    ensures TimeOut(t, i, now) ==
            if !StillOpen(t, i) then t
            else t.(sessions := t.sessions[i := t.sessions[i].(status := Invalidated, endedAt := Some(now))])
    ensures MarkRecording(t, i) ==
            if i !in t.sessions || t.sessions[i].status != Starting then t
            else t.(sessions := t.sessions[i := t.sessions[i].(status := Recording)])
  {}

  /** The studio's rating: what it stores of the mark is another matter, the rest of it is stored as given. */
  lemma RateAnswers(t: Tables, organizationId: Id, i: Id, row: RatingRow)
    ensures var (t', out) := RateSession(t, organizationId, i, row);
            var known := i in t.sessions && t.sessions[i].organizationId == organizationId;
            && (out == SessionNotFound <==> !known)
            && (out == NotValidatedYet <==> known && row.markedInvalid && i !in t.validations)
            && (out == Rated(row) <==> known && (!row.markedInvalid || i in t.validations))
            && t'.ratings == (if out == Rated(row) then t.ratings[i := row] else t.ratings)
            && t'.validations.Keys == t.validations.Keys
            && (forall j :: j in t.validations && (j != i || out != Rated(row)) ==> t'.validations[j] == t.validations[j])
            && t' == t.(ratings := t'.ratings, validations := t'.validations)
  {
    hide Reconsidered;
  }

  lemma CommitAnswers(t: Tables, i: Id, row: SessionRow, verdict: ValidationRow, rewarded: bool, n: Id)
    requires i in t.sessions && row.participationId in t.participations
    ensures var t', p := CommitVerdict(t, i, row, verdict, rewarded, n), row.participationId;
            && t'.validations == t.validations[i := verdict]
            && t'.sessions == t.sessions[i := t.sessions[i].(status := if verdict.valid then CompletedSession else Invalidated)]
            && t'.participations ==
               t.participations[p := t.participations[p].(status := if verdict.valid then Completed else Rejected)]
            && (!verdict.valid || rewarded ==> t'.xpEvents == t.xpEvents)
            && (forall e :: e in t'.xpEvents && !(e in t.xpEvents && t'.xpEvents[e] == t.xpEvents[e]) ==>
                  e == n && t'.xpEvents[e] == XpRow(t.participations[p].userId, i, 50))
            && t'.tests == t.tests && t'.ratings == t.ratings && t'.recordings == t.recordings
  {}

  /* ------------------------------------ the requests ------------------------------------ */

  ghost predicate Owned(t: Tables, i: Id, userId: Id) {
    && i in t.sessions && t.sessions[i].participationId in t.participations
    && t.participations[t.sessions[i].participationId].userId == userId
  }

  /** Closed without a verdict for more than fifteen minutes. */
  ghost predicate Overdue(s: System, i: Id) {
    && i in s.db.sessions && i !in s.db.validations && s.db.sessions[i].status in {Processing, Invalidated}
    && s.db.sessions[i].endedAt.Some? && s.db.sessions[i].endedAt.value < s.now - 900000
  }

  /** What a session is credited with: the time claimed, but not more than has gone by since its start. */
  ghost predicate Credited(durationMs: int, tMs: int, elapsed: int) {
    && durationMs <= tMs && (durationMs <= elapsed || durationMs <= 0)
    && (durationMs == tMs || durationMs == if elapsed < 0 then 0 else elapsed)
  }

  /** A test that a participation in it can be played on: published or paused, and not past its end. */
  ghost predicate Playable(t: Tables, now: int, testId: Id) {
    && testId in t.tests && t.tests[testId].status in {Published, PausedTest}
    && (t.tests[testId].endsAt == None || now < t.tests[testId].endsAt.value)
  }

  /** Which requests and jobs go past their first checks, with what they then carry. */
  lemma GoesAhead(s: System, a: Action)
    requires s.nextId !in s.processes && !a.Advance?
    ensures var born := if s.nextId in Apply(s, a).processes then Some(Apply(s, a).processes[s.nextId]) else None;
            match a
            case Join(testId, userId) => born == if Admits(s.db, s.now, testId) then Some(JoinOpen(testId, userId)) else None
            case Start(p, userId, buildValidated, consentsGranted) =>
              (born.Some? <==> && p in s.db.participations && s.db.participations[p].userId == userId
                               && Playable(s.db, s.now, s.db.participations[p].testId)
                               && buildValidated && consentsGranted)
              && (born.Some? ==> var testId := s.db.participations[p].testId;
                                 born.value == StartReady(p, testId, s.db.tests[testId].organizationId))
            case Heartbeat(i, userId) =>
              born == if Owned(s.db, i, userId) then Some(BeatRead(i, s.db.sessions[i].status)) else None
            case Finish(i, userId, tMs) =>
              (born.Some? <==> Owned(s.db, i, userId))
              && (born.Some? ==>
                    && born.value.FinishRead? && born.value.sessionId == i && born.value.endedAt == s.now
                    && born.value.participationId == s.db.sessions[i].participationId
                    && Credited(born.value.durationMs, tMs, s.now - s.db.sessions[i].startedAt))
            case ReconcileTimedOut(open) =>
              born == if forall k :: 0 <= k < |open| ==> StillOpen(s.db, open[k]) then Some(SweepOpen(open)) else None
            case ReconcileUnvalidated(closed) =>
              born == if forall k :: 0 <= k < |closed| ==> Overdue(s, closed[k]) then Some(SweepClosed(closed)) else None
            case Deliver(i) => born == if i in s.jobs && i !in s.db.validations then Some(ValidateRead(i)) else None
            case _ => born == None
  {
    if a.ReconcileTimedOut? {
      assert forall i :: OpenSession(s.db, i) <==> StillOpen(s.db, i);
    }
    if a.ReconcileUnvalidated? {
      assert forall i :: Unvalidated(s, i) <==> Overdue(s, i);
    }
    hide Reserve, RateSession, HasCompleted, StillOpen, Overdue, OpenSession, Unvalidated;
  }

  /* -------------------------------------- the steps -------------------------------------- */

  /** The process this action advances. */
  function Advanced(s: System, a: Action): Option<Process> {
    if a.Advance? && a.process in s.processes then Some(s.processes[a.process]) else None
  }

  lemma AdvanceFacts(s: System, id: Id)
    requires Inv(s) && id in s.processes
    ensures s.nextId !in s.db.sessions && s.nextId !in s.db.participations
    ensures var p := s.processes[id];
            && (p.FinishRead? ==> p.sessionId in s.db.sessions && p.participationId in s.db.participations
                                  && s.db.sessions[p.sessionId].participationId == p.participationId)
            && (p.ValidateInTx? ==> p.sessionId in s.db.sessions && p.session == s.db.sessions[p.sessionId]
                                    && p.session.participationId in s.db.participations)
  {
    hide OnlyNewestActive, OneSession, Phases, Slots, StudioFormula, XpLedger, Verdict, Rewarded;
    ProcessFacts(s, id);
  }

  /** The transaction that a step of a process is, if it is one. */
  ghost function TransactionOf(s: System, p: Process): Tables {
    match p
    case JoinCleared(testId, userId) => Reserve(s.db, s.now, testId, userId, s.nextId).0
    case StartReady(q, testId, o) => StartSession(s.db, s.now, q, testId, o, s.nextId).0
    case BeatMark(i) => MarkRecording(s.db, i)
    case FinishRead(i, q, at, ms) => FinishSession(s.db, i, q, at, ms).0
    case SweepExpired(i, _) => TimeOut(s.db, i, s.now)
    case ValidateInTx(i, row, verdict, rewarded) => CommitVerdict(s.db, i, row, verdict, rewarded, s.nextId)
    case _ => s.db
  }

  lemma StepTables(s: System, id: Id)
    requires id in s.processes
    ensures Step(s, id).db == TransactionOf(s, s.processes[id])
  {
    hide Reserve, StartSession, TimeOut, MarkRecording, CommitVerdict, HasCompleted,
      Verdict, HasFailedRecording, Rewarded, GateHeld;
  }

  /** Only steps of processes touch sessions and rewards. */
  lemma ActionRows(s: System, a: Action)
    requires !a.Advance?
    ensures Apply(s, a).db.sessions == s.db.sessions && Apply(s, a).db.xpEvents == s.db.xpEvents
    ensures Apply(s, a).verdicts == s.verdicts
    ensures !a.JoinAtOnce? ==> Apply(s, a).db.participations == s.db.participations
  {
    if a.Rate? { RateAnswers(s.db, a.organizationId, a.sessionId, a.row); }
    if a.JoinAtOnce? { ReserveAnswers(s.db, s.now, a.testId, a.userId, s.nextId); }
    hide Reserve, RateSession, HasCompleted, Unvalidated, OpenSession;
  }

  /** What a step makes of a session row that was there. */
  ghost function SessionAfter(s: System, p: Process, i: Id): SessionRow
    requires i in s.db.sessions
  {
    var row := s.db.sessions[i];
    match p
    case FinishRead(j, _, at, ms) =>
      if j == i && StillOpen(s.db, i) then row.(status := Processing, endedAt := Some(at), durationMs := Some(ms)) else row
    case SweepExpired(j, _) =>
      if j == i && StillOpen(s.db, i) then row.(status := Invalidated, endedAt := Some(s.now)) else row
    case BeatMark(j) => if j == i && row.status == Starting then row.(status := Recording) else row
    case ValidateInTx(j, _, verdict, _) =>
      if j == i then row.(status := if verdict.valid then CompletedSession else Invalidated) else row
    case _ => row
  }

  /** A session row changes by its finish, its timeout, its first heartbeat and its verdict, and by nothing else. */
  lemma SessionChanges(s: System, a: Action, i: Id)
    requires Inv(s) && i in s.db.sessions
    ensures i in Apply(s, a).db.sessions
    ensures Apply(s, a).db.sessions[i] ==
            if Advanced(s, a).Some? then SessionAfter(s, Advanced(s, a).value, i) else s.db.sessions[i]
  {
    hide Inv, Step;
    if Advanced(s, a).Some? {
      AdvanceFacts(s, a.process);
      StepTables(s, a.process);
      StepSessions(s, s.processes[a.process], i);
    } else if !a.Advance? {
      hide Apply;
      ActionRows(s, a);
    }
  }

  lemma StepSessions(s: System, p: Process, i: Id)
    requires i in s.db.sessions && s.nextId !in s.db.sessions
    requires p.FinishRead? ==> p.participationId in s.db.participations
    requires p.ValidateInTx? ==> p.sessionId in s.db.sessions && p.session.participationId in s.db.participations
    ensures i in TransactionOf(s, p).sessions && TransactionOf(s, p).sessions[i] == SessionAfter(s, p, i)
  {
    hide Reserve, StartSession, FinishSession, TimeOut, MarkRecording, CommitVerdict, StillOpen, Admits, Full, SomeOf;
    match p
    case JoinCleared(testId, userId) => ReserveAnswers(s.db, s.now, testId, userId, s.nextId);
    case StartReady(q, testId, o) => StartAnswers(s.db, s.now, q, testId, o, s.nextId);
    case FinishRead(_, _, _, _) => StepCloses(s, p, i);
    case SweepExpired(_, _) => StepCloses(s, p, i);
    case ValidateInTx(_, _, _, _) => StepCloses(s, p, i);
    case BeatMark(j) => TimeOutAndMark(s.db, j, s.now);
    case _ =>
  }

  lemma StepCloses(s: System, p: Process, i: Id)
    requires i in s.db.sessions && (p.FinishRead? || p.SweepExpired? || p.ValidateInTx?)
    requires p.FinishRead? ==> p.participationId in s.db.participations
    requires p.ValidateInTx? ==> p.sessionId in s.db.sessions && p.session.participationId in s.db.participations
    ensures i in TransactionOf(s, p).sessions && TransactionOf(s, p).sessions[i] == SessionAfter(s, p, i)
  {
    hide FinishSession, TimeOut, MarkRecording, CommitVerdict, StillOpen;
    match p
    case FinishRead(j, q, at, ms) => FinishAnswers(s.db, j, q, at, ms);
    case SweepExpired(j, _) => TimeOutAndMark(s.db, j, s.now);
    case ValidateInTx(j, row, verdict, rewarded) => CommitAnswers(s.db, j, row, verdict, rewarded, s.nextId);
  }

  ghost predicate Unplayed(t: Tables, p: Id) {
    && p in t.participations && t.participations[p].status in {Reserved, Tutorial, Downloading, Ready}
    && forall j :: j in t.sessions && t.sessions[j].participationId == p ==> t.sessions[j].status !in RUNNING
  }

  /** It appears when a start that went ahead finds the participation unplayed, with no session of it running. */
  lemma SessionAppears(s: System, a: Action, i: Id)
    requires Inv(s) && i !in s.db.sessions
    ensures i in Apply(s, a).db.sessions <==>
              i == s.nextId && Advanced(s, a).Some? && Advanced(s, a).value.StartReady?
              && Unplayed(s.db, Advanced(s, a).value.participationId)
    ensures i in Apply(s, a).db.sessions ==>
              var start := Advanced(s, a).value;
              Apply(s, a).db.sessions[i] ==
                SessionRow(start.participationId, start.testId, start.organizationId, Starting, s.now, None, None)
  {
    hide Inv, Step;
    if Advanced(s, a).Some? {
      AdvanceFacts(s, a.process);
      StepTables(s, a.process);
      StepNewSession(s, s.processes[a.process], i);
    } else if !a.Advance? {
      hide Apply;
      ActionRows(s, a);
    }
  }

  lemma StepNewSession(s: System, p: Process, i: Id)
    requires i !in s.db.sessions
    requires p.FinishRead? ==> p.participationId in s.db.participations
    requires p.ValidateInTx? ==> p.sessionId in s.db.sessions && p.session.participationId in s.db.participations
    ensures i in TransactionOf(s, p).sessions <==> i == s.nextId && p.StartReady? && Unplayed(s.db, p.participationId)
    ensures i in TransactionOf(s, p).sessions ==>
              TransactionOf(s, p).sessions[i] ==
                SessionRow(p.participationId, p.testId, p.organizationId, Starting, s.now, None, None)
  {
    hide Reserve, StartSession, FinishSession, TimeOut, MarkRecording, CommitVerdict;
    match p
    case JoinCleared(testId, userId) => ReserveAnswers(s.db, s.now, testId, userId, s.nextId);
    case StartReady(q, testId, o) => StartAnswers(s.db, s.now, q, testId, o, s.nextId);
    case FinishRead(j, q, at, ms) => FinishAnswers(s.db, j, q, at, ms);
    case SweepExpired(j, _) => TimeOutAndMark(s.db, j, s.now);
    case BeatMark(j) => TimeOutAndMark(s.db, j, s.now);
    case ValidateInTx(j, row, verdict, rewarded) => CommitAnswers(s.db, j, row, verdict, rewarded, s.nextId);
    case _ =>
  }

  /** What a step makes of the status of a participation that was there. */
  ghost function StatusAfter(s: System, p: Process, i: Id): ParticipationStatus
    requires i in s.db.participations
  {
    var status := s.db.participations[i].status;
    match p
    case StartReady(q, _, _) => if q == i && Unplayed(s.db, i) then Playing else status
    case FinishRead(j, q, _, _) => if q == i && StillOpen(s.db, j) then InReview else status
    case ValidateInTx(_, session, verdict, _) =>
      if session.participationId == i then if verdict.valid then Completed else Rejected else status
    case _ => status
  }

  /** A participation changes by a start, and by the finish and the verdict of its session, and by nothing else. */
  lemma ParticipationChanges(s: System, a: Action, i: Id)
    requires Inv(s) && i in s.db.participations
    ensures i in Apply(s, a).db.participations
    ensures Apply(s, a).db.participations[i] ==
            s.db.participations[i].(status := if Advanced(s, a).Some? then StatusAfter(s, Advanced(s, a).value, i)
                                              else s.db.participations[i].status)
  {
    hide Inv, Step;
    if Advanced(s, a).Some? {
      AdvanceFacts(s, a.process);
      StepTables(s, a.process);
      StepParticipations(s, s.processes[a.process], i);
    } else if !a.Advance? {
      ActionRows(s, a);
      FreshIds(s);
      if a.JoinAtOnce? { ReserveAnswers(s.db, s.now, a.testId, a.userId, s.nextId); } else { hide Apply; }
      hide Reserve, HasCompleted;
    }
  }

  lemma FreshIds(s: System)
    requires Inv(s)
    ensures s.nextId !in s.db.sessions && s.nextId !in s.db.participations && s.nextId !in s.processes
  {
    hide OnlyNewestActive, OneSession, Phases, Slots, StudioFormula, XpLedger, ProcessOk;
  }

  lemma StepParticipations(s: System, p: Process, i: Id)
    requires i in s.db.participations && s.nextId !in s.db.participations
    requires p.FinishRead? ==> p.participationId in s.db.participations
    requires p.ValidateInTx? ==> p.sessionId in s.db.sessions && p.session.participationId in s.db.participations
    ensures i in TransactionOf(s, p).participations
    ensures TransactionOf(s, p).participations[i] == s.db.participations[i].(status := StatusAfter(s, p, i))
  {
    hide Reserve, StartSession, FinishSession, TimeOut, MarkRecording, CommitVerdict, StillOpen, Admits, Full, SomeOf;
    match p
    case JoinCleared(testId, userId) => ReserveAnswers(s.db, s.now, testId, userId, s.nextId);
    case StartReady(q, testId, o) => StartAnswers(s.db, s.now, q, testId, o, s.nextId);
    case FinishRead(_, _, _, _) => StepEnds(s, p, i);
    case ValidateInTx(_, _, _, _) => StepEnds(s, p, i);
    case SweepExpired(j, _) => TimeOutAndMark(s.db, j, s.now);
    case BeatMark(j) => TimeOutAndMark(s.db, j, s.now);
    case _ =>
  }

  lemma StepEnds(s: System, p: Process, i: Id)
    requires i in s.db.participations && (p.FinishRead? || p.ValidateInTx?)
    requires p.FinishRead? ==> p.participationId in s.db.participations
    requires p.ValidateInTx? ==> p.sessionId in s.db.sessions && p.session.participationId in s.db.participations
    ensures i in TransactionOf(s, p).participations
    ensures TransactionOf(s, p).participations[i] == s.db.participations[i].(status := StatusAfter(s, p, i))
  {
    hide FinishSession, CommitVerdict, StillOpen;
    match p
    case FinishRead(j, q, at, ms) => FinishAnswers(s.db, j, q, at, ms);
    case ValidateInTx(j, row, verdict, rewarded) => CommitAnswers(s.db, j, row, verdict, rewarded, s.nextId);
  }

  /** The test and the player of a join that is about to commit, past its check for a completed participation. */
  ghost function Joining(s: System, a: Action): Option<(Id, Id)> {
    match Advanced(s, a)
    case Some(JoinCleared(testId, userId)) => Some((testId, userId))
    case _ =>
      match a
      case JoinAtOnce(testId, userId) =>
        if Admits(s.db, s.now, testId) && !SomeOf(s.db, testId, userId, {Completed}) then Some((testId, userId)) else None
      case _ => None
  }

  ghost predicate Admitted(s: System, testId: Id, userId: Id) {
    Admits(s.db, s.now, testId) && !Full(s.db, testId) && !SomeOf(s.db, testId, userId, ONGOING)
  }

  /** A participation appears, reserved and with its slot, when such a join finds a slot and no ongoing participation. */
  lemma ParticipationAppears(s: System, a: Action, i: Id)
    requires Inv(s) && i !in s.db.participations
    ensures i in Apply(s, a).db.participations <==>
              i == s.nextId && Joining(s, a).Some? && Admitted(s, Joining(s, a).value.0, Joining(s, a).value.1)
    ensures i in Apply(s, a).db.participations ==>
              var (testId, userId) := Joining(s, a).value;
              && Apply(s, a).db.participations[i] == ParticipationRow(testId, userId, Reserved)
              && Apply(s, a).db.tests ==
                 s.db.tests[testId := s.db.tests[testId].(slotsTaken := s.db.tests[testId].slotsTaken + 1)]
  {
    hide Inv, Step, SomeOf, Admits, Full;
    if Advanced(s, a).Some? {
      AdvanceFacts(s, a.process);
      StepTables(s, a.process);
      StepNewParticipation(s, s.processes[a.process], i);
    } else if a.JoinAtOnce? {
      hide Apply;
      WholeJoin(s, a.testId, a.userId);
      ReserveAnswers(s.db, s.now, a.testId, a.userId, s.nextId);
      hide Reserve;
    } else if !a.Advance? {
      hide Apply;
      ActionRows(s, a);
    }
  }

  lemma WholeJoin(s: System, testId: Id, userId: Id)
    ensures Apply(s, JoinAtOnce(testId, userId)).db ==
            if Admits(s.db, s.now, testId) && !SomeOf(s.db, testId, userId, {Completed})
            then Reserve(s.db, s.now, testId, userId, s.nextId).0 else s.db
  {
    SomeOfIs(s.db, testId, userId);
    hide Reserve, HasCompleted, SomeOf;
  }

  lemma StepNewParticipation(s: System, p: Process, i: Id)
    requires i !in s.db.participations
    requires p.FinishRead? ==> p.participationId in s.db.participations
    requires p.ValidateInTx? ==> p.sessionId in s.db.sessions && p.session.participationId in s.db.participations
    ensures i in TransactionOf(s, p).participations <==> i == s.nextId && p.JoinCleared? && Admitted(s, p.testId, p.userId)
    ensures i in TransactionOf(s, p).participations ==>
              && TransactionOf(s, p).participations[i] == ParticipationRow(p.testId, p.userId, Reserved)
              && TransactionOf(s, p).tests ==
                 s.db.tests[p.testId := s.db.tests[p.testId].(slotsTaken := s.db.tests[p.testId].slotsTaken + 1)]
  {
    hide Reserve, StartSession, FinishSession, TimeOut, MarkRecording, CommitVerdict;
    match p
    case JoinCleared(testId, userId) => ReserveAnswers(s.db, s.now, testId, userId, s.nextId);
    case StartReady(q, testId, o) => StartAnswers(s.db, s.now, q, testId, o, s.nextId);
    case FinishRead(j, q, at, ms) => FinishAnswers(s.db, j, q, at, ms);
    case SweepExpired(j, _) => TimeOutAndMark(s.db, j, s.now);
    case BeatMark(j) => TimeOutAndMark(s.db, j, s.now);
    case ValidateInTx(j, row, verdict, rewarded) => CommitAnswers(s.db, j, row, verdict, rewarded, s.nextId);
    case _ =>
  }

  /** The checks that processes make on the way: a join's, a heartbeat's, and the timeout sweep's. */
  lemma ChecksOnTheWay(s: System, id: Id)
    requires id in s.processes
    ensures var next := if id in Step(s, id).processes then Some(Step(s, id).processes[id]) else None;
            match s.processes[id]
            case JoinOpen(testId, userId) =>
              next == if SomeOf(s.db, testId, userId, {Completed}) then None else Some(JoinCleared(testId, userId))
            case BeatRead(i, status) => next == if status == Starting then Some(BeatMark(i)) else None
            case SweepOpen(todo) =>
              next == if todo == [] then None
                      else if todo[0] in s.heartbeats then Some(SweepOpen(todo[1..]))
                      else Some(SweepExpired(todo[0], todo[1..]))
            case _ => true
  {
    if s.processes[id].JoinOpen? { SomeOfIs(s.db, s.processes[id].testId, s.processes[id].userId); }
    hide Reserve, StartSession, FinishSession, TimeOut, MarkRecording, CommitVerdict, HasCompleted, SomeOf,
      Verdict, HasFailedRecording, Rewarded, GateHeld;
  }

  /** A heartbeat key is set by a start and by the beat of a session read as open, and dropped by its expiry and the finish. */
  lemma HeartbeatChanges(s: System, a: Action, i: Id)
    ensures i in Apply(s, a).heartbeats <==>
            match Advanced(s, a)
            case Some(StartTouch(j)) => i in s.heartbeats || j == i
            case Some(BeatRead(j, status)) => i in s.heartbeats || (j == i && status in OPEN_SESSION_STATUSES)
            case Some(FinishDropKey(j)) => i in s.heartbeats && j != i
            case _ => i in s.heartbeats && a != ExpireHeartbeat(i)
  {
    hide Reserve, StartSession, FinishSession, TimeOut, MarkRecording, CommitVerdict, RateSession, HasCompleted,
      Verdict, HasFailedRecording, Rewarded, GateHeld, OpenSession, Unvalidated, SessionOf, TestOpen;
  }

  /* ------------------------------------ the ratings ------------------------------------ */

  /** The studio rates a session of its own, and marks it invalid only once it is validated. */
  ghost predicate Accepted(s: System, a: Action, i: Id) {
    && a.Rate? && a.sessionId == i && i in s.db.sessions && s.db.sessions[i].organizationId == a.organizationId
    && (a.row.markedInvalid ==> i in s.db.validations)
  }

  lemma RatingsChange(s: System, a: Action, i: Id)
    requires Inv(s)
    ensures var (before, after) := (s.db.ratings, Apply(s, a).db.ratings);
            if Accepted(s, a, i) then i in after && after[i] == a.row
            else (i in after <==> i in before) && (i in before ==> after[i] == before[i])
  {
    hide Inv, Step;
    if Advanced(s, a).Some? {
      AdvanceFacts(s, a.process);
      StepTables(s, a.process);
      StepRatings(s, s.processes[a.process]);
    } else if a.Rate? {
      RateAnswers(s.db, a.organizationId, a.sessionId, a.row);
      hide RateSession;
    } else if !a.Advance? {
      if a.JoinAtOnce? { ReserveAnswers(s.db, s.now, a.testId, a.userId, s.nextId); }
      hide Reserve, HasCompleted, Unvalidated, OpenSession;
    }
  }

  lemma StepRatings(s: System, p: Process)
    requires p.FinishRead? ==> p.participationId in s.db.participations
    requires p.ValidateInTx? ==> p.sessionId in s.db.sessions && p.session.participationId in s.db.participations
    ensures TransactionOf(s, p).ratings == s.db.ratings
  {
    hide Reserve, StartSession, FinishSession, TimeOut, MarkRecording, CommitVerdict, StillOpen, Admits, Full, SomeOf;
    match p
    case JoinCleared(testId, userId) => ReserveAnswers(s.db, s.now, testId, userId, s.nextId);
    case StartReady(q, testId, o) => StartAnswers(s.db, s.now, q, testId, o, s.nextId);
    case FinishRead(j, q, at, ms) => FinishAnswers(s.db, j, q, at, ms);
    case ValidateInTx(j, row, verdict, rewarded) => CommitAnswers(s.db, j, row, verdict, rewarded, s.nextId);
    case SweepExpired(j, _) => TimeOutAndMark(s.db, j, s.now);
    case BeatMark(j) => TimeOutAndMark(s.db, j, s.now);
    case _ =>
  }

  /** The last rating of the session that was accepted during the run. */
  ghost function LatestRating(actions: seq<Action>, i: Id): Option<RatingRow>
    decreases |actions|
  {
    if actions == [] then None
    else
      var before, a := actions[..|actions| - 1], actions[|actions| - 1];
      if Accepted(Run(INITIAL, before), a, i) then Some(a.row) else LatestRating(before, i)
  }

  /** What is stored of a session's rating is the latest one accepted, whole: rater, rating, comment and mark. */
  lemma {:induction false} RatingIsTheLatest(actions: seq<Action>, i: Id)
    ensures var s := Run(INITIAL, actions);
            LatestRating(actions, i) == if i in s.db.ratings then Some(s.db.ratings[i]) else None
    decreases |actions|
  {
    hide Apply, Inv;
    if actions != [] {
      var before := actions[..|actions| - 1];
      RatingIsTheLatest(before, i);
      InitialOk();
      RunKeeps(INITIAL, before);
      RatingsChange(Run(INITIAL, before), actions[|actions| - 1], i);
    }
  }
}
