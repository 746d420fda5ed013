/**
 * What a verdict says about the play it judged: a second invariant, on the times
 * in session rows and in the local copies that finish and validate carry.
 */
module PlaytestVerdicts {
  import opened Common
  import opened PlaytestTables
  import opened PlaytestProtocol
  import opened PlaytestInvariant
  import opened PlaytestSteps
  import opened PlaytestChanges

  /** The play credited to a session is no longer than the time between its start and its end. */
  ghost predicate WithinElapsed(durationMs: int, startedAt: int, endedAt: int) {
    durationMs <= 0 || durationMs <= endedAt - startedAt
  }

  ghost predicate TimesOk(row: SessionRow) {
    row.durationMs.Some? ==> row.endedAt.Some? && WithinElapsed(row.durationMs.value, row.startedAt, row.endedAt.value)
  }

  /** The verdict as a function of the row: no duration is a timeout, a duration of nothing is no play. */
  ghost predicate VerdictFits(row: SessionRow, v: ValidationRow) {
    if row.durationMs.None? then v == ValidationRow(false, Some(TIMEOUT_REASON))
    else if row.durationMs.value <= 0 then v == ValidationRow(false, Some(NO_DURATION_REASON))
    else v == ValidationRow(true, None) || v == ValidationRow(false, Some(RECORDING_REASON))
  }

  ghost predicate SessionTimed(t: Tables, verdicts: map<Id, ValidationRow>, i: Id)
    requires i in t.sessions
  {
    var row := t.sessions[i];
    && TimesOk(row)
    && if i in verdicts then VerdictFits(row, verdicts[i])
       else (row.durationMs.Some? <==> row.status.Processing?)
  }

  ghost predicate FinishTimed(t: Tables, p: Process) {
    p.FinishRead? && p.sessionId in t.sessions ==>
      WithinElapsed(p.durationMs, t.sessions[p.sessionId].startedAt, p.endedAt)
  }

  ghost predicate Timed(s: System) {
    && (forall i :: i in s.db.sessions ==> SessionTimed(s.db, s.verdicts, i))
    && (forall q :: q in s.processes ==> FinishTimed(s.db, s.processes[q]))
    && (forall e :: e in s.db.xpEvents ==> s.db.xpEvents[e].xp == SESSION_COMPLETION_XP)
  }

  /* ------------------------------------ the transactions ------------------------------------ */

  /** Sessions and rewards of `t'` come from `t` in order. */
  ghost predicate Kept(t: Tables, t': Tables, verdicts: map<Id, ValidationRow>, verdicts': map<Id, ValidationRow>) {
    && (forall i :: i in t'.sessions && (i in t.sessions ==> SessionTimed(t, verdicts, i)) ==>
          SessionTimed(t', verdicts', i))
    && (forall e :: e in t'.xpEvents ==>
          (e in t.xpEvents && t'.xpEvents[e] == t.xpEvents[e]) || t'.xpEvents[e].xp == SESSION_COMPLETION_XP)
  }

  lemma SameRows(t: Tables, t': Tables, verdicts: map<Id, ValidationRow>)
    requires t'.sessions == t.sessions && t'.xpEvents == t.xpEvents
    ensures Kept(t, t', verdicts, verdicts)
  {}

  lemma StartTimed(t: Tables, verdicts: map<Id, ValidationRow>, now: int, p: Id, testId: Id, organizationId: Id, n: Id)
    requires n !in verdicts && n !in t.sessions
    ensures Kept(t, StartSession(t, now, p, testId, organizationId, n).0, verdicts, verdicts)
  {
    hide HasRunningSession, VerdictFits;
  }

  lemma MarkTimed(t: Tables, verdicts: map<Id, ValidationRow>, s: Id)
    requires s in t.sessions && t.sessions[s].status.Starting? ==> s !in verdicts
    ensures Kept(t, MarkRecording(t, s), verdicts, verdicts)
  {
    hide VerdictFits;
  }

  lemma TimeOutTimed(t: Tables, verdicts: map<Id, ValidationRow>, s: Id, now: int)
    requires OpenSession(t, s) ==> s !in verdicts
    ensures Kept(t, TimeOut(t, s, now), verdicts, verdicts)
  {
    hide VerdictFits;
  }

  lemma FinishedTimed(t: Tables, verdicts: map<Id, ValidationRow>, p: Process)
    requires p.FinishRead? && FinishTimed(t, p) && (OpenSession(t, p.sessionId) ==> p.sessionId !in verdicts)
    ensures Kept(t, FinishSession(t, p.sessionId, p.participationId, p.endedAt, p.durationMs).0, verdicts, verdicts)
  {
    hide VerdictFits;
  }

  /** What the worker decides fits the row it decided on, if that row is in order. */
  lemma DecidedFits(t: Tables, verdicts: map<Id, ValidationRow>, s: Id, failed: bool)
    requires References(t) && s in t.sessions && s !in verdicts && InPhase(t, verdicts, s) && Closed(t.sessions[s].status)
    requires SessionTimed(t, verdicts, s)
    ensures VerdictFits(t.sessions[s], Verdict(t.sessions[s], failed))
  {}

  lemma CommitSessions(t: Tables, s: Id, row: SessionRow, verdict: ValidationRow, rewarded: bool, n: Id)
    requires References(t) && Gated(t, s, row, verdict)
    ensures var t' := CommitVerdict(t, s, row, verdict, rewarded, n);
            t'.sessions == t.sessions[s := t.sessions[s].(status := if verdict.valid then CompletedSession else Invalidated)]
  {
    WriteVerdictRows(t, s, row, verdict);
    hide WriteVerdict, Verdict;
  }

  lemma CommitXpRows(t: Tables, s: Id, row: SessionRow, verdict: ValidationRow, rewarded: bool, n: Id)
    requires References(t) && Gated(t, s, row, verdict)
    ensures var t' := CommitVerdict(t, s, row, verdict, rewarded, n);
            forall e :: e in t'.xpEvents ==>
              (e in t.xpEvents && t'.xpEvents[e] == t.xpEvents[e]) || t'.xpEvents[e].xp == SESSION_COMPLETION_XP
  {
    WriteVerdictRows(t, s, row, verdict);
    hide WriteVerdict, Verdict;
  }

  lemma CommitTimed(t: Tables, verdicts: map<Id, ValidationRow>, s: Id, row: SessionRow, verdict: ValidationRow,
                    rewarded: bool, n: Id)
    requires References(t) && Phases(t, verdicts) && verdicts.Keys == t.validations.Keys && Gated(t, s, row, verdict)
    requires SessionTimed(t, verdicts, s)
    ensures Kept(t, CommitVerdict(t, s, row, verdict, rewarded, n), verdicts, verdicts[s := verdict])
  {
    assert InPhase(t, verdicts, s);
    DecidedFits(t, verdicts, s, true);
    DecidedFits(t, verdicts, s, false);
    CommitSessions(t, s, row, verdict, rewarded, n);
    CommitXpRows(t, s, row, verdict, rewarded, n);
    hide CommitVerdict, Verdict, InPhase, Phases, References;
  }

  /* ---------------------------------------- steps ---------------------------------------- */

  /** A step is in order when its rows are, and any new finish is timed right. */
  lemma StepTimed(s: System, s': System, id: Id)
    requires Timed(s) && References(s.db) && Later(s.db, s'.db)
    requires Kept(s.db, s'.db, s.verdicts, s'.verdicts)
    requires forall q :: q in s'.processes && q != id ==> q in s.processes && s'.processes[q] == s.processes[q]
    requires id in s'.processes ==> FinishTimed(s'.db, s'.processes[id])
    requires forall q :: q in s.processes && s.processes[q].FinishRead? ==> s.processes[q].sessionId in s.db.sessions
    ensures Timed(s')
  {
    hide SessionTimed, Frozen, References;
  }

  lemma KnownFinishes(s: System)
    requires Inv(s)
    ensures References(s.db) && Phases(s.db, s.verdicts) && s.nextId !in s.processes
    ensures forall q :: q in s.processes && s.processes[q].FinishRead? ==> s.processes[q].sessionId in s.db.sessions
    ensures s.verdicts.Keys == s.db.validations.Keys && s.nextId !in s.verdicts && s.nextId !in s.db.sessions
  {
    hide Verdict, Rewarded, OnlyNewestActive, OneSession, Phases, Slots, XpLedger;
    forall q | q in s.processes && s.processes[q].FinishRead? ensures s.processes[q].sessionId in s.db.sessions {
      assert ProcessOk(s.db, s.processes[q]);
    }
  }

  lemma ReserveTimed(s: System, testId: Id, userId: Id)
    ensures Kept(s.db, Reserve(s.db, s.now, testId, userId, s.nextId).0, s.verdicts, s.verdicts)
  {
    SameRows(s.db, Reserve(s.db, s.now, testId, userId, s.nextId).0, s.verdicts);
  }

  /** The step's tables and verdicts are in order. */
  lemma AdvanceRows(s: System, id: Id)
    requires Inv(s) && Timed(s) && id in s.processes
    ensures Kept(s.db, Step(s, id).db, s.verdicts, Step(s, id).verdicts)
  {
    hide Inv, Timed, Kept, References, Phases, StartSession, MarkRecording, TimeOut, FinishSession, CommitVerdict, Reserve, Verdict;
    KnownFinishes(s);
    SameRows(s.db, s.db, s.verdicts);
    var p := s.processes[id];
    match p
    case JoinCleared(testId, userId) => ReserveTimed(s, testId, userId);
    case StartReady(participationId, testId, organizationId) =>
      StartTimed(s.db, s.verdicts, s.now, participationId, testId, organizationId, s.nextId);
    case BeatMark(i) =>
      if OpenSession(s.db, i) { OpenIsPlaying(s.db, s.verdicts, i); }
      MarkTimed(s.db, s.verdicts, i);
    case FinishRead(i, _, _, _) =>
      if OpenSession(s.db, i) { OpenIsPlaying(s.db, s.verdicts, i); }
      assert FinishTimed(s.db, p) by { TimedFinish(s, id); }
      FinishedTimed(s.db, s.verdicts, p);
    case SweepExpired(i, _) =>
      if OpenSession(s.db, i) { OpenIsPlaying(s.db, s.verdicts, i); }
      TimeOutTimed(s.db, s.verdicts, i, s.now);
    case ValidateInTx(i, row, verdict, rewarded) => CommitRowsTimed(s, id);
    case _ =>
  }

  lemma TimedFinish(s: System, id: Id)
    requires Timed(s) && id in s.processes
    ensures FinishTimed(s.db, s.processes[id])
  {}

  lemma CommitRowsTimed(s: System, id: Id)
    requires Inv(s) && Timed(s) && id in s.processes && s.processes[id].ValidateInTx?
    ensures var p := s.processes[id];
            Kept(s.db, CommitVerdict(s.db, p.sessionId, p.session, p.verdict, p.rewarded, s.nextId), s.verdicts,
                 s.verdicts[p.sessionId := p.verdict])
  {
    hide Inv, Kept, CommitVerdict, OnlyNewestActive, OneSession, Slots, XpLedger, Rewarded, Verdict, SessionTimed, Phases;
    var p := s.processes[id];
    ProcessFacts(s, id);
    CommitTimed(s.db, s.verdicts, p.sessionId, p.session, p.verdict, p.rewarded, s.nextId);
  }

  /** A step moves its own process only, and never to a read finish. */
  lemma StepProcesses(s: System, id: Id)
    requires id in s.processes
    ensures forall q :: q in Step(s, id).processes && q != id ==>
              q in s.processes && Step(s, id).processes[q] == s.processes[q]
    ensures id in Step(s, id).processes && Step(s, id).processes[id].FinishRead? ==>
              Step(s, id).processes[id] == s.processes[id] && Step(s, id) == s
  {
    hide StartSession, MarkRecording, TimeOut, FinishSession, CommitVerdict, Reserve, Verdict, Rewarded, HasCompleted, HasFailedRecording;
  }

  lemma AdvanceTimed(s: System, id: Id)
    requires Inv(s) && Timed(s) && id in s.processes
    ensures Timed(Step(s, id))
  {
    hide Inv, Timed, Kept, References, Phases, Later, Step, FinishTimed;
    AdvanceRows(s, id);
    AdvanceKeeps(s, id);
    KnownFinishes(s);
    StepProcesses(s, id);
    if id in Step(s, id).processes {
      if Step(s, id).processes[id].FinishRead? { TimedFinish(s, id); }
      else { NotTimed(Step(s, id).db, Step(s, id).processes[id]); }
    }
    StepTimed(s, Step(s, id), id);
  }

  lemma NotTimed(t: Tables, p: Process)
    ensures !p.FinishRead? ==> FinishTimed(t, p)
  {}

  lemma PlayedIsWithin(tMs: int, startedAt: int, endedAt: int)
    ensures WithinElapsed(PlayedMs(tMs, startedAt, endedAt), startedAt, endedAt)
  {}

  /** An action other than a step starts at most one process; a finish it starts is timed right. */
  lemma ActionProcesses(s: System, a: Action)
    requires !a.Advance? && s.nextId !in s.processes
    ensures var s' := Apply(s, a);
            && (forall q :: q in s'.processes && q != s.nextId ==> q in s.processes && s'.processes[q] == s.processes[q])
            && (s.nextId in s'.processes ==> FinishTimed(s'.db, s'.processes[s.nextId]))
  {
    hide Reserve, RateSession, HasCompleted, PlayedMs, WithinElapsed;
    if a.Finish? && SessionOf(s.db, a.sessionId, a.userId) {
      PlayedIsWithin(a.tMs, s.db.sessions[a.sessionId].startedAt, s.now);
    }
  }

  lemma ApplyTimed(s: System, a: Action)
    requires Inv(s) && Timed(s)
    ensures Timed(Apply(s, a))
  {
    hide Inv, Timed, Kept, References, Phases, Later, Step, FinishTimed;
    ApplyKeeps(s, a);
    if a.Advance? {
      if a.process in s.processes { AdvanceTimed(s, a.process); }
    } else {
      hide Apply;
      KnownFinishes(s);
      ActionProcesses(s, a);
      ActionRows(s, a);
      SameRows(s.db, Apply(s, a).db, s.verdicts);
      StepTimed(s, Apply(s, a), s.nextId);
    }
  }

  lemma {:induction false} RunTimed(actions: seq<Action>)
    ensures Timed(Run(INITIAL, actions)) && Inv(Run(INITIAL, actions))
    decreases |actions|
  {
    hide Inv, Apply, Timed;
    InitialOk();
    InitialTimed();
    RunKeeps(INITIAL, actions);
    if actions != [] {
      RunTimed(actions[..|actions| - 1]);
      ApplyTimed(Run(INITIAL, actions[..|actions| - 1]), actions[|actions| - 1]);
    }
  }

  lemma InitialTimed()
    ensures Timed(INITIAL)
  {}

  /* --------------------------------------- theorems --------------------------------------- */

  ghost predicate TellsThePlay(row: SessionRow, v: ValidationRow) {
    && (v.reason == Some(TIMEOUT_REASON) <==> row.durationMs.None?)
    && (v.reason == Some(NO_DURATION_REASON) <==> row.durationMs.Some? && row.durationMs.value <= 0)
    && (v.valid || v.reason == Some(RECORDING_REASON) <==> row.durationMs.Some? && 0 < row.durationMs.value)
    && (v.valid ==> row.endedAt.Some? && 0 < row.durationMs.value <= row.endedAt.value - row.startedAt)
    && (v.valid <==> v.reason.None?)
  }

  lemma ReasonsDiffer()
    ensures TIMEOUT_REASON != NO_DURATION_REASON && RECORDING_REASON != TIMEOUT_REASON
    ensures RECORDING_REASON != NO_DURATION_REASON
  {
    assert RECORDING_REASON[0] == 'G' && TIMEOUT_REASON[0] == 'S' && NO_DURATION_REASON[0] == 'S';
    assert |TIMEOUT_REASON| != |NO_DURATION_REASON|;
  }

  lemma FitsMeans(row: SessionRow, v: ValidationRow)
    requires TimesOk(row) && VerdictFits(row, v)
    ensures TellsThePlay(row, v)
  {
    ReasonsDiffer();
  }

  /**
   * Every verdict ever given fits the row it is about: the timeout reason exactly
   * for sessions the player never finished, and a valid verdict only for a play
   * of positive length that is no longer than its session lasted.
   */
  lemma VerdictsTellThePlay(s: System, i: Id)
    requires Reachable(s) && i in s.verdicts
    ensures i in s.db.sessions && TellsThePlay(s.db.sessions[i], s.verdicts[i])
  {
    hide Run, Inv, TellsThePlay, TimesOk, VerdictFits;
    var actions :| s == Run(INITIAL, actions);
    RunTimed(actions);
    KnownFinishes(s);
    assert SessionTimed(s.db, s.verdicts, i);
    FitsMeans(s.db.sessions[i], s.verdicts[i]);
  }

  /** Every XP row of a session is worth the same. */
  lemma XpIsFifty(s: System, e: Id)
    requires Reachable(s) && e in s.db.xpEvents
    ensures s.db.xpEvents[e].xp == 50
  {
    var actions :| s == Run(INITIAL, actions);
    RunTimed(actions);
    hide Inv, SessionTimed;
  }

  /* --------------------------- what the recordings query saw --------------------------- */

  /**
   * The protocol with a record of what it looked at: `saw` holds, for each validation
   * job, whether its query found a failed recording, and `judgedOn`, for each
   * session, what the job that judged it had seen.
   */
  datatype Watched = Watched(s: System, saw: map<Id, bool>, judgedOn: map<Id, bool>)

  /** Some recording of the session failed its processing. */
  predicate SomeFailed(t: Tables, i: Id) {
    exists r :: r in t.recordings && t.recordings[r].sessionId == i && t.recordings[r].status == MediaFailed
  }

  lemma FailedIs(t: Tables, i: Id)
    ensures SomeFailed(t, i) <==> HasFailedRecording(t, i)
  {}

  function WatchedApply(w: Watched, a: Action): Watched {
    var s' := Apply(w.s, a);
    if !a.Advance? || a.process !in w.s.processes then w.(s := s')
    else
      var p := w.s.processes[a.process];
      if p.ValidateLoaded? then w.(s := s', saw := w.saw[a.process := SomeFailed(w.s.db, p.sessionId)])
      else if p.ValidateInTx? && a.process in w.saw then
        w.(s := s', judgedOn := w.judgedOn[p.sessionId := w.saw[a.process]])
      else w.(s := s')
  }

  function WatchedRun(actions: seq<Action>): Watched
    decreases |actions|
  {
    if actions == [] then Watched(INITIAL, map[], map[])
    else WatchedApply(WatchedRun(actions[..|actions| - 1]), actions[|actions| - 1])
  }

  /** A verdict is by what was seen: a valid one saw no failed recording, a rejection for one saw it. */
  ghost predicate BySight(v: ValidationRow, failed: bool) {
    (v.valid ==> !failed) && (v.reason == Some(RECORDING_REASON) ==> failed)
  }

  predicate Deciding(p: Process) { p.ValidateDecided? || p.ValidateInTx? }

  ghost predicate Seen(w: Watched) {
    && (forall q :: q in w.s.processes && Deciding(w.s.processes[q]) ==>
          q in w.saw && BySight(w.s.processes[q].verdict, w.saw[q]))
    && (forall i :: i in w.s.verdicts ==> i in w.judgedOn && BySight(w.s.verdicts[i], w.judgedOn[i]))
  }

  lemma VerdictBySight(row: SessionRow, failed: bool)
    ensures BySight(Verdict(row, failed), failed)
  {
    ReasonsDiffer();
  }

  /** Where a process that has decided came from. */
  ghost predicate DecidedBy(s: System, a: Action, q: Id, p: Process)
    requires Deciding(p)
  {
    && q in s.processes
    && ((p == s.processes[q] && !(a == Advance(q) && s.processes[q].ValidateLoaded?))
        || (a == Advance(q) && s.processes[q].ValidateDecided? && p.verdict == s.processes[q].verdict)
        || (a == Advance(q) && s.processes[q].ValidateLoaded?
            && p.verdict == Verdict(s.processes[q].session, HasFailedRecording(s.db, s.processes[q].sessionId))))
  }

  lemma DecidingStep(s: System, r: Id, q: Id)
    requires r in s.processes && q in Step(s, r).processes && Deciding(Step(s, r).processes[q])
    ensures DecidedBy(s, Advance(r), q, Step(s, r).processes[q])
  {
    hide StartSession, MarkRecording, TimeOut, FinishSession, CommitVerdict, Reserve, Verdict, Rewarded;
    hide HasCompleted, HasFailedRecording, GateHeld;
  }

  lemma DecidingFrom(s: System, a: Action, q: Id)
    requires q in Apply(s, a).processes && Deciding(Apply(s, a).processes[q])
    ensures DecidedBy(s, a, q, Apply(s, a).processes[q])
  {
    hide Step;
    if a.Advance? {
      if a.process in s.processes { DecidingStep(s, a.process, q); }
    } else {
      hide Reserve, RateSession, HasCompleted, SessionOf, TestOpen, Unvalidated, OpenSession, Verdict, HasFailedRecording;
    }
  }

  /** Where a verdict came from. */
  lemma VerdictFrom(s: System, a: Action, i: Id)
    ensures var s' := Apply(s, a);
            i in s'.verdicts ==>
              || (i in s.verdicts && s'.verdicts[i] == s.verdicts[i]
                  && !(a.Advance? && a.process in s.processes && s.processes[a.process].ValidateInTx?
                       && s.processes[a.process].sessionId == i))
              || (a.Advance? && a.process in s.processes && s.processes[a.process].ValidateInTx?
                  && s.processes[a.process].sessionId == i && s'.verdicts[i] == s.processes[a.process].verdict)
  {
    hide StartSession, MarkRecording, TimeOut, FinishSession, CommitVerdict, Reserve, RateSession, Verdict, Rewarded;
    hide HasCompleted, HasFailedRecording, GateHeld, SessionOf, TestOpen, Unvalidated, OpenSession;
  }

  lemma SeenStep(w: Watched, a: Action)
    requires Seen(w)
    ensures Seen(WatchedApply(w, a))
  {
    hide Apply, BySight, Verdict, HasFailedRecording, SomeFailed;
    var w' := WatchedApply(w, a);
    forall q | q in w'.s.processes && Deciding(w'.s.processes[q])
      ensures q in w'.saw && BySight(w'.s.processes[q].verdict, w'.saw[q])
    {
      DecidingFrom(w.s, a, q);
      if a == Advance(q) && w.s.processes[q].ValidateLoaded? {
        FailedIs(w.s.db, w.s.processes[q].sessionId);
        VerdictBySight(w.s.processes[q].session, HasFailedRecording(w.s.db, w.s.processes[q].sessionId));
      }
    }
    forall i | i in w'.s.verdicts ensures i in w'.judgedOn && BySight(w'.s.verdicts[i], w'.judgedOn[i]) {
      VerdictFrom(w.s, a, i);
    }
  }

  lemma {:induction false} WatchedRunSeen(actions: seq<Action>)
    ensures Seen(WatchedRun(actions)) && WatchedRun(actions).s == Run(INITIAL, actions)
    decreases |actions|
  {
    if actions != [] {
      hide Seen, Apply;
      WatchedRunSeen(actions[..|actions| - 1]);
      SeenStep(WatchedRun(actions[..|actions| - 1]), actions[|actions| - 1]);
    }
  }

  /**
   * After every run, a session is valid exactly when it was played for a positive time
   * and the job that judged it saw no failed recording; it is rejected for its
   * recording exactly when that job saw one.
   */
  lemma VerdictsTellWhatWasSeen(actions: seq<Action>, i: Id)
    requires i in Run(INITIAL, actions).verdicts
    ensures var (s, judgedOn) := (Run(INITIAL, actions), WatchedRun(actions).judgedOn);
            && i in s.db.sessions && i in judgedOn
            && var played := s.db.sessions[i].durationMs.Some? && 0 < s.db.sessions[i].durationMs.value;
               && (s.verdicts[i].valid <==> played && !judgedOn[i])
               && (s.verdicts[i].reason == Some(RECORDING_REASON) <==> played && judgedOn[i])
  {
    hide Run, WatchedRun;
    WatchedRunSeen(actions);
    VerdictsTellThePlay(Run(INITIAL, actions), i);
    hide Inv, Timed;
    ReasonsDiffer();
  }
}
