/** Every action of every process keeps the invariant; so does every run. */
module PlaytestSteps {
  import opened Common
  import opened PlaytestTables
  import opened PlaytestProtocol
  import opened PlaytestInvariant

  lemma StillUndecided(s: System, i: Id)
    requires References(s.db) && ProcessesOk(s) && i in s.processes
    ensures s.processes[i].ValidateInTx? ==> s.processes[i].sessionId !in s.db.validations
  {
    assert ProcessOk(s.db, s.processes[i]);
    hide ClosedSession, Known, Rewarded, Verdict;
  }

  ghost predicate VerdictsKept(v: map<Id, ValidationRow>, v': map<Id, ValidationRow>) {
    forall i :: i in v ==> i in v' && v'[i] == v[i]
  }

  /** One step of the system: the invariant before and after, and nothing undone. */
  ghost predicate Progress(s: System, s': System) {
    Inv(s) && Inv(s') && Later(s.db, s'.db) && VerdictsKept(s.verdicts, s'.verdicts)
  }

  ghost predicate OthersSame(s: System, s': System, id: Id) {
    forall i :: i in s'.processes && i != id ==> i in s.processes && s'.processes[i] == s.processes[i]
  }

  /** A step that validates nothing. */
  lemma WriteStep(s: System, s': System, id: Id)
    requires Inv(s) && TablesOk(s'.db, s'.verdicts, s'.nextId) && Later(s.db, s'.db) && s.nextId <= s'.nextId
    requires s'.db.validations.Keys == s.db.validations.Keys && s'.verdicts == s.verdicts
    requires OthersSame(s, s', id) && MovedOk(s', id) && JobsOk(s, s')
    ensures Progress(s, s')
  {
    hide ProcessOk, ClosedSession, XpLedger, Slots, Phases, StudioFormula, OnlyNewestActive, OneSession, Later, OneGate, MovedOk, JobsOk;
    forall i | i in s'.processes && i != id ensures SameProcess(s, s', i) { StillUndecided(s, i); }
    StepKeeps(s, s', id);
  }

  /** A step that writes no table. */
  lemma QuietStep(s: System, s': System, id: Id)
    requires Inv(s) && s'.db == s.db && s'.verdicts == s.verdicts && s.nextId <= s'.nextId
    requires OthersSame(s, s', id) && MovedOk(s', id) && JobsOk(s, s')
    ensures Progress(s, s')
  {
    hide ProcessesOk, XpComplete, XpOnce, Slots, Phases, StudioFormula, OnlyNewestActive, OneSession, Later, OneGate, MovedOk, JobsOk, OthersSame;
    FreshIsMonotone(s.db, s.nextId, s'.nextId);
    LaterUntouched(s.db, s.db, s.verdicts);
    WriteStep(s, s', id);
  }

  lemma SystemFacts(s: System)
    requires Inv(s)
    ensures References(s.db) && TablesOk(s.db, s.verdicts, s.nextId) && s.nextId !in s.processes
    ensures Fresh(s.db, s.nextId) && Slots(s.db)
    ensures forall j :: j in s.jobs ==> ClosedSession(s.db, j)
  {}

  /** An action that changes nothing is no step. */
  lemma Stutter(s: System)
    requires Inv(s)
    ensures Progress(s, s)
  {
    hide Inv, TablesOk, References;
    SystemFacts(s);
    QuietStep(s, s, s.nextId);
  }

  /* ------------------------------------ processes ------------------------------------ */

  lemma ProcessFacts(s: System, id: Id)
    requires Inv(s) && id in s.processes
    ensures References(s.db) && TablesOk(s.db, s.verdicts, s.nextId)
    ensures id < s.nextId && ProcessOk(s.db, s.processes[id]) && s.verdicts.Keys == s.db.validations.Keys
  {}

  lemma JoinOpenStep(s: System, id: Id)
    requires Inv(s) && id in s.processes && s.processes[id].JoinOpen?
    ensures Progress(s, Step(s, id))
  {
    hide Inv, TablesOk, References, HasCompleted;
    ProcessFacts(s, id);
    QuietStep(s, Step(s, id), id);
  }

  lemma ReserveRows(t: Tables, now: int, testId: Id, userId: Id, n: Id)
    ensures Reserve(t, now, testId, userId, n).0.validations == t.validations
  {}

  lemma JoinReserveStep(s: System, id: Id)
    requires Inv(s) && id in s.processes && s.processes[id].JoinCleared?
    ensures Progress(s, Step(s, id))
  {
    hide Inv, TablesOk, References, Later, Reserve;
    var p := s.processes[id];
    ProcessFacts(s, id);
    ReserveKeeps(s.db, s.verdicts, s.now, p.testId, p.userId, s.nextId);
    ReserveRows(s.db, s.now, p.testId, p.userId, s.nextId);
    WriteStep(s, Step(s, id), id);
  }

  lemma StartRows(t: Tables, now: int, p: Id, testId: Id, organizationId: Id, n: Id)
    ensures var (t', out) := StartSession(t, now, p, testId, organizationId, n);
            t'.validations == t.validations && (out.Started? ==> out.id in t'.sessions)
  {}

  lemma StartStep(s: System, id: Id)
    requires Inv(s) && id in s.processes && s.processes[id].StartReady?
    ensures Progress(s, Step(s, id))
  {
    hide Inv, TablesOk, References, Later, StartSession;
    var p := s.processes[id];
    ProcessFacts(s, id);
    StartKeeps(s.db, s.verdicts, s.now, p.participationId, p.testId, p.organizationId, s.nextId);
    StartRows(s.db, s.now, p.participationId, p.testId, p.organizationId, s.nextId);
    WriteStep(s, Step(s, id), id);
  }

  lemma HeartbeatStep(s: System, id: Id)
    requires Inv(s) && id in s.processes
    requires s.processes[id].StartTouch? || s.processes[id].BeatRead? || s.processes[id].FinishDropKey?
    ensures Progress(s, Step(s, id))
  {
    hide Inv, TablesOk, References;
    ProcessFacts(s, id);
    QuietStep(s, Step(s, id), id);
  }

  lemma MarkRows(t: Tables, s: Id)
    ensures MarkRecording(t, s).validations == t.validations
  {}

  lemma MarkStep(s: System, id: Id)
    requires Inv(s) && id in s.processes && s.processes[id].BeatMark?
    ensures Progress(s, Step(s, id))
  {
    hide Inv, TablesOk, References, Later, MarkRecording;
    ProcessFacts(s, id);
    MarkRecordingKeeps(s.db, s.verdicts, s.nextId, s.processes[id].sessionId);
    MarkRows(s.db, s.processes[id].sessionId);
    WriteStep(s, Step(s, id), id);
  }

  lemma FinishRows(t: Tables, s: Id, p: Id, endedAt: int, durationMs: int)
    ensures var (t', ok) := FinishSession(t, s, p, endedAt, durationMs);
            t'.validations == t.validations && (ok ==> s in t'.sessions)
  {}

  lemma FinishStep(s: System, id: Id)
    requires Inv(s) && id in s.processes && s.processes[id].FinishRead?
    ensures Progress(s, Step(s, id))
  {
    hide Inv, TablesOk, References, Later, FinishSession;
    var p := s.processes[id];
    ProcessFacts(s, id);
    FinishKeeps(s.db, s.verdicts, s.nextId, p.sessionId, p.participationId, p.endedAt, p.durationMs);
    FinishRows(s.db, p.sessionId, p.participationId, p.endedAt, p.durationMs);
    if FinishSession(s.db, p.sessionId, p.participationId, p.endedAt, p.durationMs).1 {
      WriteStep(s, Step(s, id), id);
    } else {
      QuietStep(s, Step(s, id), id);
    }
  }

  lemma EnqueueStep(s: System, id: Id)
    requires Inv(s) && id in s.processes && (s.processes[id].FinishEnqueue? || s.processes[id].SweepEnqueue?)
    ensures Progress(s, Step(s, id))
  {
    hide Inv, TablesOk, References, ClosedSession, Known;
    ProcessFacts(s, id);
    QuietStep(s, Step(s, id), id);
  }

  lemma SweepStep(s: System, id: Id)
    requires Inv(s) && id in s.processes && (s.processes[id].SweepOpen? || s.processes[id].SweepClosed?)
    ensures Progress(s, Step(s, id))
  {
    hide Inv, TablesOk, References, ClosedSession;
    ProcessFacts(s, id);
    QuietStep(s, Step(s, id), id);
  }

  lemma TimeOutRows(t: Tables, s: Id, now: int)
    ensures TimeOut(t, s, now).validations == t.validations
    ensures TimeOut(t, s, now).sessions.Keys == t.sessions.Keys
  {}

  lemma TimeOutStep(s: System, id: Id)
    requires Inv(s) && id in s.processes && s.processes[id].SweepExpired?
    ensures Progress(s, Step(s, id))
  {
    hide Inv, TablesOk, References, Later, TimeOut;
    var p := s.processes[id];
    ProcessFacts(s, id);
    TimeOutKeeps(s.db, s.verdicts, s.nextId, p.sessionId, s.now);
    TimeOutRows(s.db, p.sessionId, s.now);
    WriteStep(s, Step(s, id), id);
  }

  lemma LoadStep(s: System, id: Id)
    requires Inv(s) && id in s.processes && (s.processes[id].ValidateRead? || s.processes[id].ValidateLoaded?)
    ensures Progress(s, Step(s, id))
  {
    hide Inv, TablesOk, References, HasFailedRecording, Verdict;
    ProcessFacts(s, id);
    QuietStep(s, Step(s, id), id);
  }

  /** Entering the transaction: the row is current, the gate is free, and the reward it saw is the current one. */
  lemma GateOpens(t: Tables, p: Process)
    requires References(t) && p.ValidateDecided? && ProcessOk(t, p) && p.sessionId !in t.validations
    ensures p.session.participationId in t.participations
    ensures var rewarded := Rewarded(t, t.participations[p.session.participationId].userId, p.session.testId);
            ProcessOk(t, ValidateInTx(p.sessionId, p.session, p.verdict, rewarded))
  {}

  lemma GateStep(s: System, id: Id)
    requires Inv(s) && id in s.processes && s.processes[id].ValidateDecided?
    ensures Progress(s, Step(s, id))
  {
    hide Inv, TablesOk, ProcessOk, References, Verdict, Rewarded;
    var p := s.processes[id];
    ProcessFacts(s, id);
    if !GateHeld(s, p.sessionId) {
      if p.sessionId !in s.db.validations { GateOpens(s.db, p); }
      QuietStep(s, Step(s, id), id);
    } else { Stutter(s); }
  }

  lemma VerdictRowKept(t: Tables, s: Id, row: SessionRow, verdict: ValidationRow)
    ensures WriteVerdict(t, s, row, verdict).validations == t.validations[s := verdict]
  {}

  lemma CommitRowsKept(t: Tables, s: Id, row: SessionRow, verdict: ValidationRow, rewarded: bool, n: Id)
    ensures CommitVerdict(t, s, row, verdict, rewarded, n).validations == t.validations[s := verdict]
  {
    hide WriteVerdict;
    VerdictRowKept(t, s, row, verdict);
  }

  lemma OtherGates(s: System, id: Id, i: Id)
    requires Inv(s) && id in s.processes && i in s.processes && i != id
    requires s.processes[id].ValidateInTx? && s.processes[i].ValidateInTx?
    ensures s.processes[i].sessionId != s.processes[id].sessionId && s.processes[i].sessionId !in s.db.validations
  {
    hide ProcessOk, Fresh, OnlyNewestActive, OneSession, Phases, Slots, StudioFormula, XpLedger;
    StillUndecided(s, i);
  }

  lemma CommitStep(s: System, id: Id)
    requires Inv(s) && id in s.processes && s.processes[id].ValidateInTx?
    ensures Progress(s, Step(s, id))
  {
    hide Inv, TablesOk, References, Later, CommitVerdict, Rewarded, Verdict;
    var p, s' := s.processes[id], Step(s, id);
    ProcessFacts(s, id);
    CommitKeeps(s.db, s.verdicts, s.nextId, p.sessionId, p.session, p.verdict, p.rewarded);
    CommitRowsKept(s.db, p.sessionId, p.session, p.verdict, p.rewarded, s.nextId);
    forall i | i in s'.processes && i != id ensures SameProcess(s, s', i) {
      if s.processes[i].ValidateInTx? { OtherGates(s, id, i); }
    }
    StepKeeps(s, s', id);
  }

  lemma AdvanceKeeps(s: System, id: Id)
    requires Inv(s) && id in s.processes
    ensures Progress(s, Step(s, id))
  {
    hide Inv, Step;
    match s.processes[id]
    case JoinOpen(_, _) => JoinOpenStep(s, id);
    case JoinCleared(_, _) => JoinReserveStep(s, id);
    case StartReady(_, _, _) => StartStep(s, id);
    case StartTouch(_) => HeartbeatStep(s, id);
    case BeatRead(_, _) => HeartbeatStep(s, id);
    case BeatMark(_) => MarkStep(s, id);
    case FinishRead(_, _, _, _) => FinishStep(s, id);
    case FinishDropKey(_) => HeartbeatStep(s, id);
    case FinishEnqueue(_) => EnqueueStep(s, id);
    case SweepOpen(_) => SweepStep(s, id);
    case SweepExpired(_, _) => TimeOutStep(s, id);
    case SweepEnqueue(_, _) => EnqueueStep(s, id);
    case SweepClosed(_) => SweepStep(s, id);
    case ValidateRead(_) => LoadStep(s, id);
    case ValidateLoaded(_, _) => LoadStep(s, id);
    case ValidateDecided(_, _, _) => GateStep(s, id);
    case ValidateInTx(_, _, _, _) => CommitStep(s, id);
  }

  /* ------------------------------------- actions ------------------------------------- */

  /** A request or job that only reads and then becomes a process. */
  lemma SpawnKeeps(s: System, p: Process)
    requires Inv(s) && References(s.db) && ProcessOk(s.db, p) && !p.ValidateInTx?
    ensures Progress(s, Spawn(s, p))
  {
    hide Inv, TablesOk, References, ProcessOk;
    SystemFacts(s);
    QuietStep(s, Spawn(s, p), s.nextId);
  }

  /** An action of nobody in particular: clocks, keys, tests, recordings, ratings. */
  lemma AmbientKeeps(s: System, s': System)
    requires Inv(s) && References(s.db)
    requires TablesOk(s'.db, s.verdicts, s'.nextId) && Later(s.db, s'.db) && s.nextId <= s'.nextId
    requires s'.db.validations.Keys == s.db.validations.Keys
    requires s'.processes == s.processes && s'.jobs == s.jobs && s'.verdicts == s.verdicts
    ensures Progress(s, s')
  {
    hide Inv, TablesOk, References, Later, ProcessOk, ClosedSession;
    SystemFacts(s);
    assert References(s'.db) by { TablesFacts(s'.db, s.verdicts, s'.nextId); }
    WriteStep(s, s', s.nextId);
  }

  lemma TablesFacts(t: Tables, verdicts: map<Id, ValidationRow>, n: Id)
    requires TablesOk(t, verdicts, n)
    ensures References(t) && Slots(t)
  {}

  lemma TestActionsKeep(s: System, a: Action)
    requires Inv(s) && (a.CreateTest? || a.UpdateTest?)
    ensures Progress(s, Apply(s, a))
  {
    hide Inv, TablesOk, References, Later;
    SystemFacts(s);
    if a.CreateTest? {
      TestsKeep(s.db, s.verdicts, s.nextId, s.nextId + 1, s.nextId, TestRow(a.organizationId, DraftTest, None, 0, 0));
      AmbientKeeps(s, Apply(s, a));
    } else if a.testId in s.db.tests && s.db.tests[a.testId].slotsTaken <= a.slotsTotal {
      TestsKeep(s.db, s.verdicts, s.nextId, s.nextId, a.testId,
                s.db.tests[a.testId].(status := a.status, endsAt := a.endsAt, slotsTotal := a.slotsTotal));
      AmbientKeeps(s, Apply(s, a));
    } else { Stutter(s); }
  }

  lemma RecordingActionsKeep(s: System, a: Action)
    requires Inv(s) && (a.AddRecording? || a.SetRecording?)
    ensures Progress(s, Apply(s, a))
  {
    hide Inv, TablesOk, References, Later;
    SystemFacts(s);
    var s' := Apply(s, a);
    RecordingsKeep(s.db, s.verdicts, s.nextId, s'.nextId, s'.db.recordings);
    AmbientKeeps(s, s');
  }

  lemma JoinActionsKeep(s: System, a: Action)
    requires Inv(s) && (a.Join? || a.JoinAtOnce?)
    ensures Progress(s, Apply(s, a))
  {
    hide Inv, TablesOk, References, Later, HasCompleted, Reserve;
    SystemFacts(s);
    Stutter(s);
    if TestOpen(s, a.testId) {
      if a.Join? { SpawnKeeps(s, JoinOpen(a.testId, a.userId)); }
      else if !HasCompleted(s.db, a.testId, a.userId) {
        ReserveKeeps(s.db, s.verdicts, s.now, a.testId, a.userId, s.nextId);
        ReserveRows(s.db, s.now, a.testId, a.userId, s.nextId);
        AmbientKeeps(s, Apply(s, a));
      }
    }
  }

  lemma SessionActionsKeep(s: System, a: Action)
    requires Inv(s) && (a.Start? || a.Heartbeat? || a.Finish?)
    ensures Progress(s, Apply(s, a))
  {
    hide Inv, TablesOk, References;
    SystemFacts(s);
    var s' := Apply(s, a);
    if s' != s {
      SpawnKeeps(s, s'.processes[s.nextId]);
    }
  }

  lemma SweepActionsKeep(s: System, a: Action)
    requires Inv(s) && (a.ReconcileTimedOut? || a.ReconcileUnvalidated? || a.Deliver?)
    ensures Progress(s, Apply(s, a))
  {
    hide Inv, TablesOk, References;
    SystemFacts(s);
    var s' := Apply(s, a);
    if s' != s {
      SpawnKeeps(s, s'.processes[s.nextId]);
    }
  }

  lemma CrashKeeps(s: System, id: Id)
    requires Inv(s)
    ensures Progress(s, End(s, id))
  {
    hide Inv, TablesOk, References;
    SystemFacts(s);
    QuietStep(s, End(s, id), id);
  }

  lemma QuietActionsKeep(s: System, a: Action)
    requires Inv(s) && (a.Tick? || a.ExpireHeartbeat? || a.Rate?)
    ensures Progress(s, Apply(s, a))
  {
    hide Inv, TablesOk, References, Later, RateSession;
    SystemFacts(s);
    if a.Rate? {
      RateKeeps(s.db, s.verdicts, s.nextId, a.organizationId, a.sessionId, a.row);
      RateShape(s.db, a.organizationId, a.sessionId, a.row);
      AmbientKeeps(s, Apply(s, a));
    } else {
      QuietStep(s, Apply(s, a), s.nextId);
    }
  }

  /** Every action keeps the invariant. */
  lemma ApplyKeeps(s: System, a: Action)
    requires Inv(s)
    ensures Progress(s, Apply(s, a))
  {
    hide Inv;
    match a
    case Tick(_) => QuietActionsKeep(s, a);
    case CreateTest(_) => TestActionsKeep(s, a);
    case UpdateTest(_, _, _, _) => TestActionsKeep(s, a);
    case AddRecording(_) => RecordingActionsKeep(s, a);
    case SetRecording(_, _) => RecordingActionsKeep(s, a);
    case Join(_, _) => JoinActionsKeep(s, a);
    case JoinAtOnce(_, _) => JoinActionsKeep(s, a);
    case Start(_, _, _, _) => SessionActionsKeep(s, a);
    case Heartbeat(_, _) => SessionActionsKeep(s, a);
    case ExpireHeartbeat(_) => QuietActionsKeep(s, a);
    case Finish(_, _, _) => SessionActionsKeep(s, a);
    case ReconcileTimedOut(_) => SweepActionsKeep(s, a);
    case ReconcileUnvalidated(_) => SweepActionsKeep(s, a);
    case Deliver(_) => SweepActionsKeep(s, a);
    case Advance(id) => if id in s.processes { AdvanceKeeps(s, id); } else { Stutter(s); }
    case Crash(id) => CrashKeeps(s, id);
    case Rate(_, _, _) => QuietActionsKeep(s, a);
  }

  ghost predicate Reachable(s: System) {
    exists actions :: s == Run(INITIAL, actions)
  }

  /** The invariant holds after every run from a state where it holds. */
  lemma {:induction false} RunKeeps(s: System, actions: seq<Action>)
    requires Inv(s)
    ensures Inv(Run(s, actions))
    decreases |actions|
  {
    hide Inv, Apply;
    if actions != [] {
      RunKeeps(s, actions[..|actions| - 1]);
      ApplyKeeps(Run(s, actions[..|actions| - 1]), actions[|actions| - 1]);
    }
  }

  lemma InitialOk()
    ensures Inv(INITIAL)
  {}

  lemma ReachableOk(s: System)
    requires Reachable(s)
    ensures Inv(s)
  {
    InitialOk();
    var actions :| s == Run(INITIAL, actions);
    RunKeeps(INITIAL, actions);
  }
}
