/**
 * The playtest lifecycle as a transition system. API requests, worker jobs and
 * sweeps are processes; each database transaction, single statement, Redis
 * command or queue call is one step, and whatever a process read earlier
 * travels with it as a local copy that may be stale by its next step. Any
 * process can die between two steps, and a validation job can be delivered any
 * number of times.
 *
 * Only the validation transaction is split in two (`ValidateDecided` to
 * `ValidateInTx` to committed), because its XP check reads before its writes
 * become visible: the gate row's key is held meanwhile, and other transactions
 * may commit in between.
 */
module PlaytestProtocol {
  import opened Common
  import opened PlaytestTables

  const STUCK_GRACE_MS := 15 * 60 * 1000

  datatype Process =
      /** `join` after reading the test, before its completed-participation query. */
    | JoinOpen(testId: Id, userId: Id)
      /** `join` after that query answered "no", before the reserve transaction. */
    | JoinCleared(testId: Id, userId: Id)
      /** `start` after its reads, before the start transaction. */
    | StartReady(participationId: Id, testId: Id, organizationId: Id)
    | StartTouch(sessionId: Id)
      /** `heartbeat` with the session status it read. */
    | BeatRead(sessionId: Id, status: SessionStatus)
    | BeatMark(sessionId: Id)
      /** `finish` with the participation it read and the values it is about to write. */
    | FinishRead(sessionId: Id, participationId: Id, endedAt: int, durationMs: int)
    | FinishDropKey(sessionId: Id)
    | FinishEnqueue(sessionId: Id)
      /** Timeout sweep: sessions it listed as open and has not visited yet. */
    | SweepOpen(todo: seq<Id>)
    | SweepExpired(sessionId: Id, todo: seq<Id>)
    | SweepEnqueue(sessionId: Id, todo: seq<Id>)
      /** Sweep over closed sessions it listed as not validated. */
    | SweepClosed(todo: seq<Id>)
      /** Validation job: no validation row seen / session row read / verdict decided / inside the transaction. */
    | ValidateRead(sessionId: Id)
    | ValidateLoaded(sessionId: Id, session: SessionRow)
    | ValidateDecided(sessionId: Id, session: SessionRow, verdict: ValidationRow)
    | ValidateInTx(sessionId: Id, session: SessionRow, verdict: ValidationRow, rewarded: bool)

  /**
   * `verdicts` is a history variable: what the worker's transaction wrote for
   * each session when it committed. Nothing below reads it.
   */
  datatype System = System(
    now: int, nextId: Id, db: Tables, heartbeats: set<Id>, jobs: set<Id>,
    processes: map<Id, Process>, verdicts: map<Id, ValidationRow>)

  datatype Action =
    | Tick(elapsed: nat)
    | CreateTest(organizationId: Id)
    | UpdateTest(testId: Id, status: TestStatus, endsAt: Option<int>, slotsTotal: nat)
    | AddRecording(sessionId: Id)
    | SetRecording(recordingId: Id, mediaStatus: MediaStatus)
    | Join(testId: Id, userId: Id)
      /** `join` without interleaving: its checks and its transaction in one step. */
    | JoinAtOnce(testId: Id, userId: Id)
    | Start(participationId: Id, userId: Id, buildValidated: bool, consentsGranted: bool)
    | Heartbeat(sessionId: Id, userId: Id)
    | ExpireHeartbeat(sessionId: Id)
    | Finish(sessionId: Id, userId: Id, tMs: int)
    | ReconcileTimedOut(open: seq<Id>)
    | ReconcileUnvalidated(closed: seq<Id>)
    | Deliver(sessionId: Id)
    | Advance(process: Id)
    | Crash(process: Id)
    | Rate(organizationId: Id, sessionId: Id, row: RatingRow)

  const INITIAL := System(0, 0, EMPTY_TABLES, {}, {}, map[], map[])

  /* ------------------------------ process bookkeeping ------------------------------ */

  function Spawn(s: System, p: Process): System {
    s.(processes := s.processes[s.nextId := p], nextId := s.nextId + 1)
  }

  function Become(s: System, id: Id, p: Process): System {
    s.(processes := s.processes[id := p])
  }

  function End(s: System, id: Id): System {
    s.(processes := s.processes - {id})
  }

  /** The gate: another transaction holds the uncommitted validation row of this session. */
  predicate GateHeld(s: System, sessionId: Id) {
    exists q :: q in s.processes && s.processes[q].ValidateInTx? && s.processes[q].sessionId == sessionId
  }

  /* ------------------------------- requests and jobs ------------------------------- */

  /** The checks `join` makes on the test row it read. */
  predicate TestOpen(s: System, testId: Id) {
    testId in s.db.tests && s.db.tests[testId].status.Published? && NotExpired(s.db.tests[testId], s.now)
  }

  predicate SessionOf(t: Tables, sessionId: Id, userId: Id) {
    sessionId in t.sessions && t.sessions[sessionId].participationId in t.participations
    && t.participations[t.sessions[sessionId].participationId].userId == userId
  }

  function RequestStart(s: System, participationId: Id, userId: Id, gates: bool): System {
    if participationId !in s.db.participations
       || s.db.participations[participationId].userId != userId then s
    else
      var testId := s.db.participations[participationId].testId;
      if testId in s.db.tests && (s.db.tests[testId].status.Published? || s.db.tests[testId].status.PausedTest?)
         && NotExpired(s.db.tests[testId], s.now) && gates
      then Spawn(s, StartReady(participationId, testId, s.db.tests[testId].organizationId))
      else s
  }

  function RequestFinish(s: System, sessionId: Id, userId: Id, tMs: int): System {
    if SessionOf(s.db, sessionId, userId) then
      var row := s.db.sessions[sessionId];
      Spawn(s, FinishRead(sessionId, row.participationId, s.now, PlayedMs(tMs, row.startedAt, s.now)))
    else s
  }

  /** Closed, no validation row, ended before the grace period: the unvalidated sweep's query. */
  predicate Unvalidated(s: System, sessionId: Id) {
    sessionId in s.db.sessions && sessionId !in s.db.validations
    && (s.db.sessions[sessionId].status.Processing? || s.db.sessions[sessionId].status.Invalidated?)
    && s.db.sessions[sessionId].endedAt.Some? && s.db.sessions[sessionId].endedAt.value < s.now - STUCK_GRACE_MS
  }

  predicate OpenSession(t: Tables, sessionId: Id) {
    sessionId in t.sessions && Unfinished(t.sessions[sessionId].status)
  }

  /* ------------------------------ the step of a process ------------------------------ */

  function StepJoinReserve(s: System, id: Id, testId: Id, userId: Id): System {
    End(s.(db := Reserve(s.db, s.now, testId, userId, s.nextId).0, nextId := s.nextId + 1), id)
  }

  function StepStart(s: System, id: Id, p: Process): System
    requires p.StartReady?
  {
    var (t, out) := StartSession(s.db, s.now, p.participationId, p.testId, p.organizationId, s.nextId);
    var s' := s.(db := t, nextId := s.nextId + 1);
    if out.Started? then Become(s', id, StartTouch(out.id)) else End(s', id)
  }

  function StepBeat(s: System, id: Id, p: Process): System
    requires p.BeatRead?
  {
    if Closed(p.status) then End(s, id)
    else
      var s' := s.(heartbeats := s.heartbeats + {p.sessionId});
      if p.status.Starting? then Become(s', id, BeatMark(p.sessionId)) else End(s', id)
  }

  function StepFinish(s: System, id: Id, p: Process): System
    requires p.FinishRead?
  {
    var (t, ok) := FinishSession(s.db, p.sessionId, p.participationId, p.endedAt, p.durationMs);
    if ok then Become(s.(db := t), id, FinishDropKey(p.sessionId)) else End(s, id)
  }

  function StepSweepOpen(s: System, id: Id, todo: seq<Id>): System {
    if todo == [] then End(s, id)
    else if todo[0] in s.heartbeats then Become(s, id, SweepOpen(todo[1..]))
    else Become(s, id, SweepExpired(todo[0], todo[1..]))
  }

  function StepSweepClosed(s: System, id: Id, todo: seq<Id>): System {
    if todo == [] then End(s, id)
    else Become(s.(jobs := s.jobs + {todo[0]}), id, SweepClosed(todo[1..]))
  }

  function StepLoad(s: System, id: Id, sessionId: Id): System {
    if sessionId in s.db.sessions then Become(s, id, ValidateLoaded(sessionId, s.db.sessions[sessionId]))
    else End(s, id)
  }

  /** The gate insert: it waits while another transaction holds the key, and finds nothing to do if the row exists. */
  function StepGate(s: System, id: Id, p: Process): System
    requires p.ValidateDecided?
  {
    if GateHeld(s, p.sessionId) then s
    else if p.sessionId in s.db.validations then End(s, id)
    else
      var rewarded := p.session.participationId in s.db.participations
        && Rewarded(s.db, s.db.participations[p.session.participationId].userId, p.session.testId);
      Become(s, id, ValidateInTx(p.sessionId, p.session, p.verdict, rewarded))
  }

  function StepCommit(s: System, id: Id, p: Process): System
    requires p.ValidateInTx?
  {
    End(s.(db := CommitVerdict(s.db, p.sessionId, p.session, p.verdict, p.rewarded, s.nextId),
           nextId := s.nextId + 1, verdicts := s.verdicts[p.sessionId := p.verdict]), id)
  }

  function Step(s: System, id: Id): System
    requires id in s.processes
  {
    var p := s.processes[id];
    match p
    case JoinOpen(testId, userId) =>
      if HasCompleted(s.db, testId, userId) then End(s, id) else Become(s, id, JoinCleared(testId, userId))
    case JoinCleared(testId, userId) => StepJoinReserve(s, id, testId, userId)
    case StartReady(_, _, _) => StepStart(s, id, p)
    case StartTouch(sessionId) => End(s.(heartbeats := s.heartbeats + {sessionId}), id)
    case BeatRead(_, _) => StepBeat(s, id, p)
    case BeatMark(sessionId) => End(s.(db := MarkRecording(s.db, sessionId)), id)
    case FinishRead(_, _, _, _) => StepFinish(s, id, p)
    case FinishDropKey(sessionId) =>
      Become(s.(heartbeats := s.heartbeats - {sessionId}), id, FinishEnqueue(sessionId))
    case FinishEnqueue(sessionId) => End(s.(jobs := s.jobs + {sessionId}), id)
    case SweepOpen(todo) => StepSweepOpen(s, id, todo)
    case SweepExpired(sessionId, todo) =>
      Become(s.(db := TimeOut(s.db, sessionId, s.now)), id, SweepEnqueue(sessionId, todo))
    case SweepEnqueue(sessionId, todo) => Become(s.(jobs := s.jobs + {sessionId}), id, SweepOpen(todo))
    case SweepClosed(todo) => StepSweepClosed(s, id, todo)
    case ValidateRead(sessionId) => StepLoad(s, id, sessionId)
    case ValidateLoaded(sessionId, session) =>
      Become(s, id, ValidateDecided(sessionId, session, Verdict(session, HasFailedRecording(s.db, sessionId))))
    case ValidateDecided(_, _, _) => StepGate(s, id, p)
    case ValidateInTx(_, _, _, _) => StepCommit(s, id, p)
  }

  /* ------------------------------------- runs ------------------------------------- */

  /** One action; an action whose precondition fails leaves the system as it is. */
  function Apply(s: System, a: Action): System {
    match a
    case Tick(elapsed) => s.(now := s.now + elapsed)
    case CreateTest(organizationId) =>
      s.(db := s.db.(tests := s.db.tests[s.nextId := TestRow(organizationId, DraftTest, None, 0, 0)]),
         nextId := s.nextId + 1)
    case UpdateTest(testId, status, endsAt, slotsTotal) =>
      if testId in s.db.tests && s.db.tests[testId].slotsTaken <= slotsTotal then
        s.(db := s.db.(tests := s.db.tests[testId :=
             s.db.tests[testId].(status := status, endsAt := endsAt, slotsTotal := slotsTotal)]))
      else s
    case AddRecording(sessionId) =>
      if sessionId in s.db.sessions then
        s.(db := s.db.(recordings := s.db.recordings[s.nextId := RecordingRow(sessionId, MediaProcessing)]),
           nextId := s.nextId + 1)
      else s
    case SetRecording(recordingId, status) =>
      if recordingId in s.db.recordings then
        s.(db := s.db.(recordings := s.db.recordings[recordingId := s.db.recordings[recordingId].(status := status)]))
      else s
    case Join(testId, userId) =>
      if TestOpen(s, testId) then Spawn(s, JoinOpen(testId, userId)) else s
    case JoinAtOnce(testId, userId) =>
      if TestOpen(s, testId) && !HasCompleted(s.db, testId, userId) then
        s.(db := Reserve(s.db, s.now, testId, userId, s.nextId).0, nextId := s.nextId + 1)
      else s
    case Start(participationId, userId, buildValidated, consentsGranted) =>
      RequestStart(s, participationId, userId, buildValidated && consentsGranted)
    case Heartbeat(sessionId, userId) =>
      if SessionOf(s.db, sessionId, userId) then
        Spawn(s, BeatRead(sessionId, s.db.sessions[sessionId].status))
      else s
    case ExpireHeartbeat(sessionId) => s.(heartbeats := s.heartbeats - {sessionId})
    case Finish(sessionId, userId, tMs) => RequestFinish(s, sessionId, userId, tMs)
    case ReconcileTimedOut(open) =>
      if forall i :: 0 <= i < |open| ==> OpenSession(s.db, open[i]) then Spawn(s, SweepOpen(open)) else s
    case ReconcileUnvalidated(closed) =>
      if forall i :: 0 <= i < |closed| ==> Unvalidated(s, closed[i]) then Spawn(s, SweepClosed(closed)) else s
    case Deliver(sessionId) =>
      if sessionId in s.jobs && sessionId !in s.db.validations then Spawn(s, ValidateRead(sessionId)) else s
    case Advance(id) => if id in s.processes then Step(s, id) else s
    case Crash(id) => End(s, id)
    case Rate(organizationId, sessionId, row) =>
      s.(db := RateSession(s.db, organizationId, sessionId, row).0)
  }

  /** The state after a run, oldest action first. */
  function Run(s: System, actions: seq<Action>): System
    decreases |actions|
  {
    if actions == [] then s
    else Apply(Run(s, actions[..|actions| - 1]), actions[|actions| - 1])
  }
}
