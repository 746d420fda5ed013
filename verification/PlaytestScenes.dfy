/**
 * Short undisturbed stretches of the lifecycle, and the states they lead to; for
 * building runs that reach a given situation.
 */
module PlaytestScenes {
  import opened Common
  import opened PlaytestTables
  import opened PlaytestProtocol
  import opened PlaytestInvariant
  import opened PlaytestSteps

  ghost predicate Leads(s: System, s': System) { exists actions :: Run(s, actions) == s' }

  lemma LeadsStep(s: System, m: System, a: Action)
    requires Leads(s, m)
    ensures Leads(s, Apply(m, a))
  {
    hide Apply;
    var actions :| Run(s, actions) == m;
    assert (actions + [a])[..|actions|] == actions;
    assert Run(s, actions + [a]) == Apply(m, a);
  }

  lemma LeadsNowhere(s: System)
    ensures Leads(s, s)
  {
    assert Run(s, []) == s;
  }

  lemma Leads4(s: System, m: System, a: Action, b: Action, c: Action, d: Action)
    requires Leads(s, m)
    ensures Leads(s, Apply(Apply(Apply(m, a), b), c)) && Leads(s, Apply(Apply(Apply(Apply(m, a), b), c), d))
  {
    hide Leads, Apply;
    LeadsStep(s, m, a);
    LeadsStep(s, Apply(m, a), b);
    LeadsStep(s, Apply(Apply(m, a), b), c);
    LeadsStep(s, Apply(Apply(Apply(m, a), b), c), d);
  }

  /* ---------------------------------------- scenes ---------------------------------------- */

  const STUDIO: Id := 9
  const PLAYER: Id := 7
  const TEST: Id := 0
  const OPEN_TEST := TestRow(STUDIO, Published, None, 0, 3)

  /** A published test with three slots. */
  function Opening(): System { Apply(Apply(INITIAL, CreateTest(STUDIO)), UpdateTest(TEST, Published, None, 3)) }

  lemma CreateIs()
    ensures Apply(INITIAL, CreateTest(STUDIO)) ==
            INITIAL.(db := EMPTY_TABLES.(tests := map[TEST := TestRow(STUDIO, DraftTest, None, 0, 0)]), nextId := 1)
  {}

  lemma PublishIs(s: System)
    requires TEST in s.db.tests && s.db.tests[TEST].slotsTaken <= 3
    ensures Apply(s, UpdateTest(TEST, Published, None, 3)) ==
            s.(db := s.db.(tests := s.db.tests[TEST := s.db.tests[TEST].(status := Published, endsAt := None, slotsTotal := 3)]))
  {}

  lemma OpeningIs()
    ensures Opening() == INITIAL.(db := EMPTY_TABLES.(tests := map[TEST := OPEN_TEST]), nextId := 1)
  {
    CreateIs();
    hide Apply;
    var drafted := INITIAL.(db := EMPTY_TABLES.(tests := map[TEST := TestRow(STUDIO, DraftTest, None, 0, 0)]), nextId := 1);
    PublishIs(drafted);
    assert map[TEST := TestRow(STUDIO, DraftTest, None, 0, 0)][TEST := OPEN_TEST] == map[TEST := OPEN_TEST];
  }

  lemma OpeningIsReached()
    ensures Leads(INITIAL, Opening())
  {
    hide Leads, Apply;
    LeadsNowhere(INITIAL);
    LeadsStep(INITIAL, INITIAL, CreateTest(STUDIO));
    LeadsStep(INITIAL, Apply(INITIAL, CreateTest(STUDIO)), UpdateTest(TEST, Published, None, 3));
  }

  /** What starting participation `p` as session `n` leaves. */
  function Played(t: Tables, p: Id, n: Id, now: int): Tables
    requires p in t.participations && t.participations[p].testId in t.tests
  {
    var row := t.participations[p];
    t.(participations := t.participations[p := row.(status := Playing)],
       sessions := t.sessions[n := SessionRow(p, row.testId, t.tests[row.testId].organizationId, Starting, now, None, None)])
  }

  predicate CanStart(s: System, p: Id) {
    && p in s.db.participations && Startable(s.db.participations[p].status) && !HasRunningSession(s.db, p)
    && s.db.participations[p].testId in s.db.tests && s.db.tests[s.db.participations[p].testId].status.Published?
    && NotExpired(s.db.tests[s.db.participations[p].testId], s.now) && s.nextId !in s.processes
  }

  function Begin(s: System, p: Id): System
    requires CanStart(s, p)
  {
    Apply(Apply(Apply(s, Start(p, s.db.participations[p].userId, true, true)), Advance(s.nextId)), Crash(s.nextId))
  }

  /** A start whose process dies before it touches the heartbeat key. */
  lemma BeginIs(s: System, p: Id)
    requires CanStart(s, p)
    ensures Begin(s, p) == s.(db := Played(s.db, p, s.nextId + 1, s.now), nextId := s.nextId + 2)
  {
    var row, n := s.db.participations[p], s.nextId;
    var ready := StartReady(p, row.testId, s.db.tests[row.testId].organizationId);
    var s1 := s.(processes := s.processes[n := ready], nextId := n + 1);
    assert Apply(s, Start(p, row.userId, true, true)) == s1;
    var s2 := s1.(db := Played(s.db, p, n + 1, s.now), nextId := n + 2, processes := s1.processes[n := StartTouch(n + 1)]);
    assert Apply(s1, Advance(n)) == s2;
    assert s2.processes - {n} == s.processes;
  }

  function TimeOutScene(s: System, i: Id): System {
    Apply(Apply(Apply(Apply(s, ReconcileTimedOut([i])), Advance(s.nextId)), Advance(s.nextId)), Crash(s.nextId))
  }

  /** A timeout sweep that dies before it enqueues. */
  lemma TimeOutSceneIs(s: System, i: Id)
    requires OpenSession(s.db, i) && i !in s.heartbeats && s.nextId !in s.processes
    ensures TimeOutScene(s, i) == s.(db := TimeOut(s.db, i, s.now), nextId := s.nextId + 1)
  {
    hide TimeOut;
    var n := s.nextId;
    assert [i][1..] == [];
    var s1 := s.(processes := s.processes[n := SweepOpen([i])], nextId := n + 1);
    assert Apply(s, ReconcileTimedOut([i])) == s1;
    var s2 := s1.(processes := s1.processes[n := SweepExpired(i, [])]);
    assert Apply(s1, Advance(n)) == s2;
    var s3 := s2.(db := TimeOut(s.db, i, s.now), processes := s2.processes[n := SweepEnqueue(i, [])]);
    assert Apply(s2, Advance(n)) == s3;
    assert s3.processes - {n} == s.processes;
  }

  function FinishScene(s: System, i: Id): System
    requires i in s.db.sessions && s.db.sessions[i].participationId in s.db.participations
  {
    var user := s.db.participations[s.db.sessions[i].participationId].userId;
    Apply(Apply(Apply(Apply(s, Tick(1)), Finish(i, user, 1)), Advance(s.nextId)), Crash(s.nextId))
  }

  /** A session finished after one tick, by a request that dies before it enqueues. */
  lemma FinishSceneIs(s: System, i: Id)
    requires OpenSession(s.db, i) && s.db.sessions[i].participationId in s.db.participations && s.nextId !in s.processes
    requires s.db.sessions[i].startedAt == s.now
    ensures FinishScene(s, i) == s.(now := s.now + 1, nextId := s.nextId + 1,
              db := FinishSession(s.db, i, s.db.sessions[i].participationId, s.now + 1, 1).0)
  {
    hide FinishSession;
    var row, n := s.db.sessions[i], s.nextId;
    var user := s.db.participations[row.participationId].userId;
    var s1 := s.(now := s.now + 1);
    var read := FinishRead(i, row.participationId, s.now + 1, 1);
    var s2 := s1.(processes := s.processes[n := read], nextId := n + 1);
    assert Apply(s1, Finish(i, user, 1)) == s2;
    assert FinishSession(s.db, i, row.participationId, s.now + 1, 1).1 by { OpenCanFinish(s.db, i, row.participationId, s.now + 1, 1); }
    var s3 := s2.(db := FinishSession(s.db, i, row.participationId, s.now + 1, 1).0,
                  processes := s2.processes[n := FinishDropKey(i)]);
    assert Apply(s2, Advance(n)) == s3;
    assert s3.processes - {n} == s.processes;
  }

  lemma OpenCanFinish(t: Tables, i: Id, p: Id, endedAt: int, durationMs: int)
    requires OpenSession(t, i)
    ensures FinishSession(t, i, p, endedAt, durationMs).1
  {}

  /** How long to wait until the sweep over unvalidated sessions lists `i`. */
  function Grace(s: System, i: Id): nat
    requires i in s.db.sessions && s.db.sessions[i].endedAt.Some?
  {
    Max(0, s.db.sessions[i].endedAt.value + STUCK_GRACE_MS + 1 - s.now)
  }

  ghost predicate Listable(s: System, i: Id) {
    && i in s.db.sessions && i !in s.db.validations && s.db.sessions[i].endedAt.Some?
    && (s.db.sessions[i].status.Processing? || s.db.sessions[i].status.Invalidated?) && s.nextId !in s.processes
  }

  function SweepScene(s: System, i: Id): System
    requires i in s.db.sessions && s.db.sessions[i].endedAt.Some?
  {
    Apply(Apply(Apply(Apply(s, Tick(Grace(s, i))), ReconcileUnvalidated([i])), Advance(s.nextId)), Crash(s.nextId))
  }

  /** The sweep over unvalidated sessions, once the grace period is over. */
  lemma SweepSceneIs(s: System, i: Id)
    requires Listable(s, i)
    ensures SweepScene(s, i) == s.(now := s.now + Grace(s, i), nextId := s.nextId + 1, jobs := s.jobs + {i})
  {
    var s1 := s.(now := s.now + Grace(s, i));
    assert Unvalidated(s1, i);
    ListedIs(s1, i);
    hide Unvalidated, Grace;
    assert Apply(s, Tick(Grace(s, i))) == s1;
  }

  lemma ListedIs(s: System, i: Id)
    requires Unvalidated(s, i) && s.nextId !in s.processes
    ensures Apply(Apply(Apply(s, ReconcileUnvalidated([i])), Advance(s.nextId)), Crash(s.nextId)) ==
            s.(nextId := s.nextId + 1, jobs := s.jobs + {i})
  {
    hide Unvalidated;
    var n := s.nextId;
    assert [i][1..] == [];
    var s2 := s.(processes := s.processes[n := SweepClosed([i])], nextId := n + 1);
    assert Apply(s, ReconcileUnvalidated([i])) == s2;
    var s3 := s2.(jobs := s.jobs + {i}, processes := s2.processes[n := SweepClosed([])]);
    assert Apply(s2, Advance(n)) == s3;
    assert s3.processes - {n} == s.processes;
  }

  function JudgeScene(s: System, i: Id): System {
    var n := s.nextId;
    Apply(Apply(Apply(Apply(Apply(s, Deliver(i)), Advance(n)), Advance(n)), Advance(n)), Advance(n))
  }

  lemma DecideIs(s: System, i: Id)
    requires i in s.jobs && i in s.db.sessions && i !in s.db.validations && s.nextId !in s.processes
    ensures var row := s.db.sessions[i];
            Apply(Apply(Apply(s, Deliver(i)), Advance(s.nextId)), Advance(s.nextId)) ==
            s.(processes := s.processes[s.nextId :=
                 ValidateDecided(i, row, Verdict(row, HasFailedRecording(s.db, i)))], nextId := s.nextId + 1)
  {
    hide Verdict, HasFailedRecording;
    var row, n := s.db.sessions[i], s.nextId;
    var s1 := s.(processes := s.processes[n := ValidateRead(i)], nextId := n + 1);
    assert Apply(s, Deliver(i)) == s1;
    var s2 := s1.(processes := s.processes[n := ValidateLoaded(i, row)]);
    assert Apply(s1, Advance(n)) == s2;
  }

  lemma CommitIs(s: System, n: Id, i: Id, row: SessionRow, verdict: ValidationRow)
    requires n in s.processes && s.processes[n] == ValidateDecided(i, row, verdict)
    requires i !in s.db.validations && !GateHeld(s, i) && row.participationId in s.db.participations
    ensures Apply(Apply(s, Advance(n)), Advance(n)) ==
            s.(processes := s.processes - {n}, nextId := s.nextId + 1, verdicts := s.verdicts[i := verdict],
               db := CommitVerdict(s.db, i, row, verdict,
                       Rewarded(s.db, s.db.participations[row.participationId].userId, row.testId), s.nextId))
  {
    hide Rewarded, CommitVerdict;
    var rewarded := Rewarded(s.db, s.db.participations[row.participationId].userId, row.testId);
    var s1 := s.(processes := s.processes[n := ValidateInTx(i, row, verdict, rewarded)]);
    assert Apply(s, Advance(n)) == s1;
    assert s1.processes - {n} == s.processes - {n};
  }

  /** An undisturbed delivery of the validation job. */
  lemma JudgeSceneIs(s: System, i: Id)
    requires i in s.jobs && i in s.db.sessions && i !in s.db.validations && !GateHeld(s, i) && s.nextId !in s.processes
    requires s.db.sessions[i].participationId in s.db.participations
    ensures var row := s.db.sessions[i];
            var verdict := Verdict(row, HasFailedRecording(s.db, i));
            JudgeScene(s, i) == s.(nextId := s.nextId + 2, verdicts := s.verdicts[i := verdict],
              db := CommitVerdict(s.db, i, row, verdict,
                                  Rewarded(s.db, s.db.participations[row.participationId].userId, row.testId), s.nextId + 1))
  {
    hide Apply, Verdict, HasFailedRecording, Rewarded, CommitVerdict, GateHeld;
    var row, n := s.db.sessions[i], s.nextId;
    var verdict := Verdict(row, HasFailedRecording(s.db, i));
    DecideIs(s, i);
    var s3 := s.(processes := s.processes[n := ValidateDecided(i, row, verdict)], nextId := n + 1);
    NoNewGate(s, n, ValidateDecided(i, row, verdict), i);
    CommitIs(s3, n, i, row, verdict);
    assert s3.processes - {n} == s.processes;
  }

  lemma NoNewGate(s: System, n: Id, p: Process, i: Id)
    requires !GateHeld(s, i) && !p.ValidateInTx?
    ensures !GateHeld(s.(processes := s.processes[n := p], nextId := n + 1), i)
  {}

  lemma BeginIsReached(s0: System, s: System, p: Id)
    requires Leads(s0, s) && CanStart(s, p)
    ensures Leads(s0, Begin(s, p))
  {
    hide Leads, Apply;
    Leads4(s0, s, Start(p, s.db.participations[p].userId, true, true), Advance(s.nextId), Crash(s.nextId), Tick(0));
  }

  lemma ScenesAreReached(s0: System, s: System, i: Id)
    requires Leads(s0, s)
    ensures Leads(s0, TimeOutScene(s, i))
    ensures Leads(s0, JudgeScene(s, i))
    ensures i in s.db.sessions && s.db.sessions[i].participationId in s.db.participations ==> Leads(s0, FinishScene(s, i))
    ensures i in s.db.sessions && s.db.sessions[i].endedAt.Some? ==> Leads(s0, SweepScene(s, i))
  {
    hide Leads, Apply, Grace;
    var n := s.nextId;
    Leads4(s0, s, ReconcileTimedOut([i]), Advance(n), Advance(n), Crash(n));
    Leads4(s0, s, Deliver(i), Advance(n), Advance(n), Advance(n));
    LeadsStep(s0, Apply(Apply(Apply(Apply(s, Deliver(i)), Advance(n)), Advance(n)), Advance(n)), Advance(n));
    if i in s.db.sessions && s.db.sessions[i].participationId in s.db.participations {
      var user := s.db.participations[s.db.sessions[i].participationId].userId;
      Leads4(s0, s, Tick(1), Finish(i, user, 1), Advance(n), Crash(n));
    }
    if i in s.db.sessions && s.db.sessions[i].endedAt.Some? {
      Leads4(s0, s, Tick(Grace(s, i)), ReconcileUnvalidated([i]), Advance(n), Crash(n));
    }
  }
}
