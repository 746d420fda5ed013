/**
 * One inductive invariant of the playtest protocol: it holds initially and
 * every action of every process keeps it, whatever stale copies processes
 * carry. The transaction lemmas come first, the step lemmas after them.
 */
module PlaytestInvariant {
  import opened Common
  import opened PlaytestTables
  import opened PlaytestProtocol

  /* ------------------------------- table invariants ------------------------------- */

  ghost predicate Fresh(t: Tables, n: Id) {
    && (forall i :: i in t.tests ==> i < n)
    && (forall i :: i in t.participations ==> i < n)
    && (forall i :: i in t.sessions ==> i < n)
    && (forall i :: i in t.xpEvents ==> i < n)
  }

  ghost predicate References(t: Tables) {
    && (forall p :: p in t.participations ==> t.participations[p].testId in t.tests)
    && (forall s :: s in t.sessions ==>
          t.sessions[s].participationId in t.participations
          && t.participations[t.sessions[s].participationId].testId == t.sessions[s].testId)
    && t.validations.Keys <= t.sessions.Keys
    && t.ratings.Keys <= t.sessions.Keys
  }

  ghost predicate SamePlayerAndTest(t: Tables, p: Id, q: Id)
    requires p in t.participations && q in t.participations
  {
    SamePair(t.participations[p], t.participations[q].testId, t.participations[q].userId)
  }

  /** Only a player's newest participation in a test can still hold a slot. */
  ghost predicate OnlyNewestActive(t: Tables) {
    forall p, q :: p in t.participations && q in t.participations && p < q && SamePlayerAndTest(t, p, q)
      ==> !Active(t.participations[p].status)
  }

  ghost predicate OneSession(t: Tables) {
    forall s, r ::
      s in t.sessions && r in t.sessions && t.sessions[s].participationId == t.sessions[r].participationId
      ==> s == r
  }

  ghost predicate HasSession(t: Tables, p: Id) {
    exists s :: s in t.sessions && t.sessions[s].participationId == p
  }

  /** How session, participation and worker verdict go together. */
  ghost predicate InPhase(t: Tables, verdicts: map<Id, ValidationRow>, s: Id)
    requires s in t.sessions && t.sessions[s].participationId in t.participations
  {
    var row := t.sessions[s];
    var status := t.participations[row.participationId].status;
    if s in verdicts then
      row.status == (if verdicts[s].valid then CompletedSession else Invalidated)
      && status == (if verdicts[s].valid then Completed else Rejected)
    else
      || (Unfinished(row.status) && status.Playing?)
      || (row.status.Invalidated? && status.Playing? && row.endedAt.Some?)
      || (row.status.Processing? && status.InReview? && row.endedAt.Some? && row.durationMs.Some?)
  }

  ghost predicate Phases(t: Tables, verdicts: map<Id, ValidationRow>)
    requires References(t)
  {
    && (forall s :: s in t.sessions ==> InPhase(t, verdicts, s))
    && (forall p :: p in t.participations ==> Startable(t.participations[p].status) || HasSession(t, p))
  }

  ghost function Holders(t: Tables, testId: Id): set<Id> {
    set p | p in t.participations && t.participations[p].testId == testId
  }

  ghost predicate Slots(t: Tables) {
    forall i :: i in t.tests ==>
      t.tests[i].slotsTaken == |Holders(t, i)| && t.tests[i].slotsTaken <= t.tests[i].slotsTotal
  }

  predicate Marked(t: Tables, s: Id) {
    s in t.ratings && t.ratings[s].markedInvalid
  }

  /** The formula the stored validation must equal: the worker's verdict unless the studio overrules it. */
  function Overruled(verdict: ValidationRow, marked: bool): ValidationRow {
    if verdict.valid && marked then ValidationRow(false, Some(STUDIO_INVALID_REASON)) else verdict
  }

  ghost predicate WorkerWrote(v: ValidationRow) {
    (v.valid <==> v.reason.None?) && v.reason != Some(STUDIO_INVALID_REASON)
  }

  ghost predicate StudioFormula(t: Tables, verdicts: map<Id, ValidationRow>) {
    && verdicts.Keys == t.validations.Keys
    && (forall s :: s in verdicts ==>
          WorkerWrote(verdicts[s]) && t.validations[s] == Overruled(verdicts[s], Marked(t, s)))
    && (forall s :: Marked(t, s) ==> s in t.validations)
  }

  ghost function PlayerOf(t: Tables, s: Id): Id
    requires References(t) && s in t.sessions
  {
    t.participations[t.sessions[s].participationId].userId
  }

  ghost predicate FoundValid(verdicts: map<Id, ValidationRow>, s: Id) {
    s in verdicts && verdicts[s].valid
  }

  ghost predicate SameReward(t: Tables, e: Id, f: Id)
    requires e in t.xpEvents && t.xpEvents[e].sourceId in t.sessions
    requires f in t.xpEvents && t.xpEvents[f].sourceId in t.sessions
  {
    t.xpEvents[e].userId == t.xpEvents[f].userId
    && t.sessions[t.xpEvents[e].sourceId].testId == t.sessions[t.xpEvents[f].sourceId].testId
  }

  ghost predicate XpSources(t: Tables, verdicts: map<Id, ValidationRow>)
    requires References(t)
  {
    forall e :: e in t.xpEvents ==>
      t.xpEvents[e].sourceId in t.sessions && FoundValid(verdicts, t.xpEvents[e].sourceId)
      && t.xpEvents[e].userId == PlayerOf(t, t.xpEvents[e].sourceId)
  }

  ghost predicate XpComplete(t: Tables, verdicts: map<Id, ValidationRow>)
    requires References(t)
  {
    forall s :: s in t.sessions && FoundValid(verdicts, s) ==>
      Rewarded(t, PlayerOf(t, s), t.sessions[s].testId)
  }

  ghost predicate XpOnce(t: Tables, verdicts: map<Id, ValidationRow>)
    requires References(t) && XpSources(t, verdicts)
  {
    forall e, f :: e in t.xpEvents && f in t.xpEvents && SameReward(t, e, f) ==> e == f
  }

  ghost predicate XpLedger(t: Tables, verdicts: map<Id, ValidationRow>)
    requires References(t)
  {
    XpSources(t, verdicts) && XpComplete(t, verdicts) && XpOnce(t, verdicts)
  }

  ghost predicate TablesOk(t: Tables, verdicts: map<Id, ValidationRow>, n: Id) {
    && Fresh(t, n) && References(t) && OnlyNewestActive(t) && OneSession(t)
    && Phases(t, verdicts) && Slots(t) && StudioFormula(t, verdicts) && XpLedger(t, verdicts)
  }

  /* ------------------------------ what no step undoes ------------------------------ */

  ghost predicate Onwards(p: ParticipationRow, q: ParticipationRow) {
    q.testId == p.testId && q.userId == p.userId && (!Active(p.status) ==> q.status == p.status)
  }

  ghost predicate SameOrigin(s: SessionRow, r: SessionRow) {
    r.participationId == s.participationId && r.testId == s.testId
    && r.organizationId == s.organizationId && r.startedAt == s.startedAt
  }

  /** A closed session that is still unvalidated afterwards: nobody touched its row or its player's reward. */
  ghost predicate Frozen(t: Tables, t': Tables, s: Id)
    requires References(t) && s in t.sessions && s in t'.sessions
  {
    Closed(t.sessions[s].status) && s !in t'.validations ==>
      t'.sessions[s] == t.sessions[s]
      && (Rewarded(t', PlayerOf(t, s), t.sessions[s].testId) <==> Rewarded(t, PlayerOf(t, s), t.sessions[s].testId))
  }

  ghost predicate Later(t: Tables, t': Tables)
    requires References(t)
  {
    && (forall p :: p in t.participations ==>
          p in t'.participations && Onwards(t.participations[p], t'.participations[p]))
    && (forall s :: s in t.sessions ==>
          s in t'.sessions && SameOrigin(t.sessions[s], t'.sessions[s])
          && (Closed(t.sessions[s].status) ==> Closed(t'.sessions[s].status)))
    && t.validations.Keys <= t'.validations.Keys
    && (forall s :: s in t.sessions && s in t'.sessions ==> Frozen(t, t', s))
  }

  /* -------------------------------- the transactions -------------------------------- */

  lemma FreshIsMonotone(t: Tables, n: Id, m: Id)
    requires Fresh(t, n) && n <= m
    ensures Fresh(t, m)
  {}

  /** Adding a fresh participation whose pair has no active one. */
  ghost predicate SlotReserved(t: Tables, t': Tables, testId: Id, userId: Id, n: Id) {
    && testId in t.tests && t.tests[testId].slotsTaken < t.tests[testId].slotsTotal
    && !HasActive(t, testId, userId)
    && t' == TakeSlot(t, testId).(participations :=
               t.participations[n := ParticipationRow(testId, userId, Reserved)])
  }

  lemma ReserveSlots(t: Tables, t': Tables, testId: Id, userId: Id, n: Id)
    requires SlotReserved(t, t', testId, userId, n) && Fresh(t, n) && Slots(t)
    ensures Slots(t')
  {
    assert Holders(t', testId) == Holders(t, testId) + {n};
    forall i | i in t.tests && i != testId ensures Holders(t', i) == Holders(t, i) {}
  }

  lemma ReserveNewest(t: Tables, t': Tables, testId: Id, userId: Id, n: Id)
    requires SlotReserved(t, t', testId, userId, n) && Fresh(t, n) && OnlyNewestActive(t)
    ensures OnlyNewestActive(t')
  {
    forall p, q | p in t'.participations && q in t'.participations && p < q && SamePlayerAndTest(t', p, q)
      ensures !Active(t'.participations[p].status)
    {
      if q != n { assert SamePlayerAndTest(t, p, q); }
    }
  }

  lemma ReservePhases(t: Tables, t': Tables, verdicts: map<Id, ValidationRow>, testId: Id, userId: Id, n: Id)
    requires SlotReserved(t, t', testId, userId, n) && Fresh(t, n) && References(t) && Phases(t, verdicts)
    ensures References(t') && Phases(t', verdicts)
  {
    forall s | s in t'.sessions ensures InPhase(t', verdicts, s) { assert InPhase(t, verdicts, s); }
    SessionsKept(t, t');
  }

  /** Participations that had a session still have it when sessions keep their identity. */
  lemma SessionsKept(t: Tables, t': Tables)
    requires forall s :: s in t.sessions ==>
               s in t'.sessions && t'.sessions[s].participationId == t.sessions[s].participationId
    ensures forall p :: HasSession(t, p) ==> HasSession(t', p)
  {
    forall p | HasSession(t, p) ensures HasSession(t', p) {
      var s :| s in t.sessions && t.sessions[s].participationId == p;
      assert s in t'.sessions;
    }
  }

  /** Rows that exist keep their identity: all that the XP ledger depends on. */
  ghost predicate SameIdentities(t: Tables, t': Tables) {
    && (forall p :: p in t.participations ==>
          p in t'.participations && Onwards(t.participations[p], t'.participations[p]))
    && (forall s :: s in t.sessions ==> s in t'.sessions && SameOrigin(t.sessions[s], t'.sessions[s]))
  }

  lemma RewardsUntouched(t: Tables, t': Tables, u: Id, i: Id)
    requires t'.xpEvents == t.xpEvents && SameIdentities(t, t')
    requires forall e :: e in t.xpEvents ==> t.xpEvents[e].sourceId in t.sessions
    ensures Rewarded(t', u, i) <==> Rewarded(t, u, i)
  {
    if Rewarded(t, u, i) {
      var e :| e in t.xpEvents && t.xpEvents[e].userId == u && t.xpEvents[e].sourceId in t.sessions
               && t.sessions[t.xpEvents[e].sourceId].testId == i;
      assert e in t'.xpEvents;
    }
  }

  lemma LedgerUntouched(t: Tables, t': Tables, verdicts: map<Id, ValidationRow>)
    requires References(t) && References(t') && XpLedger(t, verdicts)
    requires t'.xpEvents == t.xpEvents && SameIdentities(t, t') && verdicts.Keys <= t.sessions.Keys
    ensures XpLedger(t', verdicts)
  {
    forall s | s in t'.sessions && FoundValid(verdicts, s)
      ensures Rewarded(t', PlayerOf(t', s), t'.sessions[s].testId)
    {
      RewardsUntouched(t, t', PlayerOf(t, s), t.sessions[s].testId);
    }
    forall e, f | e in t'.xpEvents && f in t'.xpEvents && SameReward(t', e, f) ensures e == f {
      assert SameReward(t, e, f);
    }
  }

  /** A transaction that leaves the ledger alone and rewrites no closed session is a `Later` step. */
  lemma LaterUntouched(t: Tables, t': Tables, verdicts: map<Id, ValidationRow>)
    requires References(t) && XpLedger(t, verdicts) && t'.xpEvents == t.xpEvents && SameIdentities(t, t')
    requires t.validations.Keys <= t'.validations.Keys
    requires forall s :: s in t.sessions && Closed(t.sessions[s].status) ==> t'.sessions[s] == t.sessions[s]
    ensures Later(t, t')
  {
    forall s | s in t.sessions ensures Frozen(t, t', s) {
      RewardsUntouched(t, t', PlayerOf(t, s), t.sessions[s].testId);
    }
  }

  lemma StudioUntouched(t: Tables, t': Tables, verdicts: map<Id, ValidationRow>)
    requires StudioFormula(t, verdicts) && t'.validations == t.validations && t'.ratings == t.ratings
    ensures StudioFormula(t', verdicts)
  {
    assert forall s :: Marked(t', s) <==> Marked(t, s);
  }

  lemma ReserveIdentities(t: Tables, t': Tables, testId: Id, userId: Id, n: Id)
    requires Fresh(t, n) && SlotReserved(t, t', testId, userId, n)
    ensures Fresh(t', n + 1) && SameIdentities(t, t') && OneSession(t) == OneSession(t')
  {}

  lemma ReserveJoined(t: Tables, t': Tables, verdicts: map<Id, ValidationRow>, testId: Id, userId: Id, n: Id)
    requires TablesOk(t, verdicts, n) && SlotReserved(t, t', testId, userId, n)
    ensures TablesOk(t', verdicts, n + 1) && Later(t, t')
  {
    ReserveIdentities(t, t', testId, userId, n);
    ReserveSlots(t, t', testId, userId, n);
    ReserveNewest(t, t', testId, userId, n);
    ReservePhases(t, t', verdicts, testId, userId, n);
    StudioUntouched(t, t', verdicts);
    assert verdicts.Keys <= t.sessions.Keys;
    LedgerUntouched(t, t', verdicts);
    LaterUntouched(t, t', verdicts);
  }

  lemma ReserveKeeps(t: Tables, verdicts: map<Id, ValidationRow>, now: int, testId: Id, userId: Id, n: Id)
    requires TablesOk(t, verdicts, n)
    ensures var t' := Reserve(t, now, testId, userId, n).0; TablesOk(t', verdicts, n + 1) && Later(t, t')
  {
    var (t', out) := Reserve(t, now, testId, userId, n);
    if out.Joined? { ReserveJoined(t, t', verdicts, testId, userId, n); }
    else { LaterUntouched(t, t, verdicts); }
  }

  /** Statuses move, but no participation is added and no test row changes. */
  ghost predicate StatusStep(t: Tables, t': Tables) {
    SameIdentities(t, t') && t'.participations.Keys == t.participations.Keys && t'.tests == t.tests
  }

  /** A status step that leaves validations, ratings and XP alone; it may add a session. */
  ghost predicate SessionStep(t: Tables, t': Tables) {
    && StatusStep(t, t') && t'.xpEvents == t.xpEvents
    && t'.validations == t.validations && t'.ratings == t.ratings
  }

  lemma StatusStepSlots(t: Tables, t': Tables)
    requires StatusStep(t, t') && OnlyNewestActive(t) && Slots(t)
    ensures OnlyNewestActive(t') && Slots(t')
  {
    forall p, q | p in t'.participations && q in t'.participations && p < q && SamePlayerAndTest(t', p, q)
      ensures !Active(t'.participations[p].status)
    {
      assert SamePlayerAndTest(t, p, q);
    }
    forall i | i in t.tests ensures Holders(t', i) == Holders(t, i) {}
  }

  lemma SessionStepKeeps(t: Tables, t': Tables, verdicts: map<Id, ValidationRow>, n: Id, m: Id)
    requires TablesOk(t, verdicts, n) && SessionStep(t, t')
    requires Fresh(t', m) && References(t') && OneSession(t') && Phases(t', verdicts)
    requires forall s :: s in t.sessions && Closed(t.sessions[s].status) ==> t'.sessions[s] == t.sessions[s]
    ensures TablesOk(t', verdicts, m) && Later(t, t')
  {
    StatusStepSlots(t, t');
    LedgerUntouched(t, t', verdicts);
    LaterUntouched(t, t', verdicts);
    StudioUntouched(t, t', verdicts);
  }

  /** A participation that can still start has never had a session. */
  lemma StartableHasNoSession(t: Tables, verdicts: map<Id, ValidationRow>, s: Id)
    requires References(t) && Phases(t, verdicts) && s in t.sessions
    ensures !Startable(t.participations[t.sessions[s].participationId].status)
  {
    assert InPhase(t, verdicts, s);
  }

  /** The tables of a successful start. */
  function StartedTables(t: Tables, now: int, p: Id, testId: Id, organizationId: Id, n: Id): Tables
    requires p in t.participations
  {
    t.(participations := t.participations[p := t.participations[p].(status := Playing)],
       sessions := t.sessions[n := SessionRow(p, testId, organizationId, Starting, now, None, None)])
  }

  lemma InPhaseKept(t: Tables, t': Tables, verdicts: map<Id, ValidationRow>, s: Id)
    requires s in t.sessions && s in t'.sessions && t'.sessions[s] == t.sessions[s]
    requires var p := t.sessions[s].participationId;
             p in t.participations && p in t'.participations && t'.participations[p] == t.participations[p]
    requires InPhase(t, verdicts, s)
    ensures InPhase(t', verdicts, s)
  {}

  lemma StartedRows(t: Tables, now: int, p: Id, testId: Id, organizationId: Id, n: Id)
    requires Fresh(t, n) && References(t) && p in t.participations && t.participations[p].testId == testId
    requires Startable(t.participations[p].status)
    ensures var t' := StartedTables(t, now, p, testId, organizationId, n);
            Fresh(t', n + 1) && SessionStep(t, t')
  {}

  lemma StartedReferences(t: Tables, now: int, p: Id, testId: Id, organizationId: Id, n: Id)
    requires References(t) && p in t.participations && t.participations[p].testId == testId
    ensures References(StartedTables(t, now, p, testId, organizationId, n))
  {}

  lemma StartedIdentities(t: Tables, verdicts: map<Id, ValidationRow>, now: int, p: Id, testId: Id, organizationId: Id, n: Id)
    requires Fresh(t, n) && References(t) && OneSession(t) && Phases(t, verdicts)
    requires p in t.participations && Startable(t.participations[p].status) && t.participations[p].testId == testId
    ensures var t' := StartedTables(t, now, p, testId, organizationId, n);
            Fresh(t', n + 1) && References(t') && OneSession(t') && SessionStep(t, t')
  {
    hide Phases, Startable;
    StartedRows(t, now, p, testId, organizationId, n);
    StartedReferences(t, now, p, testId, organizationId, n);
    hide References, Fresh, SessionStep;
    forall s | s in t.sessions ensures t.sessions[s].participationId != p {
      StartableHasNoSession(t, verdicts, s);
    }
  }

  lemma StartedPhases(t: Tables, verdicts: map<Id, ValidationRow>, now: int, p: Id, testId: Id, organizationId: Id, n: Id)
    requires Fresh(t, n) && References(t) && Phases(t, verdicts) && verdicts.Keys <= t.sessions.Keys
    requires p in t.participations && Startable(t.participations[p].status)
    requires References(StartedTables(t, now, p, testId, organizationId, n))
    ensures Phases(StartedTables(t, now, p, testId, organizationId, n), verdicts)
  {
    var t' := StartedTables(t, now, p, testId, organizationId, n);
    forall s | s in t'.sessions ensures InPhase(t', verdicts, s) {
      if s != n {
        StartableHasNoSession(t, verdicts, s);
        InPhaseKept(t, t', verdicts, s);
      }
    }
    SessionsKept(t, t');
    assert n in t'.sessions && t'.sessions[n].participationId == p;
  }

  lemma StartKeeps(t: Tables, verdicts: map<Id, ValidationRow>, now: int, p: Id, testId: Id, organizationId: Id, n: Id)
    requires TablesOk(t, verdicts, n)
    requires p in t.participations && t.participations[p].testId == testId
    ensures var (t', out) := StartSession(t, now, p, testId, organizationId, n);
            TablesOk(t', verdicts, n + 1) && Later(t, t') && (out.Started? ==> out.id in t'.sessions)
  {
    hide XpLedger, Slots, OnlyNewestActive, OneSession, Phases, HasRunningSession;
    var (t', out) := StartSession(t, now, p, testId, organizationId, n);
    if out.Started? {
      assert t' == StartedTables(t, now, p, testId, organizationId, n);
      StartedIdentities(t, verdicts, now, p, testId, organizationId, n);
      StartedPhases(t, verdicts, now, p, testId, organizationId, n);
      SessionStepKeeps(t, t', verdicts, n, n + 1);
    } else {
      FreshIsMonotone(t, n, n + 1);
      LaterUntouched(t, t, verdicts);
    }
  }

  /** Nothing but session `s` and its participation differs. */
  ghost predicate OnlyAt(t: Tables, t': Tables, s: Id) {
    && s in t.sessions && s in t'.sessions && t'.sessions == t.sessions[s := t'.sessions[s]]
    && var p := t.sessions[s].participationId;
       p in t'.participations && t'.participations == t.participations[p := t'.participations[p]]
  }

  lemma PhasesOnlyAt(t: Tables, t': Tables, verdicts: map<Id, ValidationRow>, verdicts': map<Id, ValidationRow>, s: Id)
    requires References(t) && References(t') && OneSession(t) && Phases(t, verdicts) && OnlyAt(t, t', s)
    requires forall r :: r != s ==> (r in verdicts <==> r in verdicts') && (r in verdicts ==> verdicts'[r] == verdicts[r])
    requires t'.sessions[s].participationId == t.sessions[s].participationId
    requires InPhase(t', verdicts', s)
    ensures OneSession(t') && Phases(t', verdicts')
  {
    forall r | r in t'.sessions ensures InPhase(t', verdicts', r) {
      if r != s {
        assert t.sessions[r].participationId != t.sessions[s].participationId;
        InPhaseKept(t, t', verdicts, r);
      }
    }
    SessionsKept(t, t');
    assert HasSession(t', t.sessions[s].participationId);
  }

  /** One open session changes status or is closed by its player or by the sweep. */
  lemma SessionRewritten(t: Tables, t': Tables, verdicts: map<Id, ValidationRow>, n: Id, s: Id)
    requires TablesOk(t, verdicts, n) && OpenSession(t, s) && OnlyAt(t, t', s) && SessionStep(t, t')
    requires InPhase(t', verdicts, s)
    ensures TablesOk(t', verdicts, n) && Later(t, t')
  {
    hide XpLedger, Slots, OnlyNewestActive, OneSession, Phases, InPhase, StudioFormula;
    PhasesOnlyAt(t, t', verdicts, verdicts, s);
    SessionStepKeeps(t, t', verdicts, n, n);
  }

  /** An open session is unvalidated and its participation is being played. */
  lemma OpenIsPlaying(t: Tables, verdicts: map<Id, ValidationRow>, s: Id)
    requires References(t) && Phases(t, verdicts) && OpenSession(t, s)
    ensures s !in verdicts && t.participations[t.sessions[s].participationId].status.Playing?
  {
    assert InPhase(t, verdicts, s);
  }

  lemma MarkRecordingKeeps(t: Tables, verdicts: map<Id, ValidationRow>, n: Id, s: Id)
    requires TablesOk(t, verdicts, n)
    ensures TablesOk(MarkRecording(t, s), verdicts, n) && Later(t, MarkRecording(t, s))
  {
    hide XpLedger, Slots, OnlyNewestActive, OneSession, Phases, StudioFormula;
    var t' := MarkRecording(t, s);
    if s in t.sessions && t.sessions[s].status.Starting? {
      OpenIsPlaying(t, verdicts, s);
      SessionRewritten(t, t', verdicts, n, s);
    } else { LaterUntouched(t, t, verdicts); }
  }

  lemma TimeOutKeeps(t: Tables, verdicts: map<Id, ValidationRow>, n: Id, s: Id, now: int)
    requires TablesOk(t, verdicts, n)
    ensures TablesOk(TimeOut(t, s, now), verdicts, n) && Later(t, TimeOut(t, s, now))
    ensures s in t.sessions ==> Closed(TimeOut(t, s, now).sessions[s].status)
  {
    hide XpLedger, Slots, OnlyNewestActive, OneSession, Phases, StudioFormula;
    var t' := TimeOut(t, s, now);
    if OpenSession(t, s) {
      OpenIsPlaying(t, verdicts, s);
      SessionRewritten(t, t', verdicts, n, s);
    } else { LaterUntouched(t, t, verdicts); }
  }

  lemma FinishKeeps(t: Tables, verdicts: map<Id, ValidationRow>, n: Id, s: Id, p: Id, endedAt: int, durationMs: int)
    requires TablesOk(t, verdicts, n)
    requires s in t.sessions && t.sessions[s].participationId == p
    ensures var (t', ok) := FinishSession(t, s, p, endedAt, durationMs);
            TablesOk(t', verdicts, n) && Later(t, t') && (ok ==> Closed(t'.sessions[s].status))
  {
    hide XpLedger, Slots, OnlyNewestActive, OneSession, Phases, StudioFormula;
    var (t', ok) := FinishSession(t, s, p, endedAt, durationMs);
    if ok {
      OpenIsPlaying(t, verdicts, s);
      SessionRewritten(t, t', verdicts, n, s);
    } else { LaterUntouched(t, t, verdicts); }
  }

  /* ------------------------------ the validation commit ------------------------------ */

  /** What the validating process knows when it commits. */
  ghost predicate Gated(t: Tables, s: Id, row: SessionRow, verdict: ValidationRow) {
    && s in t.sessions && Closed(t.sessions[s].status) && s !in t.validations
    && row == t.sessions[s] && (verdict == Verdict(row, true) || verdict == Verdict(row, false))
  }

  /** Two unvalidated closed sessions never belong to the same player and test. */
  lemma OneUnvalidatedPerPair(t: Tables, verdicts: map<Id, ValidationRow>, s: Id, r: Id)
    requires References(t) && OnlyNewestActive(t) && OneSession(t) && Phases(t, verdicts)
    requires s in t.sessions && r in t.sessions && s !in verdicts && r !in verdicts
    requires PlayerOf(t, s) == PlayerOf(t, r) && t.sessions[s].testId == t.sessions[r].testId
    ensures s == r
  {
    assert InPhase(t, verdicts, s) && InPhase(t, verdicts, r);
    var p, q := t.sessions[s].participationId, t.sessions[r].participationId;
    assert SamePlayerAndTest(t, p, q) && SamePlayerAndTest(t, q, p);
  }

  /** The rows of the verdict in one update, for rows that exist. */
  lemma WriteVerdictRows(t: Tables, s: Id, row: SessionRow, verdict: ValidationRow)
    requires References(t) && Gated(t, s, row, verdict)
    ensures var p := row.participationId;
            WriteVerdict(t, s, row, verdict) == t.(
              validations := t.validations[s := verdict],
              sessions := t.sessions[s := t.sessions[s].(status := if verdict.valid then CompletedSession else Invalidated)],
              participations := t.participations[p := t.participations[p].(
                status := if verdict.valid then Completed else Rejected)])
  {}

  lemma CommitReferences(t: Tables, s: Id, row: SessionRow, verdict: ValidationRow)
    requires References(t) && Gated(t, s, row, verdict)
    ensures References(WriteVerdict(t, s, row, verdict)) && OnlyAt(t, WriteVerdict(t, s, row, verdict), s)
  {
    WriteVerdictRows(t, s, row, verdict);
    hide WriteVerdict, Verdict;
  }

  lemma CommitShape(t: Tables, verdicts: map<Id, ValidationRow>, s: Id, row: SessionRow, verdict: ValidationRow)
    requires References(t) && Gated(t, s, row, verdict)
    requires Active(t.participations[row.participationId].status)
    ensures var t' := WriteVerdict(t, s, row, verdict);
            References(t') && OnlyAt(t, t', s) && StatusStep(t, t') && InPhase(t', verdicts[s := verdict], s)
  {
    CommitReferences(t, s, row, verdict);
    WriteVerdictRows(t, s, row, verdict);
    hide WriteVerdict, Verdict, OnlyAt;
  }

  lemma UnvalidatedIsActive(t: Tables, verdicts: map<Id, ValidationRow>, s: Id)
    requires References(t) && Phases(t, verdicts) && s in t.sessions && s !in verdicts
    ensures Active(t.participations[t.sessions[s].participationId].status)
  {
    assert InPhase(t, verdicts, s);
  }

  lemma CommitStatuses(t: Tables, verdicts: map<Id, ValidationRow>, s: Id, row: SessionRow, verdict: ValidationRow)
    requires References(t) && OneSession(t) && Phases(t, verdicts) && verdicts.Keys == t.validations.Keys
    requires Gated(t, s, row, verdict)
    ensures var t' := WriteVerdict(t, s, row, verdict);
            References(t') && OnlyAt(t, t', s) && StatusStep(t, t')
            && OneSession(t') && Phases(t', verdicts[s := verdict])
  {
    hide WriteVerdict, Verdict, OneSession, Phases, InPhase, References, OnlyAt;
    UnvalidatedIsActive(t, verdicts, s);
    CommitShape(t, verdicts, s, row, verdict);
    PhasesOnlyAt(t, WriteVerdict(t, s, row, verdict), verdicts, verdicts[s := verdict], s);
  }

  lemma CommitStudio(t: Tables, t': Tables, verdicts: map<Id, ValidationRow>, s: Id, row: SessionRow, verdict: ValidationRow)
    requires StudioFormula(t, verdicts) && Gated(t, s, row, verdict)
    requires t'.validations == t.validations[s := verdict] && t'.ratings == t.ratings
    ensures StudioFormula(t', verdicts[s := verdict])
  {
    assert forall r :: Marked(t', r) <==> Marked(t, r);
    assert STUDIO_INVALID_REASON[0] == 'M' && TIMEOUT_REASON[0] == 'S' && NO_DURATION_REASON[0] == 'S'
           && RECORDING_REASON[0] == 'G';
  }

  /** The new XP row, when there is one, is the first of its player and test. */
  lemma CommitXpRow(t: Tables, verdicts: map<Id, ValidationRow>, s: Id, row: SessionRow, verdict: ValidationRow, n: Id)
    requires References(t) && XpSources(t, verdicts) && Gated(t, s, row, verdict)
    requires !Rewarded(t, PlayerOf(t, s), row.testId) && verdict.valid
    ensures CommitVerdict(t, s, row, verdict, false, n).xpEvents
            == t.xpEvents[n := XpRow(PlayerOf(t, s), s, SESSION_COMPLETION_XP)]
  {
    forall e | e in t.xpEvents ensures !(t.xpEvents[e].userId == PlayerOf(t, s) && t.xpEvents[e].sourceId == s) {}
  }

  ghost predicate XpAppended(t: Tables, t': Tables, verdicts: map<Id, ValidationRow>, s: Id, row: SessionRow,
                             verdict: ValidationRow, n: Id)
    requires References(t)
  {
    && Fresh(t, n) && SameIdentities(t, t') && t'.sessions.Keys == t.sessions.Keys
    && verdicts.Keys <= t.sessions.Keys && Gated(t, s, row, verdict) && s !in verdicts
    && t'.xpEvents == if verdict.valid && !Rewarded(t, PlayerOf(t, s), row.testId)
                      then t.xpEvents[n := XpRow(PlayerOf(t, s), s, SESSION_COMPLETION_XP)] else t.xpEvents
  }

  lemma CommitXpSources(t: Tables, t': Tables, verdicts: map<Id, ValidationRow>, s: Id, row: SessionRow,
                        verdict: ValidationRow, n: Id)
    requires References(t) && References(t') && XpSources(t, verdicts)
    requires XpAppended(t, t', verdicts, s, row, verdict, n)
    ensures XpSources(t', verdicts[s := verdict])
  {
    hide Rewarded, Fresh;
  }

  lemma CommitXpComplete(t: Tables, t': Tables, verdicts: map<Id, ValidationRow>, s: Id, row: SessionRow,
                         verdict: ValidationRow, n: Id)
    requires References(t) && References(t') && XpComplete(t, verdicts)
    requires XpAppended(t, t', verdicts, s, row, verdict, n)
    ensures XpComplete(t', verdicts[s := verdict])
  {
    forall r | r in t'.sessions && FoundValid(verdicts[s := verdict], r)
      ensures Rewarded(t', PlayerOf(t', r), t'.sessions[r].testId)
    {
      if r == s && !Rewarded(t, PlayerOf(t, s), row.testId) { assert n in t'.xpEvents; }
      else { RewardGrows(t, t', PlayerOf(t, r), t.sessions[r].testId); }
    }
  }

  lemma CommitXpOnce(t: Tables, t': Tables, verdicts: map<Id, ValidationRow>, s: Id, row: SessionRow,
                     verdict: ValidationRow, n: Id)
    requires References(t) && References(t') && XpSources(t, verdicts) && XpOnce(t, verdicts)
    requires XpAppended(t, t', verdicts, s, row, verdict, n) && XpSources(t', verdicts[s := verdict])
    ensures XpOnce(t', verdicts[s := verdict])
  {
    forall e, f | e in t'.xpEvents && f in t'.xpEvents && SameReward(t', e, f) ensures e == f {
      if e in t.xpEvents && f in t.xpEvents { assert SameReward(t, e, f); }
    }
  }

  lemma CommitXp(t: Tables, t': Tables, verdicts: map<Id, ValidationRow>, s: Id, row: SessionRow,
                 verdict: ValidationRow, n: Id)
    requires References(t) && References(t') && XpLedger(t, verdicts)
    requires XpAppended(t, t', verdicts, s, row, verdict, n)
    ensures XpLedger(t', verdicts[s := verdict])
  {
    hide XpSources, XpComplete, XpOnce, XpAppended, References;
    CommitXpSources(t, t', verdicts, s, row, verdict, n);
    CommitXpComplete(t, t', verdicts, s, row, verdict, n);
    CommitXpOnce(t, t', verdicts, s, row, verdict, n);
  }

  lemma RewardGrows(t: Tables, t': Tables, u: Id, i: Id)
    requires SameIdentities(t, t') && Rewarded(t, u, i)
    requires forall e :: e in t.xpEvents ==> e in t'.xpEvents && t'.xpEvents[e] == t.xpEvents[e]
    ensures Rewarded(t', u, i)
  {
    var e :| e in t.xpEvents && t.xpEvents[e].userId == u && t.xpEvents[e].sourceId in t.sessions
             && t.sessions[t.xpEvents[e].sourceId].testId == i;
    assert e in t'.xpEvents;
  }

  /**
   * The reward of every other session still being validated is untouched by a
   * commit: such a session is of another player or another test. This is what
   * makes check-then-insert safe.
   */
  lemma CommitLeavesOtherRewards(t: Tables, t': Tables, verdicts: map<Id, ValidationRow>, s: Id, n: Id, r: Id)
    requires References(t) && OnlyNewestActive(t) && OneSession(t) && Phases(t, verdicts) && XpSources(t, verdicts)
    requires Fresh(t, n) && SameIdentities(t, t') && t'.sessions.Keys == t.sessions.Keys
    requires s in t.sessions && r in t.sessions && s != r && s !in verdicts && r !in verdicts
    requires t'.xpEvents == t.xpEvents || t'.xpEvents == t.xpEvents[n := XpRow(PlayerOf(t, s), s, SESSION_COMPLETION_XP)]
    ensures Rewarded(t', PlayerOf(t, r), t.sessions[r].testId) <==> Rewarded(t, PlayerOf(t, r), t.sessions[r].testId)
  {
    hide InPhase, Phases, OneSession, OnlyNewestActive;
    var u, i := PlayerOf(t, r), t.sessions[r].testId;
    if Rewarded(t, u, i) { RewardGrows(t, t', u, i); }
    if Rewarded(t', u, i) {
      var e :| e in t'.xpEvents && t'.xpEvents[e].userId == u && t'.xpEvents[e].sourceId in t'.sessions
               && t'.sessions[t'.xpEvents[e].sourceId].testId == i;
      if e == n && n !in t.xpEvents && t'.xpEvents != t.xpEvents {
        OneUnvalidatedPerPair(t, verdicts, s, r);
        assert false;
      }
      assert e in t.xpEvents && t.xpEvents[e] == t'.xpEvents[e];
    }
  }

  lemma CommitLater(t: Tables, t': Tables, verdicts: map<Id, ValidationRow>, s: Id, row: SessionRow,
                    verdict: ValidationRow, n: Id)
    requires References(t) && OnlyNewestActive(t) && OneSession(t) && Phases(t, verdicts) && XpSources(t, verdicts)
    requires verdicts.Keys == t.validations.Keys && XpAppended(t, t', verdicts, s, row, verdict, n)
    requires OnlyAt(t, t', s) && Closed(t'.sessions[s].status) && t'.validations == t.validations[s := verdict]
    ensures Later(t, t')
  {
    hide OnlyNewestActive, OneSession, Phases, XpSources, Rewarded, References;
    forall r | r in t.sessions ensures Frozen(t, t', r) {
      if r !in t'.validations { CommitLeavesOtherRewards(t, t', verdicts, s, n, r); }
    }
  }

  lemma XpApart(t: Tables, w: Tables, t': Tables, verdicts: map<Id, ValidationRow>, s: Id)
    requires t' == w.(xpEvents := t'.xpEvents)
    requires References(w) && OnlyAt(t, w, s) && StatusStep(t, w) && OneSession(w) && Phases(w, verdicts)
    ensures References(t') && OnlyAt(t, t', s) && StatusStep(t, t') && OneSession(t') && Phases(t', verdicts)
  {
    forall r | r in t'.sessions ensures InPhase(t', verdicts, r) { assert InPhase(w, verdicts, r); }
    SessionsKept(w, t');
  }

  /** All that the rest of the proof needs to know about a commit from `t` to `t'`. */
  ghost predicate Committed(t: Tables, t': Tables, verdicts: map<Id, ValidationRow>, s: Id, row: SessionRow,
                            verdict: ValidationRow, n: Id)
    requires References(t)
  {
    && Gated(t, s, row, verdict) && OnlyAt(t, t', s) && Closed(t'.sessions[s].status) && StatusStep(t, t')
    && XpAppended(t, t', verdicts, s, row, verdict, n)
    && t'.validations == t.validations[s := verdict] && t'.ratings == t.ratings
  }

  lemma CommitRows(t: Tables, verdicts: map<Id, ValidationRow>, n: Id, s: Id, row: SessionRow, verdict: ValidationRow)
    requires TablesOk(t, verdicts, n) && Gated(t, s, row, verdict)
    ensures var w := WriteVerdict(t, s, row, verdict);
            var t' := CommitVerdict(t, s, row, verdict, Rewarded(t, PlayerOf(t, s), row.testId), n);
            t' == w.(xpEvents := t'.xpEvents) && OnlyAt(t, t', s) && StatusStep(t, t')
            && References(t') && OneSession(t') && Phases(t', verdicts[s := verdict])
  {
    var w := WriteVerdict(t, s, row, verdict);
    var t' := CommitVerdict(t, s, row, verdict, Rewarded(t, PlayerOf(t, s), row.testId), n);
    assert t' == w.(xpEvents := t'.xpEvents);
    hide WriteVerdict, CommitVerdict, XpLedger, Slots, OnlyNewestActive, OneSession, Phases, Rewarded;
    CommitStatuses(t, verdicts, s, row, verdict);
    XpApart(t, w, t', verdicts[s := verdict], s);
  }

  lemma CommitIsCommitted(t: Tables, verdicts: map<Id, ValidationRow>, n: Id, s: Id, row: SessionRow, verdict: ValidationRow)
    requires TablesOk(t, verdicts, n) && Gated(t, s, row, verdict)
    ensures var t' := CommitVerdict(t, s, row, verdict, Rewarded(t, PlayerOf(t, s), row.testId), n);
            Committed(t, t', verdicts, s, row, verdict, n)
  {
    hide XpComplete, XpOnce, Slots, OnlyNewestActive, OneSession, Phases, Rewarded, WriteVerdict;
    CommitRows(t, verdicts, n, s, row, verdict);
    WriteVerdictRows(t, s, row, verdict);
    if verdict.valid && !Rewarded(t, PlayerOf(t, s), row.testId) { CommitXpRow(t, verdicts, s, row, verdict, n); }
  }

  lemma CommitFresh(t: Tables, t': Tables, verdicts: map<Id, ValidationRow>, s: Id, row: SessionRow,
                    verdict: ValidationRow, n: Id)
    requires References(t) && Committed(t, t', verdicts, s, row, verdict, n)
    ensures Fresh(t', n + 1)
  {
    hide References, Rewarded;
  }

  lemma CommitKeeps(t: Tables, verdicts: map<Id, ValidationRow>, n: Id, s: Id, row: SessionRow,
                    verdict: ValidationRow, rewarded: bool)
    requires TablesOk(t, verdicts, n) && Gated(t, s, row, verdict)
    requires rewarded == Rewarded(t, PlayerOf(t, s), row.testId)
    ensures var t' := CommitVerdict(t, s, row, verdict, rewarded, n);
            TablesOk(t', verdicts[s := verdict], n + 1) && Later(t, t')
  {
    var t' := CommitVerdict(t, s, row, verdict, rewarded, n);
    CommitRows(t, verdicts, n, s, row, verdict);
    CommitIsCommitted(t, verdicts, n, s, row, verdict);
    hide CommitVerdict, WriteVerdict, XpSources, XpComplete, XpOnce, Slots, OnlyNewestActive, OneSession, Phases, Rewarded, InPhase;
    StatusStepSlots(t, t');
    CommitStudio(t, t', verdicts, s, row, verdict);
    CommitXp(t, t', verdicts, s, row, verdict, n);
    CommitFresh(t, t', verdicts, s, row, verdict, n);
    CommitLater(t, t', verdicts, s, row, verdict, n);
  }

  /* ------------------------- studio rating, tests and recordings ------------------------- */

  /** Re-rating lands on the formula of the new mark, whatever the earlier mark was. */
  lemma ReconsideredIsOverruled(verdict: ValidationRow, wasMarked: bool, marked: bool)
    requires WorkerWrote(verdict)
    ensures Reconsidered(Overruled(verdict, wasMarked), marked) == Overruled(verdict, marked)
  {}

  lemma RateStudio(t: Tables, verdicts: map<Id, ValidationRow>, organizationId: Id, s: Id, row: RatingRow)
    requires StudioFormula(t, verdicts)
    ensures StudioFormula(RateSession(t, organizationId, s, row).0, verdicts)
  {
    var t' := RateSession(t, organizationId, s, row).0;
    if s in verdicts { ReconsideredIsOverruled(verdicts[s], Marked(t, s), row.markedInvalid); }
    hide Overruled, Reconsidered, WorkerWrote;
    forall r | r in verdicts ensures t'.validations[r] == Overruled(verdicts[r], Marked(t', r)) {
      if r != s { assert Marked(t', r) == Marked(t, r); }
    }
    forall r | Marked(t', r) ensures r in t'.validations {
      if r != s { assert Marked(t, r); }
    }
  }

  /** The tables differ in tests, validations, ratings and recordings at most. */
  ghost predicate SideRows(t: Tables, t': Tables) {
    && t'.participations == t.participations && t'.sessions == t.sessions && t'.xpEvents == t.xpEvents
    && t'.validations.Keys == t.validations.Keys && t'.ratings.Keys <= t'.sessions.Keys
    && t.tests.Keys <= t'.tests.Keys
  }

  lemma SideRowsLifecycle(t: Tables, t': Tables, verdicts: map<Id, ValidationRow>)
    requires SideRows(t, t') && References(t) && OnlyNewestActive(t) && OneSession(t) && Phases(t, verdicts)
    ensures References(t') && OnlyNewestActive(t') && OneSession(t') && Phases(t', verdicts)
  {
    forall s | s in t'.sessions ensures InPhase(t', verdicts, s) { InPhaseKept(t, t', verdicts, s); }
    SessionsKept(t, t');
    forall p, q | p in t'.participations && q in t'.participations && p < q && SamePlayerAndTest(t', p, q)
      ensures !Active(t'.participations[p].status)
    {
      assert SamePlayerAndTest(t, p, q);
    }
  }

  /** Such tables keep everything but slots and studio formula. */
  lemma SideRowsKeep(t: Tables, t': Tables, verdicts: map<Id, ValidationRow>, n: Id, m: Id)
    requires TablesOk(t, verdicts, n) && n <= m && SideRows(t, t') && Slots(t') && StudioFormula(t', verdicts)
    requires forall i :: i in t'.tests ==> i < m
    ensures TablesOk(t', verdicts, m) && Later(t, t')
  {
    SideRowsLifecycle(t, t', verdicts);
    hide Slots, Rewarded, InPhase, OnlyNewestActive, OneSession, Phases, Marked, Overruled, XpComplete, XpOnce;
    assert verdicts.Keys <= t.sessions.Keys;
    LedgerUntouched(t, t', verdicts);
    LaterUntouched(t, t', verdicts);
  }

  lemma SlotsUntouched(t: Tables, t': Tables)
    requires Slots(t) && t'.participations == t.participations && t'.tests == t.tests
    ensures Slots(t')
  {
    forall i | i in t'.tests ensures Holders(t', i) == Holders(t, i) {}
  }

  lemma RateShape(t: Tables, organizationId: Id, s: Id, row: RatingRow)
    requires References(t)
    ensures var t' := RateSession(t, organizationId, s, row).0; SideRows(t, t') && t'.tests == t.tests
  {
    hide Reconsidered;
  }

  lemma RateKeeps(t: Tables, verdicts: map<Id, ValidationRow>, n: Id, organizationId: Id, s: Id, row: RatingRow)
    requires TablesOk(t, verdicts, n)
    ensures var t' := RateSession(t, organizationId, s, row).0; TablesOk(t', verdicts, n) && Later(t, t')
  {
    hide RateSession, Slots, XpLedger, OnlyNewestActive, OneSession, Phases, StudioFormula;
    var t' := RateSession(t, organizationId, s, row).0;
    RateStudio(t, verdicts, organizationId, s, row);
    RateShape(t, organizationId, s, row);
    SlotsUntouched(t, t');
    SideRowsKeep(t, t', verdicts, n, n);
  }

  lemma RecordingsKeep(t: Tables, verdicts: map<Id, ValidationRow>, n: Id, m: Id, recordings: map<Id, RecordingRow>)
    requires TablesOk(t, verdicts, n) && n <= m
    ensures var t' := t.(recordings := recordings); TablesOk(t', verdicts, m) && Later(t, t')
  {
    hide XpLedger, OnlyNewestActive, OneSession, Phases, StudioFormula;
    var t' := t.(recordings := recordings);
    StudioUntouched(t, t', verdicts);
    SlotsUntouched(t, t');
    SideRowsKeep(t, t', verdicts, n, m);
  }

  /** A test row is added without participations, or changes without going under its taken slots. */
  lemma TestsKeep(t: Tables, verdicts: map<Id, ValidationRow>, n: Id, m: Id, i: Id, row: TestRow)
    requires TablesOk(t, verdicts, n) && n <= m && i < m && row.slotsTaken <= row.slotsTotal
    requires if i in t.tests then row.slotsTaken == t.tests[i].slotsTaken else row.slotsTaken == 0
    ensures var t' := t.(tests := t.tests[i := row]); TablesOk(t', verdicts, m) && Later(t, t')
  {
    hide XpLedger, OnlyNewestActive, OneSession, Phases, StudioFormula;
    var t' := t.(tests := t.tests[i := row]);
    StudioUntouched(t, t', verdicts);
    forall j | j in t'.tests ensures t'.tests[j].slotsTaken == |Holders(t', j)| {
      assert Holders(t', j) == Holders(t, j);
      if j !in t.tests { assert Holders(t, j) == {}; }
    }
    SideRowsKeep(t, t', verdicts, n, m);
  }

  /* --------------------------------- process invariants --------------------------------- */

  ghost predicate Known(t: Tables, todo: seq<Id>) {
    forall i :: 0 <= i < |todo| ==> todo[i] in t.sessions
  }

  ghost predicate ClosedSession(t: Tables, s: Id) {
    s in t.sessions && Closed(t.sessions[s].status)
  }

  /** The session row a validation job carries is still the current one, unless somebody else validated it. */
  ghost predicate CarriesCurrent(t: Tables, s: Id, row: SessionRow) {
    ClosedSession(t, s) && (s !in t.validations ==> row == t.sessions[s])
  }

  /** What the local copies of a process still tell about the tables. */
  ghost predicate ProcessOk(t: Tables, p: Process)
    requires References(t)
  {
    match p
    case JoinOpen(_, _) => true
    case JoinCleared(_, _) => true
    case StartReady(participationId, testId, _) =>
      participationId in t.participations && t.participations[participationId].testId == testId
    case StartTouch(s) => s in t.sessions
    case BeatRead(s, _) => s in t.sessions
    case BeatMark(s) => s in t.sessions
    case FinishRead(s, participationId, _, _) =>
      s in t.sessions && t.sessions[s].participationId == participationId
    case FinishDropKey(s) => ClosedSession(t, s)
    case FinishEnqueue(s) => ClosedSession(t, s)
    case SweepOpen(todo) => Known(t, todo)
    case SweepExpired(s, todo) => s in t.sessions && Known(t, todo)
    case SweepEnqueue(s, todo) => ClosedSession(t, s) && Known(t, todo)
    case SweepClosed(todo) => forall i :: 0 <= i < |todo| ==> ClosedSession(t, todo[i])
    case ValidateRead(s) => ClosedSession(t, s)
    case ValidateLoaded(s, row) => CarriesCurrent(t, s, row)
    case ValidateDecided(s, row, verdict) =>
      CarriesCurrent(t, s, row) && (verdict == Verdict(row, true) || verdict == Verdict(row, false))
    case ValidateInTx(s, row, verdict, rewarded) =>
      Gated(t, s, row, verdict) && rewarded == Rewarded(t, PlayerOf(t, s), row.testId)
  }

  ghost predicate ProcessesOk(s: System)
    requires References(s.db)
  {
    && (forall i :: i in s.processes ==> i < s.nextId && ProcessOk(s.db, s.processes[i]))
    && (forall j :: j in s.jobs ==> ClosedSession(s.db, j))
  }

  /** The key of a validation row is held by one transaction at a time. */
  ghost predicate OneGate(s: System) {
    forall i, j ::
      i in s.processes && j in s.processes && s.processes[i].ValidateInTx? && s.processes[j].ValidateInTx?
      && s.processes[i].sessionId == s.processes[j].sessionId
      ==> i == j
  }

  ghost predicate Inv(s: System) {
    TablesOk(s.db, s.verdicts, s.nextId) && ProcessesOk(s) && OneGate(s)
  }

  lemma ValidatingSurvives(t: Tables, t': Tables, p: Process)
    requires References(t) && References(t') && Later(t, t') && ProcessOk(t, p)
    requires p.ValidateLoaded? || p.ValidateDecided? || p.ValidateInTx?
    requires p.ValidateInTx? ==> p.sessionId !in t'.validations
    ensures ProcessOk(t', p)
  {
    assert Frozen(t, t', p.sessionId);
    hide Rewarded, Verdict;
  }

  /** A process keeps what it knows while others act, unless its session gets validated by the step. */
  lemma ProcessSurvives(t: Tables, t': Tables, p: Process)
    requires References(t) && References(t') && Later(t, t') && ProcessOk(t, p)
    requires p.ValidateInTx? ==> p.sessionId !in t'.validations
    ensures ProcessOk(t', p)
  {
    hide Rewarded, Verdict, Frozen, Gated, CarriesCurrent;
    if p.ValidateLoaded? || p.ValidateDecided? || p.ValidateInTx? { ValidatingSurvives(t, t', p); }
  }

  /** The process `i` of `s'` is the one of `s`, and any transaction it is in is still undecided. */
  ghost predicate SameProcess(s: System, s': System, i: Id)
    requires i in s'.processes
  {
    i in s.processes && s'.processes[i] == s.processes[i]
    && (s'.processes[i].ValidateInTx? ==> s'.processes[i].sessionId !in s'.db.validations)
  }

  /** The one process that moved is in order, and enters a transaction only through a free gate. */
  ghost predicate MovedOk(s': System, id: Id)
    requires References(s'.db)
  {
    id in s'.processes ==>
      id < s'.nextId && ProcessOk(s'.db, s'.processes[id])
      && (s'.processes[id].ValidateInTx? ==>
            forall j :: j in s'.processes && j != id && s'.processes[j].ValidateInTx? ==>
              s'.processes[j].sessionId != s'.processes[id].sessionId)
  }

  ghost predicate JobsOk(s: System, s': System) {
    forall j :: j in s'.jobs ==> j in s.jobs || ClosedSession(s'.db, j)
  }

  lemma StepKeeps(s: System, s': System, id: Id)
    requires Inv(s) && TablesOk(s'.db, s'.verdicts, s'.nextId) && Later(s.db, s'.db) && s.nextId <= s'.nextId
    requires forall i :: i in s'.processes && i != id ==> SameProcess(s, s', i)
    requires MovedOk(s', id) && JobsOk(s, s')
    ensures Inv(s')
  {
    hide ProcessOk, Frozen, XpLedger, Slots, Phases, StudioFormula, OnlyNewestActive, OneSession;
    forall i | i in s'.processes ensures i < s'.nextId && ProcessOk(s'.db, s'.processes[i]) {
      if i != id { assert SameProcess(s, s', i); ProcessSurvives(s.db, s'.db, s.processes[i]); }
    }
  }
}
