/** The button a player is shown for a test, against what `join` would answer. */
module PlayerCta {
  import opened Common
  import opened PlaytestTables
  import opened PlaytestProtocol
  import opened PlaytestInvariant
  import opened PlaytestSteps

  datatype Unavailable = ByStudio | TestFinished | TestExpired | TestUnavailable | NoSlots

  datatype Cta = CtaCompleted | CtaInReview | CtaDownloading | CtaContinue | CtaUnavailable(reason: Unavailable) | CtaStart

  /** `testUnavailableReason`: None when the test is open. */
  function TestUnavailableReason(test: TestRow, now: int): Option<Unavailable> {
    match test.status
    case PausedTest => Some(ByStudio)
    case FinishedTest => Some(TestFinished)
    case ExpiredTest => Some(TestExpired)
    case DraftTest => Some(TestUnavailable)
    case Published =>
      if test.endsAt.Some? && test.endsAt.value <= now then Some(TestExpired)
      else if test.slotsTaken >= test.slotsTotal then Some(NoSlots)
      else None
  }

  /** `testCta`, from the status of the newest participation. */
  function TestCta(newest: Option<ParticipationStatus>, reason: Option<Unavailable>): Cta {
    match newest
    case Some(Completed) => CtaCompleted
    case Some(InReview) => CtaInReview
    case Some(Downloading) => CtaDownloading
    case Some(Reserved) => CtaContinue
    case Some(Tutorial) => CtaContinue
    case Some(Ready) => CtaContinue
    case Some(Playing) => CtaContinue
    case Some(FormPending) => CtaContinue
    case _ => if reason.Some? then CtaUnavailable(reason.value) else CtaStart
  }

  /** The player's newest participation in the test has this status; None when there is none. */
  ghost predicate NewestStatus(t: Tables, testId: Id, userId: Id, newest: Option<ParticipationStatus>) {
    match newest
    case None => forall p :: p in t.participations ==> !SamePair(t.participations[p], testId, userId)
    case Some(status) =>
      exists p :: p in t.participations && SamePair(t.participations[p], testId, userId)
                  && t.participations[p].status == status && IsNewest(t, testId, userId, p)
  }

  ghost predicate IsNewest(t: Tables, testId: Id, userId: Id, p: Id) {
    forall q :: q in t.participations && SamePair(t.participations[q], testId, userId) ==> q <= p
  }

  /** Every check of `join` but age, in one step: what `JoinAtOnce` needs to create a participation. */
  predicate JoinPasses(s: System, testId: Id, userId: Id) {
    TestOpen(s, testId) && !HasCompleted(s.db, testId, userId)
    && Reserve(s.db, s.now, testId, userId, s.nextId).1.Joined?
  }

  /** A participation older than the newest is completed although the newest has ended without a result. */
  predicate CompletedEarlier(t: Tables, testId: Id, userId: Id, newest: Option<ParticipationStatus>) {
    newest.Some? && (newest.value.Rejected? || newest.value.Abandoned?) && HasCompleted(t, testId, userId)
  }

  lemma OlderAreInactive(t: Tables, testId: Id, userId: Id, newest: Option<ParticipationStatus>)
    requires OnlyNewestActive(t) && NewestStatus(t, testId, userId, newest)
    ensures HasActive(t, testId, userId) <==> newest.Some? && Active(newest.value)
    ensures newest.None? ==> !HasCompleted(t, testId, userId)
    ensures newest == Some(Completed) ==> HasCompleted(t, testId, userId)
  {
    if newest.Some? {
      var p :| p in t.participations && SamePair(t.participations[p], testId, userId)
               && t.participations[p].status == newest.value && IsNewest(t, testId, userId, p);
      if q :| q in t.participations && SamePair(t.participations[q], testId, userId)
              && Active(t.participations[q].status) && q != p {
        assert SamePlayerAndTest(t, q, p);
      }
    }
  }

  /**
   * The button and the action in every reachable state, stale joins included:
   * a join that would pass is always offered, and a join that is offered
   * passes unless the player completed an earlier participation.
   */
  lemma CtaAgreesExactly(s: System, testId: Id, userId: Id, newest: Option<ParticipationStatus>)
    requires Reachable(s) && testId in s.db.tests && NewestStatus(s.db, testId, userId, newest)
    ensures var reason := TestUnavailableReason(s.db.tests[testId], s.now);
            var offered := TestCta(newest, reason).CtaStart?;
            && (newest.None? ==> TestCta(newest, reason) == if reason.Some? then CtaUnavailable(reason.value) else CtaStart)
            && (JoinPasses(s, testId, userId) ==> offered)
            && ((offered <==> JoinPasses(s, testId, userId))
                <==> !(reason.None? && CompletedEarlier(s.db, testId, userId, newest)))
  {
    hide Inv, NewestStatus, HasCompleted, HasActive;
    NewestOnly(s);
    OlderAreInactive(s.db, testId, userId, newest);
  }

  lemma NewestOnly(s: System)
    requires Reachable(s)
    ensures OnlyNewestActive(s.db)
  {
    hide OnlyNewestActive;
    ReachableOk(s);
  }

  /* --------------------------- when every join is one step --------------------------- */

  /** Nothing follows a completed participation of the same player and test. */
  ghost predicate CompletedIsNewest(t: Tables) {
    forall p, q :: p in t.participations && q in t.participations && p < q && SamePlayerAndTest(t, p, q)
      ==> !t.participations[p].status.Completed?
  }

  ghost predicate NoStaleJoin(s: System) {
    forall i :: i in s.processes ==> !s.processes[i].JoinOpen? && !s.processes[i].JoinCleared?
  }

  ghost predicate NoSplitJoins(actions: seq<Action>) {
    forall i :: 0 <= i < |actions| ==> !actions[i].Join?
  }

  lemma StatusesOnly(t: Tables, t': Tables)
    requires References(t) && OnlyNewestActive(t) && CompletedIsNewest(t) && Later(t, t')
    requires t'.participations.Keys == t.participations.Keys
    ensures CompletedIsNewest(t')
  {
    hide Frozen;
    forall p, q | p in t'.participations && q in t'.participations && p < q && SamePlayerAndTest(t', p, q)
      ensures !t'.participations[p].status.Completed?
    {
      assert Onwards(t.participations[p], t'.participations[p]) && Onwards(t.participations[q], t'.participations[q]);
      assert SamePlayerAndTest(t, p, q);
    }
  }

  lemma ReservedAfterCheck(t: Tables, now: int, testId: Id, userId: Id, n: Id)
    requires Fresh(t, n) && CompletedIsNewest(t) && !HasCompleted(t, testId, userId)
    ensures CompletedIsNewest(Reserve(t, now, testId, userId, n).0)
  {
    var t' := Reserve(t, now, testId, userId, n).0;
    forall p, q | p in t'.participations && q in t'.participations && p < q && SamePlayerAndTest(t', p, q)
      ensures !t'.participations[p].status.Completed?
    {
      if q in t.participations { assert SamePlayerAndTest(t, p, q); }
    }
  }

  lemma TransactionsAddNone(t: Tables, s: Id, p: Id, i: Id, o: Id, now: int, ms: int, n: Id)
    ensures StartSession(t, now, p, i, o, n).0.participations.Keys == t.participations.Keys
    ensures MarkRecording(t, s).participations.Keys == t.participations.Keys
    ensures FinishSession(t, s, p, now, ms).0.participations.Keys == t.participations.Keys
    ensures TimeOut(t, s, now).participations.Keys == t.participations.Keys
  {
    hide HasRunningSession;
  }

  lemma CommitAddsNone(t: Tables, s: Id, row: SessionRow, verdict: ValidationRow, rewarded: bool, n: Id)
    ensures CommitVerdict(t, s, row, verdict, rewarded, n).participations.Keys == t.participations.Keys
  {
    WriteAddsNone(t, s, row, verdict);
    hide WriteVerdict;
  }

  lemma WriteAddsNone(t: Tables, s: Id, row: SessionRow, verdict: ValidationRow)
    ensures WriteVerdict(t, s, row, verdict).participations.Keys == t.participations.Keys
  {}

  /** No process step but a split join adds a participation. */
  lemma StepAddsNone(s: System, id: Id)
    requires id in s.processes && !s.processes[id].JoinCleared?
    ensures Step(s, id).db.participations.Keys == s.db.participations.Keys
  {
    hide HasCompleted, Rewarded, HasFailedRecording, GateHeld, Verdict,
      StartSession, MarkRecording, FinishSession, TimeOut, CommitVerdict;
    match s.processes[id]
    case StartReady(p, i, o) => TransactionsAddNone(s.db, 0, p, i, o, s.now, 0, s.nextId);
    case BeatMark(i) => TransactionsAddNone(s.db, i, 0, 0, 0, 0, 0, 0);
    case FinishRead(i, p, at, ms) => TransactionsAddNone(s.db, i, p, 0, 0, at, ms, 0);
    case SweepExpired(i, _) => TransactionsAddNone(s.db, i, 0, 0, 0, s.now, 0, 0);
    case ValidateInTx(i, row, v, r) => CommitAddsNone(s.db, i, row, v, r, s.nextId);
    case _ =>
  }

  lemma ActionAddsNone(s: System, a: Action)
    requires !a.JoinAtOnce? && !a.Advance?
    ensures Apply(s, a).db.participations.Keys == s.db.participations.Keys
  {
    hide HasCompleted, TestOpen, SessionOf, Unvalidated, OpenSession;
  }

  lemma NoStaleJoinStep(s: System, a: Action)
    requires NoStaleJoin(s) && !a.Join?
    ensures NoStaleJoin(Apply(s, a))
  {
    hide HasCompleted, TestOpen, SessionOf, Unvalidated, OpenSession, Reserve, StartSession, FinishSession, RateSession,
      CommitVerdict, TimeOut, MarkRecording, Rewarded, Verdict, HasFailedRecording, GateHeld;
  }

  ghost predicate WholeJoins(s: System) {
    Inv(s) && NoStaleJoin(s) && CompletedIsNewest(s.db)
  }

  lemma WholeJoinsStep(s: System, a: Action)
    requires WholeJoins(s) && !a.Join?
    ensures WholeJoins(Apply(s, a))
  {
    hide ProcessesOk, OneGate, OneSession, Phases, Slots, StudioFormula, XpLedger, NoStaleJoin, CompletedIsNewest, Later, HasCompleted;
    ApplyKeeps(s, a);
    NoStaleJoinStep(s, a);
    var s' := Apply(s, a);
    if a.JoinAtOnce? && TestOpen(s, a.testId) && !HasCompleted(s.db, a.testId, a.userId) {
      ReservedAfterCheck(s.db, s.now, a.testId, a.userId, s.nextId);
    } else {
      assert s'.db.participations.Keys == s.db.participations.Keys by { KeysKept(s, a); }
      StatusesOnly(s.db, s'.db);
    }
  }

  lemma KeysKept(s: System, a: Action)
    requires NoStaleJoin(s)
    requires a.JoinAtOnce? ==> !(TestOpen(s, a.testId) && !HasCompleted(s.db, a.testId, a.userId))
    ensures Apply(s, a).db.participations.Keys == s.db.participations.Keys
  {
    if a.Advance? {
      if a.process in s.processes { hide Step; StepAddsNone(s, a.process); }
    } else if !a.JoinAtOnce? { hide Apply; ActionAddsNone(s, a); }
  }

  lemma {:induction false} WholeJoinsRun(actions: seq<Action>)
    requires NoSplitJoins(actions)
    ensures WholeJoins(Run(INITIAL, actions))
    decreases |actions|
  {
    if actions == [] { InitialOk(); }
    else {
      hide WholeJoins, Apply;
      WholeJoinsRun(actions[..|actions| - 1]);
      WholeJoinsStep(Run(INITIAL, actions[..|actions| - 1]), actions[|actions| - 1]);
    }
  }

  lemma CompletedMeansNewest(t: Tables, testId: Id, userId: Id, newest: Option<ParticipationStatus>)
    requires CompletedIsNewest(t) && NewestStatus(t, testId, userId, newest) && HasCompleted(t, testId, userId)
    ensures newest == Some(Completed)
  {
    var q :| q in t.participations && SamePair(t.participations[q], testId, userId)
             && t.participations[q].status.Completed?;
    var p :| p in t.participations && SamePair(t.participations[p], testId, userId)
             && t.participations[p].status == newest.value && IsNewest(t, testId, userId, p);
    assert q < p ==> SamePlayerAndTest(t, q, p);
  }

  /** With every join in one step, the button says start exactly when join would pass. */
  lemma CtaAgrees(actions: seq<Action>, testId: Id, userId: Id, newest: Option<ParticipationStatus>)
    requires NoSplitJoins(actions)
    requires var s := Run(INITIAL, actions); testId in s.db.tests && NewestStatus(s.db, testId, userId, newest)
    ensures var s := Run(INITIAL, actions);
            TestCta(newest, TestUnavailableReason(s.db.tests[testId], s.now)).CtaStart?
            <==> JoinPasses(s, testId, userId)
  {
    hide Inv, Run, NewestStatus, JoinPasses, HasCompleted, CompletedIsNewest;
    var s := Run(INITIAL, actions);
    WholeJoinsRun(actions);
    CtaAgreesExactly(s, testId, userId, newest);
    if HasCompleted(s.db, testId, userId) { CompletedMeansNewest(s.db, testId, userId, newest); }
  }

  /* ------------------------- what the button tells about the newest ------------------------- */

  /** The session of the participation. */
  ghost predicate PlayedIn(t: Tables, p: Id, i: Id) { i in t.sessions && t.sessions[i].participationId == p }

  /**
   * In every reachable state, for the participation the button is about: it says
   * completed exactly when its session was found valid, in review exactly while
   * its finished session waits for a verdict, continue exactly while its session is
   * open, timed out unjudged or not started; only after a rejection does the
   * test's availability matter.
   */
  lemma CtaTellsTheSession(s: System, p: Id, reason: Option<Unavailable>)
    requires Reachable(s) && p in s.db.participations
    ensures var cta := TestCta(Some(s.db.participations[p].status), reason);
            && (cta.CtaCompleted? <==> exists i :: PlayedIn(s.db, p, i) && FoundValid(s.verdicts, i))
            && (cta.CtaInReview? <==>
                  exists i :: PlayedIn(s.db, p, i) && i !in s.verdicts && s.db.sessions[i].status.Processing?)
            && (cta.CtaStart? || cta.CtaUnavailable? <==>
                  exists i :: PlayedIn(s.db, p, i) && i in s.verdicts && !s.verdicts[i].valid)
            && (cta.CtaContinue? || cta.CtaDownloading? <==>
                  forall i :: PlayedIn(s.db, p, i) ==> i !in s.verdicts && !s.db.sessions[i].status.Processing?)
            && (cta.CtaDownloading? <==> s.db.participations[p].status == Downloading)
            && (cta.CtaUnavailable? ==> Some(cta.reason) == reason) && (cta.CtaStart? ==> reason == None)
  {
    hide TestCta, Reachable;
    StatusTells(s, p);
    CtaOfStatus(s.db.participations[p].status, reason);
  }

  lemma CtaOfStatus(status: ParticipationStatus, reason: Option<Unavailable>)
    ensures var cta := TestCta(Some(status), reason);
            && (cta.CtaContinue? || cta.CtaDownloading? <==> Active(status) && !status.InReview?)
            && (cta.CtaCompleted? <==> status.Completed?) && (cta.CtaInReview? <==> status.InReview?)
            && (cta.CtaStart? || cta.CtaUnavailable? <==> status.Rejected? || status.Abandoned?)
            && (cta.CtaDownloading? <==> status.Downloading?)
            && (cta.CtaUnavailable? ==> Some(cta.reason) == reason) && (cta.CtaStart? ==> reason == None)
  {}

  /**
   * Which reason is shown for a test that takes no players. Next to what joining
   * would answer: no slots are left exactly when the join says so of a test that is
   * not past its end, and for every other reason the join says it is not open, or, of
   * a published test past its end without slots, that they are gone.
   */
  lemma ReasonTells(t: Tables, now: int, testId: Id, userId: Id, n: Id)
    requires testId in t.tests
    ensures var (test, reason, answer) := (t.tests[testId], TestUnavailableReason(t.tests[testId], now),
                                           Reserve(t, now, testId, userId, n).1);
            var over := test.endsAt.Some? && test.endsAt.value <= now;
            && (reason == Some(ByStudio) <==> test.status == PausedTest)
            && (reason == Some(TestFinished) <==> test.status == FinishedTest)
            && (reason == Some(TestUnavailable) <==> test.status == DraftTest)
            && (reason == Some(TestExpired) <==> test.status == ExpiredTest || (test.status == Published && over))
            && (reason == Some(NoSlots) <==> answer == SlotsExhausted && !over)
            && (reason == None <==> answer == AlreadyActive || answer == Joined(n))
            && (reason.Some? && reason != Some(NoSlots) ==>
                  answer == NotOpen || (answer == SlotsExhausted && test.status == Published && over))
  {
    hide HasActive;
  }

  lemma StatusTells(s: System, p: Id)
    requires Reachable(s) && p in s.db.participations
    ensures var status := s.db.participations[p].status;
            && (status.Completed? <==> exists i :: PlayedIn(s.db, p, i) && FoundValid(s.verdicts, i))
            && (status.InReview? <==>
                  exists i :: PlayedIn(s.db, p, i) && i !in s.verdicts && s.db.sessions[i].status.Processing?)
            && (status.Rejected? || status.Abandoned? <==>
                  exists i :: PlayedIn(s.db, p, i) && i in s.verdicts && !s.verdicts[i].valid)
            && (Active(status) && !status.InReview? <==>
                  forall i :: PlayedIn(s.db, p, i) ==> i !in s.verdicts && !s.db.sessions[i].status.Processing?)
  {
    NewestOnly(s);
    PhaseFacts(s);
    hide Reachable, Inv;
    var status := s.db.participations[p].status;
    if i :| PlayedIn(s.db, p, i) {
      assert InPhase(s.db, s.verdicts, i);
      assert forall j :: PlayedIn(s.db, p, j) ==> j == i;
    } else {
      assert Startable(status) || HasSession(s.db, p);
      forall j | j in s.db.sessions ensures s.db.sessions[j].participationId != p { assert !PlayedIn(s.db, p, j); }
    }
  }

  lemma PhaseFacts(s: System)
    requires Reachable(s)
    ensures References(s.db) && OneSession(s.db) && Phases(s.db, s.verdicts)
  {
    hide References, OneSession, Phases, Slots, StudioFormula, XpLedger;
    ReachableOk(s);
  }
}
