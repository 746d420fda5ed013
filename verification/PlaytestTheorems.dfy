/** What the playtest protocol guarantees in every reachable state and over every run. */
module PlaytestTheorems {
  import opened Common
  import opened PlaytestTables
  import opened PlaytestProtocol
  import opened PlaytestInvariant
  import opened PlaytestSteps

  lemma Facts(s: System)
    requires Reachable(s)
    ensures References(s.db) && OnlyNewestActive(s.db) && OneSession(s.db) && Phases(s.db, s.verdicts)
    ensures Slots(s.db) && StudioFormula(s.db, s.verdicts) && XpLedger(s.db, s.verdicts)
  {
    hide References, OnlyNewestActive, OneSession, Phases, Slots, StudioFormula, XpLedger;
    ReachableOk(s);
  }

  /* ---------------------------------------- XP ---------------------------------------- */

  /** The worker found some session of this player on this test valid. */
  ghost predicate SomeValidSession(s: System, userId: Id, testId: Id) {
    exists i :: i in s.db.sessions && FoundValid(s.verdicts, i) && s.db.sessions[i].testId == testId
                && SessionOf(s.db, i, userId)
  }

  ghost predicate RewardOf(t: Tables, e: Id, userId: Id, testId: Id) {
    e in t.xpEvents && t.xpEvents[e].userId == userId
    && t.xpEvents[e].sourceId in t.sessions && t.sessions[t.xpEvents[e].sourceId].testId == testId
  }

  /** A player has session XP on a test exactly when one of their sessions there was found valid. */
  lemma XpExactlyForValidSessions(s: System, userId: Id, testId: Id)
    requires Reachable(s)
    ensures (exists e :: RewardOf(s.db, e, userId, testId)) <==> SomeValidSession(s, userId, testId)
  {
    hide Reachable, Inv, OnlyNewestActive, OneSession, Phases, Slots, StudioFormula, XpOnce;
    Facts(s);
    if e :| RewardOf(s.db, e, userId, testId) {
      assert FoundValid(s.verdicts, s.db.xpEvents[e].sourceId);
    }
    if SomeValidSession(s, userId, testId) {
      var i :| i in s.db.sessions && FoundValid(s.verdicts, i) && s.db.sessions[i].testId == testId
               && SessionOf(s.db, i, userId);
      assert Rewarded(s.db, PlayerOf(s.db, i), testId);
      var e :| e in s.db.xpEvents && s.db.xpEvents[e].userId == userId
               && s.db.xpEvents[e].sourceId in s.db.sessions
               && s.db.sessions[s.db.xpEvents[e].sourceId].testId == testId;
      assert RewardOf(s.db, e, userId, testId);
    }
  }

  /** ... and never twice. */
  lemma XpAtMostOnce(s: System, userId: Id, testId: Id, e: Id, f: Id)
    requires Reachable(s) && RewardOf(s.db, e, userId, testId) && RewardOf(s.db, f, userId, testId)
    ensures e == f
  {
    ReachableOk(s);
    assert SameReward(s.db, e, f);
  }

  /**
   * Why check-then-insert is safe: a validation transaction's check, however
   * long ago it ran, still tells the truth when its insert commits.
   */
  lemma XpCheckNeverStale(s: System, id: Id)
    requires Reachable(s) && id in s.processes && s.processes[id].ValidateInTx?
    ensures var p := s.processes[id];
            p.session.participationId in s.db.participations
            && p.rewarded == Rewarded(s.db, s.db.participations[p.session.participationId].userId, p.session.testId)
            && p.sessionId in s.db.sessions && p.session == s.db.sessions[p.sessionId]
  {
    ReachableOk(s);
    ProcessFacts(s, id);
  }

  /* ------------------------------------- lifecycle ------------------------------------- */

  /** At most one session per participation, and the statuses that go with the worker's verdict. */
  lemma Lifecycle(s: System, i: Id)
    requires Reachable(s) && i in s.db.sessions
    ensures forall j ::
              j in s.db.sessions && s.db.sessions[j].participationId == s.db.sessions[i].participationId
              ==> j == i
    ensures s.db.sessions[i].participationId in s.db.participations
    ensures var status := s.db.participations[s.db.sessions[i].participationId].status;
            if i in s.db.validations
            then i in s.verdicts && status == (if s.verdicts[i].valid then Completed else Rejected)
            else status.Playing? || status.InReview?
  {
    ReachableOk(s);
    assert InPhase(s.db, s.verdicts, i);
  }

  /** What no later run undoes. */
  ghost predicate Settled(s: System, s': System) {
    && (forall i :: i in s.db.sessions ==>
          i in s'.db.sessions && SameOrigin(s.db.sessions[i], s'.db.sessions[i])
          && (Closed(s.db.sessions[i].status) ==> Closed(s'.db.sessions[i].status)))
    && (forall p :: p in s.db.participations ==>
          p in s'.db.participations && Onwards(s.db.participations[p], s'.db.participations[p]))
    && VerdictsKept(s.verdicts, s'.verdicts)
  }

  lemma SettledStep(s: System, m: System, s': System)
    requires Settled(s, m) && Progress(m, s')
    ensures Settled(s, s')
  {
    hide Inv, Frozen;
  }

  /**
   * From any reachable state, whatever runs next: closed sessions stay closed,
   * completed, rejected and abandoned participations keep that status, and a
   * worker verdict never changes.
   */
  lemma {:induction false} NothingReopens(s: System, actions: seq<Action>)
    requires Inv(s)
    ensures Settled(s, Run(s, actions)) && Inv(Run(s, actions))
    decreases |actions|
  {
    if actions != [] {
      var before := actions[..|actions| - 1];
      NothingReopens(s, before);
      hide Inv, Apply, Settled;
      ApplyKeeps(Run(s, before), actions[|actions| - 1]);
      SettledStep(s, Run(s, before), Run(s, actions));
    }
  }

  /* --------------------------------------- slots --------------------------------------- */

  /** Slots taken are participations ever created, never more than the total. */
  lemma SlotsConserved(s: System, testId: Id)
    requires Reachable(s) && testId in s.db.tests
    ensures s.db.tests[testId].slotsTaken == |Holders(s.db, testId)| <= s.db.tests[testId].slotsTotal
  {
    ReachableOk(s);
  }

  /** No player holds two active participations of a test; the active one is the newest. */
  lemma OneActivePerPair(s: System, p: Id, q: Id)
    requires Reachable(s) && p in s.db.participations && q in s.db.participations && p < q
    requires SamePlayerAndTest(s.db, p, q)
    ensures !Active(s.db.participations[p].status)
  {
    ReachableOk(s);
  }

  /* ----------------------------------- studio overrule ----------------------------------- */

  /** The stored validation is the worker's verdict unless the studio's latest mark overrules it. */
  lemma StudioOverruleIsAFormula(s: System, i: Id)
    requires Reachable(s) && i in s.db.validations
    ensures i in s.verdicts
    ensures s.db.validations[i].valid <==> s.verdicts[i].valid && !Marked(s.db, i)
    ensures !Marked(s.db, i) || !s.verdicts[i].valid ==> s.db.validations[i] == s.verdicts[i]
    ensures Marked(s.db, i) && s.verdicts[i].valid ==>
              s.db.validations[i] == ValidationRow(false, Some(STUDIO_INVALID_REASON))
  {
    hide Reachable, Inv, OnlyNewestActive, OneSession, Phases, Slots, XpLedger;
    Facts(s);
    assert WorkerWrote(s.verdicts[i]);
  }

  lemma NotOverruled(verdict: ValidationRow)
    ensures Overruled(verdict, false) == verdict
  {}

  /** Marking and then un-marking restores verdict and reason, whatever was stored before. */
  lemma UnmarkRestores(s: System, organizationId: Id, i: Id, mark: RatingRow, unmark: RatingRow)
    requires Reachable(s) && i in s.db.validations && i in s.db.sessions
    requires s.db.sessions[i].organizationId == organizationId
    requires mark.markedInvalid && !unmark.markedInvalid
    ensures var s1 := Apply(s, Rate(organizationId, i, mark));
            var s2 := Apply(s1, Rate(organizationId, i, unmark));
            i in s.verdicts && i in s2.db.validations && s2.db.validations[i] == s.verdicts[i]
  {
    hide Reachable, Inv, OnlyNewestActive, OneSession, Phases, Slots, XpLedger, Overruled, Reconsidered;
    Facts(s);
    assert s.db.validations[i] == Overruled(s.verdicts[i], Marked(s.db, i)) && WorkerWrote(s.verdicts[i]);
    ReconsideredIsOverruled(s.verdicts[i], Marked(s.db, i), true);
    ReconsideredIsOverruled(s.verdicts[i], true, false);
    assert Overruled(s.verdicts[i], false) == s.verdicts[i] by { NotOverruled(s.verdicts[i]); }
  }

  /* ------------------------------------ player's view ------------------------------------ */

  datatype SessionView = ViewActive | ViewFinishing | ViewInReview | ViewAbandoned | ViewValid | ViewInvalid

  /** `toSessionStatus`. */
  function ViewStatus(status: SessionStatus, validation: Option<ValidationRow>): SessionView {
    match status
    case Starting => ViewActive
    case Recording => ViewActive
    case Paused => ViewActive
    case Finishing => ViewFinishing
    case Processing => ViewInReview
    case Invalidated => ViewAbandoned
    case CompletedSession =>
      match validation
      case None => ViewInReview
      case Some(v) => if v.valid then ViewValid else ViewInvalid
  }

  function ValidationOf(t: Tables, i: Id): Option<ValidationRow> {
    if i in t.validations then Some(t.validations[i]) else None
  }

  lemma SessionPhase(s: System, i: Id)
    requires Reachable(s) && i in s.db.sessions
    ensures s.db.sessions[i].participationId in s.db.participations && InPhase(s.db, s.verdicts, i)
    ensures i in s.verdicts <==> i in s.db.validations
  {
    hide Reachable, Inv, OnlyNewestActive, OneSession, Slots, XpLedger, Overruled, InPhase;
    Facts(s);
  }

  /**
   * What the player is shown: `valid` and `invalid` are exactly the sessions
   * the worker accepted, split by the studio's mark; abandoned are exactly those
   * it rejected and those timed out and not judged yet; a finished one is in
   * review until judged; an open one is active.
   */
  lemma ViewTellsTheVerdict(s: System, i: Id)
    requires Reachable(s) && i in s.db.sessions
    ensures var view := ViewStatus(s.db.sessions[i].status, ValidationOf(s.db, i));
            && (view.ViewValid? <==> FoundValid(s.verdicts, i) && !Marked(s.db, i))
            && (view.ViewInvalid? <==> FoundValid(s.verdicts, i) && Marked(s.db, i))
            && (view.ViewAbandoned? <==> if i in s.verdicts then !s.verdicts[i].valid
                                         else s.db.sessions[i].status == Invalidated)
            && (view.ViewInReview? <==> i !in s.verdicts && s.db.sessions[i].status == Processing)
            && (view.ViewActive? <==> s.db.sessions[i].status in {Starting, Recording, Paused})
            && !view.ViewFinishing?
  {
    hide Reachable;
    SessionPhase(s, i);
    if i in s.db.validations { StudioOverruleIsAFormula(s, i); }
  }
}
