/**
 * The state in which the button offers a join that is refused, built step by step: a
 * join that passed its completed check before the player's first session was found
 * valid reserves afterwards, and the session of that second participation is rejected.
 */
module StaleJoin {
  import opened Common
  import opened PlaytestTables
  import opened PlaytestProtocol
  import opened PlaytestInvariant
  import opened PlaytestSteps
  import opened PlaytestScenes
  import opened PlayerCta

  const FIRST: Id := 2
  const SECOND: Id := 9

  /** The join that will turn stale has passed its check; the player has joined by another request. */
  ghost predicate Joined(s: System) {
    && s.now == 0 && s.nextId == 3 && s.heartbeats == {} && s.jobs == {} && s.verdicts == map[]
    && s.processes == map[1 := JoinCleared(TEST, PLAYER)]
    && s.db == EMPTY_TABLES.(tests := map[TEST := OPEN_TEST.(slotsTaken := 1)],
                             participations := map[FIRST := ParticipationRow(TEST, PLAYER, Reserved)])
  }

  lemma CheckPasses(s: System)
    requires s == INITIAL.(db := EMPTY_TABLES.(tests := map[TEST := OPEN_TEST]), nextId := 1)
    ensures Apply(Apply(s, Join(TEST, PLAYER)), Advance(1)) ==
            s.(nextId := 2, processes := map[1 := JoinCleared(TEST, PLAYER)])
  {
    var s1 := s.(processes := map[1 := JoinOpen(TEST, PLAYER)], nextId := 2);
    assert Apply(s, Join(TEST, PLAYER)) == s1;
    assert !HasCompleted(s1.db, TEST, PLAYER);
    assert s1.processes[1 := JoinCleared(TEST, PLAYER)] == map[1 := JoinCleared(TEST, PLAYER)];
  }

  lemma OtherJoin(s: System)
    requires s == INITIAL.(db := EMPTY_TABLES.(tests := map[TEST := OPEN_TEST]), nextId := 2,
                           processes := map[1 := JoinCleared(TEST, PLAYER)])
    ensures Joined(Apply(s, JoinAtOnce(TEST, PLAYER)))
  {
    assert !HasCompleted(s.db, TEST, PLAYER) && !HasActive(s.db, TEST, PLAYER);
    assert SlotFree(s.db, s.now, TEST);
  }

  lemma JoinedIsReached() returns (s: System)
    ensures Leads(INITIAL, s) && Joined(s)
  {
    hide Leads, Apply;
    OpeningIs();
    OpeningIsReached();
    var s0 := Opening();
    CheckPasses(s0);
    var s2 := Apply(Apply(s0, Join(TEST, PLAYER)), Advance(1));
    LeadsStep(INITIAL, s0, Join(TEST, PLAYER));
    LeadsStep(INITIAL, Apply(s0, Join(TEST, PLAYER)), Advance(1));
    OtherJoin(s2);
    s := Apply(s2, JoinAtOnce(TEST, PLAYER));
    LeadsStep(INITIAL, s2, JoinAtOnce(TEST, PLAYER));
  }

  /** The first session was found valid; the stale join is still about to reserve. */
  ghost predicate FirstValid(s: System) {
    && s.nextId == 9 && s.heartbeats == {} && s.processes == map[1 := JoinCleared(TEST, PLAYER)]
    && s.db.tests == map[TEST := OPEN_TEST.(slotsTaken := 1)]
    && s.db.participations == map[FIRST := ParticipationRow(TEST, PLAYER, Completed)]
    && s.db.sessions.Keys == {4} && s.db.sessions[4].participationId == FIRST
    && s.db.validations.Keys == {4} && s.db.recordings == map[]
  }

  ghost predicate FirstFinished(s: System) {
    && s.nextId == 6 && s.heartbeats == {} && s.processes == map[1 := JoinCleared(TEST, PLAYER)]
    && s.db.tests == map[TEST := OPEN_TEST.(slotsTaken := 1)]
    && s.db.participations == map[FIRST := ParticipationRow(TEST, PLAYER, InReview)]
    && s.db.sessions == map[4 := SessionRow(FIRST, TEST, STUDIO, Processing, 0, Some(1), Some(1))]
    && s.db.validations == map[] && s.db.recordings == map[]
  }

  lemma FirstFinishes(s: System) returns (s': System)
    requires Leads(INITIAL, s) && Joined(s)
    ensures Leads(INITIAL, s') && FirstFinished(s')
  {
    hide Leads, Begin, FinishScene;
    BeginIs(s, FIRST);
    BeginIsReached(INITIAL, s, FIRST);
    var s1 := Begin(s, FIRST);
    assert s1.db.sessions == map[4 := SessionRow(FIRST, TEST, STUDIO, Starting, 0, None, None)];
    FinishSceneIs(s1, 4);
    ScenesAreReached(INITIAL, s1, 4);
    s' := FinishScene(s1, 4);
    assert s'.db.participations == map[FIRST := ParticipationRow(TEST, PLAYER, InReview)];
    assert s'.db.sessions == map[4 := SessionRow(FIRST, TEST, STUDIO, Processing, 0, Some(1), Some(1))];
  }

  lemma FirstIsJudged(s: System) returns (s': System)
    requires Leads(INITIAL, s) && FirstFinished(s)
    ensures Leads(INITIAL, s') && FirstValid(s')
  {
    hide Leads, SweepScene, JudgeScene, Grace;
    SweepSceneIs(s, 4);
    ScenesAreReached(INITIAL, s, 4);
    var s1 := SweepScene(s, 4);
    JudgeSceneIs(s1, 4);
    ScenesAreReached(INITIAL, s1, 4);
    s' := JudgeScene(s1, 4);
    ValidCommit(s1.db, s'.db);
  }

  /** The commit of a valid verdict on the first session. */
  lemma ValidCommit(t: Tables, t': Tables)
    requires t.participations == map[FIRST := ParticipationRow(TEST, PLAYER, InReview)]
    requires t.sessions == map[4 := SessionRow(FIRST, TEST, STUDIO, Processing, 0, Some(1), Some(1))]
    requires t.validations == map[] && t.recordings == map[]
    requires exists rewarded, n ::
               t' == CommitVerdict(t, 4, t.sessions[4], Verdict(t.sessions[4], HasFailedRecording(t, 4)), rewarded, n)
    ensures t'.tests == t.tests && t'.recordings == map[] && t'.validations.Keys == {4}
    ensures t'.participations == map[FIRST := ParticipationRow(TEST, PLAYER, Completed)]
    ensures t'.sessions.Keys == {4} && t'.sessions[4].participationId == FIRST
  {
    assert !HasFailedRecording(t, 4);
    assert t.participations[FIRST := ParticipationRow(TEST, PLAYER, Completed)]
           == map[FIRST := ParticipationRow(TEST, PLAYER, Completed)];
  }

  /** The stale join has reserved. */
  ghost predicate Rejoined(s: System) {
    && s.nextId == 10 && s.heartbeats == {} && s.processes == map[]
    && s.db.tests == map[TEST := OPEN_TEST.(slotsTaken := 2)]
    && s.db.participations == map[FIRST := ParticipationRow(TEST, PLAYER, Completed),
                                  SECOND := ParticipationRow(TEST, PLAYER, Reserved)]
    && s.db.sessions.Keys == {4} && s.db.sessions[4].participationId == FIRST && s.db.validations.Keys == {4}
    && s.db.recordings == map[]
  }

  lemma StaleJoinReserves(s: System) returns (s': System)
    requires Leads(INITIAL, s) && FirstValid(s)
    ensures Leads(INITIAL, s') && Rejoined(s')
  {
    LeadsStep(INITIAL, s, Advance(1));
    hide Leads;
    s' := Apply(s, Advance(1));
    assert !HasActive(s.db, TEST, PLAYER) && SlotFree(s.db, s.now, TEST);
    assert s.processes - {1} == map[];
    assert s.db.tests[TEST := OPEN_TEST.(slotsTaken := 2)] == map[TEST := OPEN_TEST.(slotsTaken := 2)];
  }

  ghost predicate SecondTimedOut(s: System) {
    && s.nextId == 13 && s.processes == map[]
    && s.db.tests == map[TEST := OPEN_TEST.(slotsTaken := 2)]
    && s.db.participations == map[FIRST := ParticipationRow(TEST, PLAYER, Completed),
                                  SECOND := ParticipationRow(TEST, PLAYER, Playing)]
    && 11 in s.db.sessions && s.db.sessions[11].participationId == SECOND && s.db.sessions[11].status.Invalidated?
    && s.db.sessions[11].endedAt.Some? && s.db.validations.Keys == {4}
  }

  lemma SecondTimesOut(s: System) returns (s': System)
    requires Leads(INITIAL, s) && Rejoined(s)
    ensures Leads(INITIAL, s') && SecondTimedOut(s')
  {
    hide Leads, Begin, TimeOutScene;
    assert !HasRunningSession(s.db, SECOND);
    BeginIs(s, SECOND);
    BeginIsReached(INITIAL, s, SECOND);
    var s1 := Begin(s, SECOND);
    assert s1.db.sessions[11].status.Starting?;
    TimeOutSceneIs(s1, 11);
    ScenesAreReached(INITIAL, s1, 11);
    s' := TimeOutScene(s1, 11);
    assert s1.db.participations == map[FIRST := ParticipationRow(TEST, PLAYER, Completed),
                                       SECOND := ParticipationRow(TEST, PLAYER, Playing)];
  }

  /** Offered, and refused: the test is open, the newest participation rejected, an older one completed. */
  ghost predicate OfferedAndRefused(s: System) {
    && s.db.tests == map[TEST := OPEN_TEST.(slotsTaken := 2)]
    && s.db.participations == map[FIRST := ParticipationRow(TEST, PLAYER, Completed),
                                  SECOND := ParticipationRow(TEST, PLAYER, Rejected)]
  }

  lemma SecondIsJudged(s: System) returns (s': System)
    requires Leads(INITIAL, s) && SecondTimedOut(s)
    ensures Leads(INITIAL, s') && OfferedAndRefused(s')
  {
    hide Leads, SweepScene, JudgeScene, Grace;
    SweepSceneIs(s, 11);
    ScenesAreReached(INITIAL, s, 11);
    var s1 := SweepScene(s, 11);
    JudgeSceneIs(s1, 11);
    ScenesAreReached(INITIAL, s1, 11);
    s' := JudgeScene(s1, 11);
    RejectingCommit(s1.db, s'.db);
  }

  lemma RejectingCommit(t: Tables, t': Tables)
    requires t.participations == map[FIRST := ParticipationRow(TEST, PLAYER, Completed),
                                     SECOND := ParticipationRow(TEST, PLAYER, Playing)]
    requires 11 in t.sessions && t.sessions[11].participationId == SECOND && t.sessions[11].status.Invalidated?
    requires exists rewarded, n ::
               t' == CommitVerdict(t, 11, t.sessions[11], Verdict(t.sessions[11], HasFailedRecording(t, 11)), rewarded, n)
    ensures t'.tests == t.tests
    ensures t'.participations == map[FIRST := ParticipationRow(TEST, PLAYER, Completed),
                                     SECOND := ParticipationRow(TEST, PLAYER, Rejected)]
  {
    hide HasFailedRecording;
  }

  /** A reachable state in which the button says start and the join would be refused. */
  lemma OfferedJoinCanBeRefused() returns (s: System)
    ensures Reachable(s) && TEST in s.db.tests && NewestStatus(s.db, TEST, PLAYER, Some(Rejected))
    ensures TestCta(Some(Rejected), TestUnavailableReason(s.db.tests[TEST], s.now)).CtaStart?
    ensures !JoinPasses(s, TEST, PLAYER)
  {
    hide Leads, Joined, FirstFinished, FirstValid, Rejoined, SecondTimedOut;
    s := JoinedIsReached();
    s := FirstFinishes(s);
    s := FirstIsJudged(s);
    s := StaleJoinReserves(s);
    s := SecondTimesOut(s);
    s := SecondIsJudged(s);
    assert Reachable(s) by { LedIsReachable(s); }
    assert SamePair(s.db.participations[SECOND], TEST, PLAYER);
    assert IsNewest(s.db, TEST, PLAYER, SECOND);
    assert HasCompleted(s.db, TEST, PLAYER) by { assert SamePair(s.db.participations[FIRST], TEST, PLAYER); }
  }

  lemma LedIsReachable(s: System)
    requires Leads(INITIAL, s)
    ensures Reachable(s)
  {}
}
