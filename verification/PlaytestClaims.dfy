/**
 * What finishing credits, over whole runs: the play time a session is judged by is the
 * time its player claimed, as far as that much time had gone by.
 */
module PlaytestClaims {
  import opened Common
  import opened PlaytestTables
  import opened PlaytestProtocol
  import opened PlaytestInvariant
  import opened PlaytestSteps
  import opened PlaytestChanges
  import opened PlaytestVerdicts

  /** A finish request: the play time it claims, and when it was made. */
  datatype Claim = Claim(tMs: int, at: int)

  /** As history, the claims of the requests, and the claim each session was finished with. */
  datatype Claims = Claims(requests: map<Id, Claim>, finishedBy: map<Id, Claim>)

  function ClaimsApply(c: Claims, s: System, a: Action): Claims {
    match a
    case Finish(_, _, tMs) => c.(requests := c.requests[s.nextId := Claim(tMs, s.now)])
    case Advance(q) =>
      if q in s.processes && s.processes[q].FinishRead? && OpenSession(s.db, s.processes[q].sessionId) && q in c.requests
      then c.(finishedBy := c.finishedBy[s.processes[q].sessionId := c.requests[q]]) else c
    case _ => c
  }

  function ClaimsOf(actions: seq<Action>): Claims
    decreases |actions|
  {
    if actions == [] then Claims(map[], map[])
    else
      var before := actions[..|actions| - 1];
      ClaimsApply(ClaimsOf(before), Run(INITIAL, before), actions[|actions| - 1])
  }

  ghost predicate RequestFits(c: Claims, s: System, q: Id)
    requires q in s.processes
  {
    var p := s.processes[q];
    p.FinishRead? ==>
      && q in c.requests && p.endedAt == c.requests[q].at && p.sessionId in s.db.sessions
      && Credited(p.durationMs, c.requests[q].tMs, c.requests[q].at - s.db.sessions[p.sessionId].startedAt)
  }

  ghost predicate SessionFits(c: Claims, s: System, i: Id)
    requires i in s.db.sessions
  {
    var row := s.db.sessions[i];
    && (i in c.finishedBy <==> row.durationMs.Some?)
    && (row.durationMs.Some? ==>
          && !StillOpen(s.db, i) && row.endedAt == Some(c.finishedBy[i].at)
          && Credited(row.durationMs.value, c.finishedBy[i].tMs, c.finishedBy[i].at - row.startedAt))
  }

  ghost predicate ClaimsFit(c: Claims, s: System) {
    && (forall q :: q in s.processes ==> RequestFits(c, s, q))
    && (forall i :: i in s.db.sessions ==> SessionFits(c, s, i))
    && c.finishedBy.Keys <= s.db.sessions.Keys
  }

  /** A finish past its read is a request of this moment or was there before. */
  lemma FinishesFrom(s: System, a: Action, q: Id)
    requires Inv(s)
    ensures var s' := Apply(s, a);
            q in s'.processes && s'.processes[q].FinishRead? ==>
              || (q in s.processes && s'.processes[q] == s.processes[q] && (a == Advance(q) ==> s' == s))
              || (a.Finish? && q == s.nextId && Owned(s.db, a.sessionId, a.userId)
                  && s'.processes[q].sessionId == a.sessionId && s'.processes[q].endedAt == s.now
                  && Credited(s'.processes[q].durationMs, a.tMs, s.now - s.db.sessions[a.sessionId].startedAt))
  {
    FreshIds(s);
    hide Inv, Step;
    if a.Advance? {
      if a.process in s.processes { StepProcesses(s, a.process); }
    } else {
      hide Apply;
      GoesAhead(s, a);
      ActionProcesses(s, a);
    }
  }

  lemma RequestStaysFit(c: Claims, s: System, a: Action, q: Id)
    requires Inv(s) && ClaimsFit(c, s) && q in Apply(s, a).processes
    ensures RequestFits(ClaimsApply(c, s, a), Apply(s, a), q)
  {
    hide Inv, Apply, Credited, SessionFits;
    var p := Apply(s, a).processes[q];
    if p.FinishRead? {
      FinishesFrom(s, a, q);
      FreshIds(s);
      if q in s.processes { assert RequestFits(c, s, q); }
      SessionChanges(s, a, p.sessionId);
    }
  }

  lemma SessionStaysFit(c: Claims, s: System, a: Action, i: Id)
    requires Inv(s) && ClaimsFit(c, s) && i in Apply(s, a).db.sessions
    ensures SessionFits(ClaimsApply(c, s, a), Apply(s, a), i)
  {
    hide Inv, Apply, Credited;
    if i in s.db.sessions {
      assert SessionFits(c, s, i);
      SessionChanges(s, a, i);
      if Advanced(s, a).Some? && Advanced(s, a).value.FinishRead? { assert RequestFits(c, s, a.process); }
    } else {
      SessionAppears(s, a, i);
    }
  }

  lemma ClaimsStayFit(c: Claims, s: System, a: Action)
    requires Inv(s) && ClaimsFit(c, s)
    ensures ClaimsFit(ClaimsApply(c, s, a), Apply(s, a))
  {
    var c', s' := ClaimsApply(c, s, a), Apply(s, a);
    hide Inv, Apply, SessionFits, RequestFits;
    forall q | q in s'.processes ensures RequestFits(c', s', q) { RequestStaysFit(c, s, a, q); }
    forall i | i in s'.db.sessions ensures SessionFits(c', s', i) { SessionStaysFit(c, s, a, i); }
    forall i | i in s.db.sessions ensures i in s'.db.sessions { SessionChanges(s, a, i); }
  }

  lemma {:induction false} ClaimsFitAlways(actions: seq<Action>)
    ensures Inv(Run(INITIAL, actions)) && ClaimsFit(ClaimsOf(actions), Run(INITIAL, actions))
    decreases |actions|
  {
    InitialOk();
    RunKeeps(INITIAL, actions);
    if actions != [] {
      var before := actions[..|actions| - 1];
      hide Inv, Apply, ClaimsFit, ClaimsApply;
      ClaimsFitAlways(before);
      ClaimsStayFit(ClaimsOf(before), Run(INITIAL, before), actions[|actions| - 1]);
    }
  }

  /**
   * After every run: a session has a play time exactly when a finish request closed it,
   * and that is the time the request claimed, or, if less had gone by since the session
   * started, what had; its end is when the request was made.
   */
  lemma FinishedAsClaimed(actions: seq<Action>, i: Id)
    requires i in Run(INITIAL, actions).db.sessions
    ensures var (row, finishedBy) := (Run(INITIAL, actions).db.sessions[i], ClaimsOf(actions).finishedBy);
            && (row.durationMs.Some? <==> i in finishedBy)
            && (i in finishedBy ==>
                  var (claimed, elapsed) := (finishedBy[i].tMs, finishedBy[i].at - row.startedAt);
                  && row.endedAt == Some(finishedBy[i].at)
                  && row.durationMs.value <= claimed && (row.durationMs.value <= elapsed || row.durationMs.value <= 0)
                  && (row.durationMs.value == claimed || row.durationMs.value == if elapsed < 0 then 0 else elapsed))
  {
    hide Inv, Run, ClaimsOf;
    ClaimsFitAlways(actions);
    assert SessionFits(ClaimsOf(actions), Run(INITIAL, actions), i);
  }

  /**
   * After every run a session is valid exactly when its player finished it with a
   * positive claim after a positive time, and the job that judged it saw no failed
   * recording; the reasons of the other verdicts say which of these failed first.
   */
  lemma ValidExactlyAsClaimed(actions: seq<Action>, i: Id)
    requires i in Run(INITIAL, actions).verdicts
    ensures var (s, finishedBy, judgedOn) := (Run(INITIAL, actions), ClaimsOf(actions).finishedBy, WatchedRun(actions).judgedOn);
            && i in s.db.sessions && i in judgedOn
            && var played := i in finishedBy && 0 < finishedBy[i].tMs && s.db.sessions[i].startedAt < finishedBy[i].at;
               && (s.verdicts[i].valid <==> played && !judgedOn[i])
               && (s.verdicts[i].reason == Some(TIMEOUT_REASON) <==> i !in finishedBy)
               && (s.verdicts[i].reason == Some(NO_DURATION_REASON) <==> i in finishedBy && !played)
               && (s.verdicts[i].reason == Some(RECORDING_REASON) <==> played && judgedOn[i])
  {
    hide Inv, Run, ClaimsOf, WatchedRun;
    VerdictsTellWhatWasSeen(actions, i);
    assert Reachable(Run(INITIAL, actions));
    VerdictsTellThePlay(Run(INITIAL, actions), i);
    FinishedAsClaimed(actions, i);
  }
}
