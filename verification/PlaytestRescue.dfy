/**
 * Which sessions can still be judged. The backstop gives up on a validation job
 * after MAX_JOB_RUNS failed runs and settles nothing for its session: such a session
 * stays unjudged for good, and no other does.
 */
module PlaytestRescue {
  import opened Common
  import opened PlaytestTables
  import opened PlaytestProtocol
  import opened PlaytestInvariant
  import opened PlaytestSteps
  import opened PlaytestVerdicts
  import opened PlaytestScenes
  import opened PlaytestQueue
  import J = JobQueue

  ghost predicate CanBeJudged(c: Queued, i: Id) {
    exists actions :: i in QueueRun(c, actions).s.db.validations
  }

  /** The job used up its runs: nobody retries it. */
  ghost predicate Exhausted(c: Queued, i: Id) {
    i in c.jobs && c.jobs[i].state.FailedJob? && c.jobs[i].attemptsMade >= J.MAX_JOB_RUNS
  }

  lemma {:induction false} QueueRunParts(c: Queued, a: seq<QueueAction>, b: seq<QueueAction>)
    ensures QueueRun(c, a + b) == QueueRun(QueueRun(c, a), b)
    decreases |b|
  {
    hide QueueApply;
    if b == [] {
      assert a + b == a;
    } else {
      assert (a + b)[..|a + b| - 1] == a + b[..|b| - 1];
      QueueRunParts(c, a, b[..|b| - 1]);
    }
  }

  lemma RunOne(c: Queued, qa: QueueAction)
    ensures QueueRun(c, [qa]) == QueueApply(c, qa) && QueueRun(c, []) == c
  {
    hide QueueApply;
    assert [qa][..0] == [];
  }

  /** What can happen after one action can happen. */
  lemma OneActionEarlier(c: Queued, qa: QueueAction, i: Id)
    requires CanBeJudged(QueueApply(c, qa), i)
    ensures CanBeJudged(c, i)
  {
    hide QueueApply;
    var actions :| i in QueueRun(QueueApply(c, qa), actions).s.db.validations;
    RunOne(c, qa);
    QueueRunParts(c, [qa], actions);
    assert i in QueueRun(c, [qa] + actions).s.db.validations;
  }

  lemma AlreadyJudged(c: Queued, i: Id)
    requires i in c.s.db.validations
    ensures CanBeJudged(c, i)
  {
    assert QueueRun(c, []) == c;
  }

  /** The tables follow the protocol whatever the queue notes about it. */
  lemma StepIs(c: Queued, q: Id)
    ensures QueueApply(c, Other(Advance(q))).s == Apply(c.s, Advance(q))
  {
    hide Apply, Ensured, EnqueuedBy;
  }

  /** An action that ensures no job and moves no validation leaves the queue as it is. */
  lemma QuietIs(c: Queued, a: Action)
    requires !a.Deliver? && EnqueuedBy(c.s, a).None?
    requires a.Advance? && a.process in c.s.processes ==> !IsValidation(c.s.processes[a.process])
    requires a.Crash? && a.process in c.s.processes ==> !IsValidation(c.s.processes[a.process])
    ensures QueueApply(c, Other(a)) == c.(s := Apply(c.s, a))
  {
    hide Apply, EnqueuedBy;
  }

  /* ------------------------------- a validation in flight ------------------------------- */

  lemma FromTransaction(c: Queued, i: Id, q: Id)
    requires q in c.s.processes && c.s.processes[q].ValidateInTx? && c.s.processes[q].sessionId == i
    ensures CanBeJudged(c, i)
  {
    var p := c.s.processes[q];
    CommitRowsKept(c.s.db, p.sessionId, p.session, p.verdict, p.rewarded, c.s.nextId);
    StepIs(c, q);
    hide CommitVerdict, QueueApply, CanBeJudged;
    AlreadyJudged(QueueApply(c, Other(Advance(q))), i);
    OneActionEarlier(c, Other(Advance(q)), i);
  }

  lemma FromDecision(c: Queued, i: Id, q: Id)
    requires q in c.s.processes && c.s.processes[q].ValidateDecided? && c.s.processes[q].sessionId == i
    ensures CanBeJudged(c, i)
  {
    hide QueueApply, Rewarded, CanBeJudged;
    if GateHeld(c.s, i) {
      var p :| p in c.s.processes && c.s.processes[p].ValidateInTx? && c.s.processes[p].sessionId == i;
      FromTransaction(c, i, p);
    } else if i in c.s.db.validations {
      AlreadyJudged(c, i);
    } else {
      StepIs(c, q);
      FromTransaction(QueueApply(c, Other(Advance(q))), i, q);
      OneActionEarlier(c, Other(Advance(q)), i);
    }
  }

  lemma FromLoaded(c: Queued, i: Id, q: Id)
    requires q in c.s.processes && c.s.processes[q].ValidateLoaded? && c.s.processes[q].sessionId == i
    ensures CanBeJudged(c, i)
  {
    hide QueueApply, CanBeJudged, Verdict, HasFailedRecording;
    StepIs(c, q);
    FromDecision(QueueApply(c, Other(Advance(q))), i, q);
    OneActionEarlier(c, Other(Advance(q)), i);
  }

  lemma FromRead(c: Queued, i: Id, q: Id)
    requires i in c.s.db.sessions && q in c.s.processes && c.s.processes[q] == ValidateRead(i)
    ensures CanBeJudged(c, i)
  {
    hide QueueApply, CanBeJudged;
    StepIs(c, q);
    FromLoaded(QueueApply(c, Other(Advance(q))), i, q);
    OneActionEarlier(c, Other(Advance(q)), i);
  }

  lemma FromFlight(c: Queued, i: Id)
    requires i in c.s.db.sessions && InFlight(c.s, i)
    ensures CanBeJudged(c, i)
  {
    hide CanBeJudged;
    var q :| q in c.s.processes && Validating(c.s.processes[q], i);
    match c.s.processes[q]
    case ValidateRead(_) => FromRead(c, i, q);
    case ValidateLoaded(_, _) => FromLoaded(c, i, q);
    case ValidateDecided(_, _, _) => FromDecision(c, i, q);
    case ValidateInTx(_, _, _, _) => FromTransaction(c, i, q);
  }

  /* --------------------------------- a job with runs left --------------------------------- */

  lemma FromWaiting(c: Queued, i: Id)
    requires i in c.s.db.sessions && i in c.jobs && c.jobs[i].state.Waiting? && i in c.s.jobs
    ensures CanBeJudged(c, i)
  {
    hide QueueApply, CanBeJudged;
    if i in c.s.db.validations {
      AlreadyJudged(c, i);
    } else {
      PickIs(c, i);
      FromRead(QueueApply(c, Pick(i)), i, c.s.nextId);
      OneActionEarlier(c, Pick(i), i);
    }
  }

  ghost predicate HasRuns(c: Queued, i: Id) {
    i in c.jobs ==> c.jobs[i].state.FailedJob? && c.jobs[i].attemptsMade < J.MAX_JOB_RUNS
  }

  /** The step that ensures a job with runs left makes it wait. */
  lemma FromEnsuring(c: Queued, i: Id, q: Id)
    requires i in c.s.db.sessions && HasRuns(c, i) && EnqueuedBy(c.s, Advance(q)) == Some(i)
    ensures CanBeJudged(c, i)
  {
    hide CanBeJudged;
    var c' := QueueApply(c, Other(Advance(q)));
    EnsuredIs(c.jobs, Some(i), i);
    ApplyJobs(c.s, Advance(q));
    OtherIs(c, Advance(q), i);
    hide QueueApply, Ensured;
    assert ServedBy(c, q).None? && c'.s.db.sessions == c.s.db.sessions by { EnsuringIsQuiet(c, q); }
    FromWaiting(c', i);
    OneActionEarlier(c, Other(Advance(q)), i);
  }

  lemma EnsuringIsQuiet(c: Queued, q: Id)
    requires EnqueuedBy(c.s, Advance(q)).Some?
    ensures ServedBy(c, q).None? && Apply(c.s, Advance(q)).db == c.s.db
    ensures QueueApply(c, Other(Advance(q))).s == Apply(c.s, Advance(q))
  {
    StepIs(c, q);
  }

  lemma FromSweep(c: Queued, i: Id, q: Id)
    requires i in c.s.db.sessions && HasRuns(c, i) && q in c.s.processes && c.s.processes[q] == SweepClosed([i])
    ensures CanBeJudged(c, i)
  {
    hide CanBeJudged, HasRuns;
    FromEnsuring(c, i, q);
  }

  /** The sweep over unvalidated sessions lists `i` once its grace period is over. */
  lemma ListingIs(c: Queued, i: Id)
    requires Listable(c.s, i)
    ensures var waited := c.(s := c.s.(now := c.s.now + Grace(c.s, i)));
            && QueueApply(c, Other(Tick(Grace(c.s, i)))) == waited
            && QueueApply(waited, Other(ReconcileUnvalidated([i]))) == waited.(s := Spawn(waited.s, SweepClosed([i])))
  {
    var waited := c.(s := c.s.(now := c.s.now + Grace(c.s, i)));
    QuietIs(c, Tick(Grace(c.s, i)));
    QuietIs(waited, ReconcileUnvalidated([i]));
    assert Unvalidated(waited.s, i);
    hide QueueApply, Grace, Unvalidated;
  }

  lemma FromListable(c: Queued, i: Id)
    requires Listable(c.s, i) && HasRuns(c, i)
    ensures CanBeJudged(c, i)
  {
    hide CanBeJudged, QueueApply, HasRuns, Grace;
    ListingIs(c, i);
    var waited := c.(s := c.s.(now := c.s.now + Grace(c.s, i)));
    var swept := waited.(s := Spawn(waited.s, SweepClosed([i])));
    assert HasRuns(swept, i) by { SameJobs(c, swept, i); }
    FromSweep(swept, i, c.s.nextId);
    OneActionEarlier(waited, Other(ReconcileUnvalidated([i])), i);
    OneActionEarlier(c, Other(Tick(Grace(c.s, i))), i);
  }

  lemma SameJobs(c: Queued, c': Queued, i: Id)
    requires c'.jobs == c.jobs
    ensures HasRuns(c', i) == HasRuns(c, i)
  {}

  lemma ClosedIsListable(s: System, i: Id)
    requires Inv(s) && ClosedSession(s.db, i) && i !in s.db.validations
    ensures Listable(s, i)
  {
    assert InPhase(s.db, s.verdicts, i) && i !in s.verdicts && s.nextId !in s.processes by {
      hide OnlyNewestActive, OneSession, Slots, XpLedger, OneGate, InPhase, ProcessOk, ClosedSession;
    }
  }

  /** An open one is first timed out: its heartbeat runs out and the sweep closes it and ensures its job. */
  lemma FromOpen(c: Queued, i: Id)
    requires OpenSession(c.s.db, i) && HasRuns(c, i) && c.s.nextId !in c.s.processes
    ensures CanBeJudged(c, i)
  {
    hide CanBeJudged, QueueApply, HasRuns, TimeOut;
    var n := c.s.nextId;
    var c1 := c.(s := c.s.(heartbeats := c.s.heartbeats - {i}));
    QuietIs(c, ExpireHeartbeat(i));
    var c2 := c1.(s := Spawn(c1.s, SweepOpen([i])));
    QuietIs(c1, ReconcileTimedOut([i]));
    assert Apply(c1.s, ReconcileTimedOut([i])) == c2.s;
    SameJobs(c, c2, i);
    OpenListed(c2, i, n);
    OneActionEarlier(c1, Other(ReconcileTimedOut([i])), i);
    OneActionEarlier(c, Other(ExpireHeartbeat(i)), i);
  }

  lemma OpenListed(c: Queued, i: Id, q: Id)
    requires i in c.s.db.sessions && HasRuns(c, i) && i !in c.s.heartbeats
    requires q in c.s.processes && c.s.processes[q] == SweepOpen([i])
    ensures CanBeJudged(c, i)
  {
    hide CanBeJudged, QueueApply, HasRuns, TimeOut;
    assert [i][1..] == [];
    var c1 := c.(s := Become(c.s, q, SweepExpired(i, [])));
    QuietIs(c, Advance(q));
    assert Apply(c.s, Advance(q)) == c1.s;
    var c2 := c1.(s := Become(c1.s.(db := TimeOut(c1.s.db, i, c1.s.now)), q, SweepEnqueue(i, [])));
    QuietIs(c1, Advance(q));
    assert Apply(c1.s, Advance(q)) == c2.s;
    TimeOutRows(c1.s.db, i, c1.s.now);
    SameJobs(c, c2, i);
    FromEnsuring(c2, i, q);
    OneActionEarlier(c1, Other(Advance(q)), i);
    OneActionEarlier(c, Other(Advance(q)), i);
  }

  /* ---------------------------------- and without runs ---------------------------------- */

  /** Nothing judges it and nothing will. */
  ghost predicate Stranded(c: Queued, i: Id) {
    i !in c.s.db.validations && Exhausted(c, i) && !InFlight(c.s, i)
  }

  /** Only a delivery starts a validation. */
  lemma FlightFrom(s: System, a: Action, i: Id)
    ensures InFlight(Apply(s, a), i) && !InFlight(s, i) ==> a == Deliver(i)
  {
    var s' := Apply(s, a);
    if InFlight(s', i) && a != Deliver(i) {
      var q :| q in s'.processes && Validating(s'.processes[q], i);
      FlyingFrom(s, a, q, i);
    }
  }

  lemma StepFlies(s: System, q: Id, p: Id, i: Id)
    requires q in s.processes && p in Step(s, q).processes && Validating(Step(s, q).processes[p], i)
    ensures p in s.processes && Validating(s.processes[p], i)
  {
    hide StartSession, MarkRecording, TimeOut, FinishSession, CommitVerdict, Reserve, Verdict, Rewarded;
    hide HasCompleted, HasFailedRecording, GateHeld;
  }

  lemma FlyingFrom(s: System, a: Action, q: Id, i: Id)
    requires q in Apply(s, a).processes && Validating(Apply(s, a).processes[q], i) && a != Deliver(i)
    ensures q in s.processes && Validating(s.processes[q], i)
  {
    hide Step;
    if a.Advance? {
      if a.process in s.processes { StepFlies(s, a.process, q, i); }
    } else {
      hide Reserve, RateSession, HasCompleted, SessionOf, TestOpen, Unvalidated, OpenSession;
    }
  }

  /** Only a validation in flight validates. */
  lemma ValidationFrom(s: System, a: Action, i: Id)
    requires Inv(s)
    ensures i in Apply(s, a).db.validations && i !in s.db.validations ==> InFlight(s, i)
  {
    hide Apply;
    ApplyKeeps(s, a);
    VerdictFrom(s, a, i);
    KnownFinishes(s);
    KnownFinishes(Apply(s, a));
    hide Inv;
  }

  lemma StrandedStaysOther(c: Queued, a: Action, i: Id)
    requires QueueInv(c) && Stranded(c, i) && !a.Deliver? && !(a.Crash? && ServedBy(c, a.process).Some?)
    ensures Stranded(QueueApply(c, Other(a)), i)
  {
    assert JobFits(c, i);
    OtherIs(c, a, i);
    EnsuredIs(c.jobs, EnqueuedBy(c.s, a), i);
    hide QueueApply, Apply, Ensured, EnqueuedBy, Inv, InFlight, Validating;
    FlightFrom(c.s, a, i);
    ValidationFrom(c.s, a, i);
  }

  lemma StrandedStaysPicked(c: Queued, j: Id, i: Id)
    requires QueueInv(c) && Stranded(c, i)
    ensures Stranded(QueueApply(c, Pick(j)), i)
  {
    hide Apply, Inv, InFlight, Validating, RunFits;
    FlightFrom(c.s, Deliver(j), i);
    ValidationFrom(c.s, Deliver(j), i);
  }

  lemma StrandedStaysThrown(c: Queued, j: Id, i: Id)
    requires QueueInv(c) && Stranded(c, i)
    ensures Stranded(QueueApply(c, Throw(j)), i)
  {
    assert JobFits(c, i);
    hide Apply, Inv, InFlight, Validating, CountFits;
    if j in c.runs {
      FlightFrom(c.s, Crash(c.runs[j]), i);
      ValidationFrom(c.s, Crash(c.runs[j]), i);
    }
  }

  lemma StrandedStaysLost(c: Queued, j: Id, i: Id)
    requires QueueInv(c) && Stranded(c, i)
    ensures Stranded(QueueApply(c, LoseTrack(j)), i)
  {
    assert JobFits(c, i);
    hide Inv, InFlight, Validating, CountFits;
  }

  lemma StrandedStays(c: Queued, qa: QueueAction, i: Id)
    requires QueueInv(c) && Stranded(c, i)
    ensures Stranded(QueueApply(c, qa), i)
  {
    hide QueueInv, Stranded, Apply;
    match qa
    case Other(a) => if !a.Deliver? && !(a.Crash? && ServedBy(c, a.process).Some?) { StrandedStaysOther(c, a, i); }
    case Pick(j) => StrandedStaysPicked(c, j, i);
    case Throw(j) => StrandedStaysThrown(c, j, i);
    case LoseTrack(j) => StrandedStaysLost(c, j, i);
  }

  lemma {:induction false} StrandedForever(c: Queued, actions: seq<QueueAction>, i: Id)
    requires QueueInv(c) && Stranded(c, i)
    ensures QueueInv(QueueRun(c, actions)) && Stranded(QueueRun(c, actions), i)
    decreases |actions|
  {
    if actions != [] {
      hide QueueInv, QueueApply, Stranded;
      StrandedForever(c, actions[..|actions| - 1], i);
      StrandedStays(QueueRun(c, actions[..|actions| - 1]), actions[|actions| - 1], i);
      QueueApplyKeeps(QueueRun(c, actions[..|actions| - 1]), actions[|actions| - 1]);
    }
  }

  lemma StillPossible(c: Queued, i: Id)
    requires QueueInv(c) && i in c.s.db.sessions && !Stranded(c, i)
    ensures CanBeJudged(c, i)
  {
    assert JobFits(c, i);
    if i in c.s.db.validations {
      AlreadyJudged(c, i);
    } else if InFlight(c.s, i) {
      FromFlight(c, i);
    } else if i in c.jobs && c.jobs[i].state.Waiting? {
      FromWaiting(c, i);
    } else {
      assert HasRuns(c, i);
      hide CanBeJudged, RunFits;
      assert c.s.nextId !in c.s.processes && (i in c.jobs ==> ClosedSession(c.s.db, i)) by { SystemFacts(c.s); }
      if OpenSession(c.s.db, i) { FromOpen(c, i); }
      else {
        ClosedIsListable(c.s, i);
        FromListable(c, i);
      }
    }
  }

  /**
   * In every reachable state, after any crashes and failed runs, a session can still
   * be judged if and only if it is judged already, or its validation job has not
   * used up its runs, or a validation of it is still in flight.
   */
  lemma JudgeableExactlyWhen(c: Queued, i: Id)
    requires QueueReachable(c) && i in c.s.db.sessions
    ensures CanBeJudged(c, i) <==> i in c.s.db.validations || !Exhausted(c, i) || InFlight(c.s, i)
  {
    QueueReachableOk(c);
    hide QueueInv;
    if Stranded(c, i) {
      forall actions ensures i !in QueueRun(c, actions).s.db.validations { StrandedForever(c, actions, i); }
    } else {
      StillPossible(c, i);
    }
  }

  /* ------------------------------ a session that gets stranded ------------------------------ */

  ghost predicate QueueLeads(c: Queued, c': Queued) { exists actions :: QueueRun(c, actions) == c' }

  lemma QueueLeadsStep(c: Queued, m: Queued, qa: QueueAction)
    requires QueueLeads(c, m)
    ensures QueueLeads(c, QueueApply(m, qa))
  {
    hide QueueApply;
    var actions :| QueueRun(c, actions) == m;
    assert (actions + [qa])[..|actions|] == actions;
    assert QueueRun(c, actions + [qa]) == QueueApply(m, qa);
  }

  lemma QuietLeads(c: Queued, m: Queued, a: Action)
    requires QueueLeads(c, m)
    requires !a.Deliver? && EnqueuedBy(m.s, a).None?
    requires a.Advance? && a.process in m.s.processes ==> !IsValidation(m.s.processes[a.process])
    requires a.Crash? && a.process in m.s.processes ==> !IsValidation(m.s.processes[a.process])
    ensures QueueLeads(c, m.(s := Apply(m.s, a)))
  {
    hide QueueLeads, QueueApply, Apply, EnqueuedBy;
    QuietIs(m, a);
    QueueLeadsStep(c, m, Other(a));
  }

  ghost predicate NewIds(s: System) { forall q :: q in s.processes ==> q < s.nextId }

  /** Waiting to be ensured again, with nothing in flight. */
  ghost predicate Idle(c: Queued, i: Id) {
    && NewIds(c.s) && Listable(c.s, i) && !InFlight(c.s, i) && (i in c.jobs ==> c.jobs[i].state.FailedJob?)
  }

  function FailuresOf(c: Queued, i: Id): nat { if i in c.jobs then c.jobs[i].attemptsMade else 0 }

  /** The sweep ensures the job, and its run is picked and dies. */
  lemma SweptAndDied(c0: Queued, c: Queued, i: Id) returns (c': Queued)
    requires QueueLeads(c0, c) && Idle(c, i) && HasRuns(c, i)
    ensures QueueLeads(c0, c') && Idle(c', i) && i in c'.jobs && FailuresOf(c', i) == FailuresOf(c, i) + 1
  {
    hide QueueLeads, Grace;
    var n := c.s.nextId;
    ListingIs(c, i);
    var waited := c.(s := c.s.(now := c.s.now + Grace(c.s, i)));
    QueueLeadsStep(c0, c, Other(Tick(Grace(c.s, i))));
    var swept := waited.(s := Spawn(waited.s, SweepClosed([i])));
    QueueLeadsStep(c0, waited, Other(ReconcileUnvalidated([i])));
    EnsuredBySweep(c, swept, i, n);
    var ensured := QueueApply(swept, Other(Advance(n)));
    QueueLeadsStep(c0, swept, Other(Advance(n)));
    PickedAndDied(ensured, i);
    c' := QueueApply(QueueApply(ensured, Pick(i)), Throw(i));
    hide QueueApply;
    QueueLeadsStep(c0, ensured, Pick(i));
    QueueLeadsStep(c0, QueueApply(ensured, Pick(i)), Throw(i));
  }

  /** The job waits, with nothing in flight. */
  ghost predicate IdleWaiting(c: Queued, i: Id) {
    && NewIds(c.s) && Listable(c.s, i) && !InFlight(c.s, i)
    && i in c.jobs && c.jobs[i].state.Waiting? && i in c.s.jobs
  }

  lemma EnsuredBySweep(c: Queued, swept: Queued, i: Id, n: Id)
    requires Idle(c, i) && HasRuns(c, i) && n !in c.s.processes && swept.jobs == c.jobs
    requires swept.s == Spawn(c.s.(now := swept.s.now), SweepClosed([i])) && n == c.s.nextId
    ensures var ensured := QueueApply(swept, Other(Advance(n)));
            IdleWaiting(ensured, i) && FailuresOf(ensured, i) == FailuresOf(c, i)
  {
    assert [i][1..] == [];
    EnsuredIs(swept.jobs, Some(i), i);
    OtherIs(swept, Advance(n), i);
    var after := Become(swept.s.(jobs := swept.s.jobs + {i}), n, SweepClosed([]));
    assert Apply(swept.s, Advance(n)) == after;
    assert EnqueuedBy(swept.s, Advance(n)) == Some(i) && ServedBy(swept, n).None?;
    hide QueueApply, Apply, Ensured, EnqueuedBy, ServedBy;
  }

  lemma PickedAndDied(c: Queued, i: Id)
    requires IdleWaiting(c, i)
    ensures var c' := QueueApply(QueueApply(c, Pick(i)), Throw(i));
            Idle(c', i) && i in c'.jobs && FailuresOf(c', i) == FailuresOf(c, i) + 1
  {
    PickIs(c, i);
    var n := c.s.nextId;
    var picked := QueueApply(c, Pick(i));
    var c' := QueueApply(picked, Throw(i));
    assert Apply(picked.s, Crash(n)) == c.s.(nextId := n + 1) by { assert picked.s.processes - {n} == c.s.processes; }
    hide Apply, QueueApply;
  }

  /** Runs that die can use up the job of any idle session. */
  lemma {:induction false} DiesToTheEnd(c0: Queued, c: Queued, i: Id) returns (c': Queued)
    requires QueueLeads(c0, c) && Idle(c, i)
    ensures QueueLeads(c0, c') && i in c'.s.db.sessions && Stranded(c', i)
    decreases J.MAX_JOB_RUNS - FailuresOf(c, i)
  {
    hide QueueLeads;
    if HasRuns(c, i) {
      var next := SweptAndDied(c0, c, i);
      c' := DiesToTheEnd(c0, next, i);
    } else {
      c' := c;
    }
  }

  lemma QuietBegin(c0: Queued, c: Queued, p: Id)
    requires QueueLeads(c0, c) && CanStart(c.s, p)
    ensures QueueLeads(c0, c.(s := Begin(c.s, p)))
  {
    hide QueueLeads, QueueApply;
    var n, row := c.s.nextId, c.s.db.participations[p];
    var a := Start(p, row.userId, true, true);
    QuietLeads(c0, c, a);
    var s1 := Apply(c.s, a);
    assert s1.processes == c.s.processes[n := StartReady(p, row.testId, c.s.db.tests[row.testId].organizationId)];
    QuietLeads(c0, c.(s := s1), Advance(n));
    var s2 := Apply(s1, Advance(n));
    assert s2.processes == s1.processes[n := StartTouch(n + 1)];
    QuietLeads(c0, c.(s := s2), Crash(n));
    hide Apply;
  }

  lemma QuietExpiry(c0: Queued, c: Queued, i: Id, n: Id)
    requires QueueLeads(c0, c) && n in c.s.processes && c.s.processes[n] == SweepExpired(i, [])
    ensures QueueLeads(c0, c.(s := Apply(Apply(c.s, Advance(n)), Crash(n))))
  {
    hide QueueLeads, QueueApply, TimeOut;
    QuietLeads(c0, c, Advance(n));
    var s3 := Apply(c.s, Advance(n));
    assert s3.processes == c.s.processes[n := SweepEnqueue(i, [])];
    QuietLeads(c0, c.(s := s3), Crash(n));
    hide Apply;
  }

  lemma QuietTimeOut(c0: Queued, c: Queued, i: Id)
    requires QueueLeads(c0, c) && OpenSession(c.s.db, i) && i !in c.s.heartbeats && c.s.nextId !in c.s.processes
    ensures QueueLeads(c0, c.(s := TimeOutScene(c.s, i)))
  {
    hide QueueLeads, QueueApply, TimeOut;
    var n := c.s.nextId;
    assert [i][1..] == [];
    QuietLeads(c0, c, ReconcileTimedOut([i]));
    var s1 := Apply(c.s, ReconcileTimedOut([i]));
    assert s1.processes == c.s.processes[n := SweepOpen([i])] && s1.heartbeats == c.s.heartbeats;
    QuietLeads(c0, c.(s := s1), Advance(n));
    var s2 := Apply(s1, Advance(n));
    assert s2.processes == s1.processes[n := SweepExpired(i, [])];
    QuietExpiry(c0, c.(s := s2), i, n);
    hide Apply;
  }

  lemma QuietOpening()
    ensures QueueLeads(START, START.(s := Opening()))
  {
    hide QueueLeads, QueueApply;
    assert QueueLeads(START, START) by { NowhereLeads(START); }
    QuietLeads(START, START, CreateTest(STUDIO));
    QuietLeads(START, START.(s := Apply(INITIAL, CreateTest(STUDIO))), UpdateTest(TEST, Published, None, 3));
    hide Apply;
  }

  lemma NowhereLeads(c: Queued)
    ensures QueueLeads(c, c)
  {
    assert QueueRun(c, []) == c;
  }

  /** A player has joined the test, and nothing else is going on. */
  ghost predicate OneJoined(s: System) {
    && s.now == 0 && s.nextId == 2 && s.heartbeats == {} && s.jobs == {} && s.processes == map[]
    && s.db == EMPTY_TABLES.(tests := map[TEST := OPEN_TEST.(slotsTaken := 1)],
                             participations := map[1 := ParticipationRow(TEST, PLAYER, Reserved)])
  }

  lemma JoinIs(s: System)
    requires s == INITIAL.(db := EMPTY_TABLES.(tests := map[TEST := OPEN_TEST]), nextId := 1)
    ensures OneJoined(Apply(s, JoinAtOnce(TEST, PLAYER)))
  {
    assert !HasCompleted(s.db, TEST, PLAYER) && !HasActive(s.db, TEST, PLAYER);
    assert SlotFree(s.db, s.now, TEST);
  }

  lemma QuietJoin(c: Queued) returns (c': Queued)
    requires QueueLeads(START, c) && c == START.(s := Opening())
    ensures QueueLeads(START, c') && OneJoined(c'.s) && c'.jobs == map[]
  {
    hide QueueLeads, QueueApply, Apply, Opening, OneJoined;
    OpeningIs();
    JoinIs(c.s);
    QuietLeads(START, c, JoinAtOnce(TEST, PLAYER)) by { assert EnqueuedBy(c.s, JoinAtOnce(TEST, PLAYER)).None?; }
    c' := c.(s := Apply(c.s, JoinAtOnce(TEST, PLAYER)));
  }

  lemma TimedOutIdle(c: Queued) returns (c': Queued)
    requires QueueLeads(START, c) && OneJoined(c.s) && c.jobs == map[]
    ensures QueueLeads(START, c') && Idle(c', 3)
  {
    hide QueueLeads, QueueApply, Apply, Begin, TimeOutScene;
    BeginIs(c.s, 1);
    QuietBegin(START, c, 1);
    var begun := c.(s := Begin(c.s, 1));
    assert begun.s.db.sessions[3].status.Starting?;
    TimeOutSceneIs(begun.s, 3);
    QuietTimeOut(START, begun, 3);
    c' := begun.(s := TimeOutScene(begun.s, 3));
  }

  /** A reachable state with a session that no run judges any more. */
  lemma SomeSessionIsStranded() returns (c: Queued, i: Id)
    ensures QueueReachable(c) && i in c.s.db.sessions && i !in c.s.db.validations && !CanBeJudged(c, i)
  {
    hide QueueLeads, Idle, OneJoined, CanBeJudged, Opening;
    QuietOpening();
    c := QuietJoin(START.(s := Opening()));
    c := TimedOutIdle(c);
    i := 3;
    c := DiesToTheEnd(START, c, i);
    assert QueueReachable(c) by { LedIsQueueReachable(c); }
    JudgeableExactlyWhen(c, i);
  }

  lemma LedIsQueueReachable(c: Queued)
    requires QueueLeads(START, c)
    ensures QueueReachable(c)
  {}
}
