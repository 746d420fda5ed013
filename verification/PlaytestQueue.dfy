/**
 * The lifecycle with its validation jobs counted. PlaytestProtocol lets a job be
 * delivered any number of times, which is enough for safety; here every session has
 * at most one job with the state and the failed runs that JobQueue gives it. Finish
 * and both sweeps ensure it, a run is a delivery of a waiting job, and a run that
 * throws or whose worker dies is a failed one.
 */
module PlaytestQueue {
  import opened Common
  import opened PlaytestTables
  import opened PlaytestProtocol
  import opened PlaytestInvariant
  import opened PlaytestSteps
  import opened PlaytestVerdicts
  import J = JobQueue

  /** `runs` names the process of each running job. */
  datatype Queued = Queued(s: System, jobs: map<Id, J.Job>, runs: map<Id, Id>)

  datatype QueueAction =
      /** Anything else that happens; deliveries and the death of a run are the three below. */
    | Other(a: Action)
    | Pick(i: Id)
      /** The handler throws or its worker dies. */
    | Throw(i: Id)
      /** The queue takes a run for dead that goes on. */
    | LoseTrack(i: Id)

  /** In a validation of session `i`. */
  predicate Validating(p: Process, i: Id) {
    (p.ValidateRead? || p.ValidateLoaded? || p.ValidateDecided? || p.ValidateInTx?) && p.sessionId == i
  }

  predicate IsValidation(p: Process) {
    p.ValidateRead? || p.ValidateLoaded? || p.ValidateDecided? || p.ValidateInTx?
  }

  ghost predicate InFlight(s: System, i: Id) { exists q :: q in s.processes && Validating(s.processes[q], i) }

  /** The session whose job this action ensures. */
  function EnqueuedBy(s: System, a: Action): Option<Id> {
    if !a.Advance? || a.process !in s.processes then None
    else match s.processes[a.process]
      case FinishEnqueue(i) => Some(i)
      case SweepEnqueue(i, _) => Some(i)
      case SweepClosed(todo) => if todo == [] then None else Some(todo[0])
      case _ => None
  }

  /** The session whose running job this process is the run of. */
  function ServedBy(c: Queued, q: Id): Option<Id> {
    if q in c.s.processes && IsValidation(c.s.processes[q]) && c.s.processes[q].sessionId in c.runs
       && c.runs[c.s.processes[q].sessionId] == q
    then Some(c.s.processes[q].sessionId) else None
  }

  function Ensured(jobs: map<Id, J.Job>, i: Option<Id>): map<Id, J.Job> {
    if i.None? then jobs else J.EnsureJob(jobs, i.value).0
  }

  function Ended(c: Queued, i: Id, state: J.JobState, failures: nat): Queued
    requires i in c.jobs
  {
    c.(jobs := c.jobs[i := J.Job(state, c.jobs[i].attemptsMade + failures)], runs := c.runs - {i})
  }

  function QueueApply(c: Queued, qa: QueueAction): Queued {
    match qa
    case Other(a) =>
      if a.Deliver? || (a.Crash? && ServedBy(c, a.process).Some?) then c
      else
        var c' := c.(s := Apply(c.s, a), jobs := Ensured(c.jobs, EnqueuedBy(c.s, a)));
        // A run that returns completes its job.
        if a.Advance? && ServedBy(c, a.process).Some? && a.process !in c'.s.processes
           && ServedBy(c, a.process).value in c'.jobs
        then Ended(c', ServedBy(c, a.process).value, J.CompletedJob, 0) else c'
    case Pick(i) =>
      if i !in c.jobs || !c.jobs[i].state.Waiting? then c
      // The handler returns at once when the session is validated already.
      else if i in c.s.db.validations then Ended(c, i, J.CompletedJob, 0)
      else c.(s := Apply(c.s, Deliver(i)), jobs := c.jobs[i := c.jobs[i].(state := J.Running)],
              runs := c.runs[i := c.s.nextId])
    case Throw(i) =>
      if i !in c.runs || i !in c.jobs then c
      else Ended(c.(s := Apply(c.s, Crash(c.runs[i]))), i, J.FailedJob, 1)
    case LoseTrack(i) => if i !in c.runs || i !in c.jobs then c else Ended(c, i, J.FailedJob, 1)
  }

  function QueueRun(c: Queued, actions: seq<QueueAction>): Queued
    decreases |actions|
  {
    if actions == [] then c else QueueApply(QueueRun(c, actions[..|actions| - 1]), actions[|actions| - 1])
  }

  const START := Queued(INITIAL, map[], map[])

  ghost predicate QueueReachable(c: Queued) { exists actions :: c == QueueRun(START, actions) }

  /* ------------------------------------- the invariant ------------------------------------- */

  ghost predicate RunFits(c: Queued, i: Id) {
    && (i in c.runs <==> i in c.jobs && c.jobs[i].state.Running?)
    && (i in c.runs ==> c.runs[i] in c.s.processes && Validating(c.s.processes[c.runs[i]], i))
  }

  ghost predicate CountFits(c: Queued, i: Id) {
    && (i in c.jobs <==> i in c.s.jobs)
    && (i in c.jobs ==>
          && c.jobs[i].attemptsMade <= J.MAX_JOB_RUNS
          && (!c.jobs[i].state.FailedJob? ==> c.jobs[i].attemptsMade < J.MAX_JOB_RUNS)
          && (c.jobs[i].state.CompletedJob? ==> i in c.s.db.validations))
  }

  ghost predicate JobFits(c: Queued, i: Id) { RunFits(c, i) && CountFits(c, i) }

  ghost predicate QueueInv(c: Queued) { Inv(c.s) && forall i: Id :: JobFits(c, i) }

  lemma ApplyJobs(s: System, a: Action)
    ensures Apply(s, a).jobs == s.jobs + (if EnqueuedBy(s, a).Some? then {EnqueuedBy(s, a).value} else {})
  {
    hide StartSession, MarkRecording, TimeOut, FinishSession, CommitVerdict, Reserve, RateSession, Verdict, Rewarded;
    hide HasCompleted, HasFailedRecording, GateHeld, SessionOf, TestOpen, Unvalidated, OpenSession;
  }

  /** Nobody touches a process but itself, its death, and the birth of the next one. */
  lemma OthersUntouched(s: System, a: Action, q: Id)
    requires q in s.processes && q != s.nextId && a != Advance(q) && a != Crash(q)
    ensures q in Apply(s, a).processes && Apply(s, a).processes[q] == s.processes[q]
  {
    hide StartSession, MarkRecording, TimeOut, FinishSession, CommitVerdict, Reserve, RateSession, Verdict, Rewarded;
    hide HasCompleted, HasFailedRecording, GateHeld, SessionOf, TestOpen, Unvalidated, OpenSession;
  }

  lemma ValidationSteps(s: System, q: Id, i: Id)
    requires q in s.processes && Validating(s.processes[q], i) && i in s.db.sessions
    ensures var s' := Step(s, q);
            || (q in s'.processes && Validating(s'.processes[q], i))
            || (q !in s'.processes && i in s'.db.validations)
  {
    if s.processes[q].ValidateInTx? {
      var p := s.processes[q];
      CommitRowsKept(s.db, p.sessionId, p.session, p.verdict, p.rewarded, s.nextId);
    }
    hide CommitVerdict, Verdict, Rewarded, HasFailedRecording;
  }

  /** A validation goes on until its session is validated, unless it crashes. */
  lemma ValidationGoesOn(s: System, a: Action, q: Id, i: Id)
    requires q in s.processes && Validating(s.processes[q], i) && i in s.db.sessions && a != Crash(q)
    requires s.nextId !in s.processes
    ensures var s' := Apply(s, a);
            || (q in s'.processes && Validating(s'.processes[q], i))
            || (a == Advance(q) && q !in s'.processes && i in s'.db.validations)
  {
    hide Step;
    if a == Advance(q) {
      ValidationSteps(s, q, i);
    } else {
      hide Apply, Validating;
      OthersUntouched(s, a, q);
    }
  }

  lemma ValidationsStay(s: System, a: Action)
    requires Inv(s)
    ensures Inv(Apply(s, a)) && s.db.validations.Keys <= Apply(s, a).db.validations.Keys
  {
    hide Inv, Apply;
    ApplyKeeps(s, a);
    assert References(s.db) by { SystemFacts(s); }
  }

  lemma KnownValidation(s: System, q: Id, i: Id)
    requires Inv(s) && q in s.processes && Validating(s.processes[q], i)
    ensures i in s.db.sessions && q < s.nextId
  {
    hide Inv, TablesOk, Verdict, Rewarded, References;
    ProcessFacts(s, q);
  }

  lemma EnsuredIs(jobs: map<Id, J.Job>, e: Option<Id>, i: Id)
    ensures var jobs' := Ensured(jobs, e);
            && (i in jobs' <==> i in jobs || e == Some(i))
            && (i in jobs && !(jobs[i].state.FailedJob? && jobs[i].attemptsMade < J.MAX_JOB_RUNS) ==> jobs'[i] == jobs[i])
            && (i in jobs && e != Some(i) ==> jobs'[i] == jobs[i])
            && (e == Some(i) && (i in jobs ==> jobs[i].state.FailedJob? && jobs[i].attemptsMade < J.MAX_JOB_RUNS) ==>
                  jobs'[i] == J.Job(J.Waiting, if i in jobs then jobs[i].attemptsMade else 0))
  {}

  /** What a step that is no delivery and kills no run does to the job of `i`. */
  lemma OtherIs(c: Queued, a: Action, i: Id)
    requires !a.Deliver? && !(a.Crash? && ServedBy(c, a.process).Some?)
    ensures var (c', jobs') := (QueueApply(c, Other(a)), Ensured(c.jobs, EnqueuedBy(c.s, a)));
            var done := a.Advance? && ServedBy(c, a.process) == Some(i) && a.process !in Apply(c.s, a).processes && i in jobs';
            && c'.s == Apply(c.s, a)
            && (i in c'.jobs <==> i in jobs')
            && (i in jobs' ==> c'.jobs[i] == if done then jobs'[i].(state := J.CompletedJob) else jobs'[i])
            && (i in c'.runs <==> i in c.runs && !done)
            && (i in c'.runs ==> c'.runs[i] == c.runs[i])
  {
    hide Apply, Ensured, EnqueuedBy;
  }

  lemma ServedIs(c: Queued, i: Id)
    requires RunFits(c, i) && i in c.runs
    ensures ServedBy(c, c.runs[i]) == Some(i)
    ensures forall q :: ServedBy(c, q) == Some(i) ==> q == c.runs[i]
  {}

  lemma OtherKeepsRun(c: Queued, a: Action, i: Id)
    requires Inv(c.s) && JobFits(c, i) && !a.Deliver? && !(a.Crash? && ServedBy(c, a.process).Some?)
    ensures RunFits(QueueApply(c, Other(a)), i)
  {
    OtherIs(c, a, i);
    SystemFacts(c.s);
    EnsuredIs(c.jobs, EnqueuedBy(c.s, a), i);
    if i in c.runs {
      ServedIs(c, i);
      KnownValidation(c.s, c.runs[i], i);
      ValidationGoesOn(c.s, a, c.runs[i], i);
    }
    hide Inv, Apply, Ensured, EnqueuedBy, ServedBy, QueueApply;
  }

  lemma OtherKeepsCount(c: Queued, a: Action, i: Id)
    requires Inv(c.s) && JobFits(c, i) && !a.Deliver? && !(a.Crash? && ServedBy(c, a.process).Some?)
    ensures CountFits(QueueApply(c, Other(a)), i)
  {
    OtherIs(c, a, i);
    ApplyJobs(c.s, a);
    SystemFacts(c.s);
    EnsuredIs(c.jobs, EnqueuedBy(c.s, a), i);
    ValidationsStay(c.s, a);
    if a.Advance? && ServedBy(c, a.process) == Some(i) {
      KnownValidation(c.s, a.process, i);
      ValidationGoesOn(c.s, a, a.process, i);
    }
    hide Inv, Apply, Ensured, EnqueuedBy, ServedBy, QueueApply;
  }

  /** A delivery that is possible starts a validation and does nothing else. */
  lemma DeliveryIs(s: System, i: Id)
    requires i in s.jobs && i !in s.db.validations
    ensures Apply(s, Deliver(i)) == Spawn(s, ValidateRead(i))
  {}

  lemma PickIs(c: Queued, i: Id)
    requires i in c.jobs && c.jobs[i].state.Waiting? && i in c.s.jobs
    ensures QueueApply(c, Pick(i)) ==
            if i in c.s.db.validations then Ended(c, i, J.CompletedJob, 0)
            else c.(s := Spawn(c.s, ValidateRead(i)), jobs := c.jobs[i := c.jobs[i].(state := J.Running)],
                    runs := c.runs[i := c.s.nextId])
  {
    hide Apply;
    if i !in c.s.db.validations { DeliveryIs(c.s, i); }
  }

  lemma PickKeepsRun(c: Queued, j: Id, i: Id)
    requires c.s.nextId !in c.s.processes && RunFits(c, i)
    requires j in c.jobs && c.jobs[j].state.Waiting? && j in c.s.jobs
    ensures RunFits(QueueApply(c, Pick(j)), i)
  {
    PickIs(c, j);
    hide QueueApply;
  }

  lemma PickKeepsCount(c: Queued, j: Id, i: Id)
    requires CountFits(c, i)
    requires j in c.jobs && c.jobs[j].state.Waiting? && j in c.s.jobs
    ensures CountFits(QueueApply(c, Pick(j)), i)
  {
    PickIs(c, j);
    hide QueueApply;
  }

  lemma PickKeepsJob(c: Queued, j: Id, i: Id)
    requires Inv(c.s) && JobFits(c, i) && JobFits(c, j)
    ensures JobFits(QueueApply(c, Pick(j)), i)
  {
    SystemFacts(c.s);
    hide Inv, Apply, RunFits;
    if j in c.jobs && c.jobs[j].state.Waiting? {
      hide QueueApply, CountFits;
      assert j in c.s.jobs by { CountedIsKnown(c, j); }
      PickKeepsRun(c, j, i);
      PickKeepsCount(c, j, i);
    }
  }

  lemma CountedIsKnown(c: Queued, i: Id)
    requires CountFits(c, i)
    ensures i in c.jobs <==> i in c.s.jobs
  {}

  lemma EndKeepsJob(c: Queued, j: Id, i: Id)
    requires Inv(c.s) && JobFits(c, i) && JobFits(c, j)
    ensures JobFits(QueueApply(c, Throw(j)), i) && JobFits(QueueApply(c, LoseTrack(j)), i)
  {
    hide Inv;
  }

  lemma QueueApplyKeeps(c: Queued, qa: QueueAction)
    requires QueueInv(c)
    ensures QueueInv(QueueApply(c, qa))
  {
    hide Inv, Apply, RunFits, CountFits;
    forall i: Id ensures JobFits(QueueApply(c, qa), i) {
      assert JobFits(c, i);
      match qa
      case Other(a) => if !a.Deliver? && !(a.Crash? && ServedBy(c, a.process).Some?) {
          OtherKeepsRun(c, a, i);
          OtherKeepsCount(c, a, i);
        }
      case Pick(j) => assert JobFits(c, j); PickKeepsJob(c, j, i);
      case Throw(j) => assert JobFits(c, j); EndKeepsJob(c, j, i);
      case LoseTrack(j) => assert JobFits(c, j); EndKeepsJob(c, j, i);
    }
    match qa
    case Other(a) => ApplyKeeps(c.s, a);
    case Pick(j) => ApplyKeeps(c.s, Deliver(j));
    case Throw(j) => if j in c.runs { ApplyKeeps(c.s, Crash(c.runs[j])); }
    case LoseTrack(_) =>
  }

  lemma {:induction false} QueueRunKeeps(c: Queued, actions: seq<QueueAction>)
    requires QueueInv(c)
    ensures QueueInv(QueueRun(c, actions))
    decreases |actions|
  {
    if actions != [] {
      hide QueueInv, QueueApply;
      QueueRunKeeps(c, actions[..|actions| - 1]);
      QueueApplyKeeps(QueueRun(c, actions[..|actions| - 1]), actions[|actions| - 1]);
    }
  }

  lemma StartOk()
    ensures QueueInv(START)
  {
    InitialOk();
  }

  lemma QueueReachableOk(c: Queued)
    requires QueueReachable(c)
    ensures QueueInv(c)
  {
    hide QueueInv;
    StartOk();
    var actions :| c == QueueRun(START, actions);
    QueueRunKeeps(START, actions);
  }

  /** Counted runs are runs of the protocol, so every theorem about its reachable states holds of them. */
  lemma CountedIsReachable(c: Queued)
    requires QueueReachable(c)
    ensures Reachable(c.s)
  {
    hide QueueRun, Reachable;
    var actions :| c == QueueRun(START, actions);
    CountedRun(actions);
  }

  lemma {:induction false} CountedRun(actions: seq<QueueAction>)
    ensures Reachable(QueueRun(START, actions).s)
    decreases |actions|
  {
    if actions == [] {
      assert INITIAL == Run(INITIAL, []);
    } else {
      hide Reachable, Apply, Ensured, EnqueuedBy;
      var before, qa := QueueRun(START, actions[..|actions| - 1]), actions[|actions| - 1];
      CountedRun(actions[..|actions| - 1]);
      match qa
      case Other(a) => ReachableNext(before.s, a);
      case Pick(i) => ReachableNext(before.s, Deliver(i));
      case Throw(i) => if i in before.runs { ReachableNext(before.s, Crash(before.runs[i])); }
      case LoseTrack(_) =>
    }
  }

  lemma ReachableNext(s: System, a: Action)
    requires Reachable(s)
    ensures Reachable(Apply(s, a))
  {
    hide Apply;
    var actions :| s == Run(INITIAL, actions);
    assert (actions + [a])[..|actions|] == actions;
    assert Run(INITIAL, actions + [a]) == Apply(s, a);
  }

  /** A run that throws, or that the queue takes for dead, is one failed run of its job, and nothing else is. */
  lemma FailuresCount(c: Queued, qa: QueueAction, i: Id)
    requires QueueInv(c) && i in c.jobs
    ensures i in QueueApply(c, qa).jobs
    ensures QueueApply(c, qa).jobs[i].attemptsMade ==
            c.jobs[i].attemptsMade + if i in c.runs && (qa == Throw(i) || qa == LoseTrack(i)) then 1 else 0
  {
    hide Apply, Inv, EnqueuedBy, RunFits;
  }
}
