/**
 * The queue backstop: making sure a job runs, the runs themselves, and the
 * sweep that gives up on a job that keeps failing. One resource (a build or a
 * recording) has one row and at most one job, named by the same id.
 */
module JobQueue {
  import opened Common

  const MAX_JOB_RUNS := 5

  /** Jobs are added without delay, retry or backoff options, so no other state occurs. */
  datatype JobState = Waiting | Running | CompletedJob | FailedJob
  /** `attemptsMade` counts failed runs and survives retries. */
  datatype Job = Job(state: JobState, attemptsMade: nat)
  datatype Outcome = Enqueued | Retried | Exists | Exhausted

  /** The row is `processing`, or settled with or without success. */
  datatype RowStatus = InProcess | Succeeded | FailedRow

  function Lookup(jobs: map<Id, Job>, id: Id): Option<Job> { if id in jobs then Some(jobs[id]) else None }

  /** What ensuring does to the one job it names, and what it reports. */
  function EnsureOne(job: Option<Job>): (r: (Job, Outcome))
    ensures r.1.Exhausted? <==> r.0.state.FailedJob?
  {
    match job
    case None => (Job(Waiting, 0), Enqueued)
    case Some(j) =>
      if !j.state.FailedJob? then (j, Exists)
      else if j.attemptsMade >= MAX_JOB_RUNS then (j, Exhausted)
      else (j.(state := Waiting), Retried)
  }

  function EnsureJob(jobs: map<Id, Job>, id: Id): (map<Id, Job>, Outcome) {
    var (job, out) := EnsureOne(Lookup(jobs, id));
    (jobs[id := job], out)
  }

  /**
   * A missing job is added, a failed one retried until it has failed five times, and
   * any other left alone; a retry keeps the number of failed runs.
   */
  lemma EnsureExactly(jobs: map<Id, Job>, id: Id)
    ensures var (jobs', out) := EnsureJob(jobs, id);
            && jobs'.Keys == jobs.Keys + {id} && (forall j :: j in jobs && j != id ==> jobs'[j] == jobs[j])
            && (out.Enqueued? <==> id !in jobs)
            && (out.Exhausted? <==> id in jobs && jobs[id].state.FailedJob? && jobs[id].attemptsMade >= 5)
            && (out.Retried? <==> id in jobs && jobs[id].state.FailedJob? && jobs[id].attemptsMade < 5)
            && jobs'[id] == match out
                            case Enqueued => Job(Waiting, 0)
                            case Retried => Job(Waiting, jobs[id].attemptsMade)
                            case _ => jobs[id]
  {}

  /* ------------------------------- runs, sweeps, failures ------------------------------- */

  /**
   * `wrote` holds, for a running job, whether this run has settled the row yet;
   * `giveUp` the ids a sweep found exhausted and is about to settle; `runs` is a
   * history variable counting the runs of each job.
   */
  datatype System = System(rows: map<Id, RowStatus>, jobs: map<Id, Job>, wrote: map<Id, bool>,
                           giveUp: set<Id>, runs: map<Id, nat>)

  datatype Action =
    | InsertRow(id: Id)
      /** A request, a retry of it, or a sweep. */
    | Ensure(id: Id, fromSweep: bool)
      /** The sweep's guarded update after `Exhausted`. */
    | SettleExhausted(id: Id)
    | Pick(id: Id)
      /** A status write of the running handler; it may write more than once. */
    | Write(id: Id, ok: bool)
    | Return(id: Id)
      /** The handler throws or its worker dies. */
    | Fail(id: Id)
      /** The request that inserted the row could not enqueue its job and settles the row itself. */
    | GiveUpRequest(id: Id)

  function Runs(s: System, id: Id): nat { if id in s.runs then s.runs[id] else 0 }

  function Apply(s: System, a: Action): System {
    match a
    case InsertRow(id) => if id in s.rows then s else s.(rows := s.rows[id := InProcess])
    case Ensure(id, fromSweep) =>
      if id !in s.rows || (fromSweep && !s.rows[id].InProcess?) then s
      else
        var (jobs, out) := EnsureJob(s.jobs, id);
        s.(jobs := jobs, giveUp := if out.Exhausted? && fromSweep then s.giveUp + {id} else s.giveUp)
    case SettleExhausted(id) =>
      if id !in s.giveUp then s
      else s.(giveUp := s.giveUp - {id},
              rows := if id in s.rows && s.rows[id].InProcess? then s.rows[id := FailedRow] else s.rows)
    case Pick(id) =>
      if id in s.jobs && s.jobs[id].state.Waiting? then
        s.(jobs := s.jobs[id := s.jobs[id].(state := Running)], wrote := s.wrote[id := false],
           runs := s.runs[id := Runs(s, id) + 1])
      else s
    case Write(id, ok) =>
      if id in s.jobs && s.jobs[id].state.Running? && id in s.rows then
        s.(rows := s.rows[id := if ok then Succeeded else FailedRow], wrote := s.wrote[id := true])
      else s
    case Return(id) =>
      // A run returns normally only after a status write of its own: Worker.WorkBuild and
      // Worker.WorkRecording derive that from what the handlers ensure.
      if id in s.jobs && s.jobs[id].state.Running? && id in s.wrote && s.wrote[id] then
        s.(jobs := s.jobs[id := s.jobs[id].(state := CompletedJob)])
      else s
    case Fail(id) =>
      if id in s.jobs && s.jobs[id].state.Running? then
        s.(jobs := s.jobs[id := Job(FailedJob, s.jobs[id].attemptsMade + 1)])
      else s
    case GiveUpRequest(id) => if id in s.rows then s.(rows := s.rows[id := FailedRow]) else s
  }

  function Run(s: System, actions: seq<Action>): System
    decreases |actions|
  {
    if actions == [] then s else Apply(Run(s, actions[..|actions| - 1]), actions[|actions| - 1])
  }

  const EMPTY := System(map[], map[], map[], {}, map[])

  ghost predicate JobOk(s: System, id: Id)
    requires id in s.jobs
  {
    var j := s.jobs[id];
    && id in s.rows
    && Runs(s, id) == j.attemptsMade + (if j.state.Running? || j.state.CompletedJob? then 1 else 0)
    && Runs(s, id) <= MAX_JOB_RUNS
    && (!j.state.FailedJob? ==> j.attemptsMade < MAX_JOB_RUNS)
    && (j.state.Running? && id in s.wrote && s.wrote[id] ==> !s.rows[id].InProcess?)
    && (j.state.CompletedJob? ==> !s.rows[id].InProcess?)
  }

  /** What a sweep that is about to settle a row as failed relies on. */
  ghost predicate GaveUp(s: System, id: Id) {
    id in s.jobs && s.jobs[id].state.FailedJob? && s.jobs[id].attemptsMade == MAX_JOB_RUNS
  }

  ghost predicate IdOk(s: System, id: Id) {
    && (id in s.jobs ==> JobOk(s, id))
    && (id in s.runs ==> id in s.jobs)
    && (id in s.giveUp ==> GaveUp(s, id))
  }

  ghost predicate Inv(s: System) {
    forall id: Id :: IdOk(s, id)
  }

  lemma JobStaysOk(s: System, a: Action, id: Id)
    requires IdOk(s, id)
    ensures id in Apply(s, a).jobs ==> JobOk(Apply(s, a), id)
    ensures id in Apply(s, a).runs ==> id in Apply(s, a).jobs
  {}

  lemma GiveUpStaysOk(s: System, a: Action, id: Id)
    requires IdOk(s, id)
    ensures id in Apply(s, a).giveUp ==> GaveUp(Apply(s, a), id)
  {}

  lemma ApplyKeeps(s: System, a: Action)
    requires Inv(s)
    ensures Inv(Apply(s, a))
  {
    hide Apply, JobOk, GaveUp;
    forall id: Id ensures IdOk(Apply(s, a), id) {
      assert IdOk(s, id);
      JobStaysOk(s, a, id);
      GiveUpStaysOk(s, a, id);
    }
  }

  /** A settled row never goes back to processing, whoever writes. */
  lemma SettledStays(s: System, a: Action, id: Id)
    requires id in s.rows && !s.rows[id].InProcess?
    ensures id in Apply(s, a).rows && !Apply(s, a).rows[id].InProcess?
  {}

  /** A row is written by its running handler, by a request that could not enqueue, and by a sweep that found it exhausted. */
  lemma RowChanges(s: System, a: Action, id: Id)
    ensures id in Apply(s, a).rows <==> id in s.rows || a == InsertRow(id)
    ensures id in Apply(s, a).rows ==>
              Apply(s, a).rows[id] ==
              match a
              case Write(i, ok) =>
                if i == id && id in s.jobs && s.jobs[id].state == Running then (if ok then Succeeded else FailedRow)
                else s.rows[id]
              case SettleExhausted(i) =>
                if i == id && id in s.giveUp && s.rows[id] == InProcess then FailedRow else s.rows[id]
              case GiveUpRequest(i) => if i == id then FailedRow else s.rows[id]
              case _ => if id in s.rows then s.rows[id] else InProcess
    ensures id in Apply(s, a).giveUp <==>
              || (id in s.giveUp && a != SettleExhausted(id))
              || (a == Ensure(id, true) && id in s.rows && s.rows[id] == InProcess
                  && id in s.jobs && s.jobs[id].state == FailedJob && s.jobs[id].attemptsMade >= 5)
  {}

  lemma {:induction false} RunKeeps(actions: seq<Action>)
    ensures Inv(Run(EMPTY, actions))
    decreases |actions|
  {
    if actions != [] {
      hide Inv, Apply;
      RunKeeps(actions[..|actions| - 1]);
      ApplyKeeps(Run(EMPTY, actions[..|actions| - 1]), actions[|actions| - 1]);
    } else { assert Inv(EMPTY); }
  }

  /** In every reachable state: a completed job means a settled row, and no job runs more than MAX_JOB_RUNS times. */
  lemma CompletedMeansSettled(actions: seq<Action>, id: Id)
    ensures var s := Run(EMPTY, actions);
            Runs(s, id) <= MAX_JOB_RUNS
            && (id in s.jobs && s.jobs[id].state.CompletedJob? ==> id in s.rows && !s.rows[id].InProcess?)
  {
    RunKeeps(actions);
    var s := Run(EMPTY, actions);
    assert IdOk(s, id);
  }

  /* ---------------------------- a row whose handler always throws ---------------------------- */

  /** The runs the job has left. */
  function RunsLeft(s: System, id: Id): nat {
    if id !in s.jobs then MAX_JOB_RUNS
    else if s.jobs[id].attemptsMade >= MAX_JOB_RUNS then 0
    else MAX_JOB_RUNS - s.jobs[id].attemptsMade
  }

  /** A run of the job has begun and is not accounted for in `attemptsMade`. */
  predicate Begun(s: System, id: Id) {
    id in s.jobs && (s.jobs[id].state.Running? || s.jobs[id].state.CompletedJob?)
  }

  /** The termination measure: two steps for each run left, one fewer if it has begun, and one to settle the row. */
  function Measure(s: System, id: Id): nat {
    (if RunsLeft(s, id) == 0 then 0 else 2 * RunsLeft(s, id) - if Begun(s, id) then 1 else 0)
    + if id in s.rows && s.rows[id].InProcess? then 1 else 0
  }

  /** No run of this job ever gets to write a status. */
  ghost predicate Throwing(actions: seq<Action>, id: Id) {
    forall i :: 0 <= i < |actions| ==> !(actions[i].Write? && actions[i].id == id)
  }

  /** The action starts or fails a run of this job, or settles its row. */
  predicate Effective(s: System, a: Action, id: Id) {
    match a
    case Pick(i) => i == id && id in s.jobs && s.jobs[id].state.Waiting?
    case Fail(i) => i == id && id in s.jobs && s.jobs[id].state.Running?
    case SettleExhausted(i) => i == id && id in s.giveUp && id in s.rows && s.rows[id].InProcess?
    case GiveUpRequest(i) => i == id && id in s.rows && s.rows[id].InProcess?
    case _ => false
  }

  /** How many actions of the run are. */
  function EffectiveSteps(s: System, actions: seq<Action>, id: Id): nat
    decreases |actions|
  {
    if actions == [] then 0
    else
      var before := actions[..|actions| - 1];
      EffectiveSteps(s, before, id) + if Effective(Run(s, before), actions[|actions| - 1], id) then 1 else 0
  }

  /** Still processing, or settled as failed. */
  ghost predicate NotSucceeded(s: System, id: Id) { id in s.rows && !s.rows[id].Succeeded? }

  /** No action raises the measure, and every effective one lowers it. */
  lemma MeasureFalls(s: System, a: Action, id: Id)
    requires Inv(s) && NotSucceeded(s, id) && !(a.Write? && a.id == id)
    ensures NotSucceeded(Apply(s, a), id)
    ensures Measure(Apply(s, a), id) + (if Effective(s, a, id) then 1 else 0) <= Measure(s, id)
  {
    assert IdOk(s, id);
  }

  /**
   * From any state, whatever requests, sweeps, crashes and other rows do: while the
   * handler never writes, at most Measure steps start or fail a run or settle the
   * row, and the row never succeeds.
   */
  lemma {:induction false} ThrowingIsBounded(s: System, actions: seq<Action>, id: Id)
    requires Inv(s) && NotSucceeded(s, id) && Throwing(actions, id)
    ensures var s' := Run(s, actions);
            Inv(s') && NotSucceeded(s', id) && EffectiveSteps(s, actions, id) + Measure(s', id) <= Measure(s, id)
    decreases |actions|
  {
    if actions != [] {
      hide Inv, Apply, NotSucceeded, Effective, Measure;
      var before := actions[..|actions| - 1];
      ThrowingIsBounded(s, before, id);
      MeasureFalls(Run(s, before), actions[|actions| - 1], id);
      ApplyKeeps(Run(s, before), actions[|actions| - 1]);
    }
  }

  /** What a scheduler can do next about a row that is still processing. */
  function NextSteps(s: System, id: Id): seq<Action> {
    if id !in s.jobs then [Ensure(id, true), Pick(id)]
    else if s.jobs[id].state.Waiting? then [Pick(id)]
    else if s.jobs[id].state.Running? then [Fail(id)]
    else if RunsLeft(s, id) > 0 then [Ensure(id, true), Pick(id)]
    else [Ensure(id, true), SettleExhausted(id)]
  }

  lemma RunTwo(s: System, a: Action, b: Action)
    ensures Run(s, [a]) == Apply(s, a) && Run(s, [a, b]) == Apply(Apply(s, a), b)
  {
    hide Apply;
    assert [a][..0] == [];
    assert Run(s, [a]) == Apply(s, a);
    assert [a, b][..1] == [a];
  }

  lemma EnsureThenPick(s: System, id: Id)
    requires IdOk(s, id) && id in s.rows && s.rows[id].InProcess? && RunsLeft(s, id) > 0
    requires id in s.jobs ==> s.jobs[id].state.FailedJob?
    ensures Measure(Apply(Apply(s, Ensure(id, true)), Pick(id)), id) < Measure(s, id)
  {}

  lemma PickOrFail(s: System, id: Id)
    requires IdOk(s, id) && id in s.jobs
    ensures s.jobs[id].state.Waiting? ==> Measure(Apply(s, Pick(id)), id) < Measure(s, id) && RunsLeft(s, id) > 0
    ensures s.jobs[id].state.Running? ==> Measure(Apply(s, Fail(id)), id) < Measure(s, id) && RunsLeft(s, id) > 0
  {}

  lemma EnsureThenSettle(s: System, id: Id)
    requires IdOk(s, id) && id in s.rows && s.rows[id].InProcess? && RunsLeft(s, id) == 0
    ensures var s' := Apply(Apply(s, Ensure(id, true)), SettleExhausted(id));
            Measure(s', id) < Measure(s, id) && id in s'.rows && s'.rows[id].FailedRow?
  {}

  /** There is always such a step, and with no runs left it is the sweep that settles the row as failed. */
  lemma SomethingIsLeft(s: System, id: Id)
    requires Inv(s) && id in s.rows && s.rows[id].InProcess?
    ensures var s' := Run(s, NextSteps(s, id));
            Throwing(NextSteps(s, id), id) && Measure(s', id) < Measure(s, id)
            && (RunsLeft(s, id) == 0 ==> id in s'.rows && s'.rows[id].FailedRow?)
  {
    hide Run, Throwing, Apply, Measure;
    assert IdOk(s, id);
    var steps := NextSteps(s, id);
    RunTwo(s, steps[0], steps[|steps| - 1]);
    NextNeverWrites(s, id);
    if id in s.jobs && !s.jobs[id].state.FailedJob? { PickOrFail(s, id); }
    else if RunsLeft(s, id) > 0 { EnsureThenPick(s, id); }
    else { EnsureThenSettle(s, id); }
  }

  lemma NextNeverWrites(s: System, id: Id)
    ensures Throwing(NextSteps(s, id), id)
  {}

  lemma {:induction false} RunParts(s: System, a: seq<Action>, b: seq<Action>)
    ensures Run(s, a + b) == Run(Run(s, a), b)
    decreases |b|
  {
    hide Apply;
    if b == [] {
      assert a + b == a;
    } else {
      assert (a + b)[..|a + b| - 1] == a + b[..|b| - 1];
      RunParts(s, a, b[..|b| - 1]);
    }
  }

  /** So from every state the row can be brought to failed without the handler ever writing. */
  lemma {:induction false} FailedInTheEnd(s: System, id: Id) returns (actions: seq<Action>)
    requires Inv(s) && NotSucceeded(s, id)
    ensures Throwing(actions, id) && id in Run(s, actions).rows && Run(s, actions).rows[id].FailedRow?
    decreases Measure(s, id)
  {
    if s.rows[id].FailedRow? {
      actions := [];
    } else {
      hide Inv, Apply, Measure, NextSteps;
      var first := NextSteps(s, id);
      SomethingIsLeft(s, id);
      ThrowingIsBounded(s, first, id);
      var more := FailedInTheEnd(Run(s, first), id);
      RunParts(s, first, more);
      actions := first + more;
    }
  }

  /** How many runs of this job failed during the run. */
  function FailedRuns(s: System, actions: seq<Action>, id: Id): nat
    decreases |actions|
  {
    if actions == [] then 0
    else
      var before := actions[..|actions| - 1];
      FailedRuns(s, before, id)
      + if actions[|actions| - 1] == Fail(id) && Effective(Run(s, before), Fail(id), id) then 1 else 0
  }

  lemma FailuresCount(s: System, a: Action, id: Id)
    requires Inv(s)
    ensures RunsLeft(s, id) == RunsLeft(Apply(s, a), id) + if a == Fail(id) && Effective(s, a, id) then 1 else 0
  {
    assert IdOk(s, id);
  }

  /** The sweep settles no row before its job is exhausted. */
  lemma SettlesOnlyExhausted(s: System, a: Action, id: Id)
    requires Inv(s) && id in s.rows && s.rows[id].InProcess?
    requires a != GiveUpRequest(id) && !(a.Write? && a.id == id)
    ensures Apply(s, a).rows[id].InProcess? || (Apply(s, a).rows[id].FailedRow? && RunsLeft(Apply(s, a), id) == 0)
  {
    assert IdOk(s, id);
  }

  ghost predicate Unsettled(s: System, id: Id) {
    id in s.rows && (s.rows[id].InProcess? || (s.rows[id].FailedRow? && RunsLeft(s, id) == 0))
  }

  /**
   * A row whose handler always throws, and whose request did not settle it, is
   * failed only after exactly the runs its job had left have failed.
   */
  lemma {:induction false} FailedAfterExactlyItsRuns(s: System, actions: seq<Action>, id: Id)
    requires Inv(s) && id in s.rows && s.rows[id].InProcess? && Throwing(actions, id)
    requires forall i :: 0 <= i < |actions| ==> actions[i] != GiveUpRequest(id)
    ensures var s' := Run(s, actions);
            && Inv(s') && Unsettled(s', id) && RunsLeft(s, id) == RunsLeft(s', id) + FailedRuns(s, actions, id)
            && (s'.rows[id].FailedRow? ==> FailedRuns(s, actions, id) == RunsLeft(s, id))
    decreases |actions|
  {
    if actions != [] {
      hide Inv, Apply, Effective, RunsLeft;
      var before, a := actions[..|actions| - 1], actions[|actions| - 1];
      var m := Run(s, before);
      FailedAfterExactlyItsRuns(s, before, id);
      FailuresCount(m, a, id);
      ApplyKeeps(m, a);
      if m.rows[id].InProcess? { SettlesOnlyExhausted(m, a, id); } else { StaysFailed(m, a, id); }
    }
  }

  lemma StaysFailed(s: System, a: Action, id: Id)
    requires id in s.rows && s.rows[id].FailedRow? && !(a.Write? && a.id == id) && RunsLeft(s, id) == 0
    ensures id in Apply(s, a).rows && Apply(s, a).rows[id].FailedRow? && RunsLeft(Apply(s, a), id) == 0
  {}

  lemma ExhaustedStays(s: System, a: Action, id: Id)
    requires id in s.jobs && s.jobs[id].state.FailedJob? && s.jobs[id].attemptsMade >= MAX_JOB_RUNS
    ensures id in Apply(s, a).jobs && Apply(s, a).jobs[id] == s.jobs[id] && Runs(Apply(s, a), id) == Runs(s, id)
  {}

  /** A job that used up its runs stays failed whatever happens next; what remains is settling its row. */
  lemma {:induction false} ExhaustedForever(s: System, actions: seq<Action>, id: Id)
    requires id in s.jobs && s.jobs[id].state.FailedJob? && s.jobs[id].attemptsMade >= MAX_JOB_RUNS
    ensures id in Run(s, actions).jobs && Run(s, actions).jobs[id] == s.jobs[id]
    ensures Runs(Run(s, actions), id) == Runs(s, id)
    decreases |actions|
  {
    if actions != [] {
      hide Apply;
      ExhaustedForever(s, actions[..|actions| - 1], id);
      ExhaustedStays(Run(s, actions[..|actions| - 1]), actions[|actions| - 1], id);
    }
  }

  /* ------------------------------------ the code ------------------------------------ */

  predicate BuildSwept(jobs0: map<Id, Job>, builds: map<Id, RowStatus>, jobs: map<Id, Job>, id: Id) {
    var (job, out) := EnsureOne(Lookup(jobs0, id));
    && Lookup(jobs, id) == Some(job)
    && id in builds && builds[id] == if out.Exhausted? then FailedRow else InProcess
  }

  predicate RecordingSwept(transcode0: map<Id, Job>, audio0: map<Id, Job>, recordings: map<Id, RowStatus>,
                           transcode: map<Id, Job>, audio: map<Id, Job>, id: Id) {
    var (job, out) := EnsureOne(Lookup(transcode0, id));
    && Lookup(transcode, id) == Some(job)
    && id in recordings && recordings[id] == (if out.Exhausted? then FailedRow else InProcess)
    && Lookup(audio, id) == if out.Exhausted? then Lookup(audio0, id) else Some(EnsureOne(Lookup(audio0, id)).0)
  }

  class Backstop {
    var builds: map<Id, RowStatus>
    var recordings: map<Id, RowStatus>
    /** When each build and recording was created; never updated. */
    const createdAt: map<Id, int>
    var buildJobs: map<Id, Job>
    var transcodeJobs: map<Id, Job>
    var audioJobs: map<Id, Job>

    constructor (createdAt: map<Id, int>)
      ensures builds == map[] && recordings == map[] && buildJobs == map[] && transcodeJobs == map[] && audioJobs == map[]
    {
      this.createdAt := createdAt;
      builds, recordings, buildJobs, transcodeJobs, audioJobs := map[], map[], map[], map[], map[];
    }

    static method EnsureJobEnqueued(jobs: map<Id, Job>, id: Id) returns (jobs': map<Id, Job>, out: Outcome)
      ensures (jobs', out) == EnsureJob(jobs, id)
      ensures (Lookup(jobs', id), out) == (Some(EnsureOne(Lookup(jobs, id)).0), EnsureOne(Lookup(jobs, id)).1)
      ensures forall j :: j != id ==> Lookup(jobs', j) == Lookup(jobs, j)
    {
      jobs' := jobs;
      if id !in jobs {
        jobs' := jobs[id := Job(Waiting, 0)];
        return jobs', Enqueued;
      }
      assert jobs[id := jobs[id]] == jobs;
      if !jobs[id].state.FailedJob? { return jobs, Exists; }
      if jobs[id].attemptsMade >= MAX_JOB_RUNS { return jobs, Exhausted; }
      jobs' := jobs[id := jobs[id].(state := Waiting)];
      out := Retried;
    }

    /** Created before the cutoff. */
    predicate Old(id: Id, cutoff: int) { id in createdAt && createdAt[id] < cutoff }

    /**
     * The build sweep: afterwards every old processing build has a live job, or is settled as failed
     * because its job is exhausted; no other row or job changes.
     */
    method ReconcileStuckBuilds(cutoff: int)
      modifies this`builds, this`buildJobs
      ensures builds.Keys == old(builds).Keys
      ensures forall id :: id in builds && old(builds)[id].InProcess? && id in createdAt && createdAt[id] < cutoff ==>
                BuildSwept(old(buildJobs), builds, buildJobs, id)
      ensures forall id :: id in builds && !(old(builds)[id].InProcess? && id in createdAt && createdAt[id] < cutoff) ==>
                builds[id] == old(builds)[id] && Lookup(buildJobs, id) == Lookup(old(buildJobs), id)
      ensures forall id :: id in builds && builds[id].InProcess? && Old(id, cutoff) ==>
                id in buildJobs && !buildJobs[id].state.FailedJob?
    {
      hide EnsureJob, EnsureOne;
      var stuck := set id | id in builds && builds[id].InProcess? && Old(id, cutoff);
      ghost var all := stuck;
      while stuck != {}
        invariant stuck <= all && builds.Keys == old(builds).Keys
        invariant forall id :: id in builds && (id !in all || id in stuck) ==>
          builds[id] == old(builds)[id] && Lookup(buildJobs, id) == Lookup(old(buildJobs), id)
        invariant forall id :: id in all && id !in stuck ==> BuildSwept(old(buildJobs), builds, buildJobs, id)
        decreases stuck
      {
        var id :| id in stuck;
        stuck := stuck - {id};
        var out: Outcome;
        buildJobs, out := EnsureJobEnqueued(buildJobs, id);
        if out.Exhausted? && builds[id].InProcess? {
          builds := builds[id := FailedRow];
        }
      }
    }

    /**
     * The recording sweep: a recording whose transcode job is exhausted is settled as failed and gets no
     * audio job; any other keeps processing with both jobs ensured. Unlike a build, a recording created
     * exactly at the cutoff is swept.
     */
    method ReconcileStuckRecordings(cutoff: int)
      modifies this`recordings, this`transcodeJobs, this`audioJobs
      ensures recordings.Keys == old(recordings).Keys
      ensures forall id ::
                id in recordings && old(recordings)[id].InProcess? && !(id in createdAt && createdAt[id] > cutoff) ==>
                RecordingSwept(old(transcodeJobs), old(audioJobs), recordings, transcodeJobs, audioJobs, id)
      ensures forall id ::
                id in recordings && !(old(recordings)[id].InProcess? && !(id in createdAt && createdAt[id] > cutoff)) ==>
                recordings[id] == old(recordings)[id] && Lookup(transcodeJobs, id) == Lookup(old(transcodeJobs), id)
                && Lookup(audioJobs, id) == Lookup(old(audioJobs), id)
    {
      hide EnsureJob, EnsureOne;
      var listed := set id | id in recordings && recordings[id].InProcess?;
      ghost var all := listed;
      while listed != {}
        invariant listed <= all && recordings.Keys == old(recordings).Keys
        invariant forall id :: id in recordings && (id !in all || id in listed || Young(id, cutoff)) ==>
          recordings[id] == old(recordings)[id] && Lookup(transcodeJobs, id) == Lookup(old(transcodeJobs), id)
          && Lookup(audioJobs, id) == Lookup(old(audioJobs), id)
        invariant forall id :: id in all && id !in listed && !Young(id, cutoff) ==>
          RecordingSwept(old(transcodeJobs), old(audioJobs), recordings, transcodeJobs, audioJobs, id)
        decreases listed
      {
        var id :| id in listed;
        listed := listed - {id};
        if !Young(id, cutoff) {
          var transcode: Outcome;
          transcodeJobs, transcode := EnsureJobEnqueued(transcodeJobs, id);
          if transcode.Exhausted? {
            if recordings[id].InProcess? { recordings := recordings[id := FailedRow]; }
          } else {
            var audio: Outcome;
            audioJobs, audio := EnsureJobEnqueued(audioJobs, id);
          }
        }
      }
    }

    predicate Young(id: Id, cutoff: int) {
      id in createdAt && createdAt[id] > cutoff
    }
  }
}
