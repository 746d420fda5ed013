/**
 * The worker's loop around the handlers: it picks a waiting job, runs the handler of
 * its row, and completes or fails the job by how the handler ended. Each method
 * is proved to be a run of the JobQueue machine, whose Return is possible only
 * after a status write of the same run; that it is possible follows from what the
 * handlers ensure.
 */
module Worker {
  import opened Common
  import opened JsText
  import opened JobQueue
  import opened Handlers

  /** The build rows as the queue sees them. */
  function BuildStatusRow(b: Build): RowStatus {
    match b.status
    case Validated => Succeeded
    case Failed => FailedRow
    case _ => InProcess
  }

  ghost function BuildRows(builds: map<Id, Build>): map<Id, RowStatus> {
    map id | id in builds :: BuildStatusRow(builds[id])
  }

  function RecordingStatusRow(r: Recording): RowStatus {
    match r.status
    case Ready => Succeeded
    case Refused => FailedRow
    case Unavailable => FailedRow
    case InProgress => InProcess
  }

  ghost function RecordingRows(recordings: map<Id, Recording>): map<Id, RowStatus> {
    map id | id in recordings :: RecordingStatusRow(recordings[id])
  }

  /** One run of a job on the machine: picked, and then failed, or a status written and returned. */
  function RunOfJob(s: System, id: Id, threw: bool, ok: bool): System {
    var picked := Apply(s, Pick(id));
    if threw then Apply(picked, Fail(id)) else Apply(Apply(picked, Write(id, ok)), Return(id))
  }

  /** What that leaves: the return is never refused, since the write comes first. */
  lemma RunOfJobIs(s: System, id: Id, threw: bool, ok: bool)
    requires id in s.jobs && s.jobs[id].state.Waiting?
    requires !threw ==> id in s.rows
    ensures var s' := RunOfJob(s, id, threw, ok);
            && s'.jobs == s.jobs[id := if threw then Job(FailedJob, s.jobs[id].attemptsMade + 1)
                                       else Job(CompletedJob, s.jobs[id].attemptsMade)]
            && s'.rows == if threw then s.rows else s.rows[id := if ok then Succeeded else FailedRow]
  {}

  /** A run keeps the machine's invariant, being a run of it. */
  lemma RunOfJobKeeps(s: System, id: Id, threw: bool, ok: bool)
    requires Inv(s)
    ensures Inv(RunOfJob(s, id, threw, ok))
  {
    hide Inv, Apply;
    var picked := Apply(s, Pick(id));
    ApplyKeeps(s, Pick(id));
    ApplyKeeps(picked, Fail(id));
    ApplyKeeps(picked, Write(id, ok));
    ApplyKeeps(Apply(picked, Write(id, ok)), Return(id));
  }

  /** A build run: after a normal return the job is completed and the row is settled. */
  method WorkBuild(handler: BuildHandler, jobs: map<Id, Job>, id: Id, stored: Object, sha256: Bytes -> Text,
                   bypass: bool, ghost s: System) returns (jobs': map<Id, Job>, threw: bool)
    requires id in jobs && jobs[id].state.Waiting?
    requires s.jobs == jobs && s.rows == BuildRows(handler.builds)
    modifies handler
    ensures var s' := RunOfJob(s, id, threw, id in handler.builds && handler.builds[id].status.Validated?);
            jobs' == s'.jobs && BuildRows(handler.builds) == s'.rows
    ensures !threw ==> id in handler.builds && (handler.builds[id].status.Validated? || handler.builds[id].status.Failed?)
  {
    hide Throws, Approvable, DigestAgrees, Refusal, StepIs, RunOfJob, BuildStatusRow;
    var picked := jobs[id].(state := Running);
    threw := handler.ProcessBuildValidate(id, stored, sha256, bypass);
    jobs' := jobs[id := if threw then Job(FailedJob, picked.attemptsMade + 1) else picked.(state := CompletedJob)];
    var ok := id in handler.builds && handler.builds[id].status.Validated?;
    RunOfJobIs(s, id, threw, ok);
    if id in old(handler.builds) {
      BuildSettles(old(handler.builds)[id], stored, sha256, bypass);
      BuildRowChanges(old(handler.builds), id, handler.builds[id]);
    }
  }

  lemma BuildSettles(b: Build, stored: Object, sha256: Bytes -> Text, bypass: bool)
    ensures var b' := AfterRun(b, stored, sha256, bypass);
            && (Throws(b, stored, sha256) ==> BuildStatusRow(b') == BuildStatusRow(b))
            && (!Throws(b, stored, sha256) ==> b'.status.Validated? || b'.status.Failed?)
            && (b'.status.Validated? ==> BuildStatusRow(b') == Succeeded)
            && (b'.status.Failed? ==> BuildStatusRow(b') == FailedRow)
  {
    hide Throws, Approvable, DigestAgrees, Refusal;
  }

  lemma BuildRowChanges(builds: map<Id, Build>, id: Id, b: Build)
    requires id in builds
    ensures BuildRows(builds[id := b]) == BuildRows(builds)[id := BuildStatusRow(b)]
    ensures BuildRows(builds)[id := BuildStatusRow(builds[id])] == BuildRows(builds)
  {}

  /** A transcode run: after a normal return the job is completed and the row is ready or failed. */
  method WorkRecording(handler: MediaHandler, jobs: map<Id, Job>, id: Id, meta: Option<ObjectMeta>, downloaded: bool,
                       probe: Option<Probe>, thumbnailed: bool, ghost s: System)
    returns (jobs': map<Id, Job>, threw: bool)
    requires id in jobs && jobs[id].state.Waiting?
    requires s.jobs == jobs && s.rows == RecordingRows(handler.recordings)
    modifies handler
    ensures var s' := RunOfJob(s, id, threw, id in handler.recordings && handler.recordings[id].status.Ready?);
            jobs' == s'.jobs && RecordingRows(handler.recordings) == s'.rows
    ensures !threw ==> id in handler.recordings && (handler.recordings[id].status.Ready? || handler.recordings[id].status.Refused?)
  {
    hide Playable, RunOfJob, RecordingStatusRow;
    var picked := jobs[id].(state := Running);
    threw := handler.ProcessMediaTranscode(id, meta, downloaded, probe, thumbnailed);
    jobs' := jobs[id := if threw then Job(FailedJob, picked.attemptsMade + 1) else picked.(state := CompletedJob)];
    var ok := id in handler.recordings && handler.recordings[id].status.Ready?;
    RunOfJobIs(s, id, threw, ok);
    if !threw {
      assert handler.recordings == old(handler.recordings)[id := handler.recordings[id]];
      RecordingRowChanges(old(handler.recordings), id, handler.recordings[id]);
    }
  }

  lemma RecordingRowChanges(recordings: map<Id, Recording>, id: Id, r: Recording)
    requires id in recordings
    ensures RecordingRows(recordings[id := r]) == RecordingRows(recordings)[id := RecordingStatusRow(r)]
    ensures r.status.Ready? ==> RecordingStatusRow(r) == Succeeded
    ensures r.status.Refused? ==> RecordingStatusRow(r) == FailedRow
  {}
}
