/**
 * The lifecycle code itself, statement by statement, over tables that it
 * updates in place. Each transaction is proved to have the effect that
 * PlaytestTables gives it, which is what the protocol steps with.
 */
module PlaytestStore {
  import opened Common
  import opened PlaytestTables
  import opened PlaytestProtocol

  class Store {
    var tests: map<Id, TestRow>
    var participations: map<Id, ParticipationRow>
    var sessions: map<Id, SessionRow>
    var validations: map<Id, ValidationRow>
    var ratings: map<Id, RatingRow>
    var recordings: map<Id, RecordingRow>
    var xpEvents: map<Id, XpRow>
    /** Redis keys that have not expired, and the ids of validation jobs in the queue. */
    var heartbeats: set<Id>
    var validateJobs: set<Id>

    constructor (t: Tables)
      ensures Contents() == t && heartbeats == {} && validateJobs == {}
    {
      tests, participations, sessions := t.tests, t.participations, t.sessions;
      validations, ratings, recordings, xpEvents := t.validations, t.ratings, t.recordings, t.xpEvents;
      heartbeats, validateJobs := {}, {};
    }

    function Contents(): Tables
      reads this
    {
      Tables(tests, participations, sessions, validations, ratings, recordings, xpEvents)
    }

    /** The unique index answers the insert; a violation undoes the slot the same transaction took. */
    method ReserveParticipation(now: int, testId: Id, userId: Id, newId: Id) returns (out: ReserveOutcome)
      modifies this
      ensures (Contents(), out) == Reserve(old(Contents()), now, testId, userId, newId)
      ensures heartbeats == old(heartbeats) && validateJobs == old(validateJobs)
    {
      var before := tests;
      var updated := 0;
      if testId in tests && tests[testId].status.Published?
         && (tests[testId].endsAt.None? || tests[testId].endsAt.value > now)
         && tests[testId].slotsTaken < tests[testId].slotsTotal
      {
        tests := tests[testId := tests[testId].(slotsTaken := tests[testId].slotsTaken + 1)];
        updated := 1;
      }
      if updated == 0 {
        if testId in tests && tests[testId].status.Published? && tests[testId].slotsTaken >= tests[testId].slotsTotal {
          return SlotsExhausted;
        }
        return NotOpen;
      }
      var taken := exists p :: p in participations && SamePair(participations[p], testId, userId)
                               && Active(participations[p].status);
      assert taken == HasActive(old(Contents()), testId, userId);
      if taken {
        tests := before;
        return AlreadyActive;
      }
      participations := participations[newId := ParticipationRow(testId, userId, Reserved)];
      out := Joined(newId);
    }

    method StartSession(now: int, participationId: Id, testId: Id, organizationId: Id, newId: Id)
      returns (out: StartOutcome)
      modifies this
      ensures (Contents(), out)
              == PlaytestTables.StartSession(old(Contents()), now, participationId, testId, organizationId, newId)
      ensures heartbeats == old(heartbeats) && validateJobs == old(validateJobs)
    {
      var open := exists s :: s in sessions && sessions[s].participationId == participationId
                              && StillRunning(sessions[s].status);
      assert open == HasRunningSession(old(Contents()), participationId);
      if open { return SessionStillOpen; }
      var claimed := participationId in participations && Startable(participations[participationId].status);
      if claimed {
        participations := participations[participationId := participations[participationId].(status := Playing)];
      }
      if !claimed { return AlreadyPlayed; }
      sessions := sessions[newId :=
        SessionRow(participationId, testId, organizationId, Starting, now, None, None)];
      out := Started(newId);
    }

    /** The heartbeat request: its read, the key, and the mark only if it read `starting`. */
    method Heartbeat(sessionId: Id, userId: Id) returns (found: bool)
      modifies this
      ensures found == (SessionOf(old(Contents()), sessionId, userId) && Unfinished(old(sessions)[sessionId].status))
      ensures Contents() == if found then MarkRecording(old(Contents()), sessionId) else old(Contents())
      ensures heartbeats == if found then old(heartbeats) + {sessionId} else old(heartbeats)
      ensures validateJobs == old(validateJobs)
    {
      if !SessionOf(Contents(), sessionId, userId) { return false; }
      var session := sessions[sessionId];
      if Closed(session.status) { return false; }
      heartbeats := heartbeats + {sessionId};
      if session.status.Starting? {
        if sessions[sessionId].status.Starting? {
          sessions := sessions[sessionId := sessions[sessionId].(status := Recording)];
        }
      }
      found := true;
    }

    /** The finish request: close, drop the key, make sure the validation job runs. */
    method Finish(sessionId: Id, userId: Id, now: int, tMs: int) returns (ok: bool)
      modifies this
      ensures ok == (SessionOf(old(Contents()), sessionId, userId) && Unfinished(old(sessions)[sessionId].status))
      ensures !ok ==> Contents() == old(Contents()) && heartbeats == old(heartbeats) && validateJobs == old(validateJobs)
      ensures ok ==> var row := old(sessions)[sessionId];
                     (Contents(), true) == FinishSession(old(Contents()), sessionId, row.participationId, now,
                                                         PlayedMs(tMs, row.startedAt, now))
                     && heartbeats == old(heartbeats) - {sessionId}
                     && validateJobs == old(validateJobs) + {sessionId}
      ensures ok ==> var (row, elapsed) := (sessions[sessionId], now - old(sessions)[sessionId].startedAt);
                     && row.status == Processing && row.endedAt == Some(now) && row.durationMs.Some?
                     && row.durationMs.value <= tMs && row.durationMs.value <= (if elapsed < 0 then 0 else elapsed)
                     && (row.durationMs.value == tMs || row.durationMs.value == if elapsed < 0 then 0 else elapsed)
    {
      if !SessionOf(Contents(), sessionId, userId) { return false; }
      var owned := sessions[sessionId];
      var elapsedMs := Max(0, now - owned.startedAt);
      if !Unfinished(sessions[sessionId].status) { return false; }
      sessions := sessions[sessionId := sessions[sessionId].(status := Processing, endedAt := Some(now),
                                                             durationMs := Some(Min(tMs, elapsedMs)))];
      if owned.participationId in participations {
        participations := participations[owned.participationId :=
          participations[owned.participationId].(status := InReview)];
      }
      heartbeats := heartbeats - {sessionId};
      validateJobs := validateJobs + {sessionId};
      ok := true;
    }

    /** The XP credit inside the validation transaction. */
    method CreditSessionXp(sessionId: Id, session: SessionRow, newId: Id)
      modifies this`xpEvents
      ensures Contents() ==
              if session.participationId in participations
                 && !Rewarded(old(Contents()), participations[session.participationId].userId, session.testId)
              then InsertXp(old(Contents()), participations[session.participationId].userId, sessionId, newId)
              else old(Contents())
    {
      if session.participationId !in participations { return; }
      var userId := participations[session.participationId].userId;
      if Rewarded(Contents(), userId, session.testId) { return; }
      var duplicate := exists e :: e in xpEvents && xpEvents[e].userId == userId && xpEvents[e].sourceId == sessionId;
      assert duplicate == exists e :: e in old(Contents()).xpEvents && old(Contents()).xpEvents[e].userId == userId
                                      && old(Contents()).xpEvents[e].sourceId == sessionId;
      if !duplicate {
        xpEvents := xpEvents[newId := XpRow(userId, sessionId, SESSION_COMPLETION_XP)];
      }
    }

    /** One undisturbed delivery of the validation job; None when the session does not exist. */
    method ProcessSessionValidate(sessionId: Id, newId: Id) returns (applied: Option<bool>)
      requires forall i :: i in sessions ==> sessions[i].participationId in participations
      modifies this
      ensures applied.None? <==> sessionId !in old(validations) && sessionId !in old(sessions)
      ensures applied == Some(true) <==> sessionId !in old(validations) && sessionId in old(sessions)
      ensures applied != Some(true) ==> Contents() == old(Contents())
      ensures applied == Some(true) ==>
                var t, row := old(Contents()), old(sessions)[sessionId];
                Contents() == CommitVerdict(t, sessionId, row, Verdict(row, HasFailedRecording(t, sessionId)),
                                            Rewarded(t, old(participations)[row.participationId].userId, row.testId), newId)
      ensures heartbeats == old(heartbeats) && validateJobs == old(validateJobs)
    {
      if sessionId in validations { return Some(false); }
      if sessionId !in sessions { return None; }
      var session := sessions[sessionId];
      var valid: bool;
      var reason: Option<string>;
      if session.status.Invalidated? {
        valid, reason := false, Some(TIMEOUT_REASON);
      } else if session.durationMs.None? || session.durationMs.value <= 0 {
        valid, reason := false, Some(NO_DURATION_REASON);
      } else {
        if HasFailedRecording(Contents(), sessionId) {
          valid, reason := false, Some(RECORDING_REASON);
        } else {
          valid, reason := true, None;
        }
      }
      ghost var verdict := Verdict(session, HasFailedRecording(old(Contents()), sessionId));
      assert ValidationRow(valid, reason) == verdict;
      validations := validations[sessionId := ValidationRow(valid, reason)];
      sessions := sessions[sessionId := sessions[sessionId].(status := if valid then CompletedSession else Invalidated)];
      participations := participations[session.participationId :=
        participations[session.participationId].(status := if valid then Completed else Rejected)];
      assert Contents() == WriteVerdict(old(Contents()), sessionId, session, verdict);
      RewardedIgnoresStatuses(old(Contents()), Contents(), participations[session.participationId].userId, session.testId);
      if valid { CreditSessionXp(sessionId, session, newId); }
      applied := Some(true);
    }

    /** Own writes of the transaction do not disturb its XP check. */
    lemma RewardedIgnoresStatuses(t: Tables, t': Tables, userId: Id, testId: Id)
      requires t'.xpEvents == t.xpEvents && t'.sessions.Keys == t.sessions.Keys
      requires forall s :: s in t.sessions ==> t'.sessions[s].testId == t.sessions[s].testId
      ensures Rewarded(t', userId, testId) == Rewarded(t, userId, testId)
    {
      forall e | e in t.xpEvents
        ensures t.xpEvents[e].sourceId in t.sessions <==> t'.xpEvents[e].sourceId in t'.sessions {}
      if Rewarded(t, userId, testId) {
        var e :| e in t.xpEvents && t.xpEvents[e].userId == userId && t.xpEvents[e].sourceId in t.sessions
                 && t.sessions[t.xpEvents[e].sourceId].testId == testId;
        assert e in t'.xpEvents;
      }
      if Rewarded(t', userId, testId) {
        var e :| e in t'.xpEvents && t'.xpEvents[e].userId == userId && t'.xpEvents[e].sourceId in t'.sessions
                 && t'.sessions[t'.xpEvents[e].sourceId].testId == testId;
        assert e in t.xpEvents;
      }
    }

    /** Rolls the rating back too when an unvalidated session is marked invalid. */
    method RateSession(organizationId: Id, sessionId: Id, row: RatingRow) returns (out: RateOutcome)
      modifies this
      ensures (Contents(), out) == PlaytestTables.RateSession(old(Contents()), organizationId, sessionId, row)
      ensures heartbeats == old(heartbeats) && validateJobs == old(validateJobs)
    {
      if sessionId !in sessions || sessions[sessionId].organizationId != organizationId { return SessionNotFound; }
      var before := ratings;
      ratings := ratings[sessionId := row];
      if row.markedInvalid {
        if sessionId !in validations {
          ratings := before;
          return NotValidatedYet;
        }
        if validations[sessionId].valid {
          validations := validations[sessionId := ValidationRow(false, Some(STUDIO_INVALID_REASON))];
        }
      } else {
        if sessionId in validations && validations[sessionId].reason == Some(STUDIO_INVALID_REASON) {
          validations := validations[sessionId := ValidationRow(true, None)];
        }
      }
      assert sessionId in validations ==>
        validations == old(validations)[sessionId := Reconsidered(old(validations)[sessionId], row.markedInvalid)];
      out := Rated(row);
    }

    /** What one undisturbed timeout sweep makes of a session. */
    static function Swept(row: SessionRow, alive: bool, now: int): SessionRow {
      if Unfinished(row.status) && !alive then row.(status := Invalidated, endedAt := Some(now)) else row
    }

    /** The timeout sweep: every open session whose heartbeat key is gone, and no other. */
    method ReconcileTimedOutSessions(now: int)
      modifies this`sessions, this`validateJobs
      ensures sessions.Keys == old(sessions).Keys
      ensures forall s :: s in sessions ==> sessions[s] == Swept(old(sessions)[s], s in heartbeats, now)
      ensures validateJobs == old(validateJobs)
                + set s | s in old(sessions) && Unfinished(old(sessions)[s].status) && s !in heartbeats
    {
      var open := set s | s in sessions && Unfinished(sessions[s].status);
      ghost var listed := open;
      while open != {}
        invariant open <= listed && sessions.Keys == old(sessions).Keys
        invariant forall s :: s in sessions ==>
          sessions[s] == if s in open then old(sessions)[s] else Swept(old(sessions)[s], s in heartbeats, now)
        invariant validateJobs == old(validateJobs) + set s | s in listed && s !in open && s !in heartbeats
        decreases open
      {
        var id :| id in open;
        open := open - {id};
        if id !in heartbeats {
          if Unfinished(sessions[id].status) {
            sessions := sessions[id := sessions[id].(status := Invalidated, endedAt := Some(now))];
          }
          validateJobs := validateJobs + {id};
        }
      }
    }

    /** The backstop sweep: every closed, unvalidated session past the grace period gets its job. */
    method ReconcileUnvalidatedSessions(cutoff: int)
      modifies this`validateJobs
      ensures validateJobs == old(validateJobs)
                + set s | s in sessions && (sessions[s].status.Processing? || sessions[s].status.Invalidated?)
                          && sessions[s].endedAt.Some? && sessions[s].endedAt.value < cutoff && s !in validations
    {
      var unvalidated := set s | s in sessions && (sessions[s].status.Processing? || sessions[s].status.Invalidated?)
                                 && sessions[s].endedAt.Some? && sessions[s].endedAt.value < cutoff && s !in validations;
      ghost var listed := unvalidated;
      while unvalidated != {}
        invariant unvalidated <= listed
        invariant validateJobs == old(validateJobs) + (listed - unvalidated)
        decreases unvalidated
      {
        var id :| id in unvalidated;
        unvalidated := unvalidated - {id};
        validateJobs := validateJobs + {id};
      }
    }
  }

  /** The player's rows of these tests as the query returns them, newest id first. */
  predicate DescendingRows(rows: seq<(Id, ParticipationRow)>) {
    forall i, j :: 0 <= i < j < |rows| ==> rows[j].0 < rows[i].0
  }

  /** Of the tests of the first `n` rows, `latest` has the row with the greatest id among all rows. */
  ghost predicate LatestOf(rows: seq<(Id, ParticipationRow)>, n: nat, latest: map<Id, (Id, ParticipationRow)>)
    requires n <= |rows|
  {
    && (forall j :: 0 <= j < n ==> rows[j].1.testId in latest)
    && (forall testId :: testId in latest ==> HasNewest(rows, testId, latest[testId]))
  }

  ghost predicate HasNewest(rows: seq<(Id, ParticipationRow)>, testId: Id, row: (Id, ParticipationRow)) {
    && row in rows && row.1.testId == testId
    && forall j :: 0 <= j < |rows| && rows[j].1.testId == testId ==> rows[j].0 <= row.0
  }

  lemma FirstIsNewest(rows: seq<(Id, ParticipationRow)>, i: nat)
    requires DescendingRows(rows) && i < |rows| && forall j :: 0 <= j < i ==> rows[j].1.testId != rows[i].1.testId
    ensures HasNewest(rows, rows[i].1.testId, rows[i])
  {
    forall j | 0 <= j < |rows| && rows[j].1.testId == rows[i].1.testId ensures rows[j].0 <= rows[i].0 {
      assert j >= i;
    }
  }

  /** Keeps the first row met of each test, which is the newest one. */
  method FindLatestParticipations(rows: seq<(Id, ParticipationRow)>) returns (latest: map<Id, (Id, ParticipationRow)>)
    requires DescendingRows(rows)
    ensures forall r :: r in rows ==> r.1.testId in latest
    ensures forall testId :: testId in latest ==>
              latest[testId] in rows && latest[testId].1.testId == testId
              && forall r :: r in rows && r.1.testId == testId ==> r.0 <= latest[testId].0
  {
    hide HasNewest;
    latest := map[];
    for i := 0 to |rows|
      invariant LatestOf(rows, i, latest)
    {
      if rows[i].1.testId !in latest {
        FirstIsNewest(rows, i);
        latest := latest[rows[i].1.testId := rows[i]];
      }
    }
    forall testId | testId in latest
      ensures latest[testId] in rows && latest[testId].1.testId == testId
      ensures forall r :: r in rows && r.1.testId == testId ==> r.0 <= latest[testId].0
    {
      NewestIs(rows, testId, latest[testId]);
    }
  }

  lemma NewestIs(rows: seq<(Id, ParticipationRow)>, testId: Id, row: (Id, ParticipationRow))
    requires HasNewest(rows, testId, row)
    ensures row in rows && row.1.testId == testId && forall r :: r in rows && r.1.testId == testId ==> r.0 <= row.0
  {}
}
