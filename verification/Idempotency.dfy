/**
 * The Idempotency-Key protocol: a request looks its key up, claims it, runs the
 * handler, and stores the answer or releases the claim. Each Redis command is one
 * step; requests interleave freely and may die between any two.
 */
module Idempotency {
  import opened Common
  import opened JsText
  import CanonicalJson

  datatype Reply = Reply(status: int, body: int)
  datatype Stored = Processing | Done(reply: Reply)

  /** What the caller is told. */
  datatype Answer = Conflict | Replayed(reply: Reply) | Ran(reply: Reply) | HandlerError

  datatype Phase =
    | LookingUp
    | Claiming
    | InHandler
    | Storing(reply: Reply)
    | Releasing
    | Answered(answer: Answer)
    | Died

  /** One key: its slot, the requests that carry it, and, as history, the handler's successes. */
  datatype System = System(slot: Option<Stored>, requests: map<Id, Phase>, successes: seq<Reply>)

  datatype Action =
    | Arrive(r: Id)
    | LookUp(r: Id)
      /** SET NX. */
    | Claim(r: Id)
    | Succeed(r: Id, reply: Reply)
    | Throw(r: Id)
    | Store(r: Id)
    | Release(r: Id)
    | Die(r: Id)
      /** The slot's time to live runs out. */
    | Expire

  predicate In(s: System, r: Id, p: Phase) { r in s.requests && s.requests[r] == p }

  function Move(s: System, r: Id, p: Phase): System { s.(requests := s.requests[r := p]) }

  function Apply(s: System, a: Action): System {
    match a
    case Arrive(r) => if r in s.requests then s else Move(s, r, LookingUp)
    case LookUp(r) =>
      if !In(s, r, LookingUp) then s
      else if s.slot.None? then Move(s, r, Claiming)
      else if s.slot.value.Processing? then Move(s, r, Answered(Conflict))
      else Move(s, r, Answered(Replayed(s.slot.value.reply)))
    case Claim(r) =>
      if !In(s, r, Claiming) then s
      else if s.slot.Some? then Move(s, r, Answered(Conflict))
      else Move(s, r, InHandler).(slot := Some(Processing))
    case Succeed(r, reply) =>
      if !In(s, r, InHandler) then s else Move(s, r, Storing(reply)).(successes := s.successes + [reply])
    case Throw(r) => if !In(s, r, InHandler) then s else Move(s, r, Releasing)
    case Store(r) =>
      if r in s.requests && s.requests[r].Storing?
      then Move(s, r, Answered(Ran(s.requests[r].reply))).(slot := Some(Done(s.requests[r].reply)))
      else s
    case Release(r) => if !In(s, r, Releasing) then s else Move(s, r, Answered(HandlerError)).(slot := None)
    case Die(r) => if r in s.requests && !s.requests[r].Answered? then Move(s, r, Died) else s
    case Expire => s.(slot := None)
  }

  function Run(s: System, actions: seq<Action>): System
    decreases |actions|
  {
    if actions == [] then s else Apply(Run(s, actions[..|actions| - 1]), actions[|actions| - 1])
  }

  const EMPTY := System(None, map[], [])

  /* ------------------------------------ without expiry ------------------------------------ */

  /** Between a successful claim and its end. */
  predicate Owns(p: Phase) { p.InHandler? || p.Storing? || p.Releasing? }

  /** What one request's phase says about the slot and the successes. */
  ghost predicate RequestOk(s: System, r: Id)
    requires r in s.requests
  {
    match s.requests[r]
    case InHandler => s.slot == Some(Processing) && s.successes == []
    case Releasing => s.slot == Some(Processing) && s.successes == []
    case Storing(reply) => s.slot == Some(Processing) && s.successes == [reply]
    case Answered(Ran(reply)) => s.successes == [reply]
    case Answered(Replayed(reply)) => s.successes == [reply]
    case _ => true
  }

  ghost predicate Inv(s: System) {
    && |s.successes| <= 1
    && (s.slot.None? ==> s.successes == [])
    && (s.slot.Some? && s.slot.value.Done? ==> s.successes == [s.slot.value.reply])
    && (forall r :: r in s.requests ==> RequestOk(s, r))
    && (forall r, q :: r in s.requests && q in s.requests && Owns(s.requests[r]) && Owns(s.requests[q]) ==> r == q)
  }

  lemma RequestStaysOk(s: System, a: Action, r: Id)
    requires Inv(s) && !a.Expire? && r in Apply(s, a).requests
    ensures RequestOk(Apply(s, a), r)
  {
    if r in s.requests { assert RequestOk(s, r); }
  }

  lemma OneOwner(s: System, a: Action)
    requires Inv(s) && !a.Expire?
    ensures var s' := Apply(s, a);
            forall r, q :: r in s'.requests && q in s'.requests && Owns(s'.requests[r]) && Owns(s'.requests[q]) ==> r == q
  {}

  lemma ApplyKeeps(s: System, a: Action)
    requires Inv(s) && !a.Expire?
    ensures Inv(Apply(s, a))
  {
    OneOwner(s, a);
    forall r | r in Apply(s, a).requests ensures RequestOk(Apply(s, a), r) { RequestStaysOk(s, a, r); }
    hide Owns;
  }

  lemma {:induction false} RunKeeps(actions: seq<Action>)
    requires forall i :: 0 <= i < |actions| ==> !actions[i].Expire?
    ensures Inv(Run(EMPTY, actions))
    decreases |actions|
  {
    if actions != [] {
      hide Apply, Inv;
      RunKeeps(actions[..|actions| - 1]);
      ApplyKeeps(Run(EMPTY, actions[..|actions| - 1]), actions[|actions| - 1]);
    }
  }

  /** At most one request is in its handler, and at most one handler ever succeeds. */
  lemma RunsOnce(actions: seq<Action>, r: Id, q: Id)
    requires forall i :: 0 <= i < |actions| ==> !actions[i].Expire?
    ensures var s := Run(EMPTY, actions);
            |s.successes| <= 1 && (In(s, r, InHandler) && In(s, q, InHandler) ==> r == q)
  {
    RunKeeps(actions);
  }

  /** Whoever is told neither 409 nor their own handler's error is told what the one success answered. */
  lemma AnswersAreTheSuccess(actions: seq<Action>, r: Id)
    requires forall i :: 0 <= i < |actions| ==> !actions[i].Expire?
    ensures var s := Run(EMPTY, actions);
            r in s.requests && s.requests[r].Answered? ==>
              match s.requests[r].answer
              case Conflict => true
              case HandlerError => true
              case Replayed(reply) => s.successes == [reply]
              case Ran(reply) => s.successes == [reply]
  {
    RunKeeps(actions);
    var s := Run(EMPTY, actions);
    if r in s.requests { assert RequestOk(s, r); }
  }

  /** Once an answer is stored, every later request that looks the key up gets it, and the handler never runs again. */
  lemma {:induction false} StoredIsForever(before: seq<Action>, later: seq<Action>, reply: Reply)
    requires forall i :: 0 <= i < |before| ==> !before[i].Expire?
    requires forall i :: 0 <= i < |later| ==> !later[i].Expire?
    requires Run(EMPTY, before).slot == Some(Done(reply))
    ensures Run(Run(EMPTY, before), later).slot == Some(Done(reply))
    ensures Run(Run(EMPTY, before), later).successes == [reply]
    ensures Inv(Run(Run(EMPTY, before), later))
    decreases |later|
  {
    RunKeeps(before);
    if later != [] {
      StoredIsForever(before, later[..|later| - 1], reply);
      DoneStays(Run(Run(EMPTY, before), later[..|later| - 1]), later[|later| - 1], reply);
    }
  }

  lemma DoneStays(s: System, a: Action, reply: Reply)
    requires Inv(s) && s.slot == Some(Done(reply)) && !a.Expire?
    ensures Inv(Apply(s, a)) && Apply(s, a).slot == Some(Done(reply))
  {
    ApplyKeeps(s, a);
    if a.Store? || a.Release? {
      if a.r in s.requests { assert RequestOk(s, a.r); }
    }
  }

  function Claimed(): System { Apply(Apply(Apply(EMPTY, Arrive(0)), LookUp(0)), Claim(0)) }

  lemma FirstClaim()
    ensures Claimed() == System(Some(Processing), map[0 := InHandler], [])
  {
    assert map[0 := LookingUp][0 := Claiming][0 := InHandler] == map[0 := InHandler];
  }

  lemma SecondClaim(s: System)
    requires s == System(None, map[0 := InHandler], [])
    ensures Apply(Apply(Apply(s, Arrive(1)), LookUp(1)), Claim(1)) ==
            System(Some(Processing), map[0 := InHandler, 1 := InHandler], [])
  {
    assert map[0 := InHandler][1 := LookingUp][1 := Claiming][1 := InHandler] == map[0 := InHandler, 1 := InHandler];
  }

  lemma BothSucceed(s: System, x: Reply, y: Reply)
    requires s == System(Some(Processing), map[0 := InHandler, 1 := InHandler], [])
    ensures Apply(Apply(s, Succeed(0, x)), Succeed(1, y)).successes == [x, y]
  {}

  lemma {:induction false} RunParts(s: System, a: seq<Action>, b: seq<Action>)
    ensures Run(s, a + b) == Run(Run(s, a), b)
    decreases |b|
  {
    hide Apply;
    if b == [] {
      assert a + b == a;
    } else {
      assert (a + b)[..|a + b| - 1] == a + b[..|b| - 1];
      RunParts(s, a, b[..|b| - 1]);
    }
  }

  lemma RunThree(s: System, a: Action, b: Action, c: Action)
    ensures Run(s, [a, b, c]) == Apply(Apply(Apply(s, a), b), c)
    ensures Run(s, [a, b]) == Apply(Apply(s, a), b) && Run(s, [a]) == Apply(s, a)
  {
    hide Apply;
    assert [a][..0] == [];
    assert Run(s, [a]) == Apply(s, a);
    assert [a, b][..1] == [a];
    assert Run(s, [a, b]) == Apply(Run(s, [a]), b);
    assert [a, b, c][..2] == [a, b];
    assert Run(s, [a, b, c]) == Apply(Run(s, [a, b]), c);
  }

  function Prefix(): seq<Action> { [Arrive(0), LookUp(0), Claim(0)] }
  function Suffix(x: Reply, y: Reply): seq<Action> {
    [Arrive(1), LookUp(1), Claim(1)] + [Succeed(0, x), Succeed(1, y)]
  }

  /** A claim that expires while its handler runs lets a second one in: both succeed. */
  lemma ExpiryBreaksIt(x: Reply, y: Reply)
    ensures Run(EMPTY, Prefix() + [Expire] + Suffix(x, y)).successes == [x, y]
    ensures Run(EMPTY, Prefix()).slot == Some(Processing) && In(Run(EMPTY, Prefix()), 0, InHandler)
  {
    FirstClaim();
    var expired := Apply(Claimed(), Expire);
    SecondClaim(expired);
    BothSucceed(System(Some(Processing), map[0 := InHandler, 1 := InHandler], []), x, y);
    hide Apply, Run;
    RunParts(EMPTY, Prefix(), [Expire]);
    RunParts(EMPTY, Prefix() + [Expire], Suffix(x, y));
    RunThree(EMPTY, Arrive(0), LookUp(0), Claim(0));
    RunThree(Claimed(), Expire, Expire, Expire);
    RunParts(expired, [Arrive(1), LookUp(1), Claim(1)], [Succeed(0, x), Succeed(1, y)]);
    RunThree(expired, Arrive(1), LookUp(1), Claim(1));
    RunThree(System(Some(Processing), map[0 := InHandler, 1 := InHandler], []), Succeed(0, x), Succeed(1, y), Expire);
  }

  /**
   * What a request gets that nobody disturbs: the stored answer, or a conflict while
   * another is processed; from a free slot it gets to its handler.
   */
  lemma AloneLooksUp(s: System, r: Id)
    requires r !in s.requests
    ensures var found := Apply(Apply(s, Arrive(r)), LookUp(r));
            match s.slot
            case Some(Done(stored)) => found == s.(requests := s.requests[r := Answered(Replayed(stored))])
            case Some(Processing) => found == s.(requests := s.requests[r := Answered(Conflict)])
            case None => Apply(found, Claim(r)) == System(Some(Processing), s.requests[r := InHandler], s.successes)
  {
    assert s.requests[r := LookingUp][r := Answered(Conflict)] == s.requests[r := Answered(Conflict)];
    assert s.requests[r := LookingUp][r := Claiming][r := InHandler] == s.requests[r := InHandler];
    if s.slot.Some? && s.slot.value.Done? {
      var a := Answered(Replayed(s.slot.value.reply));
      assert s.requests[r := LookingUp][r := a] == s.requests[r := a];
    }
  }

  /** The handler's success is stored and answered, its failure frees the slot. */
  lemma HandlerAnswers(s: System, r: Id, reply: Reply)
    requires In(s, r, InHandler)
    ensures Apply(Apply(s, Succeed(r, reply)), Store(r)) ==
            System(Some(Done(reply)), s.requests[r := Answered(Ran(reply))], s.successes + [reply])
    ensures Apply(Apply(s, Throw(r)), Release(r)) == System(None, s.requests[r := Answered(HandlerError)], s.successes)
  {
    assert s.requests[r := Storing(reply)][r := Answered(Ran(reply))] == s.requests[r := Answered(Ran(reply))];
    assert s.requests[r := Releasing][r := Answered(HandlerError)] == s.requests[r := Answered(HandlerError)];
  }

  /** A claim goes through exactly on a free slot; otherwise it is a conflict. */
  lemma ClaimAnswers(s: System, r: Id)
    requires In(s, r, Claiming)
    ensures Apply(s, Claim(r)) ==
            if s.slot == None then System(Some(Processing), s.requests[r := InHandler], s.successes)
            else s.(requests := s.requests[r := Answered(Conflict)])
  {}

  /* -------------------------------------- expiry -------------------------------------- */

  predicate OwnsSlot(s: System, r: Id) { r in s.requests && Owns(s.requests[r]) }
  predicate NobodyOwns(s: System) { forall r :: r in s.requests ==> !Owns(s.requests[r]) }

  /** At most one owner, and while there is one the slot says processing: all that a run with harmless expiries keeps. */
  ghost predicate OneClaim(s: System) {
    && (forall r, q :: OwnsSlot(s, r) && OwnsSlot(s, q) ==> r == q)
    && (forall r :: OwnsSlot(s, r) ==> s.slot == Some(Processing))
  }

  ghost predicate Harmless(s: System, actions: seq<Action>) {
    forall i :: 0 <= i < |actions| && actions[i].Expire? ==> NobodyOwns(Run(s, actions[..i]))
  }

  lemma OwnersStep(s: System, a: Action)
    requires OneClaim(s) && (a.Expire? ==> NobodyOwns(s))
    ensures OneClaim(Apply(s, a))
  {
    var s' := Apply(s, a);
    assert forall r :: OwnsSlot(s', r) && !OwnsSlot(s, r) ==> a == Claim(r) && s.slot.None?;
    forall r | OwnsSlot(s', r) ensures s'.slot == Some(Processing) {
      assert a.Store? || a.Release? ==> OwnsSlot(s, r) && (OwnsSlot(s, a.r) ==> a.r == r);
    }
  }

  /** Expiry is harmless while nobody owns the slot: there is never a second owner, so never two handlers at once. */
  lemma {:induction false} HarmlessExpiry(s: System, actions: seq<Action>)
    requires OneClaim(s) && Harmless(s, actions)
    ensures OneClaim(Run(s, actions))
    decreases |actions|
  {
    if actions != [] {
      hide Apply, OneClaim, NobodyOwns;
      var before := actions[..|actions| - 1];
      assert forall i :: 0 <= i < |before| ==> before[i] == actions[i] && before[..i] == actions[..i];
      HarmlessExpiry(s, before);
      OwnersStep(Run(s, before), actions[|actions| - 1]);
    }
  }

  lemma NewRequest(requests: map<Id, Phase>) returns (q: Id)
    ensures q !in requests
  {
    q := AboveAll(requests.Keys);
  }

  lemma {:induction false} AboveAll(s: set<Id>) returns (q: Id)
    ensures forall r :: r in s ==> r < q
    decreases |s|
  {
    if s == {} {
      q := 0;
    } else {
      var r :| r in s;
      var p := AboveAll(s - {r});
      q := if p > r then p else r + 1;
      assert forall x :: x in s ==> x == r || x in s - {r};
    }
  }

  /** What a newcomer does to a slot that has expired. */
  function Newcomer(q: Id): seq<Action> { [Arrive(q), LookUp(q), Claim(q)] }

  lemma NewcomerClaims(s: System, q: Id)
    requires s.slot.None? && q !in s.requests
    ensures Run(s, Newcomer(q)) == System(Some(Processing), s.requests[q := InHandler], s.successes)
  {
    RunThree(s, Arrive(q), LookUp(q), Claim(q));
    hide Run;
    assert s.requests[q := LookingUp][q := Claiming][q := InHandler] == s.requests[q := InHandler];
  }

  ghost predicate TwoOwners(s: System) { exists r, q :: r != q && OwnsSlot(s, r) && OwnsSlot(s, q) }
  ghost predicate TwoInHandler(s: System) { exists r, q :: r != q && In(s, r, InHandler) && In(s, q, InHandler) }
  ghost predicate WithoutExpiry(actions: seq<Action>) { forall i :: 0 <= i < |actions| ==> !actions[i].Expire? }

  /** An expiry under a running handler lets a second handler in. */
  lemma ExpiryLetsTwoIn(s: System, r: Id)
    requires In(s, r, InHandler)
    ensures exists actions :: WithoutExpiry(actions) && TwoInHandler(Run(Apply(s, Expire), actions))
  {
    hide Run;
    var q := NewRequest(s.requests);
    NewcomerClaims(Apply(s, Expire), q);
    var after := Run(Apply(s, Expire), Newcomer(q));
    assert In(after, r, InHandler) && In(after, q, InHandler) && r != q;
    assert WithoutExpiry(Newcomer(q));
  }

  /**
   * Exactly which expiries can do harm: after an expiry two requests can come to
   * own the slot, without another expiry, if and only if some request owned it.
   */
  lemma ExpiryHarmsExactlyWhen(s: System)
    requires OneClaim(s)
    ensures (exists actions :: WithoutExpiry(actions) && TwoOwners(Run(Apply(s, Expire), actions))) <==> !NobodyOwns(s)
  {
    var expired := Apply(s, Expire);
    if NobodyOwns(s) {
      OwnersStep(s, Expire);
      forall actions | WithoutExpiry(actions) ensures !TwoOwners(Run(expired, actions)) {
        HarmlessExpiry(expired, actions);
      }
    } else {
      hide Run;
      var r :| r in s.requests && Owns(s.requests[r]);
      var q := NewRequest(s.requests);
      NewcomerClaims(expired, q);
      var after := Run(expired, Newcomer(q));
      assert OwnsSlot(after, r) && OwnsSlot(after, q) && r != q;
      assert WithoutExpiry(Newcomer(q));
    }
  }

  /**
   * The release of an owner whose claim expired deletes the newcomer's claim, so that
   * a third request can claim: two handlers at once, though the first had failed.
   */
  lemma LateReleaseFreesTheNewcomersClaim(s: System, r: Id, q: Id, p: Id)
    requires In(s, r, Releasing) && q !in s.requests && p !in s.requests && p != q
    ensures var claimed := Run(Apply(s, Expire), Newcomer(q));
            var released := Apply(claimed, Release(r));
            && claimed.slot == Some(Processing) && In(claimed, q, InHandler)
            && released.slot.None? && In(released, q, InHandler)
            && TwoInHandler(Run(released, Newcomer(p)))
  {
    NewcomerClaims(Apply(s, Expire), q);
    var released := Apply(Run(Apply(s, Expire), Newcomer(q)), Release(r));
    NewcomerClaims(released, p);
    hide Run;
    var after := Run(released, Newcomer(p));
    assert In(after, q, InHandler) && In(after, p, InHandler);
  }

  /* ------------------------------------ the redis key ------------------------------------ */

  const COLON: Unit := 58

  /** What a slot is bound to. The payload hash is 64 hexadecimal digits. */
  datatype Request = Request(scope: Text, httpMethod: Text, url: Text, key: Text, payloadHash: Text)

  function RedisKey(q: Request): Text {
    T("idem:") + q.scope + [COLON] + q.httpMethod + [COLON] + q.url + [COLON] + q.key + [COLON] + q.payloadHash
  }

  /** A user id or `anon`, an HTTP method, and a hexadecimal digest hold no colon. */
  predicate Plausible(q: Request) { COLON !in q.scope && COLON !in q.httpMethod && COLON !in q.payloadHash }

  lemma FirstColon(a: Text, x: Text, b: Text, y: Text)
    requires COLON !in a && COLON !in b && a + [COLON] + x == b + [COLON] + y
    ensures a == b && x == y
  {
    var s := a + [COLON] + x;
    forall i | 0 <= i < |a| ensures s[i] != COLON { assert s[i] == a[i]; }
    forall i | 0 <= i < |b| ensures s[i] != COLON { assert s[i] == b[i]; }
    assert s[|a|] == COLON && s[|b|] == COLON;
    assert s[..|a|] == a && s[..|b|] == b;
    assert s[|a| + 1..] == x && s[|b| + 1..] == y;
  }

  lemma LastColon(x: Text, a: Text, y: Text, b: Text)
    requires COLON !in a && COLON !in b && x + [COLON] + a == y + [COLON] + b
    ensures a == b && x == y
  {
    var s := x + [COLON] + a;
    forall i | |x| < i < |s| ensures s[i] != COLON { assert s[i] == a[i - |x| - 1]; }
    forall i | |y| < i < |s| ensures s[i] != COLON { assert s[i] == b[i - |y| - 1]; }
    assert s[|x|] == COLON && s[|y|] == COLON;
    assert s[..|x|] == x && s[..|y|] == y;
    assert s[|x| + 1..] == a && s[|y| + 1..] == b;
  }

  /**
   * Two requests share a slot exactly when caller, method and payload hash are the
   * same and so is the URL joined to the key: a slot never crosses callers or payloads.
   */
  lemma SharedSlots(p: Request, q: Request)
    requires Plausible(p) && Plausible(q)
    ensures RedisKey(p) == RedisKey(q) <==>
            && p.scope == q.scope && p.httpMethod == q.httpMethod && p.payloadHash == q.payloadHash
            && p.url + [COLON] + p.key == q.url + [COLON] + q.key
  {
    hide T;
    var p1, q1 := p.url + [COLON] + p.key, q.url + [COLON] + q.key;
    var p2, q2 := p1 + [COLON] + p.payloadHash, q1 + [COLON] + q.payloadHash;
    var p3, q3 := p.httpMethod + [COLON] + p2, q.httpMethod + [COLON] + q2;
    var p4, q4 := p.scope + [COLON] + p3, q.scope + [COLON] + q3;
    assert RedisKey(p) == T("idem:") + p4 && RedisKey(q) == T("idem:") + q4;
    if RedisKey(p) == RedisKey(q) {
      assert (T("idem:") + p4)[|T("idem:")|..] == p4 && (T("idem:") + q4)[|T("idem:")|..] == q4;
      FirstColon(p.scope, p3, q.scope, q3);
      FirstColon(p.httpMethod, p2, q.httpMethod, q2);
      LastColon(p1, p.payloadHash, q1, q.payloadHash);
    }
  }

  /** A digest that tells canonical forms apart and is written without a colon, as a hexadecimal one is. */
  ghost predicate GoodDigest(digest: CanonicalJson.Json -> Text) {
    && (forall x, y :: digest(x) == digest(y) ==> x == y)
    && (forall x :: COLON !in digest(x))
  }

  /**
   * With such a digest, two requests share a slot exactly when caller and method are
   * the same, so is the URL joined to the key, and the bodies are equal up to member
   * order, absent and null ones counted as `{}`.
   */
  lemma SlotsTellPayloadsApart(p: Request, q: Request, a: Option<CanonicalJson.Json>, b: Option<CanonicalJson.Json>,
                               digest: CanonicalJson.Json -> Text)
    requires GoodDigest(digest) && Plausible(p) && Plausible(q)
    requires CanonicalJson.BodyWellFormed(a) && CanonicalJson.BodyWellFormed(b)
    requires p.payloadHash == digest(CanonicalJson.HashInput(a)) && q.payloadHash == digest(CanonicalJson.HashInput(b))
    ensures RedisKey(p) == RedisKey(q) <==>
            && p.scope == q.scope && p.httpMethod == q.httpMethod
            && p.url + [COLON] + p.key == q.url + [COLON] + q.key
            && CanonicalJson.Same(CanonicalJson.Defaulted(a), CanonicalJson.Defaulted(b), true)
  {
    hide RedisKey;
    SharedSlots(p, q);
    CanonicalJson.HashInputIsSame(a, b);
  }

  /** Among keys without a colon the slot also fixes the URL and the key; with one it may not. */
  lemma SlotsOfPlainKeys(p: Request, q: Request)
    requires Plausible(p) && Plausible(q) && COLON !in p.key && COLON !in q.key
    ensures RedisKey(p) == RedisKey(q) <==> p == q
  {
    SharedSlots(p, q);
    if RedisKey(p) == RedisKey(q) { LastColon(p.url, p.key, q.url, q.key); }
  }

  /**
   * For instance on any mutating route, such as `/participations/<id>/consents`, since the
   * URL is taken with its query string and the key is whatever the client sends.
   */
  lemma ColonKeysCollide(scope: Text, httpMethod: Text, route: Text, payloadHash: Text)
    ensures var p := Request(scope, httpMethod, route + T("?x"), T("y:k"), payloadHash);
            var q := Request(scope, httpMethod, route + T("?x:y"), T("k"), payloadHash);
            p != q && RedisKey(p) == RedisKey(q)
  {
    var p := Request(scope, httpMethod, route + T("?x"), T("y:k"), payloadHash);
    var q := Request(scope, httpMethod, route + T("?x:y"), T("k"), payloadHash);
    assert T("?x") + [COLON] + T("y:k") == T("?x:y") + [COLON] + T("k");
    assert p.url + [COLON] + p.key == q.url + [COLON] + q.key;
    assert |p.key| != |q.key|;
    var head := T("idem:") + scope + [COLON] + httpMethod + [COLON];
    assert RedisKey(p) == head + (p.url + [COLON] + p.key) + [COLON] + payloadHash;
    assert RedisKey(q) == head + (q.url + [COLON] + q.key) + [COLON] + payloadHash;
  }

  /* -------------------------------------- the code -------------------------------------- */

  datatype HandlerResult = Returns(reply: Reply) | Throws

  class Interceptor {
    var redis: map<Text, Stored>

    constructor ()
      ensures redis == map[]
    {
      redis := map[];
    }

    /**
     * One request on its own. `applies` is false for a read, an excluded path or a
     * missing key: then the handler just runs. `claimed` is false when another
     * request's claim slips in between the lookup and the SET NX.
     */
    method Intercept(q: Request, applies: bool, claimed: bool, handler: HandlerResult)
      returns (answer: Answer, ran: bool)
      modifies this
      ensures !applies ==> ran && redis == old(redis)
      ensures applies ==> (ran <==> RedisKey(q) !in old(redis) && claimed)
      ensures ran ==> answer == match handler case Returns(reply) => Ran(reply) case Throws => HandlerError
      ensures !ran ==> answer == if RedisKey(q) in old(redis) && old(redis)[RedisKey(q)].Done?
                                 then Replayed(old(redis)[RedisKey(q)].reply) else Conflict
      ensures applies && ran && handler.Returns? ==> redis == old(redis)[RedisKey(q) := Done(handler.reply)]
      ensures applies && ran && handler.Throws? ==> redis == old(redis)
      ensures applies && !ran && (RedisKey(q) in old(redis)) ==> redis == old(redis)
      ensures applies && !ran && RedisKey(q) !in old(redis) ==> redis == old(redis)[RedisKey(q) := Processing]
    {
      if !applies {
        ran := true;
        answer := match handler case Returns(reply) => Ran(reply) case Throws => HandlerError;
        return;
      }
      var redisKey := RedisKey(q);
      if redisKey in redis {
        match redis[redisKey]
        case Processing => return Conflict, false;
        case Done(reply) => return Replayed(reply), false;
      }
      if !claimed {
        redis := redis[redisKey := Processing];
        return Conflict, false;
      }
      redis := redis[redisKey := Processing];
      match handler
      case Returns(reply) =>
        redis := redis[redisKey := Done(reply)];
        return Ran(reply), true;
      case Throws =>
        redis := redis - {redisKey};
        assert redis == old(redis);
        return HandlerError, true;
    }
  }
}
