/**
 * Refresh-token families: rotation, reuse detection, logout and password
 * reset. A refresh reads its token row, checks user and membership, and only
 * then rotates in a transaction; each of those is a step, so any number of
 * requests may present the same token at once. Tokens are named by their row
 * id (hashing is injective); whether a presented token verifies is part of the
 * action.
 */
module RefreshTokens {
  import opened Common

  datatype Token = Token(userId: Id, organizationId: Id, familyId: Id, revoked: bool,
                         replacedBy: Option<Id>, expiresAt: int)

  datatype Request =
      /** `refresh` with the row it read, before its rotation. */
    | Loaded(id: Id, row: Token)
      /** A reused token, a lost race or a logout: about to revoke the family. */
    | Revoking(familyId: Id)

  datatype Answer = Rotated(token: Id, next: Id) | Refused(familyId: Id)

  /** `answers` is a history variable: how requests that changed tokens ended. */
  datatype System = System(now: int, nextId: Id, tokens: map<Id, Token>, requests: map<Id, Request>,
                           answers: map<Id, Answer>)

  datatype Action =
    | Tick(elapsed: nat)
      /** Login or signup: a token in a family of its own. */
    | IssueSession(userId: Id, organizationId: Id, ttl: int)
    | Refresh(token: Id, verifies: bool)
    | Logout(token: Id)
      /** `eligible`: the user is active and still a member of the token's organization. */
    | Advance(request: Id, eligible: bool, ttl: int)
    | ApplyPasswordReset(userId: Id)
    | Crash(request: Id)

  const EMPTY := System(0, 0, map[], map[], map[])

  /* ------------------------------------ the tables ------------------------------------ */

  function Revoke(t: Token): Token { t.(revoked := true) }

  function RevokeFamily(tokens: map<Id, Token>, familyId: Id): map<Id, Token> {
    map i | i in tokens :: if tokens[i].familyId == familyId then Revoke(tokens[i]) else tokens[i]
  }

  function RevokeUser(tokens: map<Id, Token>, userId: Id): map<Id, Token> {
    map i | i in tokens :: if tokens[i].userId == userId then Revoke(tokens[i]) else tokens[i]
  }

  /** The compare-and-set and the insert of one transaction; None when the token was already revoked. */
  function Rotate(tokens: map<Id, Token>, current: Id, next: Id, row: Token): Option<map<Id, Token>> {
    if current in tokens && !tokens[current].revoked then
      Some(tokens[current := tokens[current].(revoked := true, replacedBy := Some(next))][next := row])
    else None
  }

  /* -------------------------------------- steps -------------------------------------- */

  function Spawn(s: System, r: Request): System {
    s.(requests := s.requests[s.nextId := r], nextId := s.nextId + 1)
  }

  function Answered(s: System, request: Id, a: Answer): System {
    s.(requests := s.requests - {request}, answers := s.answers[request := a])
  }

  function Step(s: System, request: Id, eligible: bool, ttl: int): System
    requires request in s.requests
  {
    match s.requests[request]
    case Revoking(f) => Answered(s.(tokens := RevokeFamily(s.tokens, f)), request, Refused(f))
    case Loaded(id, row) =>
      if !eligible then s.(requests := s.requests - {request})
      else
        var next := Token(row.userId, row.organizationId, row.familyId, false, None, s.now + ttl);
        match Rotate(s.tokens, id, s.nextId, next)
        case Some(tokens) => Answered(s.(tokens := tokens, nextId := s.nextId + 1), request, Rotated(id, s.nextId))
        case None => s.(requests := s.requests[request := Revoking(row.familyId)])
  }

  function Apply(s: System, a: Action): System {
    match a
    case Tick(elapsed) => s.(now := s.now + elapsed)
    case IssueSession(u, o, ttl) =>
      s.(tokens := s.tokens[s.nextId := Token(u, o, s.nextId + 1, false, None, s.now + ttl)], nextId := s.nextId + 2)
    case Refresh(id, verifies) =>
      if !verifies || id !in s.tokens then s
      else if s.tokens[id].revoked then Spawn(s, Revoking(s.tokens[id].familyId))
      else if s.tokens[id].expiresAt < s.now then s
      else Spawn(s, Loaded(id, s.tokens[id]))
    case Logout(id) => if id in s.tokens then Spawn(s, Revoking(s.tokens[id].familyId)) else s
    case Advance(r, eligible, ttl) => if r in s.requests then Step(s, r, eligible, ttl) else s
    case ApplyPasswordReset(u) => s.(tokens := RevokeUser(s.tokens, u))
    case Crash(r) => s.(requests := s.requests - {r})
  }

  function Run(s: System, actions: seq<Action>): System
    decreases |actions|
  {
    if actions == [] then s else Apply(Run(s, actions[..|actions| - 1]), actions[|actions| - 1])
  }

  /* ------------------------------------ invariant ------------------------------------ */

  predicate Live(tokens: map<Id, Token>, i: Id) {
    i in tokens && !tokens[i].revoked
  }

  /** No token of the family can be rotated. */
  ghost predicate Dead(tokens: map<Id, Token>, familyId: Id) {
    forall i :: i in tokens && tokens[i].familyId == familyId ==> tokens[i].revoked
  }

  ghost predicate SameOwner(t: Token, u: Token) {
    t.userId == u.userId && t.organizationId == u.organizationId && t.familyId == u.familyId
  }

  ghost predicate FamiliesUniform(tokens: map<Id, Token>) {
    forall i, j :: i in tokens && j in tokens && tokens[i].familyId == tokens[j].familyId
      ==> SameOwner(tokens[i], tokens[j])
  }

  ghost predicate OneLive(tokens: map<Id, Token>) {
    forall i, j :: Live(tokens, i) && Live(tokens, j) && tokens[i].familyId == tokens[j].familyId ==> i == j
  }

  /** Successors come later, belong to the same user, organization and family, and have one predecessor. */
  ghost predicate Chained(tokens: map<Id, Token>) {
    && (forall i :: i in tokens && tokens[i].replacedBy.Some? ==>
          tokens[i].revoked && tokens[i].replacedBy.value in tokens && i < tokens[i].replacedBy.value
          && SameOwner(tokens[i], tokens[tokens[i].replacedBy.value]))
    && (forall i, j ::
          i in tokens && j in tokens && tokens[i].replacedBy.Some? && tokens[i].replacedBy == tokens[j].replacedBy
          ==> i == j)
  }

  /** While a family is alive, every revoked token in it was rotated, not cut off. */
  ghost predicate LiveFamiliesUnbroken(tokens: map<Id, Token>) {
    forall i, j :: Live(tokens, i) && j in tokens && tokens[j].familyId == tokens[i].familyId && j != i
      ==> tokens[j].replacedBy.Some?
  }

  ghost predicate TokensOk(tokens: map<Id, Token>, n: Id) {
    && (forall i :: i in tokens ==> i < n && tokens[i].familyId < n)
    && FamiliesUniform(tokens) && OneLive(tokens) && Chained(tokens) && LiveFamiliesUnbroken(tokens)
  }

  ghost predicate RequestOk(tokens: map<Id, Token>, n: Id, r: Request) {
    match r
    case Revoking(f) => f < n
    case Loaded(id, row) => id in tokens && SameOwner(tokens[id], row)
  }

  ghost predicate Inv(s: System) {
    && TokensOk(s.tokens, s.nextId)
    && (forall r :: r in s.requests ==> r < s.nextId && RequestOk(s.tokens, s.nextId, s.requests[r]))
    && (forall r :: r in s.answers ==> r < s.nextId)
    && (forall r :: r in s.answers && s.answers[r].Refused? ==>
          s.answers[r].familyId < s.nextId && Dead(s.tokens, s.answers[r].familyId))
  }

  /** Nothing that exists comes back to life, changes hands or moves family. */
  ghost predicate Onwards(tokens: map<Id, Token>, tokens': map<Id, Token>, n: Id) {
    && (forall i :: i in tokens ==>
          i in tokens' && SameOwner(tokens[i], tokens'[i]) && (tokens[i].revoked ==> tokens'[i].revoked)
          && (tokens[i].replacedBy.Some? ==> tokens'[i].replacedBy == tokens[i].replacedBy))
    && (forall f: Id :: f < n && Dead(tokens, f) ==> Dead(tokens', f))
  }

  /** Some tokens get revoked, as the family and the user updates do; nothing else changes. */
  ghost predicate SomeRevoked(tokens: map<Id, Token>, tokens': map<Id, Token>) {
    && tokens'.Keys == tokens.Keys
    && (forall i :: i in tokens ==> tokens'[i] == tokens[i] || tokens'[i] == Revoke(tokens[i]))
  }

  lemma RevokingLive(tokens: map<Id, Token>, tokens': map<Id, Token>)
    requires SomeRevoked(tokens, tokens') && OneLive(tokens) && LiveFamiliesUnbroken(tokens)
    ensures OneLive(tokens') && LiveFamiliesUnbroken(tokens')
  {
    forall i | Live(tokens', i) ensures Live(tokens, i) && tokens'[i] == tokens[i] {}
  }

  lemma RevokingUniform(tokens: map<Id, Token>, tokens': map<Id, Token>)
    requires SomeRevoked(tokens, tokens') && FamiliesUniform(tokens)
    ensures FamiliesUniform(tokens')
  {}

  lemma RevokingChained(tokens: map<Id, Token>, tokens': map<Id, Token>)
    requires SomeRevoked(tokens, tokens') && Chained(tokens)
    ensures Chained(tokens')
  {}

  lemma RevokingOnwards(tokens: map<Id, Token>, tokens': map<Id, Token>, n: Id)
    requires SomeRevoked(tokens, tokens')
    ensures Onwards(tokens, tokens', n)
  {}

  lemma RevokingKeeps(tokens: map<Id, Token>, tokens': map<Id, Token>, n: Id)
    requires TokensOk(tokens, n) && SomeRevoked(tokens, tokens')
    ensures TokensOk(tokens', n) && Onwards(tokens, tokens', n)
  {
    hide OneLive, LiveFamiliesUnbroken, FamiliesUniform, Chained, Onwards;
    RevokingLive(tokens, tokens');
    RevokingUniform(tokens, tokens');
    RevokingChained(tokens, tokens');
    RevokingOnwards(tokens, tokens', n);
  }

  /** The tokens after a rotation of `current` to the fresh `n`. */
  ghost predicate RotatedTo(tokens: map<Id, Token>, tokens': map<Id, Token>, current: Id, n: Id, row: Token) {
    && Live(tokens, current) && SameOwner(tokens[current], row) && !row.revoked && row.replacedBy.None?
    && tokens' == tokens[current := tokens[current].(revoked := true, replacedBy := Some(n))][n := row]
    && (forall i :: i in tokens ==> i < n && tokens[i].familyId < n)
  }

  lemma RotateLive(tokens: map<Id, Token>, tokens': map<Id, Token>, current: Id, n: Id, row: Token)
    requires RotatedTo(tokens, tokens', current, n, row) && OneLive(tokens) && LiveFamiliesUnbroken(tokens)
    ensures OneLive(tokens') && LiveFamiliesUnbroken(tokens')
  {
    forall i | Live(tokens', i) && i != n
      ensures Live(tokens, i) && i != current && tokens'[i] == tokens[i] && tokens[i].familyId != row.familyId {}
  }

  lemma RotateUniform(tokens: map<Id, Token>, tokens': map<Id, Token>, current: Id, n: Id, row: Token)
    requires RotatedTo(tokens, tokens', current, n, row) && FamiliesUniform(tokens)
    ensures FamiliesUniform(tokens')
  {}

  lemma RotateChained(tokens: map<Id, Token>, tokens': map<Id, Token>, current: Id, n: Id, row: Token)
    requires RotatedTo(tokens, tokens', current, n, row) && Chained(tokens)
    ensures Chained(tokens')
  {
    assert tokens[current].replacedBy.None? by { assert !tokens[current].revoked; }
  }

  lemma RotateOnwards(tokens: map<Id, Token>, tokens': map<Id, Token>, current: Id, n: Id, row: Token)
    requires RotatedTo(tokens, tokens', current, n, row) && Chained(tokens)
    ensures Onwards(tokens, tokens', n)
  {
    assert tokens[current].replacedBy.None?;
    forall f: Id | f < n && Dead(tokens, f) ensures Dead(tokens', f) {
      assert row.familyId == tokens[current].familyId != f;
    }
  }

  lemma RotateKeeps(tokens: map<Id, Token>, n: Id, current: Id, row: Token)
    requires TokensOk(tokens, n) && Live(tokens, current) && SameOwner(tokens[current], row)
    requires !row.revoked && row.replacedBy.None?
    ensures var tokens' := Rotate(tokens, current, n, row).value; TokensOk(tokens', n + 1) && Onwards(tokens, tokens', n)
  {
    hide OneLive, LiveFamiliesUnbroken, FamiliesUniform, Chained, Onwards;
    var tokens' := Rotate(tokens, current, n, row).value;
    assert RotatedTo(tokens, tokens', current, n, row);
    RotateLive(tokens, tokens', current, n, row);
    RotateUniform(tokens, tokens', current, n, row);
    RotateChained(tokens, tokens', current, n, row);
    RotateOnwards(tokens, tokens', current, n, row);
  }

  /** A first token: its family is new. */
  ghost predicate Issued(tokens: map<Id, Token>, n: Id, row: Token) {
    && (forall i :: i in tokens ==> i < n && tokens[i].familyId < n)
    && row.familyId == n + 1 && !row.revoked && row.replacedBy.None?
  }

  lemma IssueLive(tokens: map<Id, Token>, n: Id, row: Token)
    requires Issued(tokens, n, row) && OneLive(tokens) && LiveFamiliesUnbroken(tokens)
    ensures OneLive(tokens[n := row]) && LiveFamiliesUnbroken(tokens[n := row])
  {
    var tokens' := tokens[n := row];
    forall i | Live(tokens', i) && i != n ensures Live(tokens, i) {}
  }

  lemma IssueChained(tokens: map<Id, Token>, n: Id, row: Token)
    requires Issued(tokens, n, row) && Chained(tokens)
    ensures Chained(tokens[n := row])
  {}

  lemma IssueOnwards(tokens: map<Id, Token>, n: Id, row: Token)
    requires Issued(tokens, n, row)
    ensures Onwards(tokens, tokens[n := row], n)
  {}

  lemma IssueUniform(tokens: map<Id, Token>, n: Id, row: Token)
    requires Issued(tokens, n, row) && FamiliesUniform(tokens)
    ensures FamiliesUniform(tokens[n := row])
  {}

  lemma IssueKeeps(tokens: map<Id, Token>, n: Id, row: Token)
    requires TokensOk(tokens, n) && row.familyId == n + 1 && !row.revoked && row.replacedBy.None?
    ensures TokensOk(tokens[n := row], n + 2) && Onwards(tokens, tokens[n := row], n)
  {
    hide OneLive, LiveFamiliesUnbroken, FamiliesUniform, Chained, Onwards;
    IssueLive(tokens, n, row);
    IssueUniform(tokens, n, row);
    IssueChained(tokens, n, row);
    IssueOnwards(tokens, n, row);
  }

  /** One step: the invariant, and nothing revived. */
  ghost predicate Progress(s: System, s': System) {
    Inv(s') && s.nextId <= s'.nextId && Onwards(s.tokens, s'.tokens, s.nextId)
  }

  /** A step that changes tokens only as allowed and at most one request and its answer. */
  lemma StepKeeps(s: System, s': System, r: Id)
    requires Inv(s) && TokensOk(s'.tokens, s'.nextId) && s.nextId <= s'.nextId && Onwards(s.tokens, s'.tokens, s.nextId)
    requires forall q :: q in s'.requests && q != r ==> q in s.requests && s'.requests[q] == s.requests[q]
    requires r in s'.requests ==> r < s'.nextId && RequestOk(s'.tokens, s'.nextId, s'.requests[r])
    requires forall q :: q in s'.answers && q != r ==> q in s.answers && s'.answers[q] == s.answers[q]
    requires r in s'.answers ==> r < s'.nextId
    requires r in s'.answers && s'.answers[r].Refused? ==>
               s'.answers[r].familyId < s'.nextId && Dead(s'.tokens, s'.answers[r].familyId)
    ensures Progress(s, s')
  {
    hide TokensOk;
  }

  lemma RequestFacts(s: System, r: Id)
    requires Inv(s) && r in s.requests
    ensures r < s.nextId && RequestOk(s.tokens, s.nextId, s.requests[r]) && TokensOk(s.tokens, s.nextId)
  {}

  lemma RevokeStepKeeps(s: System, r: Id, f: Id)
    requires Inv(s) && r in s.requests && s.requests[r] == Revoking(f)
    ensures Progress(s, Answered(s.(tokens := RevokeFamily(s.tokens, f)), r, Refused(f)))
  {
    hide Inv, TokensOk, Onwards;
    RequestFacts(s, r);
    RevokingKeeps(s.tokens, RevokeFamily(s.tokens, f), s.nextId);
    StepKeeps(s, Answered(s.(tokens := RevokeFamily(s.tokens, f)), r, Refused(f)), r);
  }

  /** A step that changes no token. */
  lemma QuietKeeps(s: System, s': System, r: Id)
    requires Inv(s) && s'.tokens == s.tokens && s.nextId <= s'.nextId && s'.answers == s.answers
    requires forall q :: q in s'.requests && q != r ==> q in s.requests && s'.requests[q] == s.requests[q]
    requires r in s'.requests ==> r < s'.nextId && RequestOk(s'.tokens, s'.nextId, s'.requests[r])
    ensures Progress(s, s')
  {
    RevokingKeeps(s.tokens, s.tokens, s.nextId);
    hide OneLive, LiveFamiliesUnbroken, FamiliesUniform, Chained;
    assert TokensOk(s'.tokens, s'.nextId);
  }

  lemma AdvanceKeeps(s: System, r: Id, eligible: bool, ttl: int)
    requires Inv(s) && r in s.requests
    ensures Progress(s, Step(s, r, eligible, ttl))
  {
    hide Inv, OneLive, LiveFamiliesUnbroken, FamiliesUniform, Chained, Onwards;
    var s' := Step(s, r, eligible, ttl);
    RequestFacts(s, r);
    match s.requests[r]
    case Revoking(f) => RevokeStepKeeps(s, r, f);
    case Loaded(id, row) =>
      if eligible && Live(s.tokens, id) {
        RotateKeeps(s.tokens, s.nextId, id, Token(row.userId, row.organizationId, row.familyId, false, None, s.now + ttl));
        StepKeeps(s, s', r);
      } else {
        QuietKeeps(s, s', r);
      }
  }

  lemma ApplyKeeps(s: System, a: Action)
    requires Inv(s)
    ensures Progress(s, Apply(s, a))
  {
    hide Inv, OneLive, LiveFamiliesUnbroken, FamiliesUniform, Chained, Onwards, Step;
    var s' := Apply(s, a);
    SystemFacts(s);
    match a
    case IssueSession(u, o, ttl) =>
      IssueKeeps(s.tokens, s.nextId, Token(u, o, s.nextId + 1, false, None, s.now + ttl));
      StepKeeps(s, s', s.nextId);
    case Advance(r, eligible, ttl) =>
      if r in s.requests { AdvanceKeeps(s, r, eligible, ttl); } else { QuietKeeps(s, s', s.nextId); }
    case ApplyPasswordReset(u) =>
      RevokingKeeps(s.tokens, RevokeUser(s.tokens, u), s.nextId);
      StepKeeps(s, s', s.nextId);
    case _ => QuietKeeps(s, s', s.nextId);
  }

  lemma SystemFacts(s: System)
    requires Inv(s)
    ensures TokensOk(s.tokens, s.nextId) && s.nextId !in s.requests && s.nextId !in s.answers
  {}

  lemma {:induction false} RunKeeps(s: System, actions: seq<Action>)
    requires Inv(s)
    ensures Inv(Run(s, actions)) && s.nextId <= Run(s, actions).nextId && Onwards(s.tokens, Run(s, actions).tokens, s.nextId)
    decreases |actions|
  {
    hide Inv, Apply, Onwards;
    if actions == [] { OnwardsRefl(s.tokens, s.nextId); }
    else {
      var m := Run(s, actions[..|actions| - 1]);
      RunKeeps(s, actions[..|actions| - 1]);
      ApplyKeeps(m, actions[|actions| - 1]);
      OnwardsTrans(s.tokens, m.tokens, Run(s, actions).tokens, s.nextId, m.nextId);
    }
  }

  lemma OnwardsRefl(tokens: map<Id, Token>, n: Id)
    ensures Onwards(tokens, tokens, n)
  {}

  lemma OnwardsTrans(a: map<Id, Token>, b: map<Id, Token>, c: map<Id, Token>, n: Id, m: Id)
    requires Onwards(a, b, n) && Onwards(b, c, m) && n <= m
    ensures Onwards(a, c, n)
  {
    hide Dead;
  }

  /* ------------------------------------- theorems ------------------------------------- */

  ghost predicate Reachable(s: System) {
    exists actions :: s == Run(EMPTY, actions)
  }

  lemma ReachableOk(s: System)
    requires Reachable(s)
    ensures Inv(s)
  {
    var actions :| s == Run(EMPTY, actions);
    RunKeeps(EMPTY, actions);
  }

  /** At most one token of a family can be rotated, and a family has one user and one organization. */
  lemma OneLivePerFamily(s: System, i: Id, j: Id)
    requires Reachable(s) && i in s.tokens && j in s.tokens && s.tokens[i].familyId == s.tokens[j].familyId
    ensures SameOwner(s.tokens[i], s.tokens[j])
    ensures Live(s.tokens, i) && Live(s.tokens, j) ==> i == j
  {
    ReachableOk(s);
  }

  /** The end of a token's chain of successors; it exists because successors come later. */
  ghost function ChainEnd(tokens: map<Id, Token>, n: Id, i: Id): (end: Id)
    requires TokensOk(tokens, n) && i in tokens
    ensures end in tokens && i <= end && tokens[end].replacedBy.None? && SameOwner(tokens[i], tokens[end])
    decreases n - i
  {
    if tokens[i].replacedBy.None? then i else ChainEnd(tokens, n, tokens[i].replacedBy.value)
  }

  /** In a live family every chain of successors ends at the live token. */
  lemma ChainsEndAtTheLiveToken(s: System, i: Id, live: Id)
    requires Reachable(s) && i in s.tokens && Live(s.tokens, live) && s.tokens[i].familyId == s.tokens[live].familyId
    ensures Inv(s) && ChainEnd(s.tokens, s.nextId, i) == live
  {
    ReachableOk(s);
    var end := ChainEnd(s.tokens, s.nextId, i);
    assert s.tokens[end].familyId == s.tokens[live].familyId;
  }

  /** Two different tokens never share a successor, so families are chains and not trees. */
  lemma SuccessorsAreUnique(s: System, i: Id, j: Id)
    requires Reachable(s) && i in s.tokens && j in s.tokens && s.tokens[i].replacedBy.Some?
    requires s.tokens[i].replacedBy == s.tokens[j].replacedBy
    ensures i == j && i < s.tokens[i].replacedBy.value
  {
    ReachableOk(s);
  }

  /**
   * A request that was refused for reuse or for losing a race, or a logout
   * that went through: its family has no live token then or in any later state.
   */
  lemma RefusedFamilyStaysDead(s: System, r: Id, actions: seq<Action>)
    requires Reachable(s) && r in s.answers && s.answers[r].Refused?
    ensures Dead(s.tokens, s.answers[r].familyId) && Dead(Run(s, actions).tokens, s.answers[r].familyId)
  {
    hide TokensOk;
    ReachableOk(s);
    RunKeeps(s, actions);
  }

  /** A revoked token that verifies leads to a refusal: the request's only next step. */
  lemma ReuseIsRefused(s: System, id: Id, eligible: bool, ttl: int)
    requires Reachable(s) && id in s.tokens && s.tokens[id].revoked
    ensures var s1 := Apply(s, Refresh(id, true));
            var s2 := Apply(s1, Advance(s.nextId, eligible, ttl));
            s.nextId in s2.answers && s2.answers[s.nextId] == Refused(s.tokens[id].familyId)
  {
    hide Inv;
  }

  /** After a password reset no family the user has by then is ever alive again. */
  lemma ResetKillsFamilies(s: System, userId: Id, id: Id, actions: seq<Action>)
    requires Reachable(s) && id in s.tokens && s.tokens[id].userId == userId
    ensures var s' := Apply(s, ApplyPasswordReset(userId));
            Dead(s'.tokens, s.tokens[id].familyId) && Dead(Run(s', actions).tokens, s.tokens[id].familyId)
  {
    ReachableOk(s);
    var s', f := Apply(s, ApplyPasswordReset(userId)), s.tokens[id].familyId;
    forall i | i in s'.tokens && s'.tokens[i].familyId == f ensures s'.tokens[i].revoked {
      assert SameOwner(s.tokens[i], s.tokens[id]);
    }
    hide Inv;
    ApplyKeeps(s, ApplyPasswordReset(userId));
    RunKeeps(s', actions);
    assert f < s'.nextId by { FamilyBound(s, id); }
  }

  lemma FamilyBound(s: System, id: Id)
    requires Inv(s) && id in s.tokens
    ensures s.tokens[id].familyId < s.nextId
  {}

  /** A request whose token was revoked since it loaded it rotates nothing and goes on to revoke the family. */
  lemma LostRaceRevokes(s: System, r: Id, ttl: int)
    requires Reachable(s) && r in s.requests && s.requests[r].Loaded?
    requires s.requests[r].id in s.tokens && s.tokens[s.requests[r].id].revoked
    ensures var s' := Apply(s, Advance(r, true, ttl));
            s'.tokens == s.tokens && s'.requests[r] == Revoking(s.requests[r].row.familyId)
  {
    ReachableOk(s);
  }

  /** Each rotation shows in its token, and no two requests rotated the same one. */
  ghost predicate Rotations(s: System) {
    && (forall r :: r in s.answers && s.answers[r].Rotated? ==>
          s.answers[r].token in s.tokens && s.tokens[s.answers[r].token].replacedBy == Some(s.answers[r].next))
    && (forall r, q :: r in s.answers && q in s.answers && s.answers[r].Rotated? && s.answers[q].Rotated?
          && s.answers[r].token == s.answers[q].token
          ==> r == q)
  }

  /** An action adds at most one answer; a rotation is of a token that was live and now has that successor. */
  lemma AnswersStep(s: System, a: Action, r: Id)
    ensures var s' := Apply(s, a);
            r in s'.answers && !(r in s.answers && s'.answers[r] == s.answers[r]) ==>
              a.Advance? && r == a.request
              && (s'.answers[r].Rotated? ==>
                    && Live(s.tokens, s'.answers[r].token) && s'.answers[r].token in s'.tokens
                    && (s'.answers[r].token != s.nextId ==>
                          s'.tokens[s'.answers[r].token].replacedBy == Some(s'.answers[r].next)))
  {}

  lemma LiveIsUnreplaced(s: System, t: Id)
    requires Inv(s)
    ensures Live(s.tokens, t) ==> s.tokens[t].replacedBy.None? && t != s.nextId
  {}

  /** The answer `r` of the state after is an old one, or a rotation that is seen in its token and was not before. */
  ghost predicate AnswerFrom(s: System, s': System, x: Id, r: Id)
    requires r in s'.answers
  {
    || (r in s.answers && s'.answers[r] == s.answers[r])
    || (r == x
        && (s'.answers[r].Rotated? ==>
              var t := s'.answers[r].token;
              && t in s.tokens && s.tokens[t].replacedBy.None?
              && t in s'.tokens && s'.tokens[t].replacedBy == Some(s'.answers[r].next)))
  }

  lemma RotationsFollow(s: System, s': System, x: Id)
    requires Rotations(s)
    requires forall r :: r in s'.answers ==> AnswerFrom(s, s', x, r)
    requires forall t :: t in s.tokens && s.tokens[t].replacedBy.Some? ==>
               t in s'.tokens && s'.tokens[t].replacedBy == s.tokens[t].replacedBy
    ensures Rotations(s')
  {
    forall r | r in s'.answers && s'.answers[r].Rotated?
      ensures s'.answers[r].token in s'.tokens && s'.tokens[s'.answers[r].token].replacedBy == Some(s'.answers[r].next)
    {
      assert AnswerFrom(s, s', x, r);
    }
    forall r, q | r in s'.answers && q in s'.answers && s'.answers[r].Rotated? && s'.answers[q].Rotated?
                  && s'.answers[r].token == s'.answers[q].token
      ensures r == q
    {
      assert AnswerFrom(s, s', x, r) && AnswerFrom(s, s', x, q);
    }
  }

  lemma RotationsStep(s: System, a: Action)
    requires Inv(s) && Rotations(s)
    ensures Rotations(Apply(s, a))
  {
    ApplyKeeps(s, a);
    var s' := Apply(s, a);
    var x := if a.Advance? then a.request else 0;
    hide Inv, Apply, Dead, Rotations;
    forall r | r in s'.answers ensures AnswerFrom(s, s', x, r) {
      AnswersStep(s, a, r);
      if s'.answers[r].Rotated? { LiveIsUnreplaced(s, s'.answers[r].token); }
    }
    RotationsFollow(s, s', x);
  }

  lemma {:induction false} RunRotations(actions: seq<Action>)
    ensures Inv(Run(EMPTY, actions)) && Rotations(Run(EMPTY, actions))
    decreases |actions|
  {
    RunKeeps(EMPTY, actions);
    if actions != [] {
      hide Inv, Apply, Rotations;
      RunRotations(actions[..|actions| - 1]);
      RotationsStep(Run(EMPTY, actions[..|actions| - 1]), actions[|actions| - 1]);
    }
  }

  /** Of all requests that ever loaded a token, at most one rotated it. */
  lemma RotatesOnce(s: System, r: Id, q: Id)
    requires Reachable(s) && r in s.answers && q in s.answers && s.answers[r].Rotated? && s.answers[q].Rotated?
    requires s.answers[r].token == s.answers[q].token
    ensures r == q
    ensures s.answers[r].token in s.tokens && s.tokens[s.answers[r].token].replacedBy == Some(s.answers[r].next)
  {
    var actions :| s == Run(EMPTY, actions);
    RunRotations(actions);
    hide Inv, Run;
  }

  /* ------------------------- who ends a session, and nobody else ------------------------- */

  /** Nothing of a token but whether it is revoked and by what it was replaced. */
  ghost predicate SameToken(t: Token, u: Token) {
    t.userId == u.userId && t.organizationId == u.organizationId && t.familyId == u.familyId
    && t.expiresAt == u.expiresAt
  }

  /** This action ends token `i`: its own rotation, a revocation of its family, or a reset of its user. */
  ghost predicate Ends(s: System, a: Action, i: Id)
    requires i in s.tokens
  {
    match a
    case ApplyPasswordReset(userId) => userId == s.tokens[i].userId
    case Advance(r, eligible, _) =>
      r in s.requests
      && (match s.requests[r]
          case Loaded(id, _) => id == i && eligible
          case Revoking(familyId) => familyId == s.tokens[i].familyId)
    case _ => false
  }

  /** Action `k` of the run ends the token. */
  ghost predicate EndedAt(s: System, actions: seq<Action>, k: nat, i: Id) {
    k < |actions| && i in Run(s, actions[..k]).tokens && Ends(Run(s, actions[..k]), actions[k], i)
  }

  /** One action ends exactly the live tokens it is about; every other token is left as it was. */
  lemma EndsExactly(s: System, a: Action, i: Id)
    requires Inv(s) && i in s.tokens
    ensures var s' := Apply(s, a);
            && i in s'.tokens && SameToken(s.tokens[i], s'.tokens[i])
            && (Live(s.tokens, i) ==> (!Live(s'.tokens, i) <==> Ends(s, a, i)))
            && (!Ends(s, a, i) || !Live(s.tokens, i) ==> s'.tokens[i] == s.tokens[i])
  {
    IdsAreOld(s, i);
    hide Inv, TokensOk;
    if a.Advance? && a.request in s.requests {
      StepEndsExactly(s, a.request, a.eligible, a.ttl, i);
    } else {
      hide Step;
    }
  }

  lemma StepEndsExactly(s: System, r: Id, eligible: bool, ttl: int, i: Id)
    requires r in s.requests && i in s.tokens && i != s.nextId
    ensures var (s', ends) := (Step(s, r, eligible, ttl), Ends(s, Advance(r, eligible, ttl), i));
            && i in s'.tokens && SameToken(s.tokens[i], s'.tokens[i])
            && (Live(s.tokens, i) ==> (!Live(s'.tokens, i) <==> ends))
            && (!ends || !Live(s.tokens, i) ==> s'.tokens[i] == s.tokens[i])
  {
    match s.requests[r]
    case Revoking(_) =>
    case Loaded(id, row) =>
      if eligible && Live(s.tokens, id) {
        var next := Token(row.userId, row.organizationId, row.familyId, false, None, s.now + ttl);
        var tokens := Rotate(s.tokens, id, s.nextId, next).value;
        assert tokens[i] == if i == id then s.tokens[i].(revoked := true, replacedBy := Some(s.nextId)) else s.tokens[i];
      }
  }

  lemma IdsAreOld(s: System, i: Id)
    requires Inv(s) && i in s.tokens
    ensures i < s.nextId
  {}

  /**
   * Over any run: a token that was live is revoked at the end if and only if at some
   * point of the run it was rotated by a request that presented it, its family was
   * revoked, or its user reset the password. No other session is ended.
   */
  lemma {:induction false} EndedExactlyWhen(s: System, actions: seq<Action>, i: Id)
    requires Inv(s) && Live(s.tokens, i)
    ensures var s' := Run(s, actions);
            && Inv(s') && i in s'.tokens && SameToken(s.tokens[i], s'.tokens[i])
            && (s'.tokens[i].revoked <==> exists k :: EndedAt(s, actions, k, i))
    decreases |actions|
  {
    if actions != [] {
      hide Inv, Apply, Ends, SameToken, EndedAt;
      var before, last := actions[..|actions| - 1], |actions| - 1;
      var m := Run(s, before);
      assert Run(s, actions) == Apply(m, actions[last]);
      hide Run;
      EndedExactlyWhen(s, before, i);
      ApplyKeeps(m, actions[last]);
      EndsExactly(m, actions[last], i);
      SameTokenTrans(s.tokens[i], m.tokens[i], Run(s, actions).tokens[i]);
      forall k: nat ensures EndedAt(s, actions, k, i) <==>
        EndedAt(s, before, k, i) || (k == last && Ends(Run(s, before), actions[last], i))
      {
        LastMayEnd(s, actions, k, i);
      }
      if Ends(Run(s, before), actions[last], i) { assert EndedAt(s, actions, last, i); }
    } else {
      NothingEnds(s, i);
    }
  }

  lemma NothingEnds(s: System, i: Id)
    ensures forall k :: !EndedAt(s, [], k, i)
  {}

  lemma LastMayEnd(s: System, actions: seq<Action>, k: nat, i: Id)
    requires actions != [] && i in Run(s, actions[..|actions| - 1]).tokens
    ensures var before := actions[..|actions| - 1];
            EndedAt(s, actions, k, i) <==>
            EndedAt(s, before, k, i) || (k == |before| && Ends(Run(s, before), actions[|before|], i))
  {
    hide Ends, Run;
    var before := actions[..|actions| - 1];
    if k < |before| { assert before[k] == actions[k] && before[..k] == actions[..k]; }
  }

  lemma SameTokenTrans(t: Token, u: Token, v: Token)
    requires SameToken(t, u) && SameToken(u, v)
    ensures SameToken(t, v)
  {}

  /** A login's token is live, belongs to whoever logged in, and starts a family nobody else is in. */
  lemma IssuedStartsAFamily(s: System, userId: Id, organizationId: Id, ttl: int)
    requires Reachable(s)
    ensures var s' := Apply(s, IssueSession(userId, organizationId, ttl));
            && s'.tokens.Keys == s.tokens.Keys + {s.nextId} && s.nextId !in s.tokens && Live(s'.tokens, s.nextId)
            && s'.tokens[s.nextId].userId == userId && s'.tokens[s.nextId].organizationId == organizationId
            && s'.tokens[s.nextId].expiresAt == s.now + ttl
            && (forall i :: i in s.tokens ==>
                  s'.tokens[i] == s.tokens[i] && s.tokens[i].familyId != s'.tokens[s.nextId].familyId)
  {
    ReachableOk(s);
    hide OneLive, FamiliesUniform, Chained, LiveFamiliesUnbroken;
  }

  /** A token of the family was presented: revoked already, to a logout, or to a rotation that lost its race. */
  ghost predicate AsksToRevoke(s: System, a: Action, familyId: Id) {
    match a
    case Refresh(token, verifies) =>
      verifies && token in s.tokens && s.tokens[token].familyId == familyId && s.tokens[token].revoked
    case Logout(token) => token in s.tokens && s.tokens[token].familyId == familyId
    case Advance(r, eligible, _) =>
      r in s.requests && s.requests[r].Loaded? && eligible && s.requests[r].id in s.tokens
      && s.tokens[s.requests[r].id].familyId == familyId && s.tokens[s.requests[r].id].revoked
    case _ => false
  }

  /** A request sets out to revoke a family exactly then. */
  lemma RevokesOnlyWhenAsked(s: System, a: Action, familyId: Id)
    requires Inv(s)
    ensures (exists r :: r in Apply(s, a).requests && Apply(s, a).requests[r] == Revoking(familyId)
                         && !(r in s.requests && s.requests[r] == Revoking(familyId)))
            <==> AsksToRevoke(s, a, familyId)
  {
    hide TokensOk, Onwards;
    var s' := Apply(s, a);
    assert s.nextId !in s.requests;
    if AsksToRevoke(s, a, familyId) {
      var r := if a.Advance? then a.request else s.nextId;
      if a.Advance? { RequestFacts(s, r); }
      assert r in s'.requests && s'.requests[r] == Revoking(familyId);
    }
    if r :| r in s'.requests && s'.requests[r] == Revoking(familyId)
            && !(r in s.requests && s.requests[r] == Revoking(familyId)) {
      if a.Advance? { RequestFacts(s, a.request); }
    }
  }

  /**
   * A refresh gets as far as its rotation exactly for a token that verifies, is live
   * and has not run out; an undisturbed eligible one then gets a successor of the
   * same user, organization and family with its own time to live.
   */
  lemma GoodTokensRotate(s: System, id: Id, verifies: bool, ttl: int)
    requires Reachable(s)
    ensures var s1 := Apply(s, Refresh(id, verifies));
            var loaded := s.nextId in s1.requests && s1.requests[s.nextId].Loaded?;
            && (loaded <==> verifies && Live(s.tokens, id) && s.now <= s.tokens[id].expiresAt)
            && (loaded ==>
                  var s2 := Apply(s1, Advance(s.nextId, true, ttl));
                  && s.nextId in s2.answers && s2.answers[s.nextId].Rotated? && s2.answers[s.nextId].token == id
                  && var next := s2.answers[s.nextId].next;
                     && next !in s.tokens && Live(s2.tokens, next) && SameOwner(s.tokens[id], s2.tokens[next])
                     && s2.tokens[next].expiresAt == s.now + ttl && s2.tokens[next].replacedBy.None?)
  {
    ReachableOk(s);
    hide TokensOk;
    assert s.nextId !in s.requests;
    if id in s.tokens { IdsAreOld(s, id); }
    assert s.nextId + 1 !in s.tokens;
  }

  /* ------------------------------ the code, undisturbed ------------------------------ */

  datatype ResetToken = ResetToken(userId: Id, used: bool, expiresAt: int)
  datatype RefreshOutcome = NoSession | InvalidSession | ExpiredSession | NewSession(token: Id)

  class AuthTokens {
    var tokens: map<Id, Token>
    var resets: map<Id, ResetToken>

    constructor ()
      ensures tokens == map[] && resets == map[]
    {
      tokens, resets := map[], map[];
    }

    method RotateRefreshToken(currentId: Id, nextId: Id, next: Token) returns (rotated: bool)
      modifies this`tokens
      ensures rotated == (currentId in old(tokens) && !old(tokens)[currentId].revoked)
      ensures rotated ==> Rotate(old(tokens), currentId, nextId, next) == Some(tokens)
      ensures rotated ==> tokens.Keys == old(tokens).Keys + {nextId} && tokens[nextId] == next
      ensures rotated && nextId != currentId ==>
                tokens[currentId] == old(tokens)[currentId].(revoked := true, replacedBy := Some(nextId))
      ensures forall i :: i in old(tokens) && !(rotated && i in {currentId, nextId}) ==>
                i in tokens && tokens[i] == old(tokens)[i]
      ensures !rotated ==> tokens == old(tokens)
    {
      var updated := 0;
      if currentId in tokens && !tokens[currentId].revoked {
        tokens := tokens[currentId := tokens[currentId].(revoked := true, replacedBy := Some(nextId))];
        updated := 1;
      }
      if updated == 0 { return false; }
      tokens := tokens[nextId := next];
      rotated := true;
    }

    method RevokeWholeFamily(familyId: Id)
      modifies this`tokens
      ensures tokens == RevokeFamily(old(tokens), familyId) && tokens.Keys == old(tokens).Keys
      ensures forall i :: i in tokens && old(tokens)[i].familyId == familyId ==>
                tokens[i] == old(tokens)[i].(revoked := true)
      ensures forall i :: i in tokens && old(tokens)[i].familyId != familyId ==> tokens[i] == old(tokens)[i]
    {
      var active := set i | i in tokens && tokens[i].familyId == familyId && !tokens[i].revoked;
      ghost var all := active;
      while active != {}
        invariant active <= all && tokens.Keys == old(tokens).Keys
        invariant forall i :: i in tokens ==>
          tokens[i] == if i in all && i !in active then Revoke(old(tokens)[i]) else old(tokens)[i]
        decreases active
      {
        var i :| i in active;
        active := active - {i};
        tokens := tokens[i := tokens[i].(revoked := true)];
      }
      forall i | i in tokens ensures tokens[i] == RevokeFamily(old(tokens), familyId)[i] {
        if i !in all && old(tokens)[i].familyId == familyId { assert old(tokens)[i].revoked; }
      }
    }

    /** A reset token is consumed once; consuming it revokes every refresh token of its user. */
    method ApplyPasswordReset(now: int, reset: Id) returns (userId: Option<Id>)
      modifies this
      ensures userId.Some? <==> reset in old(resets) && !old(resets)[reset].used && old(resets)[reset].expiresAt > now
      ensures userId.None? ==> tokens == old(tokens) && resets == old(resets)
      ensures userId.Some? ==>
                userId.value == old(resets)[reset].userId && tokens == RevokeUser(old(tokens), userId.value)
                && tokens.Keys == old(tokens).Keys
                && (forall i :: i in tokens && old(tokens)[i].userId == userId.value ==>
                      tokens[i] == old(tokens)[i].(revoked := true))
                && (forall i :: i in tokens && old(tokens)[i].userId != userId.value ==> tokens[i] == old(tokens)[i])
                && resets == old(resets)[reset := old(resets)[reset].(used := true)]
    {
      if reset !in resets || resets[reset].used || resets[reset].expiresAt <= now { return None; }
      resets := resets[reset := resets[reset].(used := true)];
      tokens := RevokeUser(tokens, resets[reset].userId);
      userId := Some(resets[reset].userId);
    }

    /** `refresh` with nobody racing it: reuse kills the family, a good token is replaced by its successor. */
    method Refresh(now: int, raw: Option<Id>, verifies: bool, eligible: bool, nextId: Id, ttl: int)
      returns (out: RefreshOutcome)
      modifies this`tokens
      ensures raw.None? ==> out == NoSession && tokens == old(tokens)
      ensures raw.Some? && (!verifies || raw.value !in old(tokens)) ==> out == InvalidSession && tokens == old(tokens)
      ensures raw.Some? && verifies && raw.value in old(tokens) ==>
                var row := old(tokens)[raw.value];
                if row.revoked then
                  out == InvalidSession && tokens.Keys == old(tokens).Keys
                  && (forall i :: i in tokens && old(tokens)[i].familyId == row.familyId ==>
                        tokens[i] == old(tokens)[i].(revoked := true))
                  && (forall i :: i in tokens && old(tokens)[i].familyId != row.familyId ==> tokens[i] == old(tokens)[i])
                else if row.expiresAt < now then out == ExpiredSession && tokens == old(tokens)
                else if !eligible then out == InvalidSession && tokens == old(tokens)
                else
                  out == NewSession(nextId) && tokens.Keys == old(tokens).Keys + {nextId}
                  && tokens[nextId] == Token(row.userId, row.organizationId, row.familyId, false, None, now + ttl)
                  && (nextId != raw.value ==> tokens[raw.value] == row.(revoked := true, replacedBy := Some(nextId)))
                  && (forall i :: i in old(tokens) && i !in {raw.value, nextId} ==> tokens[i] == old(tokens)[i])
    {
      if raw.None? { return NoSession; }
      if !verifies || raw.value !in tokens { return InvalidSession; }
      var stored := tokens[raw.value];
      if stored.revoked {
        RevokeWholeFamily(stored.familyId);
        return InvalidSession;
      }
      if stored.expiresAt < now { return ExpiredSession; }
      if !eligible { return InvalidSession; }
      var next := Token(stored.userId, stored.organizationId, stored.familyId, false, None, now + ttl);
      var rotated := RotateRefreshToken(raw.value, nextId, next);
      if !rotated {
        assert false;
      }
      out := NewSession(nextId);
    }

    /** Logging out with any known token, live or not, ends its whole family. */
    method Logout(raw: Option<Id>)
      modifies this`tokens
      ensures tokens.Keys == old(tokens).Keys
      ensures raw.Some? && raw.value in old(tokens) ==>
                forall i :: i in tokens && old(tokens)[i].familyId == old(tokens)[raw.value].familyId ==>
                  tokens[i] == old(tokens)[i].(revoked := true)
      ensures forall i ::
                i in tokens && !(raw.Some? && raw.value in old(tokens)
                                 && old(tokens)[i].familyId == old(tokens)[raw.value].familyId) ==>
                  tokens[i] == old(tokens)[i]
    {
      if raw.Some? && raw.value in tokens {
        RevokeWholeFamily(tokens[raw.value].familyId);
      }
    }
  }
}
