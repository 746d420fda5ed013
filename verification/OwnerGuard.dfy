/**
 * The last-active-owner guard of an organization. Its three transactions lock
 * the active owners, read the member and then write; here each row lock, the
 * read and the write with its commit are separate steps, under the rules of
 * READ COMMITTED: the rows to lock are chosen when the query starts, each is
 * checked again once its lock is granted, the member is read without a lock,
 * and a write waits for the row locks of others.
 */
module OwnerGuard {
  import opened Common

  datatype Role = OwnerRole | AdminRole | StudioRole | PlayerRole
  datatype Status = ActiveMember | Invited | Disabled
  datatype Membership = Membership(organizationId: Id, userId: Id, role: Role, status: Status, deleted: bool)

  /** The three guarded operations; SetStatus is never called with `Invited`. */
  datatype Change = SetRole(role: Role) | SetStatus(enable: bool) | Remove

  datatype Tx =
      /** Inside lockActiveOwners: rows still to lock, rows locked. */
    | Locking(organizationId: Id, userId: Id, change: Change, pending: set<Id>, locked: set<Id>)
      /** Past the read and the guard: about to write this membership. */
    | Writing(organizationId: Id, change: Change, locked: set<Id>, target: Id)

  datatype System = System(rows: map<Id, Membership>, txs: map<Id, Tx>, nextId: Id)

  datatype Action =
    | CreateStudio(organizationId: Id, userId: Id)
    | CreatePlayerOrg(organizationId: Id, userId: Id)
    | Invite(organizationId: Id, userId: Id, role: Role)
      /** A completed password reset accepts the user's pending invites. */
    | ApplyPasswordReset(userId: Id)
    | Begin(organizationId: Id, userId: Id, change: Change)
    | LockRow(tx: Id, row: Id)
    | ReadMember(tx: Id, row: Id)
    | Write(tx: Id)
    | Abort(tx: Id)

  predicate ActiveOwner(m: Membership, organizationId: Id) {
    m.organizationId == organizationId && m.role.OwnerRole? && m.status.ActiveMember? && !m.deleted
  }

  function ActiveOwners(rows: map<Id, Membership>, organizationId: Id): set<Id> {
    set i | i in rows && ActiveOwner(rows[i], organizationId)
  }

  predicate MemberRow(rows: map<Id, Membership>, i: Id, organizationId: Id, userId: Id) {
    i in rows && rows[i].organizationId == organizationId && rows[i].userId == userId && !rows[i].deleted
  }

  /** The last statement of each operation. */
  function Changed(m: Membership, change: Change): Membership {
    match change
    case SetRole(role) => m.(role := role)
    case SetStatus(enable) => m.(status := if enable then ActiveMember else Disabled)
    case Remove => m.(status := Disabled, deleted := true)
  }

  datatype Decision = Proceed | LastOwner | PendingInvite

  /** The checks between read and write, on the member as read and the number of locked owners. */
  function Decide(current: Membership, change: Change, activeOwners: nat): Decision {
    match change
    case SetRole(role) =>
      if current.role.OwnerRole? && !role.OwnerRole? && current.status.ActiveMember? && activeOwners <= 1
      then LastOwner else Proceed
    case SetStatus(enable) =>
      if current.status.Invited? then PendingInvite
      else if current.role.OwnerRole? && current.status.ActiveMember? && !enable && activeOwners <= 1
      then LastOwner else Proceed
    case Remove =>
      if current.role.OwnerRole? && current.status.ActiveMember? && activeOwners <= 1 then LastOwner else Proceed
  }

  /* ----------------------------------- the steps ----------------------------------- */

  /** Another transaction holds the lock of this row. */
  predicate HeldByOther(s: System, row: Id, me: Option<Id>) {
    exists t :: t in s.txs && Some(t) != me && row in s.txs[t].locked
  }

  function Spawn(s: System, tx: Tx): System {
    s.(txs := s.txs[s.nextId := tx], nextId := s.nextId + 1)
  }

  predicate NewOrganization(s: System, organizationId: Id) {
    forall i :: i in s.rows ==> s.rows[i].organizationId != organizationId
  }

  function InsertRow(s: System, m: Membership): System {
    if exists i :: i in s.rows && s.rows[i].organizationId == m.organizationId && s.rows[i].userId == m.userId
    then s
    else s.(rows := s.rows[s.nextId := m], nextId := s.nextId + 1)
  }

  predicate PendingInviteOf(m: Membership, userId: Id) {
    m.userId == userId && m.status.Invited? && !m.deleted
  }

  function AcceptInvites(rows: map<Id, Membership>, userId: Id): map<Id, Membership> {
    map i | i in rows :: if PendingInviteOf(rows[i], userId) then rows[i].(status := ActiveMember) else rows[i]
  }

  function LockStep(s: System, tx: Id, row: Id): System
    requires tx in s.txs && s.txs[tx].Locking?
  {
    var t := s.txs[tx];
    if row !in t.pending || HeldByOther(s, row, Some(tx)) then s
    else
      var granted := row in s.rows && ActiveOwner(s.rows[row], t.organizationId);
      s.(txs := s.txs[tx := t.(pending := t.pending - {row},
                               locked := if granted then t.locked + {row} else t.locked)])
  }

  function ReadStep(s: System, tx: Id, row: Id): System
    requires tx in s.txs && s.txs[tx].Locking?
  {
    var t := s.txs[tx];
    if t.pending != {} || !MemberRow(s.rows, row, t.organizationId, t.userId) then s
    else if Decide(s.rows[row], t.change, |t.locked|).Proceed? then
      s.(txs := s.txs[tx := Writing(t.organizationId, t.change, t.locked, row)])
    else s.(txs := s.txs - {tx})
  }

  function WriteStep(s: System, tx: Id): System
    requires tx in s.txs && s.txs[tx].Writing?
  {
    var t := s.txs[tx];
    if t.target !in s.rows || HeldByOther(s, t.target, Some(tx)) then s
    else s.(rows := s.rows[t.target := Changed(s.rows[t.target], t.change)], txs := s.txs - {tx})
  }

  function Apply(s: System, a: Action): System {
    match a
    case CreateStudio(o, u) =>
      if NewOrganization(s, o) then InsertRow(s, Membership(o, u, OwnerRole, ActiveMember, false)) else s
    case CreatePlayerOrg(o, u) =>
      if NewOrganization(s, o) then InsertRow(s, Membership(o, u, PlayerRole, ActiveMember, false)) else s
    case Invite(o, u, role) => InsertRow(s, Membership(o, u, role, Invited, false))
    case ApplyPasswordReset(u) =>
      if exists i :: i in s.rows && PendingInviteOf(s.rows[i], u) && HeldByOther(s, i, None) then s
      else s.(rows := AcceptInvites(s.rows, u))
    case Begin(o, u, change) => Spawn(s, Locking(o, u, change, ActiveOwners(s.rows, o), {}))
    case LockRow(tx, row) => if tx in s.txs && s.txs[tx].Locking? then LockStep(s, tx, row) else s
    case ReadMember(tx, row) => if tx in s.txs && s.txs[tx].Locking? then ReadStep(s, tx, row) else s
    case Write(tx) => if tx in s.txs && s.txs[tx].Writing? then WriteStep(s, tx) else s
    case Abort(tx) => s.(txs := s.txs - {tx})
  }

  function Run(s: System, actions: seq<Action>): System
    decreases |actions|
  {
    if actions == [] then s else Apply(Run(s, actions[..|actions| - 1]), actions[|actions| - 1])
  }

  const EMPTY := System(map[], map[], 0)

  /* ----------------------------------- the invariant ----------------------------------- */

  /** Row `i` makes somebody an active owner of the organization. */
  ghost predicate Owns(rows: map<Id, Membership>, organizationId: Id, i: Id) {
    && i in rows && rows[i].organizationId == organizationId && rows[i].role == OwnerRole
    && rows[i].status == ActiveMember && rows[i].deleted == false
  }

  ghost predicate SomeOwner(rows: map<Id, Membership>, organizationId: Id) {
    exists i :: Owns(rows, organizationId, i)
  }

  ghost predicate OnlyOwner(rows: map<Id, Membership>, organizationId: Id, m: Id) {
    forall i: Id :: Owns(rows, organizationId, i) <==> i == m
  }

  ghost predicate HasOwner(s: System, organizationId: Id) {
    exists i :: Owns(s.rows, organizationId, i)
  }

  lemma OwnersAreActive(rows: map<Id, Membership>, organizationId: Id)
    ensures forall i: Id :: i in ActiveOwners(rows, organizationId) <==> Owns(rows, organizationId, i)
    ensures forall m: Id :: ActiveOwners(rows, organizationId) == {m} <==> OnlyOwner(rows, organizationId, m)
  {
    forall i: Id ensures i in ActiveOwners(rows, organizationId) <==> Owns(rows, organizationId, i) {}
    forall m: Id ensures ActiveOwners(rows, organizationId) == {m} <==> OnlyOwner(rows, organizationId, m) {
      OnlyOneIs(rows, organizationId, m);
    }
  }

  lemma OnlyOneIs(rows: map<Id, Membership>, organizationId: Id, m: Id)
    requires forall i: Id :: i in ActiveOwners(rows, organizationId) <==> Owns(rows, organizationId, i)
    ensures ActiveOwners(rows, organizationId) == {m} <==> OnlyOwner(rows, organizationId, m)
  {
    hide Owns, ActiveOwners;
    var owners := ActiveOwners(rows, organizationId);
    if owners == {m} {
      forall i: Id ensures Owns(rows, organizationId, i) <==> i == m { assert i in owners <==> i in {m}; }
    }
    if OnlyOwner(rows, organizationId, m) {
      assert forall i: Id :: i in owners <==> i in {m};
    }
  }

  /** Locked rows are active owners now, and stay so while the lock is held. */
  ghost predicate LocksGood(s: System) {
    && (forall t, r :: t in s.txs && r in s.txs[t].locked ==>
          r in s.rows && ActiveOwner(s.rows[r], s.txs[t].organizationId))
    && (forall t, u, r :: t in s.txs && u in s.txs && r in s.txs[t].locked && r in s.txs[u].locked ==> t == u)
  }

  /** A write only gets here past the guard; about its own locked rows the guard saw the truth. */
  ghost predicate WritesGuarded(s: System) {
    forall t :: t in s.txs && s.txs[t].Writing? ==>
      s.txs[t].target in s.rows && s.rows[s.txs[t].target].organizationId == s.txs[t].organizationId
      && (s.txs[t].target in s.txs[t].locked ==>
            TakesNoOwner(s.txs[t].change) || |s.txs[t].locked| > 1)
  }

  predicate TakesNoOwner(change: Change) {
    match change
    case SetRole(role) => role.OwnerRole?
    case SetStatus(enable) => enable
    case Remove => false
  }

  ghost predicate Fresh(s: System) {
    && (forall i :: i in s.rows ==> i < s.nextId)
    && (forall t :: t in s.txs ==> t < s.nextId)
  }

  ghost predicate Inv(s: System) {
    LocksGood(s) && WritesGuarded(s) && Fresh(s)
  }

  lemma ChangedOwner(m: Membership, change: Change, organizationId: Id)
    requires ActiveOwner(m, organizationId)
    ensures ActiveOwner(Changed(m, change), organizationId) <==> TakesNoOwner(change)
  {}

  lemma DecideOnOwner(m: Membership, change: Change, organizationId: Id, n: nat)
    requires ActiveOwner(m, organizationId) && Decide(m, change, n).Proceed?
    ensures TakesNoOwner(change) || n > 1
  {}

  lemma InsertKeeps(s: System, m: Membership)
    requires Inv(s)
    ensures Inv(InsertRow(s, m))
  {
    assert s.nextId !in s.rows;
  }

  lemma ResetKeeps(s: System, userId: Id)
    requires Inv(s)
    ensures Inv(s.(rows := AcceptInvites(s.rows, userId)))
  {}

  lemma BeginKeeps(s: System, o: Id, u: Id, change: Change)
    requires Inv(s)
    ensures Inv(Spawn(s, Locking(o, u, change, ActiveOwners(s.rows, o), {})))
  {}

  lemma LockKeeps(s: System, tx: Id, row: Id)
    requires Inv(s) && tx in s.txs && s.txs[tx].Locking?
    ensures Inv(LockStep(s, tx, row))
  {}

  lemma ReadKeeps(s: System, tx: Id, row: Id)
    requires Inv(s) && tx in s.txs && s.txs[tx].Locking?
    ensures Inv(ReadStep(s, tx, row))
  {
    var t := s.txs[tx];
    if row in t.locked && Decide(s.rows[row], t.change, |t.locked|).Proceed? {
      DecideOnOwner(s.rows[row], t.change, t.organizationId, |t.locked|);
    }
  }

  lemma WriteKeeps(s: System, tx: Id)
    requires Inv(s) && tx in s.txs && s.txs[tx].Writing?
    ensures Inv(WriteStep(s, tx))
  {}

  lemma ApplyKeeps(s: System, a: Action)
    requires Inv(s)
    ensures Inv(Apply(s, a))
  {
    hide Inv, InsertRow, LockStep, ReadStep, WriteStep, AcceptInvites, ActiveOwners, NewOrganization, HeldByOther;
    match a
    case CreateStudio(o, u) => InsertKeeps(s, Membership(o, u, OwnerRole, ActiveMember, false));
    case CreatePlayerOrg(o, u) => InsertKeeps(s, Membership(o, u, PlayerRole, ActiveMember, false));
    case Invite(o, u, role) => InsertKeeps(s, Membership(o, u, role, Invited, false));
    case ApplyPasswordReset(u) => ResetKeeps(s, u);
    case Begin(o, u, change) => BeginKeeps(s, o, u, change);
    case LockRow(tx, row) => if tx in s.txs && s.txs[tx].Locking? { LockKeeps(s, tx, row); }
    case ReadMember(tx, row) => if tx in s.txs && s.txs[tx].Locking? { ReadKeeps(s, tx, row); }
    case Write(tx) => if tx in s.txs && s.txs[tx].Writing? { WriteKeeps(s, tx); }
    case Abort(tx) => AbortKeeps(s, tx);
  }

  lemma AbortKeeps(s: System, tx: Id)
    requires Inv(s)
    ensures Inv(s.(txs := s.txs - {tx}))
  {}

  lemma {:induction false} RunKeeps(s: System, actions: seq<Action>)
    requires Inv(s)
    ensures Inv(Run(s, actions))
    decreases |actions|
  {
    if actions != [] {
      hide Inv, Apply;
      RunKeeps(s, actions[..|actions| - 1]);
      ApplyKeeps(Run(s, actions[..|actions| - 1]), actions[|actions| - 1]);
    }
  }

  /* ---------------------------------- what changes what ---------------------------------- */

  /** Nobody else holds the lock of the row. */
  ghost predicate Free(s: System, row: Id, tx: Id) {
    forall t :: t in s.txs && t != tx ==> row !in s.txs[t].locked
  }

  /** A membership changes by the write of a transaction on it and by its user's password reset, and by nothing else. */
  lemma RowChanges(s: System, a: Action, i: Id)
    requires Inv(s) && i in s.rows
    ensures i in Apply(s, a).rows
    ensures var row := s.rows[i];
            Apply(s, a).rows[i] ==
            match a
            case Write(tx) =>
              if tx in s.txs && s.txs[tx].Writing? && s.txs[tx].target == i && Free(s, i, tx)
              then Changed(row, s.txs[tx].change) else row
            case ApplyPasswordReset(userId) =>
              if row.userId == userId && row.status == Invited && !row.deleted
              then row.(status := ActiveMember) else row
            case _ => row
  {
    hide Changed, ActiveOwners;
    assert s.nextId !in s.rows;
  }

  /** A member appears by a new organization's first row or an invite, once for each organization and user. */
  lemma RowAppears(s: System, a: Action, i: Id)
    requires Inv(s) && i !in s.rows && i in Apply(s, a).rows
    ensures i == s.nextId
    ensures var row := Apply(s, a).rows[i];
            && (forall j :: j in s.rows ==> !(s.rows[j].organizationId == row.organizationId && s.rows[j].userId == row.userId))
            && match a
               case CreateStudio(o, u) =>
                 row == Membership(o, u, OwnerRole, ActiveMember, false)
                 && forall j :: j in s.rows ==> s.rows[j].organizationId != o
               case CreatePlayerOrg(o, u) =>
                 row == Membership(o, u, PlayerRole, ActiveMember, false)
                 && forall j :: j in s.rows ==> s.rows[j].organizationId != o
               case Invite(o, u, role) => row == Membership(o, u, role, Invited, false)
               case _ => false
  {
    hide Changed, ActiveOwners;
  }

  /**
   * A transaction locks a row that was an active owner's when it began, is free, and is
   * an active owner's still; it goes on to write once it has visited all of them and
   * the guard lets the member it reads then pass.
   */
  lemma LocksAndReads(s: System, a: Action, tx: Id)
    requires Inv(s)
    ensures var s' := Apply(s, a);
            && (a.Begin? ==> s'.txs == s.txs[s.nextId := Locking(a.organizationId, a.userId, a.change,
                                                                 ActiveOwners(s.rows, a.organizationId), {})])
            && (tx in s.txs && s.txs[tx].Locking? ==>
                  var t := s.txs[tx];
                  && (tx in s'.txs ==>
                        && forall row :: row in s'.txs[tx].locked <==>
                             row in t.locked
                             || (a == LockRow(tx, row) && row in t.pending && Free(s, row, tx) && Owns(s.rows, t.organizationId, row)))
                  && (tx in s'.txs && s'.txs[tx].Writing? <==>
                        && a.ReadMember? && a.tx == tx && t.pending == {} && a.row in s.rows
                        && s.rows[a.row].organizationId == t.organizationId && s.rows[a.row].userId == t.userId
                        && !s.rows[a.row].deleted && Decide(s.rows[a.row], t.change, |t.locked|) == Proceed)
                  && (tx in s'.txs && s'.txs[tx].Writing? ==>
                        s'.txs[tx] == Writing(t.organizationId, t.change, t.locked, a.row)))
  {
    hide Decide, ActiveOwners, AcceptInvites, NewOrganization, LocksGood, WritesGuarded;
  }

  /* ------------------------------ exactly when it holds ------------------------------ */

  /**
   * The one way to lose the last owner: a transaction whose locked owners were
   * all demoted before it got their locks (so it holds none), about to take the
   * ownership of a member who became the only active owner after its read.
   */
  ghost predicate BlindWrite(s: System, a: Action, organizationId: Id) {
    a.Write? && a.tx in s.txs && s.txs[a.tx].Writing?
    && var t := s.txs[a.tx];
       t.locked == {} && !TakesNoOwner(t.change) && !HeldByOther(s, t.target, Some(a.tx))
       && OnlyOwner(s.rows, organizationId, t.target)
  }

  lemma OwnersAre(s: System, organizationId: Id)
    ensures HasOwner(s, organizationId) <==> ActiveOwners(s.rows, organizationId) != {}
    ensures forall m: Id :: ActiveOwners(s.rows, organizationId) == {m} <==> OnlyOwner(s.rows, organizationId, m)
  {
    OwnersAreActive(s.rows, organizationId);
    if HasOwner(s, organizationId) {
      var i :| Owns(s.rows, organizationId, i);
      assert i in ActiveOwners(s.rows, organizationId);
    }
    if ActiveOwners(s.rows, organizationId) != {} {
      var i :| i in ActiveOwners(s.rows, organizationId);
    }
  }

  lemma StillOwner(s: System, organizationId: Id, i: Id)
    requires i in s.rows && ActiveOwner(s.rows[i], organizationId)
    ensures HasOwner(s, organizationId)
  {
    assert Owns(s.rows, organizationId, i);
  }

  lemma Second(locked: set<Id>, target: Id) returns (other: Id)
    requires |locked| > 1
    ensures other in locked && other != target
  {
    assert locked != {} && locked != {target};
    other :| other in locked && other != target;
  }

  lemma SoleOwnerGone(rows: map<Id, Membership>, target: Id, change: Change, organizationId: Id)
    requires ActiveOwners(rows, organizationId) == {target}
    ensures ActiveOwners(rows[target := Changed(rows[target], change)], organizationId)
            == if TakesNoOwner(change) then {target} else {}
  {
    assert target in ActiveOwners(rows, organizationId);
    var rows' := rows[target := Changed(rows[target], change)];
    forall i | i in rows' && i != target ensures !ActiveOwner(rows'[i], organizationId) {
      assert i !in ActiveOwners(rows, organizationId);
    }
  }

  lemma WriteLoses(s: System, tx: Id, organizationId: Id)
    requires Inv(s) && HasOwner(s, organizationId) && tx in s.txs && s.txs[tx].Writing?
    ensures !HasOwner(WriteStep(s, tx), organizationId) <==> BlindWrite(s, Write(tx), organizationId)
  {
    var t, s' := s.txs[tx], WriteStep(s, tx);
    OwnersAre(s, organizationId);
    OwnersAre(s', organizationId);
    if t.target in s.rows && !HeldByOther(s, t.target, Some(tx)) {
      var m := s.rows[t.target];
      forall i | i in s.rows && i != t.target && ActiveOwner(s.rows[i], organizationId)
        ensures HasOwner(s', organizationId)
      {
        StillOwner(s', organizationId, i);
      }
      if ActiveOwner(m, organizationId) {
        ChangedOwner(m, t.change, organizationId);
        if TakesNoOwner(t.change) { StillOwner(s', organizationId, t.target); }
        else if t.locked != {} {
          if t.target in t.locked {
            var other := Second(t.locked, t.target);
            StillOwner(s', organizationId, other);
          } else {
            var other :| other in t.locked;
            StillOwner(s', organizationId, other);
          }
        }
        assert t.target in ActiveOwners(s.rows, organizationId);
        if i :| i in ActiveOwners(s.rows, organizationId) && i != t.target {
          StillOwner(s', organizationId, i);
        } else {
          assert ActiveOwners(s.rows, organizationId) == {t.target};
          SoleOwnerGone(s.rows, t.target, t.change, organizationId);
        }
      }
    }
  }

  lemma OthersLoseNone(s: System, a: Action, organizationId: Id)
    requires Inv(s) && HasOwner(s, organizationId) && !a.Write?
    ensures HasOwner(Apply(s, a), organizationId)
  {
    var i :| Owns(s.rows, organizationId, i);
    assert s.nextId !in s.rows;
    StillOwner(Apply(s, a), organizationId, i);
  }

  /** One step takes the last active owner away if and only if it is a blind write. */
  lemma LosesLastOwnerExactlyWhen(s: System, a: Action, organizationId: Id)
    requires Inv(s) && HasOwner(s, organizationId)
    ensures !HasOwner(Apply(s, a), organizationId) <==> BlindWrite(s, a, organizationId)
  {
    hide Inv;
    if a.Write? {
      if a.tx in s.txs && s.txs[a.tx].Writing? { WriteLoses(s, a.tx, organizationId); }
    } else { OthersLoseNone(s, a, organizationId); }
  }

  /** An active owner in every state along the run. */
  ghost predicate AlwaysOwned(s: System, actions: seq<Action>, organizationId: Id) {
    forall k :: 0 <= k <= |actions| ==> HasOwner(Run(s, actions[..k]), organizationId)
  }

  ghost predicate NeverBlind(s: System, actions: seq<Action>, organizationId: Id) {
    forall k :: 0 <= k < |actions| ==> !BlindWrite(Run(s, actions[..k]), actions[k], organizationId)
  }

  lemma RunPrefix(s: System, actions: seq<Action>, k: nat)
    requires k < |actions|
    ensures Run(s, actions[..k + 1]) == Apply(Run(s, actions[..k]), actions[k])
  {
    assert actions[..k + 1][..k] == actions[..k];
  }

  /** From any state where the organization has an active owner, for any interleaving. */
  lemma OwnerKeptExactlyWhenNeverBlind(s: System, actions: seq<Action>, organizationId: Id)
    requires Inv(s) && HasOwner(s, organizationId)
    ensures AlwaysOwned(s, actions, organizationId) <==> NeverBlind(s, actions, organizationId)
  {
    hide Inv, Apply, BlindWrite, HasOwner;
    forall k | 0 <= k < |actions| && HasOwner(Run(s, actions[..k]), organizationId)
      ensures HasOwner(Run(s, actions[..k + 1]), organizationId)
              <==> !BlindWrite(Run(s, actions[..k]), actions[k], organizationId)
    {
      RunPrefix(s, actions, k);
      RunKeeps(s, actions[..k]);
      LosesLastOwnerExactlyWhen(Run(s, actions[..k]), actions[k], organizationId);
    }
    if NeverBlind(s, actions, organizationId) { OwnedByInduction(s, actions, organizationId, |actions|); }
    if AlwaysOwned(s, actions, organizationId) {
      forall k | 0 <= k < |actions| ensures !BlindWrite(Run(s, actions[..k]), actions[k], organizationId) {
        assert HasOwner(Run(s, actions[..k]), organizationId) && HasOwner(Run(s, actions[..k + 1]), organizationId);
      }
    }
  }

  lemma {:induction false} OwnedByInduction(s: System, actions: seq<Action>, organizationId: Id, n: nat)
    requires n <= |actions| && HasOwner(s, organizationId) && NeverBlind(s, actions, organizationId)
    requires forall k :: 0 <= k < |actions| && HasOwner(Run(s, actions[..k]), organizationId) ==>
               (HasOwner(Run(s, actions[..k + 1]), organizationId)
                <==> !BlindWrite(Run(s, actions[..k]), actions[k], organizationId))
    ensures forall k :: 0 <= k <= n ==> HasOwner(Run(s, actions[..k]), organizationId)
  {
    hide BlindWrite, Apply, HasOwner;
    if n == 0 { assert actions[..0] == []; }
    else { OwnedByInduction(s, actions, organizationId, n - 1); }
  }

  /** No transaction reaches its write with an empty lock set: enough for the guard to hold on every run. */
  lemma OwnerKeptWhenLocksAreHeld(s: System, actions: seq<Action>, organizationId: Id)
    requires Inv(s) && HasOwner(s, organizationId)
    requires forall k :: 0 <= k < |actions| && actions[k].Write? ==>
               var m := Run(s, actions[..k]);
               actions[k].tx in m.txs && m.txs[actions[k].tx].Writing? ==> m.txs[actions[k].tx].locked != {}
    ensures AlwaysOwned(s, actions, organizationId)
  {
    hide Inv, Apply;
    OwnerKeptExactlyWhenNeverBlind(s, actions, organizationId);
  }

  /* ------------------------------- and a run where it fails ------------------------------- */

  ghost predicate Reachable(s: System) {
    exists actions :: s == Run(EMPTY, actions)
  }

  lemma ReachableStep(s: System, a: Action)
    requires Reachable(s)
    ensures Reachable(Apply(s, a))
  {
    var actions :| s == Run(EMPTY, actions);
    assert (actions + [a])[..|actions|] == actions;
    assert Apply(s, a) == Run(EMPTY, actions + [a]);
  }

  const ADA := Membership(0, 0, OwnerRole, ActiveMember, false)
  const BOB := Membership(0, 1, AdminRole, ActiveMember, false)
  const CAT := Membership(0, 2, OwnerRole, Invited, false)

  /** Ada owns the studio, Bob is an admin, Cat is invited as an owner. */
  const TEAM := System(map[0 := ADA, 1 := BOB, 2 := CAT], map[], 3)

  lemma TeamForms()
    ensures Reachable(TEAM)
  {
    assert EMPTY == Run(EMPTY, []);
    ReachableStep(EMPTY, CreateStudio(0, 0));
    var s1 := System(map[0 := ADA], map[], 1);
    assert Apply(EMPTY, CreateStudio(0, 0)) == s1;
    ReachableStep(s1, Invite(0, 1, AdminRole));
    var s2 := System(map[0 := ADA, 1 := BOB.(status := Invited)], map[], 2);
    assert Apply(s1, Invite(0, 1, AdminRole)) == s2;
    ReachableStep(s2, ApplyPasswordReset(1));
    var s3 := System(map[0 := ADA, 1 := BOB], map[], 2);
    assert AcceptInvites(s2.rows, 1) == s3.rows;
    assert Apply(s2, ApplyPasswordReset(1)) == s3;
    ReachableStep(s3, Invite(0, 2, OwnerRole));
    assert Apply(s3, Invite(0, 2, OwnerRole)) == TEAM;
  }

  /** The removal of Cat, still waiting for the lock of the one owner it found. */
  const SLOW := Locking(0, 2, Remove, {0}, {})

  ghost predicate NobodyLocks(s: System) {
    s.nextId !in s.txs && forall t :: t in s.txs ==> s.txs[t].locked == {}
  }

  function AfterRoleChange(s: System, row: Id, role: Role): System
    requires row in s.rows
  {
    System(s.rows[row := s.rows[row].(role := role)], s.txs, s.nextId + 1)
  }

  lemma LockedUp(s: System, userId: Id, role: Role) returns (s': System)
    requires Reachable(s) && NobodyLocks(s)
    ensures Reachable(s') && s'.rows == s.rows && s'.nextId == s.nextId + 1
    ensures s'.txs == s.txs[s.nextId := Locking(0, userId, SetRole(role), {}, ActiveOwners(s.rows, 0))]
  {
    var owners := ActiveOwners(s.rows, 0);
    ReachableStep(s, Begin(0, userId, SetRole(role)));
    hide Reachable, ActiveOwners;
    s' := LockAll(Apply(s, Begin(0, userId, SetRole(role))), s.nextId, owners);
    assert {} + owners == owners;
  }

  /** A role change that nobody disturbs, next to transactions that hold no lock. */
  lemma RoleChange(s: System, userId: Id, row: Id, role: Role)
    requires Reachable(s) && NobodyLocks(s) && MemberRow(s.rows, row, 0, userId)
    requires Decide(s.rows[row], SetRole(role), |ActiveOwners(s.rows, 0)|).Proceed?
    ensures Reachable(AfterRoleChange(s, row, role))
  {
    hide Reachable;
    var tx, owners := s.nextId, ActiveOwners(s.rows, 0);
    var s2 := LockedUp(s, userId, role);
    ReachableStep(s2, ReadMember(tx, row));
    hide ActiveOwners;
    var s3 := Apply(s2, ReadMember(tx, row));
    assert s3 == System(s.rows, s.txs[tx := Writing(0, SetRole(role), owners, row)], s.nextId + 1);
    ReachableStep(s3, Write(tx));
    assert !HeldByOther(s3, row, Some(tx));
    assert s3.txs - {tx} == s.txs;
    assert Apply(s3, Write(tx)) == AfterRoleChange(s, row, role);
  }

  /** With no lock held by anyone else, a transaction gets all its owner locks. */
  lemma {:induction false} LockAll(s: System, tx: Id, owners: set<Id>) returns (s': System)
    requires Reachable(s) && tx in s.txs && s.txs[tx].Locking? && s.txs[tx].pending == owners
    requires forall t :: t in s.txs && t != tx ==> s.txs[t].locked == {}
    requires owners <= ActiveOwners(s.rows, s.txs[tx].organizationId)
    ensures Reachable(s') && s'.rows == s.rows && s'.nextId == s.nextId
    ensures s'.txs == s.txs[tx := s.txs[tx].(pending := {}, locked := s.txs[tx].locked + owners)]
    decreases owners
  {
    if owners == {} {
      s' := s;
      assert s.txs[tx].locked + owners == s.txs[tx].locked;
    } else {
      var r :| r in owners;
      assert !HeldByOther(s, r, Some(tx));
      ReachableStep(s, LockRow(tx, r));
      s' := LockAll(Apply(s, LockRow(tx, r)), tx, owners - {r});
      assert s.txs[tx].locked + {r} + (owners - {r}) == s.txs[tx].locked + owners;
    }
  }

  /**
   * A reachable state with an active owner and a step that leaves none: while
   * Cat's removal waits for Ada's row, Bob becomes an owner and Ada steps down,
   * so the removal locks nobody and reads Cat as merely invited; then Cat
   * accepts, Bob steps down, and the removal goes through.
   */
  lemma GuardCanFail() returns (s: System, a: Action)
    ensures Reachable(s) && HasOwner(s, 0) && !HasOwner(Apply(s, a), 0)
  {
    TeamForms();
    ReachableStep(TEAM, Begin(0, 2, Remove));
    assert ActiveOwners(TEAM.rows, 0) == {0};
    var s1 := System(TEAM.rows, map[3 := SLOW], 4);
    assert Apply(TEAM, Begin(0, 2, Remove)) == s1;
    RoleChange(s1, 1, 1, OwnerRole);
    var s2 := AfterRoleChange(s1, 1, OwnerRole);
    assert ActiveOwners(s2.rows, 0) == {0, 1};
    assert |{0, 1}| == 2;
    RoleChange(s2, 0, 0, AdminRole);
    s, a := LastStretch(AfterRoleChange(s2, 0, AdminRole));
  }

  /** From the point where Bob is the only owner and the removal of Cat still waits for Ada's row. */
  lemma LastStretch(s3: System) returns (s: System, a: Action)
    requires Reachable(s3)
    requires s3 == System(map[0 := ADA.(role := AdminRole), 1 := BOB.(role := OwnerRole), 2 := CAT], map[3 := SLOW], 6)
    ensures Reachable(s) && HasOwner(s, 0) && !HasOwner(Apply(s, a), 0)
  {
    hide Reachable;
    ReachableStep(s3, LockRow(3, 0));
    assert !HeldByOther(s3, 0, Some(3));
    assert {0} - {0} == {};
    var s4 := s3.(txs := s3.txs[3 := SLOW.(pending := {})]);
    assert Apply(s3, LockRow(3, 0)) == s4;
    ReachableStep(s4, ReadMember(3, 2));
    var s5 := s4.(txs := s4.txs[3 := Writing(0, Remove, {}, 2)]);
    assert Apply(s4, ReadMember(3, 2)) == s5;
    s, a := OutOfSight(s5);
  }

  lemma OutOfSight(s5: System) returns (s: System, a: Action)
    requires Reachable(s5)
    requires s5 == System(map[0 := ADA.(role := AdminRole), 1 := BOB.(role := OwnerRole), 2 := CAT],
                          map[3 := Writing(0, Remove, {}, 2)], 6)
    ensures Reachable(s) && HasOwner(s, 0) && !HasOwner(Apply(s, a), 0)
  {
    hide Reachable;
    ReachableStep(s5, ApplyPasswordReset(2));
    var s6 := s5.(rows := s5.rows[2 := CAT.(status := ActiveMember)]);
    assert AcceptInvites(s5.rows, 2) == s6.rows;
    assert !exists i :: i in s5.rows && PendingInviteOf(s5.rows[i], 2) && HeldByOther(s5, i, None);
    assert Apply(s5, ApplyPasswordReset(2)) == s6;
    assert ActiveOwners(s6.rows, 0) == {1, 2} && |{1, 2}| == 2;
    RoleChange(s6, 1, 1, AdminRole);
    s, a := AfterRoleChange(s6, 1, AdminRole), Write(3);
    StillOwner(s, 0, 2);
    assert ActiveOwners(s.rows, 0) == {2};
    LosesLastOwner(s);
  }

  lemma LosesLastOwner(s: System)
    requires s.txs == map[3 := Writing(0, Remove, {}, 2)] && 2 in s.rows && ActiveOwners(s.rows, 0) == {2}
    ensures !HasOwner(Apply(s, Write(3)), 0)
  {
    var s' := Apply(s, Write(3));
    SoleOwnerGone(s.rows, 2, Remove, 0);
    OwnersAre(s', 0);
  }

  /* ------------------------- the operations when nobody interferes ------------------------- */

  /** The unique index on (organization, user). */
  ghost predicate UniqueMembers(rows: map<Id, Membership>) {
    forall i, j ::
      i in rows && j in rows && rows[i].organizationId == rows[j].organizationId && rows[i].userId == rows[j].userId
      ==> i == j
  }

  /** With the locked owners still the active owners, a change that proceeds leaves one. */
  lemma ProceedLeavesAnOwner(rows: map<Id, Membership>, organizationId: Id, m: Id, change: Change)
    requires m in rows && SomeOwner(rows, organizationId)
    requires Decide(rows[m], change, |ActiveOwners(rows, organizationId)|).Proceed?
    ensures SomeOwner(rows[m := Changed(rows[m], change)], organizationId)
  {
    var owners, rows' := ActiveOwners(rows, organizationId), rows[m := Changed(rows[m], change)];
    var keep :| Owns(rows, organizationId, keep);
    if m in owners {
      ChangedOwner(rows[m], change, organizationId);
      DecideOnOwner(rows[m], change, organizationId, |owners|);
      if !TakesNoOwner(change) { keep := Second(owners, m); } else { keep := m; }
    }
    assert Owns(rows', organizationId, keep);
  }

  /** What the guard asks and what a change makes of a row, spelled out. */
  lemma DecidesExactly(m: Membership, change: Change, owners: nat)
    ensures Decide(m, change, owners) == PendingInvite <==> change.SetStatus? && m.status == Invited
    ensures Decide(m, change, owners) == LastOwner <==>
              m.role == OwnerRole && m.status == ActiveMember && owners <= 1
              && (change == Remove || change == SetStatus(false) || (change.SetRole? && change.role != OwnerRole))
    ensures Changed(m, change) ==
            Membership(m.organizationId, m.userId, if change.SetRole? then change.role else m.role,
                       if change == SetStatus(true) then ActiveMember
                       else if change == SetStatus(false) || change == Remove then Disabled else m.status,
                       change == Remove || m.deleted)
  {}

  datatype ChangeOutcome = NotAMember | RefusedLastOwner | RefusedPendingInvite | Done(previous: Membership)

  class Memberships {
    var rows: map<Id, Membership>

    constructor ()
      ensures rows == map[]
    {
      rows := map[];
    }

    method FindMembership(organizationId: Id, userId: Id) returns (found: Option<Id>)
      ensures found.Some? ==> MemberRow(rows, found.value, organizationId, userId)
      ensures found.Some? ==>
                found.value in rows && rows[found.value].organizationId == organizationId
                && rows[found.value].userId == userId && rows[found.value].deleted == false
      ensures found.None? ==>
                forall i :: i in rows && rows[i].organizationId == organizationId && rows[i].userId == userId ==> rows[i].deleted
    {
      if i :| i in rows && MemberRow(rows, i, organizationId, userId) { return Some(i); }
      found := None;
    }

    /** Demoting the only active owner is refused; any other change of role is made. */
    method ChangeMemberRole(organizationId: Id, userId: Id, role: Role) returns (out: ChangeOutcome)
      requires UniqueMembers(rows)
      modifies this
      ensures UniqueMembers(rows)
      ensures out.NotAMember? <==> forall i :: !MemberRow(old(rows), i, organizationId, userId)
      ensures forall m: Id :: MemberRow(old(rows), m, organizationId, userId) ==>
                if OnlyOwner(old(rows), organizationId, m) && !role.OwnerRole?
                then out == RefusedLastOwner && rows == old(rows)
                else out == Done(old(rows)[m]) && rows == old(rows)[m := old(rows)[m].(role := role)]
      ensures out.NotAMember? ==> rows == old(rows)
      ensures SomeOwner(old(rows), organizationId) ==> SomeOwner(rows, organizationId)
    {
      var activeOwners := ActiveOwners(rows, organizationId);
      var found := FindMembership(organizationId, userId);
      if found.None? { return NotAMember; }
      var m := found.value;
      var current := rows[m];
      var losesAnActiveOwner := current.role.OwnerRole? && !role.OwnerRole? && current.status.ActiveMember?;
      CountsOne(rows, organizationId, m);
      if losesAnActiveOwner && |activeOwners| <= 1 { return RefusedLastOwner; }
      if SomeOwner(rows, organizationId) { ProceedLeavesAnOwner(rows, organizationId, m, SetRole(role)); }
      rows := rows[m := current.(role := role)];
      out := Done(current);
    }

    /** A pending invite cannot be switched on or off; disabling the only active owner is refused. */
    method ChangeMemberStatus(organizationId: Id, userId: Id, enable: bool) returns (out: ChangeOutcome)
      requires UniqueMembers(rows)
      modifies this
      ensures UniqueMembers(rows)
      ensures out.NotAMember? <==> forall i :: !MemberRow(old(rows), i, organizationId, userId)
      ensures forall m: Id :: MemberRow(old(rows), m, organizationId, userId) ==>
                if old(rows)[m].status.Invited? then out == RefusedPendingInvite && rows == old(rows)
                else if OnlyOwner(old(rows), organizationId, m) && !enable
                then out == RefusedLastOwner && rows == old(rows)
                else out == Done(old(rows)[m])
                     && rows == old(rows)[m := old(rows)[m].(status := if enable then ActiveMember else Disabled)]
      ensures out.NotAMember? ==> rows == old(rows)
      ensures SomeOwner(old(rows), organizationId) ==> SomeOwner(rows, organizationId)
    {
      var activeOwners := ActiveOwners(rows, organizationId);
      var found := FindMembership(organizationId, userId);
      if found.None? { return NotAMember; }
      var m := found.value;
      var current := rows[m];
      if current.status.Invited? { return RefusedPendingInvite; }
      var losesAnActiveOwner := current.role.OwnerRole? && current.status.ActiveMember? && !enable;
      CountsOne(rows, organizationId, m);
      if losesAnActiveOwner && |activeOwners| <= 1 { return RefusedLastOwner; }
      if SomeOwner(rows, organizationId) { ProceedLeavesAnOwner(rows, organizationId, m, SetStatus(enable)); }
      rows := rows[m := current.(status := if enable then ActiveMember else Disabled)];
      out := Done(current);
    }

    /** Removal keeps the row, disabled and marked deleted; the only active owner cannot be removed. */
    method RemoveMember(organizationId: Id, userId: Id) returns (out: ChangeOutcome)
      requires UniqueMembers(rows)
      modifies this
      ensures UniqueMembers(rows)
      ensures out.NotAMember? <==> forall i :: !MemberRow(old(rows), i, organizationId, userId)
      ensures forall m: Id :: MemberRow(old(rows), m, organizationId, userId) ==>
                if OnlyOwner(old(rows), organizationId, m)
                then out == RefusedLastOwner && rows == old(rows)
                else out == Done(old(rows)[m])
                     && rows == old(rows)[m := old(rows)[m].(status := Disabled, deleted := true)]
      ensures out.NotAMember? ==> rows == old(rows)
      ensures SomeOwner(old(rows), organizationId) ==> SomeOwner(rows, organizationId)
    {
      var activeOwners := ActiveOwners(rows, organizationId);
      var found := FindMembership(organizationId, userId);
      if found.None? { return NotAMember; }
      var m := found.value;
      var current := rows[m];
      var losesAnActiveOwner := current.role.OwnerRole? && current.status.ActiveMember?;
      CountsOne(rows, organizationId, m);
      if losesAnActiveOwner && |activeOwners| <= 1 { return RefusedLastOwner; }
      if SomeOwner(rows, organizationId) { ProceedLeavesAnOwner(rows, organizationId, m, Remove); }
      rows := rows[m := current.(status := Disabled, deleted := true)];
      out := Done(current);
    }

    /** Counting at most one owner while the member is one means the member is the only one. */
    lemma CountsOne(rows: map<Id, Membership>, organizationId: Id, m: Id)
      requires m in rows && rows[m].organizationId == organizationId && !rows[m].deleted
      ensures rows[m].role.OwnerRole? && rows[m].status.ActiveMember? ==>
                (|ActiveOwners(rows, organizationId)| <= 1 <==> OnlyOwner(rows, organizationId, m))
      ensures OnlyOwner(rows, organizationId, m) ==> rows[m].role.OwnerRole? && rows[m].status.ActiveMember?
    {
      OwnersAreActive(rows, organizationId);
      var owners := ActiveOwners(rows, organizationId);
      if m in owners && |owners| > 1 { var other := Second(owners, m); }
      if m in owners && |owners| <= 1 { OnlyElement(owners, m); }
      if owners == {m} { assert m in owners; }
    }

    lemma OnlyElement(owners: set<Id>, m: Id)
      requires m in owners && |owners| <= 1
      ensures owners == {m}
    {
      assert |owners - {m}| == |owners| - 1;
    }
  }
}
