/**
 * The canonical form request bodies are hashed in. Objects are lists of members
 * with distinct names in enumeration order; a number stands for what prints the same.
 */
module CanonicalJson {
  import opened Common
  import opened JsText

  datatype Json =
    | Null
    | Bool(b: bool)
    | Number(n: int)
    | Str(s: Text)
    | Array(items: Items)
    | Object(members: Members)

  datatype Items = NoItems | Item(head: Json, tail: Items)
  datatype Members = NoMembers | Member(name: Text, value: Json, rest: Members)

  /** Assigning to `acc["__proto__"]` sets the prototype: the member is lost. */
  function Proto(): Text { T("__proto__") }

  /* ----------------------------------- members, sorted ----------------------------------- */

  function Find(ms: Members, name: Text): Option<Json> {
    match ms
    case NoMembers => None
    case Member(n, v, rest) => if n == name then Some(v) else Find(rest, name)
  }

  ghost predicate Distinct(ms: Members) {
    ms.Member? ==> Find(ms.rest, ms.name).None? && Distinct(ms.rest)
  }

  /** The order of `sort()` without a comparator: by code units. */
  predicate Before(a: Text, b: Text) {
    if a == [] then b != []
    else b != [] && (a[0] < b[0] || (a[0] == b[0] && Before(a[1..], b[1..])))
  }

  function Insert(name: Text, value: Json, ms: Members): Members {
    if ms.NoMembers? || Before(name, ms.name) then Member(name, value, ms)
    else Member(ms.name, ms.value, Insert(name, value, ms.rest))
  }

  function Sorted(ms: Members): Members {
    if ms.NoMembers? then ms else Insert(ms.name, ms.value, Sorted(ms.rest))
  }

  /* ------------------------------------ canonicalize ------------------------------------ */

  function Canonical(j: Json): Json {
    match j
    case Array(items) => Array(CanonicalItems(items))
    case Object(members) => Object(Sorted(CanonicalMembers(members)))
    case _ => j
  }

  function CanonicalItems(items: Items): Items {
    if items.NoItems? then items else Item(Canonical(items.head), CanonicalItems(items.tail))
  }

  function CanonicalMembers(ms: Members): Members {
    if ms.NoMembers? then ms
    else if ms.name == Proto() then CanonicalMembers(ms.rest)
    else Member(ms.name, Canonical(ms.value), CanonicalMembers(ms.rest))
  }

  /** An absent or null body counts as an empty object. */
  function Defaulted(body: Option<Json>): Json {
    if body.None? || body.value.Null? then Object(NoMembers) else body.value
  }

  /** What is hashed. */
  function HashInput(body: Option<Json>): Json { Canonical(Defaulted(body)) }

  /* ------------------------------- equal up to member order ------------------------------- */

  /** Names are distinct in every object: what parsing JSON yields. */
  ghost predicate WellFormed(j: Json) {
    match j
    case Array(items) => ItemsWellFormed(items)
    case Object(members) => Distinct(members) && MembersWellFormed(members)
    case _ => true
  }

  ghost predicate ItemsWellFormed(items: Items) {
    items.Item? ==> WellFormed(items.head) && ItemsWellFormed(items.tail)
  }

  ghost predicate MembersWellFormed(ms: Members) {
    ms.Member? ==> WellFormed(ms.value) && MembersWellFormed(ms.rest)
  }

  /**
   * Equal up to the order of members at every depth; with `strip`, members named
   * `__proto__` do not count.
   */
  ghost predicate Same(a: Json, b: Json, strip: bool)
    decreases a
  {
    match a
    case Array(items) => b.Array? && SameItems(items, b.items, strip)
    case Object(members) => b.Object? && Within(members, b.members, strip) && NamesWithin(b.members, members, strip)
    case _ => a == b
  }

  ghost predicate SameItems(xs: Items, ys: Items, strip: bool)
    decreases xs
  {
    if xs.NoItems? then ys.NoItems? else ys.Item? && Same(xs.head, ys.head, strip) && SameItems(xs.tail, ys.tail, strip)
  }

  /** Each member of `ms` that counts has a namesake with the same value in `ns`. */
  ghost predicate Within(ms: Members, ns: Members, strip: bool)
    decreases ms
  {
    ms.Member? ==>
      && ((strip && ms.name == Proto())
          || (Find(ns, ms.name).Some? && Same(ms.value, Find(ns, ms.name).value, strip)))
      && Within(ms.rest, ns, strip)
  }

  ghost predicate NamesWithin(ms: Members, ns: Members, strip: bool) {
    ms.Member? ==>
      ((strip && ms.name == Proto()) || Find(ns, ms.name).Some?) && NamesWithin(ms.rest, ns, strip)
  }

  ghost predicate HasProto(j: Json) {
    match j
    case Array(items) => ItemsHaveProto(items)
    case Object(members) => MembersHaveProto(members)
    case _ => false
  }

  ghost predicate ItemsHaveProto(items: Items) {
    items.Item? && (HasProto(items.head) || ItemsHaveProto(items.tail))
  }

  ghost predicate MembersHaveProto(ms: Members) {
    ms.Member? && (ms.name == Proto() || HasProto(ms.value) || MembersHaveProto(ms.rest))
  }

  /* -------------------------------- facts about sorting -------------------------------- */

  lemma {:induction false} BeforeIsTotal(a: Text, b: Text)
    ensures a == b || Before(a, b) || Before(b, a)
    ensures !(Before(a, b) && Before(b, a)) && !Before(a, a)
  {
    if a != [] && b != [] {
      BeforeIsTotal(a[1..], b[1..]);
      assert a == [a[0]] + a[1..] && b == [b[0]] + b[1..];
    }
    if a != [] { BeforeIsTotal(a[1..], a[1..]); }
  }

  lemma {:induction false} BeforeIsTransitive(a: Text, b: Text, c: Text)
    requires Before(a, b) && Before(b, c)
    ensures Before(a, c)
  {
    if a != [] && a[0] == b[0] && b[0] == c[0] { BeforeIsTransitive(a[1..], b[1..], c[1..]); }
  }

  ghost predicate InOrder(ms: Members) {
    ms.Member? && ms.rest.Member? ==> Before(ms.name, ms.rest.name) && InOrder(ms.rest)
  }

  lemma {:induction false} InsertFinds(name: Text, value: Json, ms: Members, k: Text)
    requires Find(ms, name).None?
    ensures Find(Insert(name, value, ms), k) == if k == name then Some(value) else Find(ms, k)
  {
    if ms.Member? && !Before(name, ms.name) { InsertFinds(name, value, ms.rest, k); }
  }

  lemma {:induction false} InsertInOrder(name: Text, value: Json, ms: Members)
    requires InOrder(ms) && Find(ms, name).None?
    ensures InOrder(Insert(name, value, ms))
  {
    if ms.Member? && !Before(name, ms.name) {
      BeforeIsTotal(name, ms.name);
      InsertInOrder(name, value, ms.rest);
    }
  }

  lemma {:induction false} SortedFinds(ms: Members, k: Text)
    requires Distinct(ms)
    ensures Find(Sorted(ms), k) == Find(ms, k)
    ensures InOrder(Sorted(ms))
  {
    if ms.Member? {
      SortedFinds(ms.rest, k);
      SortedFinds(ms.rest, ms.name);
      InsertFinds(ms.name, ms.value, Sorted(ms.rest), k);
      InsertInOrder(ms.name, ms.value, Sorted(ms.rest));
    }
  }

  lemma {:induction false} FirstIsLeast(ms: Members, k: Text)
    requires InOrder(ms) && ms.Member? && Find(ms.rest, k).Some?
    ensures Before(ms.name, k)
  {
    if ms.rest.name != k {
      FirstIsLeast(ms.rest, k);
      BeforeIsTransitive(ms.name, ms.rest.name, k);
    }
  }

  ghost predicate FindSame(ms: Members, ns: Members) { forall k :: Find(ms, k) == Find(ns, k) }

  /** Ordered members are determined by what is found in them. */
  lemma {:induction false} OrderedAreUnique(ms: Members, ns: Members)
    requires InOrder(ms) && InOrder(ns) && FindSame(ms, ns)
    ensures ms == ns
  {
    if ms.NoMembers? {
      assert ns.Member? ==> Find(ms, ns.name) == Find(ns, ns.name);
    } else {
      assert Find(ns, ms.name) == Find(ms, ms.name);
      assert Find(ms, ns.name) == Find(ns, ns.name);
      BeforeIsTotal(ms.name, ns.name);
      if ms.name != ns.name {
        FirstIsLeast(ns, ms.name);
        FirstIsLeast(ms, ns.name);
      }
      forall k ensures Find(ms.rest, k) == Find(ns.rest, k) {
        assert Find(ms, k) == Find(ns, k);
        BeforeIsTotal(ms.name, ms.name);
        if k == ms.name {
          if Find(ms.rest, k).Some? { FirstIsLeast(ms, k); }
          if Find(ns.rest, k).Some? { FirstIsLeast(ns, k); }
        }
      }
      OrderedAreUnique(ms.rest, ns.rest);
    }
  }

  /* --------------------------- canonical forms, member by member --------------------------- */

  lemma {:induction false} CanonicalFinds(ms: Members, k: Text)
    ensures Find(CanonicalMembers(ms), k) ==
            if k == Proto() || Find(ms, k).None? then None else Some(Canonical(Find(ms, k).value))
  {
    hide Proto, Canonical;
    if ms.Member? { CanonicalFinds(ms.rest, k); }
  }

  lemma {:induction false} CanonicalDistinct(ms: Members)
    requires Distinct(ms)
    ensures Distinct(CanonicalMembers(ms))
  {
    hide Proto, Canonical;
    if ms.Member? {
      CanonicalDistinct(ms.rest);
      CanonicalFinds(ms.rest, ms.name);
    }
  }

  /** What a canonical object answers for each name. */
  lemma ObjectFinds(ms: Members, k: Text)
    requires Distinct(ms)
    ensures Find(Sorted(CanonicalMembers(ms)), k) ==
            if k == Proto() || Find(ms, k).None? then None else Some(Canonical(Find(ms, k).value))
    ensures InOrder(Sorted(CanonicalMembers(ms)))
  {
    CanonicalDistinct(ms);
    SortedFinds(CanonicalMembers(ms), k);
    CanonicalFinds(ms, k);
  }

  /** Canonical objects are equal exactly when they answer alike for every name. */
  lemma ObjectsEqual(ms: Members, ns: Members)
    requires Distinct(ms) && Distinct(ns)
    ensures Sorted(CanonicalMembers(ms)) == Sorted(CanonicalMembers(ns)) <==>
            FindSame(Sorted(CanonicalMembers(ms)), Sorted(CanonicalMembers(ns)))
  {
    if FindSame(Sorted(CanonicalMembers(ms)), Sorted(CanonicalMembers(ns))) {
      ObjectFinds(ms, []);
      ObjectFinds(ns, []);
      OrderedAreUnique(Sorted(CanonicalMembers(ms)), Sorted(CanonicalMembers(ns)));
    }
  }

  /** `Within`, with equal canonical forms for equal values. */
  ghost predicate CanonicallyWithin(ms: Members, ns: Members) {
    ms.Member? ==>
      && (ms.name == Proto()
          || (Find(ns, ms.name).Some? && Canonical(ms.value) == Canonical(Find(ns, ms.name).value)))
      && CanonicallyWithin(ms.rest, ns)
  }

  lemma {:induction false} WithinAt(ms: Members, ns: Members, k: Text)
    requires CanonicallyWithin(ms, ns) && Find(ms, k).Some? && k != Proto()
    ensures Find(ns, k).Some? && Canonical(Find(ms, k).value) == Canonical(Find(ns, k).value)
  {
    hide Canonical, Proto;
    if ms.name != k { WithinAt(ms.rest, ns, k); }
  }

  lemma {:induction false} NamesAt(ms: Members, ns: Members, k: Text)
    requires NamesWithin(ms, ns, true) && Find(ms, k).Some? && k != Proto()
    ensures Find(ns, k).Some?
  {
    hide Proto;
    if ms.name != k { NamesAt(ms.rest, ns, k); }
  }

  ghost predicate AgreeAt(ms: Members, ns: Members, k: Text) {
    Find(Sorted(CanonicalMembers(ms)), k) == Find(Sorted(CanonicalMembers(ns)), k)
  }

  /** If the canonical objects of `whole` and `ns` answer alike, any part of `whole` is within `ns`. */
  lemma {:induction false} AgreeingIsWithin(ms: Members, whole: Members, ns: Members)
    requires Distinct(whole) && Distinct(ns) && Distinct(ms)
    requires forall k :: AgreeAt(whole, ns, k)
    requires forall k :: Find(ms, k).Some? ==> Find(whole, k) == Find(ms, k)
    ensures CanonicallyWithin(ms, ns) && NamesWithin(ms, ns, true)
  {
    hide Canonical, Proto, AgreeAt;
    if ms.Member? {
      assert Find(whole, ms.name) == Find(ms, ms.name);
      AgreementAt(whole, ns, ms.name);
      forall k | Find(ms.rest, k).Some? ensures Find(whole, k) == Find(ms.rest, k) {
        assert Find(ms, k) == Find(ms.rest, k);
      }
      AgreeingIsWithin(ms.rest, whole, ns);
    }
  }

  lemma AgreementAt(ms: Members, ns: Members, k: Text)
    requires Distinct(ms) && Distinct(ns)
    ensures AgreeAt(ms, ns, k) <==>
            k == Proto() || (Find(ms, k).None? && Find(ns, k).None?)
            || (Find(ms, k).Some? && Find(ns, k).Some? && Canonical(Find(ms, k).value) == Canonical(Find(ns, k).value))
  {
    hide Canonical, Proto;
    ObjectFinds(ms, k);
    ObjectFinds(ns, k);
  }

  /** Two objects have one canonical form exactly when each is canonically within the other. */
  lemma ObjectsAgree(ms: Members, ns: Members)
    requires Distinct(ms) && Distinct(ns)
    ensures Sorted(CanonicalMembers(ms)) == Sorted(CanonicalMembers(ns)) <==>
            CanonicallyWithin(ms, ns) && NamesWithin(ns, ms, true)
  {
    hide Canonical, Proto, CanonicallyWithin, NamesWithin;
    ObjectsEqual(ms, ns);
    if CanonicallyWithin(ms, ns) && NamesWithin(ns, ms, true) {
      forall k ensures Find(Sorted(CanonicalMembers(ms)), k) == Find(Sorted(CanonicalMembers(ns)), k) {
        AgreementAt(ms, ns, k);
        if k != Proto() && Find(ms, k).Some? { WithinAt(ms, ns, k); }
        if k != Proto() && Find(ns, k).Some? { NamesAt(ns, ms, k); }
      }
    }
    if Sorted(CanonicalMembers(ms)) == Sorted(CanonicalMembers(ns)) {
      assert forall k :: AgreeAt(ms, ns, k);
      AgreeingIsWithin(ms, ms, ns);
      forall k ensures AgreeAt(ns, ms, k) { assert AgreeAt(ms, ns, k); }
      AgreeingIsWithin(ns, ns, ms);
    }
  }

  lemma {:induction false} FoundIsWellFormed(ms: Members, k: Text)
    requires MembersWellFormed(ms) && Find(ms, k).Some?
    ensures WellFormed(Find(ms, k).value)
  {
    if ms.name != k { FoundIsWellFormed(ms.rest, k); }
  }

  /**
   * Two bodies have the same canonical form exactly when they are equal up to the
   * order of members at every depth, leaving out members named `__proto__`.
   */
  lemma {:induction false} CanonicalIsSame(a: Json, b: Json)
    requires WellFormed(a) && WellFormed(b)
    ensures Canonical(a) == Canonical(b) <==> Same(a, b, true)
    decreases a, 1
  {
    hide Sorted, CanonicalMembers;
    match a
    case Array(items) => if b.Array? { ItemsAreSame(items, b.items); }
    case Object(members) =>
      if b.Object? {
        ObjectsAgree(members, b.members);
        MembersAreSame(members, b.members);
      }
    case _ =>
  }

  lemma {:induction false} ItemsAreSame(xs: Items, ys: Items)
    requires ItemsWellFormed(xs) && ItemsWellFormed(ys)
    ensures CanonicalItems(xs) == CanonicalItems(ys) <==> SameItems(xs, ys, true)
    decreases xs, 0
  {
    if xs.Item? && ys.Item? {
      CanonicalIsSame(xs.head, ys.head);
      ItemsAreSame(xs.tail, ys.tail);
    }
  }

  lemma {:induction false} MembersAreSame(ms: Members, ns: Members)
    requires MembersWellFormed(ms) && MembersWellFormed(ns)
    ensures CanonicallyWithin(ms, ns) <==> Within(ms, ns, true)
    decreases ms, 0
  {
    hide Proto;
    if ms.Member? {
      MembersAreSame(ms.rest, ns);
      if Find(ns, ms.name).Some? {
        FoundIsWellFormed(ns, ms.name);
        CanonicalIsSame(ms.value, Find(ns, ms.name).value);
      }
    }
  }

  /* -------------------------------------- idempotence -------------------------------------- */

  lemma {:induction false} CanonicalIsWellFormed(j: Json)
    requires WellFormed(j)
    ensures WellFormed(Canonical(j)) && !HasProto(Canonical(j))
    decreases j, 1
  {
    match j
    case Array(items) => CanonicalItemsOk(items);
    case Object(members) =>
      CanonicalMembersOk(members);
      CanonicalDistinct(members);
      SortedOk(CanonicalMembers(members));
    case _ =>
  }

  lemma {:induction false} CanonicalItemsOk(items: Items)
    requires ItemsWellFormed(items)
    ensures ItemsWellFormed(CanonicalItems(items)) && !ItemsHaveProto(CanonicalItems(items))
    decreases items, 0
  {
    if items.Item? {
      CanonicalIsWellFormed(items.head);
      CanonicalItemsOk(items.tail);
    }
  }

  lemma {:induction false} CanonicalMembersOk(ms: Members)
    requires MembersWellFormed(ms)
    ensures MembersWellFormed(CanonicalMembers(ms)) && !MembersHaveProto(CanonicalMembers(ms))
    decreases ms, 0
  {
    hide Proto;
    if ms.Member? {
      CanonicalIsWellFormed(ms.value);
      CanonicalMembersOk(ms.rest);
    }
  }

  lemma {:induction false} InsertOk(name: Text, value: Json, ms: Members)
    requires MembersWellFormed(ms) && !MembersHaveProto(ms) && Distinct(ms)
    requires WellFormed(value) && !HasProto(value) && name != Proto() && Find(ms, name).None?
    ensures MembersWellFormed(Insert(name, value, ms)) && !MembersHaveProto(Insert(name, value, ms))
    ensures Distinct(Insert(name, value, ms))
  {
    hide Proto, Before;
    if ms.Member? && !Before(name, ms.name) {
      InsertOk(name, value, ms.rest);
      InsertFinds(name, value, ms.rest, ms.name);
    }
  }

  lemma {:induction false} SortedOk(ms: Members)
    requires MembersWellFormed(ms) && !MembersHaveProto(ms) && Distinct(ms)
    ensures MembersWellFormed(Sorted(ms)) && !MembersHaveProto(Sorted(ms)) && Distinct(Sorted(ms))
  {
    hide Proto;
    if ms.Member? {
      SortedOk(ms.rest);
      SortedFinds(ms.rest, ms.name);
      InsertOk(ms.name, ms.value, Sorted(ms.rest));
    }
  }

  /** Canonicalising again changes nothing. */
  lemma {:induction false} CanonicalTwice(j: Json)
    requires WellFormed(j)
    ensures Canonical(Canonical(j)) == Canonical(j)
    decreases j, 1
  {
    hide Proto;
    match j
    case Array(items) => CanonicalItemsTwice(items);
    case Object(members) =>
      CanonicalDistinct(members);
      SortedFinds(CanonicalMembers(members), []);
      CanonicalMembersOk(members);
      SortedOk(CanonicalMembers(members));
      MembersTwice(members);
      SortedStays(CanonicalMembers(members));
      AllStays(Sorted(CanonicalMembers(members)));
    case _ =>
  }

  lemma {:induction false} CanonicalItemsTwice(items: Items)
    requires ItemsWellFormed(items)
    ensures CanonicalItems(CanonicalItems(items)) == CanonicalItems(items)
    decreases items, 0
  {
    if items.Item? {
      CanonicalTwice(items.head);
      CanonicalItemsTwice(items.tail);
    }
  }

  /** Every value is canonical already. */
  ghost predicate Settled(ms: Members) { ms.Member? ==> Canonical(ms.value) == ms.value && Settled(ms.rest) }

  lemma {:induction false} MembersTwice(ms: Members)
    requires MembersWellFormed(ms)
    ensures Settled(CanonicalMembers(ms))
    decreases ms, 0
  {
    hide Proto;
    if ms.Member? {
      CanonicalTwice(ms.value);
      MembersTwice(ms.rest);
    }
  }

  lemma {:induction false} InsertSettled(name: Text, value: Json, ms: Members)
    requires Settled(ms) && Canonical(value) == value
    ensures Settled(Insert(name, value, ms))
  {
    hide Canonical, Before;
    if ms.Member? && !Before(name, ms.name) { InsertSettled(name, value, ms.rest); }
  }

  lemma {:induction false} SortedStays(ms: Members)
    requires Settled(ms)
    ensures Settled(Sorted(ms))
  {
    hide Canonical;
    if ms.Member? {
      SortedStays(ms.rest);
      InsertSettled(ms.name, ms.value, Sorted(ms.rest));
    }
  }

  /** Settled members in order, none lost, are their own canonical form. */
  lemma {:induction false} AllStays(ms: Members)
    requires Settled(ms) && InOrder(ms) && !MembersHaveProto(ms)
    ensures CanonicalMembers(ms) == ms && Sorted(ms) == ms
  {
    hide Canonical, Proto, HasProto, Before;
    if ms.Member? { AllStays(ms.rest); }
  }

  /* ----------------------------- bodies that name `__proto__` ----------------------------- */

  /** The same body without its `__proto__` members. */
  function Strip(j: Json): Json {
    match j
    case Array(items) => Array(StripItems(items))
    case Object(members) => Object(StripMembers(members))
    case _ => j
  }

  function StripItems(items: Items): Items {
    if items.NoItems? then items else Item(Strip(items.head), StripItems(items.tail))
  }

  function StripMembers(ms: Members): Members {
    if ms.NoMembers? then ms
    else if ms.name == Proto() then StripMembers(ms.rest)
    else Member(ms.name, Strip(ms.value), StripMembers(ms.rest))
  }

  lemma {:induction false} StripFinds(ms: Members, k: Text)
    ensures Find(StripMembers(ms), k) ==
            if k == Proto() || Find(ms, k).None? then None else Some(Strip(Find(ms, k).value))
  {
    hide Proto, Strip;
    if ms.Member? { StripFinds(ms.rest, k); }
  }

  lemma {:induction false} StripIsWellFormed(j: Json)
    requires WellFormed(j)
    ensures WellFormed(Strip(j)) && !HasProto(Strip(j)) && Canonical(Strip(j)) == Canonical(j)
    decreases j, 1
  {
    match j
    case Array(items) => StripItemsOk(items);
    case Object(members) => StripMembersOk(members);
    case _ =>
  }

  lemma {:induction false} StripItemsOk(items: Items)
    requires ItemsWellFormed(items)
    ensures ItemsWellFormed(StripItems(items)) && !ItemsHaveProto(StripItems(items))
    ensures CanonicalItems(StripItems(items)) == CanonicalItems(items)
    decreases items, 0
  {
    if items.Item? {
      StripIsWellFormed(items.head);
      StripItemsOk(items.tail);
    }
  }

  lemma {:induction false} StripMembersOk(ms: Members)
    requires MembersWellFormed(ms) && Distinct(ms)
    ensures MembersWellFormed(StripMembers(ms)) && !MembersHaveProto(StripMembers(ms)) && Distinct(StripMembers(ms))
    ensures CanonicalMembers(StripMembers(ms)) == CanonicalMembers(ms)
    decreases ms, 0
  {
    hide Proto;
    if ms.Member? {
      StripIsWellFormed(ms.value);
      StripMembersOk(ms.rest);
      StripFinds(ms.rest, ms.name);
    }
  }

  /** Without such members, leaving them out makes no difference. */
  lemma {:induction false} PlainIsSame(a: Json, b: Json)
    requires WellFormed(a) && WellFormed(b) && !HasProto(a) && !HasProto(b)
    ensures Same(a, b, true) <==> Same(a, b, false)
    decreases a, 1
  {
    match a
    case Array(items) => if b.Array? { PlainItems(items, b.items); }
    case Object(members) =>
      if b.Object? {
        PlainWithin(members, b.members);
        PlainNames(b.members, members);
      }
    case _ =>
  }

  lemma {:induction false} PlainItems(xs: Items, ys: Items)
    requires ItemsWellFormed(xs) && ItemsWellFormed(ys) && !ItemsHaveProto(xs) && !ItemsHaveProto(ys)
    ensures SameItems(xs, ys, true) <==> SameItems(xs, ys, false)
    decreases xs, 0
  {
    if xs.Item? && ys.Item? {
      PlainIsSame(xs.head, ys.head);
      PlainItems(xs.tail, ys.tail);
    }
  }

  lemma {:induction false} PlainWithin(ms: Members, ns: Members)
    requires MembersWellFormed(ms) && MembersWellFormed(ns) && !MembersHaveProto(ms) && !MembersHaveProto(ns)
    ensures Within(ms, ns, true) <==> Within(ms, ns, false)
    decreases ms, 0
  {
    hide Proto;
    if ms.Member? {
      PlainWithin(ms.rest, ns);
      if Find(ns, ms.name).Some? {
        FoundIsWellFormed(ns, ms.name);
        FoundHasNoProto(ns, ms.name);
        PlainIsSame(ms.value, Find(ns, ms.name).value);
      }
    }
  }

  lemma {:induction false} PlainNames(ms: Members, ns: Members)
    requires !MembersHaveProto(ms)
    ensures NamesWithin(ms, ns, true) <==> NamesWithin(ms, ns, false)
  {
    if ms.Member? { PlainNames(ms.rest, ns); }
  }

  lemma {:induction false} FoundHasNoProto(ms: Members, k: Text)
    requires !MembersHaveProto(ms) && Find(ms, k).Some?
    ensures !HasProto(Find(ms, k).value) && k != Proto()
  {
    hide Proto, HasProto;
    if ms.name != k { FoundHasNoProto(ms.rest, k); }
  }

  /** A body that is really equal to one without such members has none itself. */
  lemma {:induction false} SameHasNoProto(a: Json, b: Json)
    requires Same(a, b, false) && !HasProto(b)
    ensures !HasProto(a)
    decreases a, 1
  {
    match a
    case Array(items) => SameItemsHaveNoProto(items, b.items);
    case Object(members) => WithinHasNoProto(members, b.members);
    case _ =>
  }

  lemma {:induction false} SameItemsHaveNoProto(xs: Items, ys: Items)
    requires SameItems(xs, ys, false) && !ItemsHaveProto(ys)
    ensures !ItemsHaveProto(xs)
    decreases xs, 0
  {
    if xs.Item? {
      SameHasNoProto(xs.head, ys.head);
      SameItemsHaveNoProto(xs.tail, ys.tail);
    }
  }

  lemma {:induction false} WithinHasNoProto(ms: Members, ns: Members)
    requires Within(ms, ns, false) && !MembersHaveProto(ns)
    ensures !MembersHaveProto(ms)
    decreases ms, 0
  {
    hide Proto;
    if ms.Member? {
      FoundHasNoProto(ns, ms.name);
      SameHasNoProto(ms.value, Find(ns, ms.name).value);
      WithinHasNoProto(ms.rest, ns);
    }
  }

  /** The promise about one body: it shares its hash input with exactly the bodies equal to it up to member order. */
  ghost predicate KeptApart(a: Json, b: Json) { Canonical(a) == Canonical(b) <==> Same(a, b, false) }

  /**
   * The promise holds of a body, against every body that names no `__proto__`,
   * exactly when the body itself names none at any depth.
   */
  lemma KeptApartExactlyWhen(a: Json)
    requires WellFormed(a)
    ensures (forall b :: WellFormed(b) && !HasProto(b) ==> KeptApart(a, b)) <==> !HasProto(a)
  {
    if !HasProto(a) {
      forall b | WellFormed(b) && !HasProto(b) ensures KeptApart(a, b) {
        CanonicalIsSame(a, b);
        PlainIsSame(a, b);
      }
    } else {
      var b := Strip(a);
      StripIsWellFormed(a);
      if Same(a, b, false) { SameHasNoProto(a, b); }
      assert !KeptApart(a, b);
    }
  }

  /** For instance, `{"__proto__": 1}` is hashed as `{}`. */
  lemma ProtoIsLost()
    ensures var a := Object(Member(T("__proto__"), Number(1), NoMembers));
            Canonical(a) == Object(NoMembers) && !Same(a, Object(NoMembers), false)
  {
    hide T;
  }

  /** The canonical form is the body itself up to member order, without the members named `__proto__`. */
  lemma CanonicalIsTheBody(j: Json)
    requires WellFormed(j)
    ensures Same(Canonical(j), j, true) && !HasProto(Canonical(j))
  {
    CanonicalIsWellFormed(j);
    CanonicalTwice(j);
    CanonicalIsSame(Canonical(j), j);
  }

  ghost predicate BodyWellFormed(body: Option<Json>) { body.Some? ==> WellFormed(body.value) }

  /** Two bodies are hashed alike exactly when, absent and null ones counted as `{}`, they are equal up to member order. */
  lemma HashInputIsSame(a: Option<Json>, b: Option<Json>)
    requires BodyWellFormed(a) && BodyWellFormed(b)
    ensures HashInput(a) == HashInput(b) <==> Same(Defaulted(a), Defaulted(b), true)
    ensures Defaulted(a) == match a case Some(j) => (if j == Null then Object(NoMembers) else j) case None => Object(NoMembers)
  {
    hide Canonical, Same;
    CanonicalIsSame(Defaulted(a), Defaulted(b));
  }
}
