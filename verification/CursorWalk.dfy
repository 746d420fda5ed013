/** Cursor paging over a table whose ids are time-ordered, newest first. */
module CursorWalk {
  import opened Common

  datatype Row = Row(organization: Id, deleted: bool)
  datatype Page = Page(data: seq<Id>, nextCursor: Option<Id>)

  /** The live rows of one organization. */
  function Scope(rows: map<Id, Row>, organization: Id): set<Id> {
    set id | id in rows && rows[id].organization == organization && !rows[id].deleted
  }

  predicate Past(id: Id, cursor: Option<Id>) { cursor.Some? ==> id < cursor.value }

  function Below(s: set<Id>, cursor: Option<Id>): set<Id> { set id | id in s && Past(id, cursor) }

  lemma {:induction false} HasGreatest(s: set<Id>)
    requires s != {}
    ensures exists m :: m in s && forall x :: x in s ==> x <= m
    decreases |s|
  {
    var a :| a in s;
    var others := s - {a};
    assert forall x :: x in s <==> x == a || x in others;
    if others != {} {
      HasGreatest(others);
      var m :| m in others && forall x :: x in others ==> x <= m;
      var top := if a > m then a else m;
      assert top in s && forall x :: x in s ==> x <= top;
    }
  }

  ghost function Greatest(s: set<Id>): (m: Id)
    requires s != {}
    ensures m in s && forall x :: x in s ==> x <= m
  {
    HasGreatest(s);
    var m :| m in s && forall x :: x in s ==> x <= m;
    m
  }

  /** The answer of an `order by id desc` query. */
  ghost function Descending(s: set<Id>): (r: seq<Id>)
    ensures |r| == |s|
    decreases |s|
  {
    if s == {} then [] else [Greatest(s)] + Descending(s - {Greatest(s)})
  }

  ghost predicate Falling(r: seq<Id>) { forall i, j :: 0 <= i < j < |r| ==> r[i] > r[j] }

  lemma {:induction false} DescendingIs(s: set<Id>)
    ensures Falling(Descending(s)) && forall x :: x in Descending(s) <==> x in s
    decreases |s|
  {
    if s != {} {
      var g := Greatest(s);
      DescendingIs(s - {g});
      var r := Descending(s - {g});
      assert Descending(s) == [g] + r;
      forall i, j | 0 <= i < j < |[g] + r| ensures ([g] + r)[i] > ([g] + r)[j] {
        assert r[j - 1] in r;
      }
      forall x ensures x in [g] + r <==> x in s {
        assert x in r <==> x in s - {g};
      }
    }
  }

  lemma SomeMember(r: seq<Id>)
    ensures r != [] ==> exists x :: x in r
  {
    assert r != [] ==> r[0] in r;
  }

  /** Only one list has these elements in falling order. */
  lemma {:induction false} FallingIsUnique(a: seq<Id>, b: seq<Id>)
    requires Falling(a) && Falling(b) && forall x :: x in a <==> x in b
    ensures a == b
  {
    SomeMember(b);
    if a != [] {
      assert a[0] in a;
      assert a[0] in b;
      assert b[0] in b && b[0] in a;
      forall x ensures x in a[1..] <==> x in b[1..] {
        assert x in a <==> x in b;
        assert x in a <==> x == a[0] || x in a[1..];
        assert x in b <==> x == b[0] || x in b[1..];
      }
      FallingIsUnique(a[1..], b[1..]);
    }
  }

  /** One row more than the page holds is fetched; it says whether there is a next page. */
  function BuildPage(rows: seq<Id>, limit: nat): Page
    requires limit >= 1
  {
    if |rows| > limit then Page(rows[..limit], Some(rows[limit - 1])) else Page(rows, None)
  }

  ghost function ListScope(scope: set<Id>, cursor: Option<Id>, limit: nat): Page
    requires limit >= 1
  {
    var rows := Descending(Below(scope, cursor));
    BuildPage(if |rows| <= limit + 1 then rows else rows[..limit + 1], limit)
  }

  /** What one page says: the greatest ids past the cursor, and whether any are left. */
  ghost predicate PageOk(scope: set<Id>, cursor: Option<Id>, limit: nat, page: Page) {
    && Falling(page.data) && |page.data| <= limit
    && (forall x: Id :: x in page.data ==> x in scope && Past(x, cursor))
    && (page.nextCursor.None? ==> forall x: Id :: x in scope && Past(x, cursor) ==> x in page.data)
    && (page.nextCursor.Some? ==>
          && |page.data| == limit >= 1 && page.nextCursor.value == page.data[limit - 1]
          && (forall x: Id :: x in scope && Past(x, cursor) && x >= page.nextCursor.value ==> x in page.data))
  }

  lemma FallsAt(all: seq<Id>, i: nat, j: nat)
    requires Falling(all)
    ensures i < j < |all| ==> all[i] > all[j]
  {}

  lemma PrefixIs(all: seq<Id>, n: nat)
    requires Falling(all) && n <= |all|
    ensures Falling(all[..n]) && forall x :: x in all[..n] ==> x in all
    ensures n > 0 ==> forall x :: x in all && x >= all[n - 1] ==> x in all[..n]
  {
    forall x | n > 0 && x in all && x >= all[n - 1] ensures x in all[..n] {
      var i :| 0 <= i < |all| && all[i] == x;
      FallsAt(all, n - 1, i);
      assert all[..n][i] == x;
    }
  }

  lemma PageIs(scope: set<Id>, cursor: Option<Id>, limit: nat)
    requires limit >= 1
    ensures PageOk(scope, cursor, limit, ListScope(scope, cursor, limit))
  {
    hide Descending, Falling;
    var all := Descending(Below(scope, cursor));
    DescendingIs(Below(scope, cursor));
    if |all| > limit {
      assert all[..limit + 1][..limit] == all[..limit];
      PrefixIs(all, limit);
    }
  }

  /* -------------------------------------- one walk -------------------------------------- */

  /**
   * Following `nextCursor` from `cursor`, the k-th page being fetched when the
   * scope is `scopes[k]`. `finished` says whether a page without a cursor came.
   */
  ghost function Walk(scopes: seq<set<Id>>, cursor: Option<Id>, limit: nat): (seq<Id>, bool)
    requires limit >= 1
    decreases |scopes|
  {
    if scopes == [] then ([], false)
    else
      var page := ListScope(scopes[0], cursor, limit);
      if page.nextCursor.None? then (page.data, true)
      else
        var more := Walk(scopes[1..], page.nextCursor, limit);
        (page.data + more.0, more.1)
  }

  ghost predicate WalkOk(scopes: seq<set<Id>>, cursor: Option<Id>, ids: seq<Id>, finished: bool) {
    && Falling(ids)
    && (forall x: Id :: x in ids ==> Past(x, cursor) && Seen(scopes, x))
    && (finished ==> forall x: Id :: Past(x, cursor) && Throughout(scopes, x) ==> x in ids)
  }

  /** In the scope when some page was fetched; when every page was fetched. */
  ghost predicate Seen(scopes: seq<set<Id>>, x: Id) { exists k :: 0 <= k < |scopes| && x in scopes[k] }
  ghost predicate Throughout(scopes: seq<set<Id>>, x: Id) { forall k :: 0 <= k < |scopes| ==> x in scopes[k] }

  /**
   * Whatever is inserted and deleted between pages: ids come strictly falling, so
   * none twice; each was in the table when some page was fetched; and a finished
   * walk has every row that was there throughout.
   */
  lemma {:induction false} WalkIs(scopes: seq<set<Id>>, cursor: Option<Id>, limit: nat)
    requires limit >= 1
    ensures WalkOk(scopes, cursor, Walk(scopes, cursor, limit).0, Walk(scopes, cursor, limit).1)
    decreases |scopes|
  {
    if scopes != [] {
      hide ListScope, WalkOk, PageOk;
      PageIs(scopes[0], cursor, limit);
      var page := ListScope(scopes[0], cursor, limit);
      if page.nextCursor.Some? {
        var more := Walk(scopes[1..], page.nextCursor, limit);
        WalkIs(scopes[1..], page.nextCursor, limit);
        Extends(scopes, cursor, limit, page, more.0, more.1);
      } else {
        LastPage(scopes, cursor, limit, page);
      }
    } else {
      assert WalkOk([], cursor, [], false);
    }
  }

  lemma LastPage(scopes: seq<set<Id>>, cursor: Option<Id>, limit: nat, page: Page)
    requires scopes != [] && PageOk(scopes[0], cursor, limit, page) && page.nextCursor.None?
    ensures WalkOk(scopes, cursor, page.data, true)
  {
    forall x | x in page.data ensures Seen(scopes, x) { assert x in scopes[0]; }
    forall x: Id | Throughout(scopes, x) ensures x in scopes[0] {}
  }

  lemma Extends(scopes: seq<set<Id>>, cursor: Option<Id>, limit: nat, page: Page, more: seq<Id>, finished: bool)
    requires scopes != [] && PageOk(scopes[0], cursor, limit, page) && page.nextCursor.Some?
    requires WalkOk(scopes[1..], page.nextCursor, more, finished)
    ensures WalkOk(scopes, cursor, page.data + more, finished)
  {
    var last := page.nextCursor.value;
    var ids := page.data + more;
    assert last in page.data;
    forall x | x in more ensures x < last { assert Past(x, page.nextCursor); }
    forall i, j | 0 <= i < j < |ids| ensures ids[i] > ids[j] {
      if i < |page.data| <= j {
        assert more[j - |page.data|] in more;
        assert page.data[i] >= last;
      }
    }
    forall x: Id | x in ids ensures Past(x, cursor) && Seen(scopes, x) {
      if x in page.data {
        assert x in scopes[0];
      } else {
        assert x in more;
        var k :| 0 <= k < |scopes[1..]| && x in scopes[1..][k];
        assert x in scopes[k + 1];
      }
    }
    forall x: Id | finished && Past(x, cursor) && Throughout(scopes, x) ensures x in ids {
      assert x in scopes[0];
      if x < last {
        forall k | 0 <= k < |scopes[1..]| ensures x in scopes[1..][k] { assert scopes[1..][k] == scopes[k + 1]; }
        assert Throughout(scopes[1..], x);
      }
    }
  }

  /** New rows get ids above every cursor in use: what is left to walk never grows. */
  ghost predicate NeverRefilled(scopes: seq<set<Id>>, cursor: Option<Id>) {
    forall k, x :: 0 <= k < |scopes| - 1 && x in scopes[k + 1] && Past(x, cursor) ==> x in scopes[k]
  }

  /** Then a walk finishes, after at most one page more than there were rows to walk. */
  lemma {:induction false} WalkFinishes(scopes: seq<set<Id>>, cursor: Option<Id>, limit: nat)
    requires limit >= 1 && NeverRefilled(scopes, cursor)
    requires scopes != [] && |scopes| > |Below(scopes[0], cursor)|
    ensures Walk(scopes, cursor, limit).1
    decreases |scopes|
  {
    hide ListScope;
    PageIs(scopes[0], cursor, limit);
    var page := ListScope(scopes[0], cursor, limit);
    if page.nextCursor.Some? {
      var last := page.nextCursor.value;
      assert last in page.data && last in Below(scopes[0], cursor);
      Shrinks(Below(scopes[0], cursor), {}, last);
      var rest := scopes[1..];
      assert forall x :: x in rest[0] && Past(x, cursor) ==> x in scopes[0];
      Shrinks(Below(scopes[0], cursor), Below(rest[0], page.nextCursor), last);
      forall k, x | 0 <= k < |rest| - 1 && x in rest[k + 1] && Past(x, page.nextCursor) ensures x in rest[k] {
        assert x in scopes[k + 1 + 1] && Past(x, cursor);
        assert rest[k] == scopes[k + 1];
      }
      WalkFinishes(rest, page.nextCursor, limit);
    }
  }

  lemma Shrinks(whole: set<Id>, part: set<Id>, out: Id)
    requires part <= whole && out in whole && out !in part
    ensures |part| < |whole|
  {
    assert part <= whole - {out};
    if |part| > 0 || part == {} { SubsetIsSmaller(part, whole - {out}); }
  }

  lemma {:induction false} SubsetIsSmaller(a: set<Id>, b: set<Id>)
    requires a <= b
    ensures |a| <= |b|
    decreases |a|
  {
    if a != {} {
      var x :| x in a;
      SubsetIsSmaller(a - {x}, b - {x});
    }
  }

  function Repeated(scope: set<Id>, k: nat): seq<set<Id>> { seq(k, _ => scope) }

  /** On a table that does not change, the walk finishes and returns the whole scope, once, newest first. */
  lemma FixedWalk(scope: set<Id>, limit: nat)
    requires limit >= 1
    ensures Walk(Repeated(scope, |scope| + 1), None, limit) == (Descending(scope), true)
  {
    hide Walk, Descending;
    var scopes := Repeated(scope, |scope| + 1);
    assert Below(scope, None) == scope;
    WalkFinishes(scopes, None, limit);
    WalkIs(scopes, None, limit);
    DescendingIs(scope);
    assert scopes[0] == scope;
    var ids := Walk(scopes, None, limit).0;
    forall x: Id ensures x in ids <==> x in Descending(scope) {
      assert x in ids ==> Seen(scopes, x);
      assert x in scope ==> Throughout(scopes, x);
    }
    FallingIsUnique(ids, Descending(scope));
  }

  /* -------------------------------------- the code -------------------------------------- */

  class Repository {
    var rows: map<Id, Row>

    constructor ()
      ensures rows == map[]
    {
      rows := map[];
    }

    /** The query fetches in falling order, here one greatest id after the other. */
    method ListInOrg(organization: Id, cursor: Option<Id>, limit: nat) returns (page: Page)
      requires limit >= 1
      ensures page == ListScope(Scope(rows, organization), cursor, limit)
    {
      hide Below, Scope;
      var left := Below(Scope(rows, organization), cursor);
      ghost var all := Descending(left);
      var fetched := [];
      while left != {} && |fetched| < limit + 1
        invariant |fetched| <= limit + 1 && fetched + Descending(left) == all
      {
        HasGreatest(left);
        var m :| m in left && forall x :: x in left ==> x <= m;
        assert m == Greatest(left);
        fetched := fetched + [m];
        left := left - {m};
      }
      assert fetched == if |all| <= limit + 1 then all else all[..limit + 1];
      page := BuildPage(fetched, limit);
    }

    method CreateInOrg(organization: Id, id: Id)
      requires id !in rows
      modifies this
      ensures forall o :: Scope(rows, o) == Scope(old(rows), o) + if o == organization then {id} else {}
    {
      rows := rows[id := Row(organization, false)];
    }

    /** A row outside the scope, or already deleted, is not found. */
    method SoftDeleteByIdInOrg(organization: Id, id: Id) returns (found: bool)
      modifies this
      ensures found <==> id in Scope(old(rows), organization)
      ensures forall o :: Scope(rows, o) == Scope(old(rows), o) - if o == organization then {id} else {}
    {
      found := id in rows && rows[id].organization == organization && !rows[id].deleted;
      if found { rows := rows[id := rows[id].(deleted := true)]; }
    }
  }
}
