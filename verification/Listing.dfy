/** Listing a tenant's backups: filter, order, page, count. */
module Listing {
  import opened Wrappers
  import opened Backups

  // ----- the order

  /** ORDER BY created_at DESC, with ties in a fixed order. */
  predicate Before(a: Row, b: Row) {
    a.createdAt > b.createdAt || (a.createdAt == b.createdAt && a.id <= b.id)
  }

  /** `first` comes before all of `ids`. */
  predicate IsFirst(rows: Table, ids: set<Uuid>, first: Uuid)
    requires ids <= rows.Keys
  {
    first in ids && forall id :: id in ids ==> Before(rows[first], rows[id])
  }

  lemma {:induction false} FirstExists(rows: Table, ids: set<Uuid>)
    requires ids <= rows.Keys && ids != {}
    ensures exists first :: IsFirst(rows, ids, first)
  {
    var id :| id in ids;
    if ids == {id} {
      assert IsFirst(rows, ids, id);
    } else {
      FirstExists(rows, ids - {id});
      var first :| IsFirst(rows, ids - {id}, first);
      assert IsFirst(rows, ids, if Before(rows[id], rows[first]) then id else first);
    }
  }

  function First(rows: Table, ids: set<Uuid>): (first: Uuid)
    requires ids <= rows.Keys && ids != {}
    ensures IsFirst(rows, ids, first)
  {
    FirstExists(rows, ids);
    var first :| IsFirst(rows, ids, first);
    first
  }

  /** The ids in list order. */
  function InOrder(rows: Table, ids: set<Uuid>): (s: seq<Uuid>)
    requires ids <= rows.Keys
    ensures forall id :: id in s <==> id in ids
    decreases |ids|
  {
    if ids == {} then []
    else
      var first := First(rows, ids);
      [first] + InOrder(rows, ids - {first})
  }

  /** Ids in list order, none repeated. */
  predicate Sorted(rows: Table, s: seq<Uuid>)
    requires forall id :: id in s ==> id in rows
  {
    forall i, j :: 0 <= i < j < |s| ==> s[i] != s[j] && Before(rows[s[i]], rows[s[j]])
  }

  lemma SortedCons(rows: Table, first: Uuid, rest: seq<Uuid>)
    requires first in rows && (forall id :: id in rest ==> id in rows) && Sorted(rows, rest)
    requires forall id :: id in rest ==> first != id && Before(rows[first], rows[id])
    ensures Sorted(rows, [first] + rest)
  {
    var s := [first] + rest;
    forall i, j | 0 <= i < j < |s|
      ensures s[i] != s[j] && Before(rows[s[i]], rows[s[j]])
    {
      assert s[j] == rest[j - 1] && s[j] in rest;
      assert i > 0 ==> s[i] == rest[i - 1];
    }
  }

  /** The list is sorted and repeats nothing; as long as the set it lists. */
  lemma {:induction false} InOrderIsSorted(rows: Table, ids: set<Uuid>)
    requires ids <= rows.Keys
    ensures |InOrder(rows, ids)| == |ids| && Sorted(rows, InOrder(rows, ids))
    decreases |ids|
  {
    if ids != {} {
      var first := First(rows, ids);
      InOrderIsSorted(rows, ids - {first});
      SortedCons(rows, first, InOrder(rows, ids - {first}));
    }
  }

  lemma FirstAgrees(rows: Table, rows': Table, ids: set<Uuid>)
    requires ids <= rows.Keys && ids <= rows'.Keys && ids != {}
    requires forall id :: id in ids ==> rows[id].createdAt == rows'[id].createdAt
    ensures First(rows, ids) == First(rows', ids)
  {
    var first, first' := First(rows, ids), First(rows', ids);
    assert Before(rows[first], rows[first']);
    assert Before(rows'[first'], rows'[first]);
  }

  /** The order depends on the creation times alone. */
  lemma {:induction false} InOrderAgrees(rows: Table, rows': Table, ids: set<Uuid>)
    requires ids <= rows.Keys && ids <= rows'.Keys
    requires forall id :: id in ids ==> rows[id].createdAt == rows'[id].createdAt
    ensures InOrder(rows, ids) == InOrder(rows', ids)
    decreases |ids|
  {
    if ids != {} {
      FirstAgrees(rows, rows', ids);
      InOrderAgrees(rows, rows', ids - {First(rows, ids)});
    }
  }

  // ----- the statements

  /** WHERE tenant_id = $1 [AND status = $2]; a text that is no status matches nothing. */
  function Matching(rows: Table, tenant: Uuid, status: Option<string>): set<Uuid> {
    set id | id in rows && rows[id].tenant == tenant && (status.Some? ==> rows[id].status.Text() == status.value)
  }

  /** SELECT COUNT(*) */
  function Total(rows: Table, tenant: Uuid, status: Option<string>): nat {
    |Matching(rows, tenant, status)|
  }

  /** LIMIT and OFFSET */
  function Page<T>(s: seq<T>, limit: nat, offset: nat): seq<T> {
    if offset >= |s| then []
    else if offset + limit <= |s| then s[offset..offset + limit]
    else s[offset..]
  }

  function RowsOf(rows: Table, ids: seq<Uuid>): (items: seq<Row>)
    requires forall id :: id in ids ==> id in rows
    ensures |items| == |ids|
    ensures forall i :: 0 <= i < |ids| ==> items[i] == rows[ids[i]]
  {
    seq(|ids|, i requires 0 <= i < |ids| => rows[ids[i]])
  }

  function PageIds(rows: Table, tenant: Uuid, status: Option<string>, limit: nat, offset: nat): (ids: seq<Uuid>)
    ensures forall id :: id in ids ==> id in Matching(rows, tenant, status)
  {
    Page(InOrder(rows, Matching(rows, tenant, status)), limit, offset)
  }

  /** One page of the tenant's backups, as the database returns it. */
  function SelectPage(rows: Table, tenant: Uuid, status: Option<string>, limit: nat, offset: nat): seq<Row> {
    RowsOf(rows, PageIds(rows, tenant, status, limit, offset))
  }

  /** What a client may ask for, brought into range. */
  function ClampLimit(limit: int): nat {
    if limit < 1 then 1 else if limit > 100 then 100 else limit
  }

  function ClampOffset(offset: int): nat {
    if offset < 0 then 0 else offset
  }

  // ----- paging loses and repeats nothing

  /** The first `k` pages, end to end. */
  function Pages<T>(s: seq<T>, limit: nat, k: nat): seq<T> {
    if k == 0 then [] else Pages(s, limit, k - 1) + Page(s, limit, (k - 1) * limit)
  }

  lemma {:induction false} PagesArePrefix<T>(s: seq<T>, limit: nat, k: nat)
    ensures Pages(s, limit, k) == if k * limit <= |s| then s[..k * limit] else s
  {
    if k > 0 {
      PagesArePrefix(s, limit, k - 1);
      var n: nat := (k - 1) * limit;
      assert k * limit == n + limit;
    }
  }

  /**
   Reading a tenant's list page by page until the pages run out yields each of the matching rows exactly
   once, newest first, and `total` is their number.
   */
  lemma PagingIsComplete(rows: Table, tenant: Uuid, status: Option<string>, limit: int, k: nat)
    requires k * ClampLimit(limit) >= Total(rows, tenant, status)
    ensures var ids := Pages(InOrder(rows, Matching(rows, tenant, status)), ClampLimit(limit), k);
      && |ids| == Total(rows, tenant, status)
      && (forall id :: id in ids <==> id in Matching(rows, tenant, status))
      && Sorted(rows, ids)
  {
    var ids := InOrder(rows, Matching(rows, tenant, status));
    InOrderIsSorted(rows, Matching(rows, tenant, status));
    PagesArePrefix(ids, ClampLimit(limit), k);
    assert Pages(ids, ClampLimit(limit), k) == ids;
  }

  /** The four per-status totals add up to the unfiltered one; any other filter finds nothing. */
  lemma TotalsAddUp(rows: Table, tenant: Uuid)
    ensures Total(rows, tenant, None)
         == Total(rows, tenant, Some("pending")) + Total(rows, tenant, Some("running"))
          + Total(rows, tenant, Some("completed")) + Total(rows, tenant, Some("failed"))
    ensures forall text :: ParseStatus(text).None? ==> Total(rows, tenant, Some(text)) == 0
  {
    var p, r := Matching(rows, tenant, Some("pending")), Matching(rows, tenant, Some("running"));
    var c, f := Matching(rows, tenant, Some("completed")), Matching(rows, tenant, Some("failed"));
    DistinctTexts();
    assert p !! r !! c !! f;
    forall id | id in Matching(rows, tenant, None)
      ensures id in p + r + c + f
    {
      var text := rows[id].status.Text();
    }
    assert Matching(rows, tenant, None) == p + r + c + f;
    forall text | ParseStatus(text).None?
      ensures Total(rows, tenant, Some(text)) == 0
    {
      assert Matching(rows, tenant, Some(text)) == {};
    }
  }

  lemma DistinctTexts()
    ensures forall s: Status, t: Status :: s.Text() == t.Text() ==> s == t
  {
    assert |Pending.Text()| == 7 && |Running.Text()| == 7 && |Completed.Text()| == 9 && |Failed.Text()| == 6;
    assert Pending.Text()[0] == 'p' && Running.Text()[0] == 'r';
  }
}
