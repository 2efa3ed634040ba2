/**
 What each request is answered and does to the table, spelt out field by field and byte by byte, with
 the cache in between.
 */
module Answers {
  import opened Wrappers
  import opened Backups
  import opened SourcePaths
  import opened Listing
  import opened RemoteConfig
  import opened Cache
  import opened Handlers
  import opened Transparency

  // ----- creating

  /** Absolute, and nowhere two dots in a row: `/` is byte 47, `.` byte 46. */
  ghost predicate GoodPath(path: seq<byte>) {
    && path != [] && path[0] == 47
    && forall i :: 0 <= i < |path| - 1 ==> !(path[i] == 46 && path[i + 1] == 46)
  }

  /** Created exactly if the path is good and the id new; otherwise nothing changes, and the answer says why. */
  lemma CreateAnswer(s: ServiceState, call: Call)
    requires call.request.Create?
    ensures var Create(path, encrypted) := call.request;
      var (s', r) := Serve(s, call);
      var id, now := call.env.freshId, call.env.now;
      if GoodPath(path) && id !in s.rows then
        && r == Created(Row(id, call.tenant, path, 0, Pending, encrypted, now, now))
        && s'.rows == s.rows[id := r.row]
      else
        && s' == s
        && (r == Invalid(EmptyPath) <==> path == [])
        && (r == Invalid(RelativePath) <==> path != [] && path[0] != 47)
        && (r == Invalid(Traversal) <==> path != [] && path[0] == 47 && !GoodPath(path))
        && (r == DatabaseError <==> GoodPath(path))
  {
  }

  // ----- reading

  /** The caller's own row and no other; `NotFound` otherwise. */
  lemma GetAnswer(s: ServiceState, call: Call)
    requires call.request.Get? && Agrees(true, s, call.env.now)
    ensures var id := call.request.id;
      var (s', r) := Serve(s, call);
      && s'.rows == s.rows
      && r == if id in s.rows && s.rows[id].tenant == call.tenant then Found(s.rows[id]) else NotFound(id)
  {
    ResponseFromCache(true, s, call);
    ServeKeepsSettings(s, call);
  }

  // ----- listing

  /** No filter lets every status through; a filter, the one that it names. */
  predicate Passes(status: Status, filter: Option<string>) {
    || filter.None?
    || (filter.value == "pending" && status.Pending?) || (filter.value == "running" && status.Running?)
    || (filter.value == "completed" && status.Completed?) || (filter.value == "failed" && status.Failed?)
  }

  /** The ids of all the tenant's rows that pass the filter, each once, newest first. */
  ghost predicate NewestFirst(rows: Table, tenant: Uuid, filter: Option<string>, order: seq<Uuid>) {
    && (forall id :: id in order <==> id in rows && rows[id].tenant == tenant && Passes(rows[id].status, filter))
    && (forall i, j :: 0 <= i < j < |order| ==>
          && order[i] != order[j]
          && rows[order[i]].createdAt >= rows[order[j]].createdAt
          && (rows[order[i]].createdAt == rows[order[j]].createdAt ==> order[i] <= order[j]))
  }

  /** The list holds just these ids, and is in order. */
  ghost predicate Orders(rows: Table, ids: set<Uuid>, s: seq<Uuid>) {
    ids <= rows.Keys && (forall id :: id in s <==> id in ids) && Sorted(rows, s)
  }

  lemma HeadIsFirst(rows: Table, ids: set<Uuid>, s: seq<Uuid>)
    requires s != [] && Orders(rows, ids, s)
    ensures ids <= rows.Keys && s[0] in ids && First(rows, ids) == s[0]
  {
    forall id | id in ids
      ensures Before(rows[s[0]], rows[id])
    {
      var i :| 0 <= i < |s| && s[i] == id;
    }
    assert IsFirst(rows, ids, s[0]) && s[0] in ids;
    var first := First(rows, ids);
    assert Before(rows[first], rows[s[0]]) && Before(rows[s[0]], rows[first]);
  }

  lemma TailIsRest(rows: Table, ids: set<Uuid>, s: seq<Uuid>)
    requires s != [] && Orders(rows, ids, s)
    ensures Orders(rows, ids - {s[0]}, s[1..])
  {
    forall id | id in ids - {s[0]}
      ensures id in s[1..]
    {
      var i :| 0 <= i < |s| && s[i] == id;
      assert s[1..][i - 1] == id;
    }
  }

  lemma InOrderStep(rows: Table, ids: set<Uuid>, first: Uuid)
    requires ids <= rows.Keys && ids != {} && First(rows, ids) == first
    ensures InOrder(rows, ids) == [first] + InOrder(rows, ids - {first})
  {
  }

  lemma NothingInOrder(rows: Table, ids: set<Uuid>)
    requires ids <= rows.Keys && forall id :: id !in ids
    ensures InOrder(rows, ids) == []
  {
    assert ids == {};
  }

  /** Only one list is in order. */
  lemma {:induction false} SortedIsInOrder(rows: Table, ids: set<Uuid>, s: seq<Uuid>)
    requires Orders(rows, ids, s)
    ensures ids <= rows.Keys && InOrder(rows, ids) == s
    decreases |s|
  {
    if s == [] {
      NothingInOrder(rows, ids);
    } else {
      assert s == [s[0]] + s[1..];
      HeadIsFirst(rows, ids, s);
      TailIsRest(rows, ids, s);
      InOrderStep(rows, ids, s[0]);
      SortedIsInOrder(rows, ids - {s[0]}, s[1..]);
    }
  }

  lemma {:induction false} OrderIsInOrder(rows: Table, tenant: Uuid, filter: Option<string>, order: seq<Uuid>)
    requires NewestFirst(rows, tenant, filter, order)
    ensures order == InOrder(rows, Matching(rows, tenant, filter))
    ensures |order| == Total(rows, tenant, filter)
  {
    var ids := Matching(rows, tenant, filter);
    forall id | id in rows
      ensures id in ids <==> id in order
    {
      FilterByName(rows[id].status, filter);
    }
    InOrderIsSorted(rows, ids);
    SortedIsInOrder(rows, ids, order);
  }

  lemma FilterByName(status: Status, filter: Option<string>)
    ensures Passes(status, filter) <==> (filter.Some? ==> status.Text() == filter.value)
  {
    if filter.Some? {
      var parsed := ParseStatus(filter.value);
      DistinctTexts();
    }
  }

  lemma PageAt<T>(s: seq<T>, limit: nat, offset: nat)
    ensures var p := Page(s, limit, offset);
      && |p| == (if |s| <= offset then 0 else if |s| - offset < limit then |s| - offset else limit)
      && forall i :: 0 <= i < |p| ==> p[i] == s[offset + i]
  {
  }

  /** Such a list exists for every tenant and filter, so the next lemma always applies. */
  lemma SomeOrder(rows: Table, tenant: Uuid, filter: Option<string>) returns (order: seq<Uuid>)
    ensures NewestFirst(rows, tenant, filter, order)
  {
    order := InOrder(rows, Matching(rows, tenant, filter));
    InOrderIsSorted(rows, Matching(rows, tenant, filter));
    forall id | id in rows
      ensures id in order <==> rows[id].tenant == tenant && Passes(rows[id].status, filter)
    {
      FilterByName(rows[id].status, filter);
    }
  }

  /** The answer that a tenant with this list is to get. */
  ghost predicate ListsSo(r: Response, rows: Table, order: seq<Uuid>, limit: int, offset: int)
    requires forall id :: id in order ==> id in rows
  {
    && r.Listed?
    && r.limit == (if limit < 1 then 1 else if limit > 100 then 100 else limit)
    && r.offset == (if offset < 0 then 0 else offset)
    && r.total == |order|
    && |r.items| == (if r.total <= r.offset then 0
                     else if r.total - r.offset < r.limit then r.total - r.offset
                     else r.limit)
    && forall i :: 0 <= i < |r.items| ==> r.items[i] == rows[order[r.offset + i]]
  }

  lemma {:induction false} PageItems(
    rows: Table, tenant: Uuid, filter: Option<string>, order: seq<Uuid>, limit: nat, offset: nat)
    requires NewestFirst(rows, tenant, filter, order)
    ensures var items := SelectPage(rows, tenant, filter, limit, offset);
      && |items| == (if |order| <= offset then 0 else if |order| - offset < limit then |order| - offset else limit)
      && forall i :: 0 <= i < |items| ==> items[i] == rows[order[offset + i]]
    ensures Total(rows, tenant, filter) == |order|
  {
    OrderIsInOrder(rows, tenant, filter, order);
    PageAt(order, limit, offset);
    assert PageIds(rows, tenant, filter, limit, offset) == Page(order, limit, offset);
  }

  lemma ItemsListSo(rows: Table, order: seq<Uuid>, items: seq<Row>, limit: int, offset: int)
    requires forall id :: id in order ==> id in rows
    requires var l, o := ClampLimit(limit), ClampOffset(offset);
      && |items| == (if |order| <= o then 0 else if |order| - o < l then |order| - o else l)
      && forall i :: 0 <= i < |items| ==> items[i] == rows[order[o + i]]
    ensures ListsSo(Listed(items, |order|, ClampOffset(offset), ClampLimit(limit)), rows, order, limit, offset)
  {
  }

  lemma {:induction false} PageListsSo(
    rows: Table, tenant: Uuid, filter: Option<string>, order: seq<Uuid>, limit: int, offset: int)
    requires NewestFirst(rows, tenant, filter, order)
    ensures forall id :: id in order ==> id in rows
    ensures var l, o := ClampLimit(limit), ClampOffset(offset);
      ListsSo(Listed(SelectPage(rows, tenant, filter, l, o), Total(rows, tenant, filter), o, l),
              rows, order, limit, offset)
  {
    PageItems(rows, tenant, filter, order, ClampLimit(limit), ClampOffset(offset));
    ItemsListSo(rows, order, SelectPage(rows, tenant, filter, ClampLimit(limit), ClampOffset(offset)), limit, offset);
  }

  /** The request without a cache. */
  lemma DirectList(rows: Table, call: Call)
    requires call.request.List?
    ensures var List(filter, limit, offset) := call.request;
      var l, o := ClampLimit(limit), ClampOffset(offset);
      Direct(rows, call)
        == (rows, Listed(SelectPage(rows, call.tenant, filter, l, o), Total(rows, call.tenant, filter), o, l))
  {
  }

  /**
   The limit is brought into 1 to 100 and the offset to 0 or more, changed no more than needed. Then item
   i is the (offset + i)-th of the tenant's rows that pass the filter, newest first, up to the limit, and
   the total is the number of them all.
   */
  lemma {:induction false} ListAnswer(s: ServiceState, call: Call, order: seq<Uuid>)
    requires call.request.List? && Agrees(true, s, call.env.now)
    requires NewestFirst(s.rows, call.tenant, call.request.status, order)
    ensures var (s', r) := Serve(s, call);
      s'.rows == s.rows && ListsSo(r, s.rows, order, call.request.limit, call.request.offset)
  {
    ResponseFromCache(true, s, call);
    ExactResponse(Serve(s, call).1, Direct(s.rows, call).1);
    ServeKeepsSettings(s, call);
    DirectList(s.rows, call);
    PageListsSo(s.rows, call.tenant, call.request.status, order, call.request.limit, call.request.offset);
  }

  /** Whatever the cache holds, the limit and offset in the answer are those. */
  lemma ListIsClamped(s: ServiceState, call: Call)
    requires call.request.List?
    ensures var List(_, limit, offset) := call.request;
      var r := Serve(s, call).1;
      && r.Listed?
      && 1 <= r.limit <= 100 && (1 <= limit <= 100 ==> r.limit == limit)
      && (limit < 1 ==> r.limit == 1) && (limit > 100 ==> r.limit == 100)
      && 0 <= r.offset && (0 <= offset ==> r.offset == offset) && (offset < 0 ==> r.offset == 0)
  {
  }

  // ----- changing and deleting

  /** Just the fields given change, and the update time; only on the caller's own row. */
  lemma UpdateAnswer(s: ServiceState, call: Call)
    requires call.request.Update?
    ensures var Update(id, status, size) := call.request;
      var (s', r) := Serve(s, call);
      if id in s.rows && s.rows[id].tenant == call.tenant then
        var row := s.rows[id];
        && r == Updated(Row(
             id, call.tenant, row.sourcePath,
             match size { case Some(n) => n case None => row.sizeBytes },
             match status { case Some(t) => t case None => row.status },
             row.encrypted, row.createdAt, call.env.now))
        && s'.rows == s.rows[id := r.row]
      else r == NotFound(id) && s' == s
  {
  }

  /** Only the caller's own row can be deleted, and no other row goes with it. */
  lemma RemoveAnswer(s: ServiceState, call: Call)
    requires call.request.Remove?
    ensures var id := call.request.id;
      var (s', r) := Serve(s, call);
      if id in s.rows && s.rows[id].tenant == call.tenant then
        && r == NoContent && id !in s'.rows
        && forall other :: other != id ==>
             (other in s'.rows <==> other in s.rows) && (other in s.rows ==> s'.rows[other] == s.rows[other])
      else r == NotFound(id) && s' == s
  {
  }

  // ----- what is stored

  /**
   A read that is not answered from the cache stores the row it found, for `ttl` seconds of a million
   ticks each; nothing else is stored or lost.
   */
  lemma MissFills(s: ServiceState, call: Call)
    requires call.request.Get?
    ensures var id, now := call.request.id, call.env.now;
      var hit := s.cache.connected && call.env.getWorks && id in s.cache.backups
        && now < s.cache.backups[id].expires && s.cache.backups[id].value.tenant == call.tenant;
      var found := id in s.rows && s.rows[id].tenant == call.tenant;
      Serve(s, call).0 ==
        if !hit && found && s.cache.connected && call.env.setWorks && s.ttl > 0 then
          s.(cache := s.cache.(backups := s.cache.backups[id := Entry(s.rows[id], now + s.ttl * 1_000_000)]))
        else s
  {
  }

  /** So does a list read, for the one page configured, and only without a filter. */
  lemma ListMissFills(s: ServiceState, call: Call)
    requires call.request.List?
    ensures var t, now := call.tenant, call.env.now;
      var (s', r) := Serve(s, call);
      var hit := s.cache.connected && call.env.getWorks && t in s.cache.lists && now < s.cache.lists[t].expires;
      && r.Listed?
      && s' ==
        if !hit && call.request.status == None && r.limit == s.listLimit && r.offset == s.listOffset
           && s.cache.connected && call.env.setWorks && s.ttl > 0
        then
          s.(cache := s.cache.(lists := s.cache.lists[t :=
            Entry(CachedList(r.items, r.total), now + s.ttl * 1_000_000)]))
        else s
  {
  }

  /** A write that changes the table deletes the entries it must, as far as Redis is reached, and no other. */
  lemma WriteDrops(s: ServiceState, call: Call)
    requires Direct(s.rows, call).0 != s.rows
    ensures var cache := Serve(s, call).0.cache;
      && cache.connected == s.cache.connected
      && (call.request.Create? || call.request.Update? || call.request.Remove?)
      && (forall id :: id in cache.backups <==>
            id in s.cache.backups
            && !(!call.request.Create? && id == call.request.id && call.env.delBackupWorks && s.cache.connected))
      && (forall id :: id in cache.backups ==> cache.backups[id] == s.cache.backups[id])
      && (forall t :: t in cache.lists <==>
            t in s.cache.lists && !(t == call.tenant && call.env.delListWorks && s.cache.connected))
      && (forall t :: t in cache.lists ==> cache.lists[t] == s.cache.lists[t])
  {
    WriteDropsEntries(s, call);
  }

  lemma WriteDropsEntries(s: ServiceState, call: Call)
    requires Direct(s.rows, call).0 != s.rows
    ensures call.request.Create? || call.request.Update? || call.request.Remove?
    ensures var cache, connected := Serve(s, call).0.cache, s.cache.connected;
      cache == Contents(
        connected,
        if call.request.Create? then s.cache.backups
        else Drop(s.cache.backups, call.request.id, call.env.delBackupWorks && connected),
        Drop(s.cache.lists, call.tenant, call.env.delListWorks && connected))
  {
  }
}
