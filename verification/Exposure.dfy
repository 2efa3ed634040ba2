/**
 When clients can see the cache after all: exactly which lost invalidations, which gRPC writes and
 which changes of the list settings show in some later run.
 */
module Exposure {
  import opened Wrappers
  import opened Backups
  import opened SourcePaths
  import opened Listing
  import opened RemoteConfig
  import opened Cache
  import opened Handlers
  import opened Transparency

  // ----- entries one by one

  ghost predicate BackupsAgree(s: ServiceState, now: Time) {
    forall id :: Live(s.cache.backups, id, now) ==> id in s.rows && s.cache.backups[id].value == s.rows[id]
  }

  /** The list entry for the page that the settings ask for. */
  function ListOf(rows: Table, tenant: Uuid, limit: nat, offset: nat): CachedList {
    CachedList(SelectPage(rows, tenant, None, limit, offset), Total(rows, tenant, None))
  }

  ghost predicate ListsAgree(s: ServiceState, now: Time)
    requires ListCacheUsable(s)
  {
    forall tenant :: Live(s.cache.lists, tenant, now) ==>
      s.cache.lists[tenant].value == ListOf(s.rows, tenant, s.listLimit, s.listOffset)
  }

  lemma AgreesInParts(s: ServiceState, now: Time)
    ensures Agrees(true, s, now)
       <==> (s.cache.connected ==> BackupsAgree(s, now) && (ListCacheUsable(s) ==> ListsAgree(s, now)))
  {
    if ListCacheUsable(s) {
      forall tenant | tenant in s.cache.lists
        ensures var list := s.cache.lists[tenant].value;
          ListAgrees(true, s, tenant, list) <==> list == ListOf(s.rows, tenant, s.listLimit, s.listOffset)
      {
        ExactRows(s.cache.lists[tenant].value.items, SelectPage(s.rows, tenant, None, s.listLimit, s.listOffset));
      }
    }
  }

  lemma ExactRows(cached: seq<Row>, rows: seq<Row>)
    ensures RowsAgree(true, cached, rows) <==> cached == rows
  {
  }

  // ----- lost invalidations

  /** A client can be answered from the tenant's list entry. */
  predicate ListShown(s: ServiceState, tenant: Uuid, now: Time) {
    ListCacheUsable(s) && Live(s.cache.lists, tenant, now)
  }

  /**
   An entry outlives the change of the row it shows: the backup's own entry, unless the row is new, or
   the tenant's list, which shows the total and so misses no creation or deletion, but shows a patch
   only of the rows on its page.
   */
  predicate Overlooked(s: ServiceState, call: Call) {
    && s.cache.connected && Direct(s.rows, call).0 != s.rows
    && match call.request
       case Create(_, _) =>
         !call.env.delListWorks && ListShown(s, call.tenant, call.env.now)
       case Update(id, _, _) =>
         || (!call.env.delBackupWorks && Live(s.cache.backups, id, call.env.now))
         || (!call.env.delListWorks && ListShown(s, call.tenant, call.env.now)
             && id in PageIds(s.rows, call.tenant, None, s.listLimit, s.listOffset))
       case Remove(id) =>
         || (!call.env.delBackupWorks && Live(s.cache.backups, id, call.env.now))
         || (!call.env.delListWorks && ListShown(s, call.tenant, call.env.now))
       case _ => false
  }

  predicate IsWrite(request: Request) {
    request.Create? || request.Update? || request.Remove?
  }

  /** A write that changes the table stores nothing, and drops what its invalidations reach. */
  lemma CacheAfterWrite(s: ServiceState, call: Call)
    requires s.cache.connected && Direct(s.rows, call).0 != s.rows
    ensures IsWrite(call.request)
    ensures var s' := Serve(s, call).0;
      && s' == s.(rows := Direct(s.rows, call).0, cache := s'.cache)
      && s'.cache.connected
      && s'.cache.lists == Drop(s.cache.lists, call.tenant, call.env.delListWorks)
      && s'.cache.backups == (if call.request.Create? then s.cache.backups
                              else Drop(s.cache.backups, call.request.id, call.env.delBackupWorks))
  {
    match call.request
    case Create(_, _) =>
    case Get(_) =>
    case List(_, _, _) =>
    case Update(_, _, _) =>
    case Remove(_) =>
  }

  /** Tables that agree on all other ids are equal if they agree on this one. */
  lemma OneRowDecides(rows: Table, rows': Table, id: Uuid)
    requires forall other :: other != id ==>
      (other in rows' <==> other in rows) && (other in rows ==> rows'[other] == rows[other])
    ensures id in rows && id in rows' && rows'[id] == rows[id] ==> rows' == rows
  {
  }

  lemma OtherRowsStay(rows: Table, call: Call, id: Uuid)
    requires IsWrite(call.request) && id == if call.request.Create? then call.env.freshId else call.request.id
    ensures var rows' := Direct(rows, call).0;
      && (forall other :: other != id ==>
            (other in rows' <==> other in rows) && (other in rows ==> rows'[other] == rows[other]))
      && (call.request.Create? && rows' != rows ==> id !in rows)
  {
  }

  lemma {:induction false} BackupsAfterWrite(s: ServiceState, call: Call)
    requires s.cache.connected && BackupsAgree(s, call.env.now) && Direct(s.rows, call).0 != s.rows
    ensures BackupsAgree(Serve(s, call).0, call.env.now)
       <==> call.request.Create? || call.env.delBackupWorks || !Live(s.cache.backups, call.request.id, call.env.now)
  {
    CacheAfterWrite(s, call);
    var id := if call.request.Create? then call.env.freshId else call.request.id;
    OtherRowsStay(s.rows, call, id);
    OneRowDecides(s.rows, Serve(s, call).0.rows, id);
    BackupsAfterChange(s, Serve(s, call).0, id, call.env.now);
  }

  lemma BackupsAfterChange(s: ServiceState, s': ServiceState, id: Uuid, now: Time)
    requires BackupsAgree(s, now)
    requires s'.cache.backups == s.cache.backups || s'.cache.backups == s.cache.backups - {id}
    requires forall other :: other != id ==>
      (other in s'.rows <==> other in s.rows) && (other in s.rows ==> s'.rows[other] == s.rows[other])
    requires !(id in s.rows && id in s'.rows && s'.rows[id] == s.rows[id])
    ensures BackupsAgree(s', now) <==> !Live(s'.cache.backups, id, now)
  {
    forall other | other != id && Live(s'.cache.backups, other, now)
      ensures other in s'.rows && s'.cache.backups[other].value == s'.rows[other]
    {
      assert Live(s.cache.backups, other, now);
    }
    assert Live(s'.cache.backups, id, now) ==> Live(s.cache.backups, id, now);
  }

  lemma AddedTotal(rows: Table, row: Row)
    requires row.id !in rows
    ensures Total(rows[row.id := row], row.tenant, None) == Total(rows, row.tenant, None) + 1
  {
    assert Matching(rows[row.id := row], row.tenant, None) == Matching(rows, row.tenant, None) + {row.id};
  }

  lemma RemovedTotal(rows: Table, id: Uuid)
    requires id in rows
    ensures Total(rows, rows[id].tenant, None) == Total(rows - {id}, rows[id].tenant, None) + 1
  {
    assert Matching(rows, rows[id].tenant, None) == Matching(rows - {id}, rows[id].tenant, None) + {id};
  }

  /** A creation or deletion changes the tenant's total; a patch, the pages with its row. */
  lemma {:induction false} OwnListAfterWrite(rows: Table, call: Call, limit: nat, offset: nat)
    requires Direct(rows, call).0 != rows
    ensures ListOf(Direct(rows, call).0, call.tenant, limit, offset) == ListOf(rows, call.tenant, limit, offset)
       <==> call.request.Update? && call.request.id !in PageIds(rows, call.tenant, None, limit, offset)
  {
    match call.request
    case Create(path, encrypted) =>
      AddedTotal(rows, NewRow(call.env.freshId, call.tenant, path, encrypted, call.env.now));
    case Update(id, status, size) =>
      PatchedItems(rows, Patched(rows[id], status, size, call.env.now), call.tenant, limit, offset);
    case Remove(id) =>
      RemovedTotal(rows, id);
    case _ =>
  }

  lemma PatchedItems(rows: Table, row: Row, tenant: Uuid, limit: nat, offset: nat)
    requires row.id in rows && SameIdentity(row, rows[row.id]) && row != rows[row.id]
    ensures ListOf(rows[row.id := row], tenant, limit, offset) == ListOf(rows, tenant, limit, offset)
       <==> row.id !in PageIds(rows, tenant, None, limit, offset)
  {
    var rows', ids := rows[row.id := row], PageIds(rows, tenant, None, limit, offset);
    RewrittenPage(rows, row, tenant, limit, offset);
    var items, items' := SelectPage(rows, tenant, None, limit, offset), SelectPage(rows', tenant, None, limit, offset);
    if row.id in ids {
      var i :| 0 <= i < |ids| && ids[i] == row.id;
      assert items'[i] != items[i];
    } else {
      assert items' == items;
    }
  }

  lemma {:induction false} ListsAfterWrite(s: ServiceState, call: Call)
    requires s.cache.connected && ListCacheUsable(s) && ListsAgree(s, call.env.now)
    requires Direct(s.rows, call).0 != s.rows
    ensures ListCacheUsable(Serve(s, call).0)
    ensures ListsAgree(Serve(s, call).0, call.env.now)
       <==> || call.env.delListWorks || !Live(s.cache.lists, call.tenant, call.env.now)
            || (call.request.Update?
                && call.request.id !in PageIds(s.rows, call.tenant, None, s.listLimit, s.listOffset))
  {
    CacheAfterWrite(s, call);
    OwnListAfterWrite(s.rows, call, s.listLimit, s.listOffset);
    var s', now := Serve(s, call).0, call.env.now;
    forall tenant | tenant != call.tenant && Live(s'.cache.lists, tenant, now)
      ensures s'.cache.lists[tenant].value == ListOf(s'.rows, tenant, s.listLimit, s.listOffset)
    {
      assert Live(s.cache.lists, tenant, now);
      OthersUntouched(s.rows, call);
      SamePage(s.rows, s'.rows, tenant, s.listLimit, s.listOffset);
    }
    assert Live(s'.cache.lists, call.tenant, now)
      <==> !call.env.delListWorks && Live(s.cache.lists, call.tenant, now);
  }

  /** A request that leaves the table as it is cannot hurt, whether its invalidations get through or not. */
  lemma {:induction false} IdleRequestKeeps(s: ServiceState, call: Call)
    requires Agrees(true, s, call.env.now) && Direct(s.rows, call).0 == s.rows
    ensures Agrees(true, Serve(s, call).0, call.env.now)
  {
    var env := call.env.(delBackupWorks := true, delListWorks := true);
    if call.request.Get? || call.request.List? {
      ServeAgrees(true, s, call.(env := env));
      assert Serve(s, call.(env := env)).0 == Serve(s, call).0;
    } else {
      IdleWrite(s, call);
    }
  }

  /** Losing entries does not hurt. */
  lemma FewerEntries(s: ServiceState, s': ServiceState, now: Time)
    requires Agrees(true, s, now) && s' == s.(cache := s'.cache) && s'.cache.connected == s.cache.connected
    requires forall id :: id in s'.cache.backups ==>
      id in s.cache.backups && s'.cache.backups[id] == s.cache.backups[id]
    requires forall tenant :: tenant in s'.cache.lists ==>
      tenant in s.cache.lists && s'.cache.lists[tenant] == s.cache.lists[tenant]
    ensures Agrees(true, s', now)
  {
    AgreesInParts(s, now);
    AgreesInParts(s', now);
  }

  lemma IdleWrite(s: ServiceState, call: Call)
    requires Agrees(true, s, call.env.now) && Direct(s.rows, call).0 == s.rows && IsWrite(call.request)
    ensures Agrees(true, Serve(s, call).0, call.env.now)
  {
    IdleWriteOnlyDrops(s, call);
    FewerEntries(s, Serve(s, call).0, call.env.now);
  }

  lemma IdleWriteOnlyDrops(s: ServiceState, call: Call)
    requires Direct(s.rows, call).0 == s.rows && IsWrite(call.request)
    ensures var s' := Serve(s, call).0;
      && s' == s.(cache := s'.cache) && s'.cache.connected == s.cache.connected
      && (forall id :: id in s'.cache.backups ==>
            id in s.cache.backups && s'.cache.backups[id] == s.cache.backups[id])
      && (forall tenant :: tenant in s'.cache.lists ==>
            tenant in s.cache.lists && s'.cache.lists[tenant] == s.cache.lists[tenant])
  {
  }

  /**
   Main result. A request whose invalidations may or may not reach Redis makes the cache visible in some
   later run exactly if an entry outlives the change it should have followed.
   */
  lemma {:induction false} LostInvalidationIsSeenIffOverlooked(s: ServiceState, call: Call)
    requires Agrees(true, s, call.env.now)
    ensures Invisible(Serve(s, call).0, call.env.now) <==> !Overlooked(s, call)
  {
    InvisibleIffAgrees(Serve(s, call).0, call.env.now);
    if Direct(s.rows, call).0 == s.rows {
      IdleRequestKeeps(s, call);
    } else {
      ServeKeepsSettings(s, call);
      AgreesInParts(s, call.env.now);
      AgreesInParts(Serve(s, call).0, call.env.now);
      if s.cache.connected {
        CacheAfterWrite(s, call);
        BackupsAfterWrite(s, call);
        if ListCacheUsable(s) {
          ListsAfterWrite(s, call);
        }
      }
    }
  }

  // ----- gRPC writes

  /** An entry that a client can be answered from shows the row. */
  predicate Shown(s: ServiceState, id: Uuid, now: Time) {
    && s.cache.connected && id in s.rows
    && (|| Live(s.cache.backups, id, now)
        || (ListShown(s, s.rows[id].tenant, now)
            && id in PageIds(s.rows, s.rows[id].tenant, None, s.listLimit, s.listOffset)))
  }

  /** The PATCH that has the effect of a gRPC write, had its invalidations been lost. */
  function AsLostPatch(s: ServiceState, e: Event): Call
    requires !e.Http? && e.id in s.rows
  {
    var request := match e
      case RpcStatus(id, status, _) => Update(id, Some(status), None)
      case RpcResult(id, size, _) => Update(id, Some(Completed), Some(size));
    Call(s.rows[e.id].tenant, request, Env(e.now, 0, true, true, false, false))
  }

  /** A gRPC write makes the cache visible exactly when it changes a row that some entry shows. */
  lemma {:induction false} RpcIsSeenIffShown(s: ServiceState, e: Event)
    requires !e.Http? && Agrees(true, s, e.now)
    ensures Invisible(StateAfter(s, e), e.now) <==> TableAfter(s.rows, e) == s.rows || !Shown(s, e.id, e.now)
  {
    if e.id in s.rows {
      var call := AsLostPatch(s, e);
      assert Serve(s, call).0 == StateAfter(s, e);
      LostInvalidationIsSeenIffOverlooked(s, call);
    } else {
      assert StateAfter(s, e) == s;
      InvisibleIffAgrees(s, e.now);
    }
  }

  // ----- new list settings

  /** The list settings and the lifetime of entries after an update of the configuration. */
  function Reconfigured(s: ServiceState, ttl: nat, limit: int, offset: int): ServiceState {
    s.(ttl := ttl, listLimit := limit, listOffset := offset)
  }

  /** Of a list of `n`, both pages hold the same part: neither any, or both the same stretch. */
  predicate SameStretch(n: nat, limit: nat, offset: nat, limit': nat, offset': nat) {
    || (n <= offset && n <= offset')
    || (offset == offset' && (limit == limit' || (n <= offset + limit && n <= offset + limit')))
  }

  lemma PagesEqualIff<T>(s: seq<T>, limit: nat, offset: nat, limit': nat, offset': nat)
    requires forall i, j :: 0 <= i < j < |s| ==> s[i] != s[j]
    requires limit > 0 && limit' > 0
    ensures Page(s, limit, offset) == Page(s, limit', offset') <==> SameStretch(|s|, limit, offset, limit', offset')
  {
    var p, p' := Page(s, limit, offset), Page(s, limit', offset');
    assert offset < |s| ==> p[0] == s[offset];
    assert offset' < |s| ==> p'[0] == s[offset'];
    if p == p' && offset < |s| {
      assert |p| > 0;
      assert offset' < |s| && s[offset] == s[offset'];
      assert offset == offset';
    }
  }

  lemma {:induction false} ListsEqualIff(
    rows: Table, tenant: Uuid, limit: nat, offset: nat, limit': nat, offset': nat)
    requires limit > 0 && limit' > 0
    ensures ListOf(rows, tenant, limit, offset) == ListOf(rows, tenant, limit', offset')
       <==> SameStretch(Total(rows, tenant, None), limit, offset, limit', offset')
  {
    var ids, ids' := PageIds(rows, tenant, None, limit, offset), PageIds(rows, tenant, None, limit', offset');
    InOrderIsSorted(rows, Matching(rows, tenant, None));
    PagesEqualIff(InOrder(rows, Matching(rows, tenant, None)), limit, offset, limit', offset');
    ItemsEqualIff(rows, ids, ids');
  }

  lemma ItemsEqualIff(rows: Table, ids: seq<Uuid>, ids': seq<Uuid>)
    requires (forall id :: id in ids ==> id in rows) && (forall id :: id in ids' ==> id in rows)
    ensures RowsOf(rows, ids) == RowsOf(rows, ids') <==> ids == ids'
  {
    var items, items' := RowsOf(rows, ids), RowsOf(rows, ids');
    if items == items' {
      forall i | 0 <= i < |ids|
        ensures ids[i] == ids'[i]
      {
        assert items[i].id == ids[i] && items'[i].id == ids'[i];
      }
    }
  }

  /**
   Main result. An update of the configuration makes the cache visible exactly if the new settings let a
   client ask for the list page, and some stored list is not the page they ask for.
   */
  lemma {:induction false} ReconfigurationIsSeenIff(s: ServiceState, now: Time, ttl: nat, limit: int, offset: int)
    requires Agrees(true, s, now) && ListCacheUsable(s)
    ensures Invisible(Reconfigured(s, ttl, limit, offset), now)
       <==> (s.cache.connected && 1 <= limit <= 100 && offset >= 0 ==>
               forall tenant :: Live(s.cache.lists, tenant, now) ==>
                 SameStretch(Total(s.rows, tenant, None), s.listLimit, s.listOffset, limit, offset))
  {
    var s' := Reconfigured(s, ttl, limit, offset);
    InvisibleIffAgrees(s', now);
    AgreesInParts(s, now);
    AgreesInParts(s', now);
    if ListCacheUsable(s') {
      forall tenant
        ensures ListOf(s.rows, tenant, s.listLimit, s.listOffset) == ListOf(s.rows, tenant, limit, offset)
           <==> SameStretch(Total(s.rows, tenant, None), s.listLimit, s.listOffset, limit, offset)
      {
        ListsEqualIff(s.rows, tenant, s.listLimit, s.listOffset, limit, offset);
      }
    }
  }

  /**
   A run that gets there: a client lists its backups, the configured limit is raised, and while the list
   stored under the old limit is alive it still answers, cut short. The key names only the tenant.
   */
  lemma {:induction false} ListKeyOmitsLimit(s: ServiceState, tenant: Uuid, call: Call, limit: int, later: Call)
    requires s.cache.connected && s.ttl > 0 && !Live(s.cache.lists, tenant, call.env.now)
    requires ListCacheUsable(s) && s.listOffset == 0 && s.listLimit < limit <= 100
    requires Total(s.rows, tenant, None) > s.listLimit
    requires call.tenant == tenant && call.request == List(None, s.listLimit, 0) && call.env.setWorks
    requires later.tenant == tenant && later.request == List(None, limit, 0) && later.env.getWorks
    requires call.env.now <= later.env.now < call.env.now + s.ttl * TICKS_PER_SEC
    ensures var s' := Reconfigured(Serve(s, call).0, s.ttl, limit, 0);
      && Serve(s', later).1.Listed? && |Serve(s', later).1.items| == s.listLimit
      && Serve(s', later).1 != Direct(s'.rows, later).1
  {
    FirstPageLength(s.rows, tenant, s.listLimit);
    FirstPageLength(s.rows, tenant, limit);
    StoredList(s, tenant, call);
  }

  lemma FirstPageLength(rows: Table, tenant: Uuid, limit: nat)
    ensures |SelectPage(rows, tenant, None, limit, 0)|
         == if limit <= Total(rows, tenant, None) then limit else Total(rows, tenant, None)
  {
    InOrderIsSorted(rows, Matching(rows, tenant, None));
  }

  lemma StoredList(s: ServiceState, tenant: Uuid, call: Call)
    requires s.cache.connected && s.ttl > 0 && !Live(s.cache.lists, tenant, call.env.now)
    requires ListCacheUsable(s) && s.listOffset == 0
    requires call.tenant == tenant && call.request == List(None, s.listLimit, 0) && call.env.setWorks
    ensures var s' := Serve(s, call).0;
      && s'.cache.connected && s'.rows == s.rows && s'.listOffset == 0 && tenant in s'.cache.lists
      && s'.cache.lists[tenant] == Entry(
           CachedList(SelectPage(s.rows, tenant, None, s.listLimit, 0), Total(s.rows, tenant, None)),
           call.env.now + s.ttl * TICKS_PER_SEC)
  {
  }
}
