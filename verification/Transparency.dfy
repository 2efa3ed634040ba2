/**
 How far the cached service can be told from the service without a cache.

 One proof covers two strengths of agreement between cache and table. Exact agreement is what HTTP
 requests alone keep up. Agreement in identity only, where status, size and update time of a cached
 row may lag, survives the gRPC writes too, which do not invalidate.
 */
module Transparency {
  import opened Wrappers
  import opened Backups
  import opened SourcePaths
  import opened Listing
  import opened Cache
  import opened Handlers

  // ----- agreement

  predicate SameIdentity(a: Row, b: Row) {
    && a.id == b.id && a.tenant == b.tenant && a.sourcePath == b.sourcePath
    && a.encrypted == b.encrypted && a.createdAt == b.createdAt
  }

  predicate RowAgrees(exact: bool, cached: Row, row: Row) {
    SameIdentity(cached, row) && (exact ==> cached == row)
  }

  predicate RowsAgree(exact: bool, cached: seq<Row>, rows: seq<Row>) {
    |cached| == |rows| && forall i :: 0 <= i < |rows| ==> RowAgrees(exact, cached[i], rows[i])
  }

  /** A client can send a request that the list cache answers. */
  predicate ListCacheUsable(s: ServiceState) {
    1 <= s.listLimit <= 100 && s.listOffset >= 0
  }

  predicate ListAgrees(exact: bool, s: ServiceState, tenant: Uuid, list: CachedList)
    requires ListCacheUsable(s)
  {
    && list.total == Total(s.rows, tenant, None)
    && RowsAgree(exact, list.items, SelectPage(s.rows, tenant, None, s.listLimit, s.listOffset))
  }

  /** At time `now`, every entry that a request could be answered from agrees with the table. */
  ghost predicate Agrees(exact: bool, s: ServiceState, now: Time) {
    s.cache.connected ==>
      && (forall id :: Live(s.cache.backups, id, now) ==>
            id in s.rows && RowAgrees(exact, s.cache.backups[id].value, s.rows[id]))
      && (ListCacheUsable(s) ==>
            forall tenant :: Live(s.cache.lists, tenant, now) ==>
              ListAgrees(exact, s, tenant, s.cache.lists[tenant].value))
  }

  /** Entries only expire as time goes by. */
  lemma AgreesLater(exact: bool, s: ServiceState, now: Time, later: Time)
    requires Agrees(exact, s, now) && now <= later
    ensures Agrees(exact, s, later)
  {
  }

  /** The same response, up to what may lag. */
  predicate ResponseAgrees(exact: bool, r: Response, direct: Response) {
    match (r, direct)
    case (Found(a), Found(b)) => RowAgrees(exact, a, b)
    case (Listed(items, total, offset, limit), Listed(items', total', offset', limit')) =>
      RowsAgree(exact, items, items') && total == total' && offset == offset' && limit == limit'
    case _ => r == direct
  }

  lemma ExactResponse(r: Response, direct: Response)
    ensures ResponseAgrees(true, r, direct) <==> r == direct
  {
  }

  /** The invalidations a request sends reach Redis. */
  predicate Effective(call: Call) {
    call.env.delBackupWorks && call.env.delListWorks
  }

  // ----- one request

  /** A page depends only on the rows it selects from. */
  lemma SamePage(rows: Table, rows': Table, tenant: Uuid, limit: nat, offset: nat)
    requires forall id :: (id in rows && rows[id].tenant == tenant) || (id in rows' && rows'[id].tenant == tenant) ==>
      id in rows && id in rows' && rows[id] == rows'[id]
    ensures SelectPage(rows', tenant, None, limit, offset) == SelectPage(rows, tenant, None, limit, offset)
    ensures Total(rows', tenant, None) == Total(rows, tenant, None)
  {
    assert Matching(rows', tenant, None) == Matching(rows, tenant, None);
    InOrderAgrees(rows, rows', Matching(rows, tenant, None));
  }

  /** The rest of the table after a request: only the caller's own row changes, and only by a write. */
  lemma OthersUntouched(rows: Table, call: Call)
    ensures var rows' := Direct(rows, call).0;
      forall id :: (id in rows && rows[id].tenant != call.tenant)
                   || (id in rows' && rows'[id].tenant != call.tenant) ==>
        id in rows && id in rows' && rows[id] == rows'[id]
  {
  }

  /** An entry found after a request was there before, and its row untouched; or it is the row. */
  lemma BackupEntryAfter(s: ServiceState, call: Call, id: Uuid)
    requires Effective(call) && s.cache.connected && id in Serve(s, call).0.cache.backups
    ensures var s' := Serve(s, call).0;
      || (id in s.cache.backups && s'.cache.backups[id] == s.cache.backups[id]
          && (id in s.rows ==> id in s'.rows && s'.rows[id] == s.rows[id]))
      || (id in s'.rows && s'.cache.backups[id].value == s'.rows[id])
  {
  }

  lemma {:induction false} ServeKeepsBackups(exact: bool, s: ServiceState, call: Call)
    requires Agrees(exact, s, call.env.now) && Effective(call) && s.cache.connected
    ensures var s' := Serve(s, call).0;
      forall id :: Live(s'.cache.backups, id, call.env.now) ==>
        id in s'.rows && RowAgrees(exact, s'.cache.backups[id].value, s'.rows[id])
  {
    forall id | id in Serve(s, call).0.cache.backups {
      BackupEntryAfter(s, call, id);
    }
  }

  /** A list entry found after a request was there before, and its tenant's rows untouched; or it is new. */
  lemma ListEntryAfter(s: ServiceState, call: Call, tenant: Uuid)
    requires Effective(call) && s.cache.connected && ListCacheUsable(s) && tenant in Serve(s, call).0.cache.lists
    ensures var s' := Serve(s, call).0;
      || (tenant in s.cache.lists && s'.cache.lists[tenant] == s.cache.lists[tenant]
          && (tenant == call.tenant ==> s'.rows == s.rows))
      || (s'.rows == s.rows && s'.cache.lists[tenant].value
            == CachedList(SelectPage(s.rows, tenant, None, s.listLimit, s.listOffset), Total(s.rows, tenant, None)))
  {
  }

  lemma RowsAgreeWithThemselves(exact: bool, rows: seq<Row>)
    ensures RowsAgree(exact, rows, rows)
  {
  }

  lemma {:induction false} ServeKeepsLists(exact: bool, s: ServiceState, call: Call)
    requires Agrees(exact, s, call.env.now) && Effective(call) && s.cache.connected && ListCacheUsable(s)
    ensures var s' := Serve(s, call).0;
      && ListCacheUsable(s')
      && forall tenant :: Live(s'.cache.lists, tenant, call.env.now) ==>
           ListAgrees(exact, s', tenant, s'.cache.lists[tenant].value)
  {
    ServeKeepsSettings(s, call);
    forall tenant | Live(Serve(s, call).0.cache.lists, tenant, call.env.now)
      ensures ListAgrees(exact, Serve(s, call).0, tenant, Serve(s, call).0.cache.lists[tenant].value)
    {
      ListEntryAfter(s, call, tenant);
      if tenant != call.tenant {
        OthersUntouched(s.rows, call);
        SamePage(s.rows, Direct(s.rows, call).0, tenant, s.listLimit, s.listOffset);
      }
      RowsAgreeWithThemselves(exact, SelectPage(s.rows, tenant, None, s.listLimit, s.listOffset));
    }
  }

  lemma ServeKeepsSettings(s: ServiceState, call: Call)
    ensures var s' := Serve(s, call).0;
      && s'.cache.connected == s.cache.connected && s'.ttl == s.ttl
      && s'.listLimit == s.listLimit && s'.listOffset == s.listOffset
      && s'.rows == Direct(s.rows, call).0
  {
    match call.request
    case Create(_, _) =>
    case Get(_) =>
    case List(_, _, _) =>
    case Update(_, _, _) =>
    case Remove(_) =>
  }

  /** One request keeps the agreement and is answered as without a cache, up to it. */
  lemma {:induction false} ServeAgrees(exact: bool, s: ServiceState, call: Call)
    requires Agrees(exact, s, call.env.now) && Effective(call)
    ensures Agrees(exact, Serve(s, call).0, call.env.now)
    ensures ResponseAgrees(exact, Serve(s, call).1, Direct(s.rows, call).1)
  {
    ServeKeepsSettings(s, call);
    if s.cache.connected {
      ServeKeepsBackups(exact, s, call);
      if ListCacheUsable(s) {
        ServeKeepsLists(exact, s, call);
      }
    }
    ResponseFromCache(exact, s, call);
  }

  lemma ResponseFromCache(exact: bool, s: ServiceState, call: Call)
    requires Agrees(exact, s, call.env.now)
    ensures ResponseAgrees(exact, Serve(s, call).1, Direct(s.rows, call).1)
  {
    match call.request
    case List(status, limit, offset) =>
      if UsesListCache(s, status, limit, offset) {
        assert ListCacheUsable(s);
      }
    case _ =>
  }

  // ----- runs of HTTP requests

  function Responses(s: ServiceState, calls: seq<Call>): seq<Response>
    decreases |calls|
  {
    if calls == [] then []
    else
      var (s', r) := Serve(s, calls[0]);
      [r] + Responses(s', calls[1..])
  }

  function DirectResponses(rows: Table, calls: seq<Call>): seq<Response>
    decreases |calls|
  {
    if calls == [] then []
    else
      var (rows', r) := Direct(rows, calls[0]);
      [r] + DirectResponses(rows', calls[1..])
  }

  ghost predicate AllEffective(calls: seq<Call>) {
    forall i :: 0 <= i < |calls| ==> Effective(calls[i])
  }

  /** The requests come one after the other, none before `now`. */
  ghost predicate Timely(now: Time, calls: seq<Call>)
    decreases |calls|
  {
    calls != [] ==> now <= calls[0].env.now && Timely(calls[0].env.now, calls[1..])
  }

  /** From `now` on no client can see the cache: every run is answered as the table alone would answer it. */
  ghost predicate Invisible(s: ServiceState, now: Time) {
    forall calls :: Timely(now, calls) && AllEffective(calls) ==> Responses(s, calls) == DirectResponses(s.rows, calls)
  }

  lemma {:induction false} AgreeingRunIsInvisible(s: ServiceState, now: Time, calls: seq<Call>)
    requires Agrees(true, s, now) && Timely(now, calls) && AllEffective(calls)
    ensures Responses(s, calls) == DirectResponses(s.rows, calls)
    decreases |calls|
  {
    if calls != [] {
      var call := calls[0];
      AgreesLater(true, s, now, call.env.now);
      ServeAgrees(true, s, call);
      ExactResponse(Serve(s, call).1, Direct(s.rows, call).1);
      ServeKeepsSettings(s, call);
      AgreeingRunIsInvisible(Serve(s, call).0, call.env.now, calls[1..]);
    }
  }

  /** A request, sent right now, that shows up a single entry. */
  function Probe(tenant: Uuid, request: Request, now: Time): Call {
    Call(tenant, request, Env(now, 0, true, true, true, true))
  }

  lemma ProbeTells(s: ServiceState, call: Call)
    requires Effective(call) && Serve(s, call).1 != Direct(s.rows, call).1
    ensures !Invisible(s, call.env.now)
  {
    assert [call][1..] == [];
    assert Responses(s, [call]) == [Serve(s, call).1] + [];
    assert DirectResponses(s.rows, [call]) == [Direct(s.rows, call).1] + [];
    assert Timely(call.env.now, [call]) && AllEffective([call]);
    assert Responses(s, [call])[0] != DirectResponses(s.rows, [call])[0];
  }

  lemma WrongBackupShows(s: ServiceState, id: Uuid, now: Time)
    requires s.cache.connected && Live(s.cache.backups, id, now)
    requires !(id in s.rows && s.cache.backups[id].value == s.rows[id])
    ensures !Invisible(s, now)
  {
    var call := Probe(s.cache.backups[id].value.tenant, Get(id), now);
    assert Serve(s, call).1 == Found(s.cache.backups[id].value);
    ProbeTells(s, call);
  }

  lemma WrongListShows(s: ServiceState, tenant: Uuid, now: Time)
    requires s.cache.connected && ListCacheUsable(s) && Live(s.cache.lists, tenant, now)
    requires !ListAgrees(true, s, tenant, s.cache.lists[tenant].value)
    ensures !Invisible(s, now)
  {
    var list := s.cache.lists[tenant].value;
    var call := Probe(tenant, List(None, s.listLimit, s.listOffset), now);
    assert Serve(s, call).1 == Listed(list.items, list.total, s.listOffset, s.listLimit);
    ProbeTells(s, call);
  }

  /**
   Main result. As long as invalidations reach Redis, the cache is invisible from `now` on in every run,
   whatever entries expire along the way, exactly if every entry alive now agrees with the table.
   */
  lemma {:induction false} InvisibleIffAgrees(s: ServiceState, now: Time)
    ensures Invisible(s, now) <==> Agrees(true, s, now)
  {
    if Agrees(true, s, now) {
      forall calls | Timely(now, calls) && AllEffective(calls)
        ensures Responses(s, calls) == DirectResponses(s.rows, calls)
      {
        AgreeingRunIsInvisible(s, now, calls);
      }
    } else if id :| Live(s.cache.backups, id, now) && !(id in s.rows && s.cache.backups[id].value == s.rows[id]) {
      WrongBackupShows(s, id, now);
    } else {
      var tenant :| Live(s.cache.lists, tenant, now) && !ListAgrees(true, s, tenant, s.cache.lists[tenant].value);
      WrongListShows(s, tenant, now);
    }
  }

  // ----- runs with gRPC writes in between

  datatype Event =
    | Http(call: Call)
    | RpcStatus(id: Uuid, status: Status, now: Time)
    | RpcResult(id: Uuid, size: int, now: Time)

  function TableAfter(rows: Table, e: Event): Table {
    match e
    case Http(call) => Direct(rows, call).0
    case RpcStatus(id, status, now) => WithStatus(rows, id, status, now)
    case RpcResult(id, size, now) => WithResult(rows, id, size, now)
  }

  function StateAfter(s: ServiceState, e: Event): ServiceState {
    match e
    case Http(call) => Serve(s, call).0
    case _ => s.(rows := TableAfter(s.rows, e))
  }

  /** When the event happens. */
  function TimeOf(e: Event): Time {
    if e.Http? then e.call.env.now else e.now
  }

  ghost predicate TimelyEvents(now: Time, events: seq<Event>)
    decreases |events|
  {
    events != [] ==> now <= TimeOf(events[0]) && TimelyEvents(TimeOf(events[0]), events[1..])
  }

  ghost predicate EffectiveEvents(events: seq<Event>) {
    forall i :: 0 <= i < |events| && events[i].Http? ==> Effective(events[i].call)
  }

  /** All responses of the run agree with those that the table alone would give. */
  ghost predicate RunAgrees(exact: bool, s: ServiceState, rows: Table, events: seq<Event>)
    decreases |events|
  {
    events == [] ||
    (&& (events[0].Http? ==> ResponseAgrees(exact, Serve(s, events[0].call).1, Direct(rows, events[0].call).1))
     && RunAgrees(exact, StateAfter(s, events[0]), TableAfter(rows, events[0]), events[1..]))
  }

  /** Rewriting a row leaves every unfiltered page with the same ids, order and total. */
  lemma RewrittenPage(rows: Table, row: Row, tenant: Uuid, limit: nat, offset: nat)
    requires row.id in rows && SameIdentity(row, rows[row.id])
    ensures var rows' := rows[row.id := row];
      && PageIds(rows', tenant, None, limit, offset) == PageIds(rows, tenant, None, limit, offset)
      && Total(rows', tenant, None) == Total(rows, tenant, None)
  {
    var rows' := rows[row.id := row];
    assert Matching(rows', tenant, None) == Matching(rows, tenant, None);
    InOrderAgrees(rows, rows', Matching(rows, tenant, None));
  }

  /** A write to one row, keeping its identity, without invalidation: what the gRPC methods do. */
  function Rewritten(s: ServiceState, row: Row): ServiceState {
    s.(rows := s.rows[row.id := row])
  }

  /** Agreement in identity survives such a write, so only status, size and update time can lag. */
  lemma {:induction false} RewriteKeepsIdentity(s: ServiceState, row: Row, now: Time)
    requires Agrees(false, s, now) && row.id in s.rows && SameIdentity(row, s.rows[row.id])
    ensures Agrees(false, Rewritten(s, row), now)
  {
    var s' := Rewritten(s, row);
    if s.cache.connected && ListCacheUsable(s) {
      forall tenant | Live(s'.cache.lists, tenant, now)
        ensures ListAgrees(false, s', tenant, s'.cache.lists[tenant].value)
      {
        RewrittenPage(s.rows, row, tenant, s.listLimit, s.listOffset);
        assert ListAgrees(false, s, tenant, s.cache.lists[tenant].value);
      }
    }
  }

  lemma {:induction false} RpcKeepsIdentity(s: ServiceState, e: Event, now: Time)
    requires Agrees(false, s, now) && !e.Http?
    ensures Agrees(false, StateAfter(s, e), now)
  {
    var rows' := TableAfter(s.rows, e);
    if e.id in s.rows {
      RewriteKeepsIdentity(s, rows'[e.id], now);
      assert StateAfter(s, e) == Rewritten(s, rows'[e.id]);
    }
  }

  /**
   Main result. In every run of requests and gRPC writes, every response has the right ids, order, total
   and identity of rows; only status, size and update time of a row may lag behind the table.
   */
  lemma {:induction false} OnlyProgressLags(s: ServiceState, now: Time, events: seq<Event>)
    requires Agrees(false, s, now) && TimelyEvents(now, events) && EffectiveEvents(events)
    ensures RunAgrees(false, s, s.rows, events)
    decreases |events|
  {
    if events != [] {
      var e := events[0];
      AgreesLater(false, s, now, TimeOf(e));
      if e.Http? {
        ServeAgrees(false, s, e.call);
        ServeKeepsSettings(s, e.call);
      } else {
        RpcKeepsIdentity(s, e, TimeOf(e));
      }
      OnlyProgressLags(StateAfter(s, e), TimeOf(e), events[1..]);
    }
  }
}
