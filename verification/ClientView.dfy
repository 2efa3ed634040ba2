/**
 What clients may rely on whatever the state of the cache: a tenant is shown its own rows only, and the
 life of a backup reads as if there were no cache.
 */
module ClientView {
  import opened Wrappers
  import opened Backups
  import opened SourcePaths
  import opened Listing
  import opened Cache
  import opened Handlers
  import opened Transparency

  // ----- tenants

  /** The rows a response lets the client see. */
  function RowsShown(r: Response): seq<Row> {
    match r
    case Created(row) => [row]
    case Found(row) => [row]
    case Updated(row) => [row]
    case Listed(items, _, _, _) => items
    case _ => []
  }

  ghost predicate AllOf(tenant: Uuid, rows: seq<Row>) {
    forall row :: row in rows ==> row.tenant == tenant
  }

  /** Cached lists hold only rows of the tenant they are stored under. */
  ghost predicate ListsOwn(s: ServiceState) {
    forall tenant :: tenant in s.cache.lists ==> AllOf(tenant, s.cache.lists[tenant].value.items)
  }

  lemma PageOwn(rows: Table, tenant: Uuid, status: Option<string>, limit: nat, offset: nat)
    ensures AllOf(tenant, SelectPage(rows, tenant, status, limit, offset))
  {
    var ids, items := PageIds(rows, tenant, status, limit, offset), SelectPage(rows, tenant, status, limit, offset);
    forall row | row in items
      ensures row.tenant == tenant
    {
      var i :| 0 <= i < |items| && items[i] == row;
      assert ids[i] in Matching(rows, tenant, status);
    }
  }

  /** A response shows a tenant only its own rows, however stale the cache, and the cache keeps it so. */
  lemma {:induction false} ServeShowsOwn(s: ServiceState, call: Call)
    requires ListsOwn(s)
    ensures AllOf(call.tenant, RowsShown(Serve(s, call).1))
    ensures ListsOwn(Serve(s, call).0)
  {
    if call.request.List? {
      ServeListShowsOwn(s, call);
    } else {
      ListsOnlyDropped(s, call);
    }
  }

  lemma ServeListShowsOwn(s: ServiceState, call: Call)
    requires ListsOwn(s) && call.request.List?
    ensures AllOf(call.tenant, RowsShown(Serve(s, call).1))
    ensures ListsOwn(Serve(s, call).0)
  {
    var List(status, limit, offset) := call.request;
    PageOwn(s.rows, call.tenant, status, ClampLimit(limit), ClampOffset(offset));
  }

  lemma ListsOnlyDropped(s: ServiceState, call: Call)
    requires !call.request.List?
    ensures forall tenant :: tenant in Serve(s, call).0.cache.lists ==>
      tenant in s.cache.lists && Serve(s, call).0.cache.lists[tenant] == s.cache.lists[tenant]
  {
  }

  /** No response of the run shows a tenant a row of another. */
  ghost predicate RunShowsOwn(s: ServiceState, events: seq<Event>)
    decreases |events|
  {
    events == [] ||
    (&& (events[0].Http? ==> AllOf(events[0].call.tenant, RowsShown(Serve(s, events[0].call).1)))
     && RunShowsOwn(StateAfter(s, events[0]), events[1..]))
  }

  /**
   Main result. In every run of requests and gRPC writes, with any failures of Redis, lost invalidations
   included, no tenant is shown a row of another.
   */
  lemma {:induction false} TenantsAreIsolated(s: ServiceState, events: seq<Event>)
    requires ListsOwn(s)
    ensures RunShowsOwn(s, events)
    decreases |events|
  {
    if events != [] {
      if events[0].Http? {
        ServeShowsOwn(s, events[0].call);
      }
      TenantsAreIsolated(StateAfter(s, events[0]), events[1..]);
    }
  }

  // ----- one backup's life

  lemma DirectFirst(rows: Table, call: Call, rows': Table, r: Response, calls: seq<Call>)
    requires Direct(rows, call) == (rows', r)
    ensures DirectResponses(rows, [call] + calls) == [r] + DirectResponses(rows', calls)
  {
    assert ([call] + calls)[1..] == calls;
  }

  /** Created, and read back: the row with the defaults of the table. */
  lemma DirectBirth(
    rows: Table, tenant: Uuid, path: seq<byte>, encrypted: bool, env: Env, env': Env, calls: seq<Call>)
    requires ValidateSourcePath(path).Ok? && env.freshId !in rows
    ensures var row := NewRow(env.freshId, tenant, path, encrypted, env.now);
      DirectResponses(rows, [Call(tenant, Create(path, encrypted), env)]
                            + ([Call(tenant, Get(env.freshId), env')] + calls))
        == [Created(row)] + ([Found(row)] + DirectResponses(rows[row.id := row], calls))
  {
    var row := NewRow(env.freshId, tenant, path, encrypted, env.now);
    var rows' := rows[row.id := row];
    DirectFirst(rows', Call(tenant, Get(row.id), env'), rows', Found(row), calls);
    DirectFirst(rows, Call(tenant, Create(path, encrypted), env), rows', Created(row),
                [Call(tenant, Get(row.id), env')] + calls);
  }

  /** Patched, and read back: just the patched fields and the update time have changed. */
  lemma DirectChange(
    rows: Table, row: Row, status: Option<Status>, size: Option<int>, env: Env, env': Env, calls: seq<Call>)
    requires row.id in rows && rows[row.id] == row
    ensures var row' := Patched(row, status, size, env.now);
      DirectResponses(rows, [Call(row.tenant, Update(row.id, status, size), env)]
                            + ([Call(row.tenant, Get(row.id), env')] + calls))
        == [Updated(row')] + ([Found(row')] + DirectResponses(rows[row.id := row'], calls))
  {
    var row' := Patched(row, status, size, env.now);
    var rows' := rows[row.id := row'];
    DirectFirst(rows', Call(row.tenant, Get(row.id), env'), rows', Found(row'), calls);
    DirectFirst(rows, Call(row.tenant, Update(row.id, status, size), env), rows', Updated(row'),
                [Call(row.tenant, Get(row.id), env')] + calls);
  }

  /** Deleted, and looked for in vain. */
  lemma DirectEnd(rows: Table, row: Row, env: Env, env': Env)
    requires row.id in rows && rows[row.id] == row
    ensures DirectResponses(rows, [Call(row.tenant, Remove(row.id), env)]
                                  + ([Call(row.tenant, Get(row.id), env')] + []))
         == [NoContent] + ([NotFound(row.id)] + [])
  {
    var rows' := rows - {row.id};
    DirectFirst(rows', Call(row.tenant, Get(row.id), env'), rows', NotFound(row.id), []);
    DirectFirst(rows, Call(row.tenant, Remove(row.id), env), rows', NoContent,
                [Call(row.tenant, Get(row.id), env')] + []);
  }

  /** The life of one backup: created, read, patched, read, deleted, and looked for. */
  function LifeOf(tenant: Uuid, create: Request, update: Request, id: Uuid, envs: seq<Env>): seq<Call>
    requires |envs| == 6
  {
    [Call(tenant, create, envs[0])] + ([Call(tenant, Get(id), envs[1])]
      + ([Call(tenant, update, envs[2])] + ([Call(tenant, Get(id), envs[3])]
      + ([Call(tenant, Remove(id), envs[4])] + ([Call(tenant, Get(id), envs[5])] + [])))))
  }

  lemma {:induction false} DirectLife(
    rows: Table, tenant: Uuid, path: seq<byte>, encrypted: bool,
    status: Option<Status>, size: Option<int>, envs: seq<Env>)
    requires |envs| == 6 && ValidateSourcePath(path).Ok? && envs[0].freshId !in rows
    ensures var row := NewRow(envs[0].freshId, tenant, path, encrypted, envs[0].now);
      var row' := Patched(row, status, size, envs[2].now);
      DirectResponses(rows, LifeOf(tenant, Create(path, encrypted), Update(row.id, status, size), row.id, envs))
        == [Created(row)] + ([Found(row)] + ([Updated(row')] + ([Found(row')]
             + ([NoContent] + ([NotFound(row.id)] + [])))))
  {
    var row := NewRow(envs[0].freshId, tenant, path, encrypted, envs[0].now);
    var row' := Patched(row, status, size, envs[2].now);
    var later := [Call(tenant, Remove(row.id), envs[4])] + ([Call(tenant, Get(row.id), envs[5])] + []);
    DirectEnd(rows[row.id := row][row.id := row'], row', envs[4], envs[5]);
    DirectChange(rows[row.id := row], row, status, size, envs[2], envs[3], later);
    DirectBirth(rows, tenant, path, encrypted, envs[0], envs[1],
                [Call(tenant, Update(row.id, status, size), envs[2])] + ([Call(tenant, Get(row.id), envs[3])] + later));
  }

  /**
   What a client sees of it, cache or no cache: the row with the defaults, the same row again, the row
   with just the patched fields changed, that one again, and then nothing.
   */
  lemma {:induction false} Lifecycle(
    s: ServiceState, tenant: Uuid, path: seq<byte>, encrypted: bool,
    status: Option<Status>, size: Option<int>, now: Time, envs: seq<Env>)
    requires Agrees(true, s, now) && |envs| == 6
    requires now <= envs[0].now && forall i :: 0 <= i < 5 ==> envs[i].now <= envs[i + 1].now
    requires ValidateSourcePath(path).Ok? && envs[0].freshId !in s.rows
    requires forall i :: 0 <= i < |envs| ==> envs[i].delBackupWorks && envs[i].delListWorks
    ensures var row := NewRow(envs[0].freshId, tenant, path, encrypted, envs[0].now);
      var row' := Patched(row, status, size, envs[2].now);
      Responses(s, LifeOf(tenant, Create(path, encrypted), Update(row.id, status, size), row.id, envs))
        == [Created(row)] + ([Found(row)] + ([Updated(row')] + ([Found(row')]
             + ([NoContent] + ([NotFound(row.id)] + [])))))
  {
    DirectLife(s.rows, tenant, path, encrypted, status, size, envs);
    var id := envs[0].freshId;
    var calls := LifeOf(tenant, Create(path, encrypted), Update(id, status, size), id, envs);
    AllLifeEffective(calls, envs);
    LifeIsTimely(tenant, Create(path, encrypted), Update(id, status, size), id, now, envs);
    AgreeingRunIsInvisible(s, now, calls);
  }

  lemma AllLifeEffective(calls: seq<Call>, envs: seq<Env>)
    requires |calls| == |envs| && forall i :: 0 <= i < |calls| ==> calls[i].env == envs[i]
    requires forall i :: 0 <= i < |envs| ==> envs[i].delBackupWorks && envs[i].delListWorks
    ensures AllEffective(calls)
  {
  }

  lemma TimelyFirst(now: Time, call: Call, calls: seq<Call>)
    ensures Timely(now, [call] + calls) <==> now <= call.env.now && Timely(call.env.now, calls)
  {
    assert ([call] + calls)[1..] == calls;
  }

  lemma LifeIsTimely(tenant: Uuid, create: Request, update: Request, id: Uuid, now: Time, envs: seq<Env>)
    requires |envs| == 6
    requires now <= envs[0].now && forall i :: 0 <= i < 5 ==> envs[i].now <= envs[i + 1].now
    ensures Timely(now, LifeOf(tenant, create, update, id, envs))
  {
    TimelyFirst(envs[4].now, Call(tenant, Get(id), envs[5]), []);
    var calls := [Call(tenant, Get(id), envs[5])] + [];
    TimelyFirst(envs[3].now, Call(tenant, Remove(id), envs[4]), calls);
    calls := [Call(tenant, Remove(id), envs[4])] + calls;
    TimelyFirst(envs[2].now, Call(tenant, Get(id), envs[3]), calls);
    calls := [Call(tenant, Get(id), envs[3])] + calls;
    TimelyFirst(envs[1].now, Call(tenant, update, envs[2]), calls);
    calls := [Call(tenant, update, envs[2])] + calls;
    TimelyFirst(envs[0].now, Call(tenant, Get(id), envs[1]), calls);
    calls := [Call(tenant, Get(id), envs[1])] + calls;
    TimelyFirst(now, Call(tenant, create, envs[0]), calls);
  }
}
