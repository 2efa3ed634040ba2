/**
 The HTTP handlers for backups. `Serve` specifies them, cache and all; `Direct` is the same service
 with no cache, which is what clients are entitled to think they talk to.
 */
module Handlers {
  import opened Wrappers
  import opened Backups
  import opened SourcePaths
  import opened Listing
  import opened RemoteConfig
  import opened Cache
  import opened Grpc
  import opened SyntheticData
  import opened SyntheticAnalysis
  import opened Logarithm
  import opened Entropy
  import opened EntropyLevels

  // ----- requests and responses

  datatype Request =
    | Create(sourcePath: seq<byte>, encrypted: bool)
    | Get(id: Uuid)
    | List(status: Option<string>, limit: int, offset: int)
    | Update(id: Uuid, newStatus: Option<Status>, size: Option<int>)
    | Remove(id: Uuid)

  /**
   What a request meets: the clock, the id the database would generate, and which commands to Redis
   succeed while it is handled.
   */
  datatype Env = Env(
    now: Time,
    freshId: Uuid,
    getWorks: bool,
    setWorks: bool,
    delBackupWorks: bool,
    delListWorks: bool)

  datatype Call = Call(tenant: Uuid, request: Request, env: Env)

  datatype Response =
    | Created(row: Row)
    | Found(row: Row)
    | Listed(items: seq<Row>, total: nat, offset: int, limit: int)
    | Updated(row: Row)
    | NoContent
    | NotFound(id: Uuid)
    | Invalid(error: PathError)
    | DatabaseError

  // ----- the service without a cache

  /** The response and the table after one request. */
  function Direct(rows: Table, call: Call): (Table, Response) {
    var t, env := call.tenant, call.env;
    match call.request
    case Create(path, encrypted) =>
      if ValidateSourcePath(path).Err? then (rows, Invalid(ValidateSourcePath(path).error))
      else if env.freshId in rows then (rows, DatabaseError)
      else
        var row := NewRow(env.freshId, t, path, encrypted, env.now);
        (rows[env.freshId := row], Created(row))
    case Get(id) =>
      (rows, match Fetch(rows, id, t) case Some(row) => Found(row) case None => NotFound(id))
    case List(status, limit, offset) =>
      var l, o := ClampLimit(limit), ClampOffset(offset);
      (rows, Listed(SelectPage(rows, t, status, l, o), Total(rows, t, status), o, l))
    case Update(id, status, size) =>
      if Fetch(rows, id, t).None? then (rows, NotFound(id))
      else
        var row := Patched(rows[id], status, size, env.now);
        (rows[id := row], Updated(row))
    case Remove(id) =>
      if Fetch(rows, id, t).None? then (rows, NotFound(id)) else (rows - {id}, NoContent)
  }

  // ----- the service with its cache

  datatype ServiceState = ServiceState(
    rows: Table,
    cache: Contents,
    ttl: nat,
    listLimit: int,
    listOffset: int)

  /** The list cache serves only unfiltered requests for the one page it is configured for. */
  predicate UsesListCache(s: ServiceState, status: Option<string>, limit: int, offset: int) {
    status.None? && ClampOffset(offset) == s.listOffset && ClampLimit(limit) == s.listLimit
  }

  function CachedBackup(s: ServiceState, id: Uuid, env: Env): Option<Row> {
    Lookup(s.cache.backups, id, env.now, env.getWorks && s.cache.connected)
  }

  function CachedListOf(s: ServiceState, tenant: Uuid, env: Env): Option<CachedList> {
    Lookup(s.cache.lists, tenant, env.now, env.getWorks && s.cache.connected)
  }

  function WithBackup(s: ServiceState, row: Row, env: Env): ServiceState {
    s.(cache := s.cache.(
      backups := Store(s.cache.backups, row.id, row, s.ttl, env.now, env.setWorks && s.cache.connected)))
  }

  function WithList(s: ServiceState, tenant: Uuid, list: CachedList, env: Env): ServiceState {
    s.(cache := s.cache.(
      lists := Store(s.cache.lists, tenant, list, s.ttl, env.now, env.setWorks && s.cache.connected)))
  }

  function WithoutBackup(s: ServiceState, id: Uuid, env: Env): ServiceState {
    s.(cache := s.cache.(backups := Drop(s.cache.backups, id, env.delBackupWorks && s.cache.connected)))
  }

  function WithoutList(s: ServiceState, tenant: Uuid, env: Env): ServiceState {
    s.(cache := s.cache.(lists := Drop(s.cache.lists, tenant, env.delListWorks && s.cache.connected)))
  }

  function Serve(s: ServiceState, call: Call): (ServiceState, Response) {
    var t, env := call.tenant, call.env;
    var (rows, response) := Direct(s.rows, call);
    match call.request
    case Create(_, _) =>
      if response.Created? then (WithoutList(s.(rows := rows), t, env), response) else (s, response)
    case Get(id) =>
      var cached := CachedBackup(s, id, env);
      if cached.Some? && cached.value.tenant == t then (s, Found(cached.value))
      else if response.Found? then (WithBackup(s, response.row, env), response)
      else (s, response)
    case List(status, limit, offset) =>
      if UsesListCache(s, status, limit, offset) then
        var cached := CachedListOf(s, t, env);
        if cached.Some?
        then (s, Listed(cached.value.items, cached.value.total, ClampOffset(offset), ClampLimit(limit)))
        else (WithList(s, t, CachedList(response.items, response.total), env), response)
      else (s, response)
    case Update(id, _, _) =>
      if response.Updated? then (WithoutList(WithoutBackup(s.(rows := rows), id, env), t, env), response)
      else (s, response)
    case Remove(id) =>
      if response.NoContent? then (WithoutList(WithoutBackup(s.(rows := rows), id, env), t, env), response)
      else (s, response)
  }

  // ----- the handlers

  class BackupService {
    const db: Database
    const cache: CacheLayer
    const config: AppConfig

    constructor (db: Database, cache: CacheLayer, config: AppConfig)
      ensures this.db == db && this.cache == cache && this.config == config
    {
      this.db, this.cache, this.config := db, cache, config;
    }

    function View(): (s: ServiceState)
      reads db, cache, cache.config, config
      ensures cache.config != null ==> s.ttl == cache.config.settings.cacheTtlSecs
      ensures s.listLimit == config.settings.cachedListLimit && s.listOffset == config.settings.cachedListOffset
    {
      ServiceState(db.rows, cache.View(), cache.TtlSecs(),
                   config.settings.cachedListLimit, config.settings.cachedListOffset)
    }

    method CreateBackup(tenant: Uuid, sourcePath: seq<byte>, encrypted: bool, env: Env) returns (r: Response)
      modifies db, cache
      ensures (View(), r) == Serve(old(View()), Call(tenant, Create(sourcePath, encrypted), env))
    {
      var valid := ValidateSourcePath(sourcePath);
      if valid.Err? {
        return Invalid(valid.error);
      }
      if env.freshId in db.rows {
        return DatabaseError;
      }
      var row := NewRow(env.freshId, tenant, sourcePath, encrypted, env.now);
      db.rows := db.rows[env.freshId := row];
      cache.InvalidateTenantBackups(tenant, env.delListWorks);
      return Created(row);
    }

    method GetBackup(tenant: Uuid, id: Uuid, env: Env) returns (r: Response)
      modifies cache
      ensures (View(), r) == Serve(old(View()), Call(tenant, Get(id), env))
    {
      var cached := cache.GetBackup(id, env.now, env.getWorks);
      if cached.Some? && cached.value.tenant == tenant {
        return Found(cached.value);
      }
      var row := Fetch(db.rows, id, tenant);
      if row.None? {
        return NotFound(id);
      }
      cache.SetBackup(row.value, env.now, env.setWorks);
      return Found(row.value);
    }

    method ListBackups(tenant: Uuid, status: Option<string>, limit: int, offset: int, env: Env) returns (r: Response)
      modifies cache
      ensures (View(), r) == Serve(old(View()), Call(tenant, List(status, limit, offset), env))
    {
      var l, o := ClampLimit(limit), ClampOffset(offset);
      var useListCache :=
        status.None? && o == config.settings.cachedListOffset && l == config.settings.cachedListLimit;
      if useListCache {
        var cached := cache.GetTenantBackups(tenant, env.now, env.getWorks);
        if cached.Some? {
          return Listed(cached.value.items, cached.value.total, o, l);
        }
      }
      var items := SelectPage(db.rows, tenant, status, l, o);
      var total := Total(db.rows, tenant, status);
      if useListCache {
        cache.SetTenantBackups(tenant, items, total, env.now, env.setWorks);
      }
      return Listed(items, total, o, l);
    }

    method UpdateBackup(tenant: Uuid, id: Uuid, status: Option<Status>, size: Option<int>, env: Env)
      returns (r: Response)
      modifies db, cache
      ensures (View(), r) == Serve(old(View()), Call(tenant, Update(id, status, size), env))
    {
      if Fetch(db.rows, id, tenant).None? {
        return NotFound(id);
      }
      var row := Patched(db.rows[id], status, size, env.now);
      db.rows := db.rows[id := row];
      cache.InvalidateBackup(id, env.delBackupWorks);
      cache.InvalidateTenantBackups(tenant, env.delListWorks);
      return Updated(row);
    }

    method DeleteBackup(tenant: Uuid, id: Uuid, env: Env) returns (r: Response)
      modifies db, cache
      ensures (View(), r) == Serve(old(View()), Call(tenant, Remove(id), env))
    {
      var rowsAffected := if Fetch(db.rows, id, tenant).Some? then 1 else 0;
      if rowsAffected == 0 {
        return NotFound(id);
      }
      db.rows := db.rows - {id};
      cache.InvalidateBackup(id, env.delBackupWorks);
      cache.InvalidateTenantBackups(tenant, env.delListWorks);
      return NoContent;
    }

    /** The entropy analysis of a backup: always from the table, never from the cache. */
    method AnalyzeBackup(ln: real -> real, tenant: Uuid, id: Uuid) returns (r: Option<(Row, real)>, suspicious: bool)
      requires IsLn(ln)
      ensures r.None? <==> Fetch(db.rows, id, tenant).None?
      ensures r.Some? ==> r.value.0 == db.rows[id] && 0.0 <= r.value.1 <= 8.0
      ensures r.Some? ==>
        ln(2.0) > 0.0 && r.value.1 == ShannonEntropy(ln, Cycled(db.rows[id].sourcePath, 4096))
      ensures suspicious <==> r.Some? && r.value.1 >= 7.5
      ensures suspicious ==> !IsAscii(db.rows[id].sourcePath)
    {
      var row := Fetch(db.rows, id, tenant);
      if row.None? {
        return None, false;
      }
      LnTwoIsPositive(ln);
      var syntheticData := Cycled(row.value.sourcePath, ANALYZE_BYTES);
      var entropy := ComputeShannonEntropy(ln, syntheticData);
      LevelOfFewBytes(ln, syntheticData);
      if IsAscii(row.value.sourcePath) {
        AsciiIsNeverSuspicious(ln, row.value.sourcePath, ANALYZE_BYTES);
      }
      return Some((row.value, entropy)), Classify(entropy).IsSuspicious();
    }
  }
}
