/** The Redis-backed cache: one entry per backup, one list entry per tenant, each with a lifetime. */
module Cache {
  import opened Wrappers
  import opened Backups
  import opened RemoteConfig

  const DEFAULT_CACHE_TTL_SECS := 300

  datatype Entry<T> = Entry(value: T, expires: Time)

  datatype CachedList = CachedList(items: seq<Row>, total: nat)

  /** What Redis holds. Without a connection it holds nothing that the service could see. */
  datatype Contents = Contents(
    connected: bool,
    backups: map<Uuid, Entry<Row>>,
    lists: map<Uuid, Entry<CachedList>>)

  /** Redis still has the key. */
  predicate Live<T>(entries: map<Uuid, Entry<T>>, key: Uuid, now: Time) {
    key in entries && now < entries[key].expires
  }

  /** GET: a key is gone from the moment it expires. A failing command looks like a miss. */
  function Lookup<T>(entries: map<Uuid, Entry<T>>, key: Uuid, now: Time, works: bool): Option<T> {
    if works && Live(entries, key, now) then Some(entries[key].value) else None
  }

  /** SETEX: Redis refuses a lifetime of zero. */
  function Store<T>(entries: map<Uuid, Entry<T>>, key: Uuid, value: T, ttl: nat, now: Time, works: bool)
    : map<Uuid, Entry<T>>
  {
    if works && ttl > 0 then entries[key := Entry(value, now + ttl * TICKS_PER_SEC)] else entries
  }

  /** DEL */
  function Drop<T>(entries: map<Uuid, Entry<T>>, key: Uuid, works: bool): map<Uuid, Entry<T>> {
    if works then entries - {key} else entries
  }

  class CacheLayer {
    const connected: bool
    const config: AppConfig?
    var backups: map<Uuid, Entry<Row>>
    var lists: map<Uuid, Entry<CachedList>>

    constructor (connected: bool, config: AppConfig?)
      ensures this.connected == connected && this.config == config
      ensures View() == Contents(connected, map[], map[])
    {
      this.connected, this.config := connected, config;
      backups, lists := map[], map[];
    }

    function View(): Contents
      reads this
    {
      Contents(connected, backups, lists)
    }

    /** The lifetime as currently configured; five minutes for a cache without configuration. */
    function TtlSecs(): (ttl: nat)
      reads config
      ensures ttl == if config == null then 300 else config.settings.cacheTtlSecs
    {
      if config == null then DEFAULT_CACHE_TTL_SECS else config.settings.cacheTtlSecs
    }

    method GetBackup(id: Uuid, now: Time, works: bool) returns (row: Option<Row>)
      ensures row == Lookup(backups, id, now, works && connected)
    {
      if !connected || !works {
        return None;
      }
      if id in backups && now < backups[id].expires {
        return Some(backups[id].value);
      }
      return None;
    }

    method SetBackup(row: Row, now: Time, works: bool)
      modifies this
      ensures View() == old(View()).(backups := Store(old(backups), row.id, row, TtlSecs(), now, works && connected))
    {
      if !connected {
        return;
      }
      var ttl := TtlSecs();
      if works && ttl > 0 {
        backups := backups[row.id := Entry(row, now + ttl * TICKS_PER_SEC)];
      }
    }

    method InvalidateBackup(id: Uuid, works: bool)
      modifies this
      ensures View() == old(View()).(backups := Drop(old(backups), id, works && connected))
    {
      if !connected {
        return;
      }
      if works {
        backups := backups - {id};
      }
    }

    method GetTenantBackups(tenant: Uuid, now: Time, works: bool) returns (list: Option<CachedList>)
      ensures list == Lookup(lists, tenant, now, works && connected)
    {
      if !connected || !works {
        return None;
      }
      if tenant in lists && now < lists[tenant].expires {
        return Some(lists[tenant].value);
      }
      return None;
    }

    method SetTenantBackups(tenant: Uuid, items: seq<Row>, total: nat, now: Time, works: bool)
      modifies this
      ensures View() == old(View()).(
        lists := Store(old(lists), tenant, CachedList(items, total), TtlSecs(), now, works && connected))
    {
      if !connected {
        return;
      }
      var ttl := TtlSecs();
      if works && ttl > 0 {
        lists := lists[tenant := Entry(CachedList(items, total), now + ttl * TICKS_PER_SEC)];
      }
    }

    method InvalidateTenantBackups(tenant: Uuid, works: bool)
      modifies this
      ensures View() == old(View()).(lists := Drop(old(lists), tenant, works && connected))
    {
      if !connected {
        return;
      }
      if works {
        lists := lists - {tenant};
      }
    }
  }
}
