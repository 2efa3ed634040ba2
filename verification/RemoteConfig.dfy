/** The runtime configuration and the updates a remote endpoint may make to it. */
module RemoteConfig {
  import opened Wrappers

  datatype RateLimitConfig = RateLimitConfig(maxRequests: nat, windowSecs: nat)

  datatype Settings = Settings(
    databaseUrl: string,
    redisUrl: string,
    amqpUrl: string,
    jwtSecret: string,
    listenAddr: string,
    grpcAddr: string,
    rateLimit: RateLimitConfig,
    cacheTtlSecs: nat,
    cachedListLimit: int,
    cachedListOffset: int,
    apolloConfigUrl: Option<string>,
    apolloPollIntervalSecs: nat,
    apolloTimeoutSecs: nat)

  datatype RateLimitUpdate = RateLimitUpdate(maxRequests: Option<nat>, windowSecs: Option<nat>)

  datatype RemoteConfigUpdate = RemoteConfigUpdate(
    rateLimit: Option<RateLimitUpdate>,
    cacheTtlSecs: Option<nat>,
    cachedListLimit: Option<int>,
    cachedListOffset: Option<int>)

  // ----- one update

  function Or<T>(x: Option<T>, otherwise: T): T {
    if x.Some? then x.value else otherwise
  }

  /** The value an update carries for each of the two nested fields, if any. */
  function MaxRequestsOf(u: RemoteConfigUpdate): Option<nat> {
    if u.rateLimit.Some? then u.rateLimit.value.maxRequests else None
  }

  function WindowSecsOf(u: RemoteConfigUpdate): Option<nat> {
    if u.rateLimit.Some? then u.rateLimit.value.windowSecs else None
  }

  function Merged(s: Settings, u: RemoteConfigUpdate): Settings {
    s.(rateLimit := RateLimitConfig(Or(MaxRequestsOf(u), s.rateLimit.maxRequests),
                                    Or(WindowSecsOf(u), s.rateLimit.windowSecs)),
       cacheTtlSecs := Or(u.cacheTtlSecs, s.cacheTtlSecs),
       cachedListLimit := Or(u.cachedListLimit, s.cachedListLimit),
       cachedListOffset := Or(u.cachedListOffset, s.cachedListOffset))
  }

  /** The shared configuration object. */
  class AppConfig {
    var settings: Settings

    constructor (settings: Settings)
      ensures this.settings == settings
    {
      this.settings := settings;
    }

    /** Writes the fields that are present, one by one. */
    method ApplyUpdate(update: RemoteConfigUpdate)
      modifies this
      ensures settings == Merged(old(settings), update)
    {
      if update.rateLimit.Some? {
        var rl := update.rateLimit.value;
        if rl.maxRequests.Some? {
          settings := settings.(rateLimit := settings.rateLimit.(maxRequests := rl.maxRequests.value));
        }
        if rl.windowSecs.Some? {
          settings := settings.(rateLimit := settings.rateLimit.(windowSecs := rl.windowSecs.value));
        }
      }
      if update.cacheTtlSecs.Some? {
        settings := settings.(cacheTtlSecs := update.cacheTtlSecs.value);
      }
      if update.cachedListLimit.Some? {
        settings := settings.(cachedListLimit := update.cachedListLimit.value);
      }
      if update.cachedListOffset.Some? {
        settings := settings.(cachedListOffset := update.cachedListOffset.value);
      }
    }

    /** One fetch: a success is merged, a failure changes nothing. */
    method RunOneUpdate(fetch: FetchResult) returns (ok: bool)
      modifies this
      ensures ok <==> fetch.Fetched?
      ensures settings == AfterFetch(old(settings), fetch)
    {
      match fetch
      case Fetched(update) =>
        ApplyUpdate(update);
        return true;
      case FetchFailed =>
        return false;
    }

    /** The updater loop, for as many ticks as it lives. */
    method RunUpdaterLoop(fetches: seq<FetchResult>)
      modifies this
      ensures settings == AfterFetches(old(settings), fetches)
    {
      for i := 0 to |fetches|
        invariant settings == AfterFetches(old(settings), fetches[..i])
      {
        assert fetches[..i + 1][..i] == fetches[..i];
        match fetches[i] {
          case Fetched(update) => ApplyUpdate(update);
          case FetchFailed =>
        }
      }
      assert fetches[..|fetches|] == fetches;
    }
  }

  // ----- runs of updates

  datatype FetchResult = Fetched(update: RemoteConfigUpdate) | FetchFailed

  function AfterFetch(s: Settings, fetch: FetchResult): Settings {
    match fetch
    case Fetched(update) => Merged(s, update)
    case FetchFailed => s
  }

  function AfterFetches(s: Settings, fetches: seq<FetchResult>): Settings {
    if fetches == [] then s
    else AfterFetch(AfterFetches(s, fetches[..|fetches| - 1]), fetches[|fetches| - 1])
  }

  /** The last value that a successful fetch carried for a field. */
  function LastPresent<T>(fetches: seq<FetchResult>, field: RemoteConfigUpdate -> Option<T>): Option<T> {
    if fetches == [] then None
    else
      var last := fetches[|fetches| - 1];
      if last.Fetched? && field(last.update).Some? then field(last.update)
      else LastPresent(fetches[..|fetches| - 1], field)
  }

  /**
   Whatever succeeds and fails, each updatable field ends up with the last value present in any fetch,
   or its start value, and every other field keeps its own.
   */
  lemma {:induction false} FieldsAfterFetches(s: Settings, fetches: seq<FetchResult>)
    ensures AfterFetches(s, fetches) == s.(
      rateLimit := RateLimitConfig(
        Or(LastPresent(fetches, (u: RemoteConfigUpdate) =>
             if u.rateLimit.Some? then u.rateLimit.value.maxRequests else None), s.rateLimit.maxRequests),
        Or(LastPresent(fetches, (u: RemoteConfigUpdate) =>
             if u.rateLimit.Some? then u.rateLimit.value.windowSecs else None), s.rateLimit.windowSecs)),
      cacheTtlSecs := Or(LastPresent(fetches, (u: RemoteConfigUpdate) => u.cacheTtlSecs), s.cacheTtlSecs),
      cachedListLimit := Or(LastPresent(fetches, (u: RemoteConfigUpdate) => u.cachedListLimit), s.cachedListLimit),
      cachedListOffset := Or(LastPresent(fetches, (u: RemoteConfigUpdate) => u.cachedListOffset), s.cachedListOffset))
  {
    if fetches != [] {
      FieldsAfterFetches(s, fetches[..|fetches| - 1]);
    }
  }

  // ----- the algebra of updates

  const NO_UPDATE := RemoteConfigUpdate(None, None, None, None)

  function Later<T>(first: Option<T>, second: Option<T>): Option<T> {
    if second.Some? then second else first
  }

  /** One update with the effect of two in a row. */
  function Then(u: RemoteConfigUpdate, v: RemoteConfigUpdate): RemoteConfigUpdate {
    RemoteConfigUpdate(
      if u.rateLimit.None? then v.rateLimit
      else if v.rateLimit.None? then u.rateLimit
      else Some(RateLimitUpdate(Later(u.rateLimit.value.maxRequests, v.rateLimit.value.maxRequests),
                                Later(u.rateLimit.value.windowSecs, v.rateLimit.value.windowSecs))),
      Later(u.cacheTtlSecs, v.cacheTtlSecs),
      Later(u.cachedListLimit, v.cachedListLimit),
      Later(u.cachedListOffset, v.cachedListOffset))
  }

  lemma ThenIsComposition(s: Settings, u: RemoteConfigUpdate, v: RemoteConfigUpdate)
    ensures Merged(Merged(s, u), v) == Merged(s, Then(u, v))
  {
  }

  lemma ThenIsMonoid(u: RemoteConfigUpdate, v: RemoteConfigUpdate, w: RemoteConfigUpdate)
    ensures Then(Then(u, v), w) == Then(u, Then(v, w))
    ensures Then(NO_UPDATE, u) == u == Then(u, NO_UPDATE)
  {
  }

  function Combined(fetches: seq<FetchResult>): RemoteConfigUpdate {
    if fetches == [] then NO_UPDATE
    else
      var last := fetches[|fetches| - 1];
      var before := Combined(fetches[..|fetches| - 1]);
      if last.Fetched? then Then(before, last.update) else before
  }

  /** A whole run of fetches has the effect of one merged update. */
  lemma {:induction false} RunIsOneUpdate(s: Settings, fetches: seq<FetchResult>)
    ensures AfterFetches(s, fetches) == Merged(s, Combined(fetches))
  {
    if fetches != [] {
      var n := |fetches| - 1;
      RunIsOneUpdate(s, fetches[..n]);
      if fetches[n].Fetched? {
        ThenIsComposition(s, Combined(fetches[..n]), fetches[n].update);
      }
    }
  }

  predicate CarriesNothing(u: RemoteConfigUpdate) {
    && (u.rateLimit.Some? ==> u.rateLimit.value.maxRequests.None? && u.rateLimit.value.windowSecs.None?)
    && u.cacheTtlSecs.None? && u.cachedListLimit.None? && u.cachedListOffset.None?
  }

  /** An update leaves every configuration as it is exactly if it carries no field at all. */
  lemma IdleUpdate(u: RemoteConfigUpdate)
    ensures (forall s :: Merged(s, u) == s) <==> CarriesNothing(u)
  {
    var zero := Settings("", "", "", "", "", "", RateLimitConfig(0, 0), 0, 0, 0, None, 0, 0);
    var one :=
      zero.(rateLimit := RateLimitConfig(1, 1), cacheTtlSecs := 1, cachedListLimit := 1, cachedListOffset := 1);
    assert Merged(zero, u) == zero && Merged(one, u) == one ==> CarriesNothing(u);
  }
}
