/**
 The per-tenant rate limiter. The module it models announces a sliding window kept in Redis; what it
 does is count requests in a fixed window, in memory. The window opens with a tenant's first request
 and the next one opens with the first request at or after its end.
 */
module RateLimiter {
  import opened Wrappers
  import opened Backups
  import opened RemoteConfig

  /** Readings of the monotonic clock, in nanoseconds. */
  type Instant = nat

  const NANOS_PER_SEC := 1_000_000_000

  /** A tenant's counter: requests seen in the current window, and when it opened. */
  datatype Window = Window(count: nat, start: Instant)

  datatype Decision =
    | Admitted(limit: nat, remaining: nat, resetSecs: nat)
    | Rejected

  function WindowNanos(config: RateLimitConfig): (nanos: nat)
    ensures nanos == config.windowSecs * 1_000_000_000
  {
    config.windowSecs * NANOS_PER_SEC
  }

  /** Time elapsed since an instant; zero if it lies ahead. */
  function Since(now: Instant, start: Instant): nat {
    if now >= start then now - start else 0
  }

  // ----- one tenant's counter

  predicate Expired(w: Option<Window>, config: RateLimitConfig, now: Instant) {
    w.None? || Since(now, w.value.start) >= WindowNanos(config)
  }

  function NextWindow(w: Option<Window>, config: RateLimitConfig, now: Instant): Window {
    if Expired(w, config, now) then Window(1, now) else Window(w.value.count + 1, w.value.start)
  }

  function Decide(w: Window, config: RateLimitConfig): Decision {
    if w.count > config.maxRequests then Rejected
    else Admitted(config.maxRequests, config.maxRequests - w.count, config.windowSecs)
  }

  // ----- the limiter

  class InMemoryRateLimiter {
    var counters: map<Uuid, Window>

    constructor ()
      ensures counters == map[]
    {
      counters := map[];
    }

    function WindowOf(tenant: Uuid): Option<Window>
      reads this
    {
      if tenant in counters then Some(counters[tenant]) else None
    }

    /** Runs under the lock, so calls take effect one after the other, with `now` read in between. */
    method CheckAndIncrement(tenant: Uuid, config: RateLimitConfig, now: Instant) returns (r: Decision)
      modifies this
      ensures counters == old(counters)[tenant := NextWindow(old(WindowOf(tenant)), config, now)]
      ensures r == Decide(NextWindow(old(WindowOf(tenant)), config, now), config)
    {
      var window := WindowNanos(config);
      if tenant !in counters {
        counters := counters[tenant := Window(0, now)];
      }
      var entry := counters[tenant];
      if Since(now, entry.start) >= window {
        entry := Window(0, now);
      }
      entry := entry.(count := entry.count + 1);
      counters := counters[tenant := entry];
      if entry.count > config.maxRequests {
        return Rejected;
      }
      var remaining := if entry.count <= config.maxRequests then config.maxRequests - entry.count else 0;
      return Admitted(config.maxRequests, remaining, config.windowSecs);
    }
  }

  /** What the client sees of the limiter. */
  datatype Reply =
    | Passed(headers: Option<Decision>)
    | TooManyRequests(retryAfterSecs: nat, limit: nat, remaining: nat)

  function ReplyTo(d: Decision, config: RateLimitConfig): (reply: Reply)
    ensures d.Admitted? ==> reply == Passed(Some(d))
    ensures d.Rejected? ==> reply == TooManyRequests(config.windowSecs, config.maxRequests, 0)
  {
    if d.Rejected? then TooManyRequests(config.windowSecs, config.maxRequests, 0) else Passed(Some(d))
  }

  /** The middleware: requests without claims are not limited. */
  method RateLimitMiddleware(limiter: InMemoryRateLimiter, tenant: Option<Uuid>, config: AppConfig, now: Instant)
    returns (reply: Reply)
    modifies limiter
    ensures tenant.None? ==> reply == Passed(None) && unchanged(limiter)
    ensures tenant.Some? ==>
      var c := config.settings.rateLimit;
      var w := NextWindow(old(limiter.WindowOf(tenant.value)), c, now);
      && limiter.counters == old(limiter.counters)[tenant.value := w]
      && reply == ReplyTo(Decide(w, c), c)
  {
    var c := config.settings.rateLimit;
    if tenant.None? {
      return Passed(None);
    }
    var r := limiter.CheckAndIncrement(tenant.value, c, now);
    match r
    case Admitted(_, _, _) => return Passed(Some(r));
    case Rejected => return TooManyRequests(c.windowSecs, c.maxRequests, 0);
  }
}
