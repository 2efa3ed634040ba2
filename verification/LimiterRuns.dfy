/** What the rate limiter guarantees over whole runs of requests. */
module LimiterRuns {
  import opened Wrappers
  import opened Backups
  import opened RemoteConfig
  import opened RateLimiter

  datatype Request = Request(tenant: Uuid, config: RateLimitConfig, now: Instant)

  // ----- runs

  /** The decisions on a run of requests of any tenants, in the order in which the lock lets them in. */
  function Decisions(counters: map<Uuid, Window>, requests: seq<Request>): (ds: seq<Decision>)
    ensures |ds| == |requests|
    decreases |requests|
  {
    if requests == [] then []
    else
      var r := requests[0];
      var w := NextWindow(if r.tenant in counters then Some(counters[r.tenant]) else None, r.config, r.now);
      [Decide(w, r.config)] + Decisions(counters[r.tenant := w], requests[1..])
  }

  /** The limiter at work on such a run. */
  method RunRequests(limiter: InMemoryRateLimiter, requests: seq<Request>) returns (ds: seq<Decision>)
    modifies limiter
    ensures ds == Decisions(old(limiter.counters), requests)
  {
    ds := [];
    for i := 0 to |requests|
      invariant ds + Decisions(limiter.counters, requests[i..]) == Decisions(old(limiter.counters), requests)
    {
      assert requests[i..][1..] == requests[i + 1..];
      var d := limiter.CheckAndIncrement(requests[i].tenant, requests[i].config, requests[i].now);
      ds := ds + [d];
    }
  }

  /** One tenant on its own. */
  function Alone(w: Option<Window>, requests: seq<Request>): (ds: seq<Decision>)
    ensures |ds| == |requests|
    decreases |requests|
  {
    if requests == [] then []
    else
      var w' := NextWindow(w, requests[0].config, requests[0].now);
      [Decide(w', requests[0].config)] + Alone(Some(w'), requests[1..])
  }

  function Of(tenant: Uuid, requests: seq<Request>): seq<Request>
    decreases |requests|
  {
    if requests == [] then []
    else (if requests[0].tenant == tenant then [requests[0]] else []) + Of(tenant, requests[1..])
  }

  /** The decisions that went to one tenant. */
  function DecisionsOf(tenant: Uuid, requests: seq<Request>, ds: seq<Decision>): (own: seq<Decision>)
    requires |ds| == |requests|
    ensures |own| == |Of(tenant, requests)|
    decreases |requests|
  {
    if requests == [] then []
    else (if requests[0].tenant == tenant then [ds[0]] else []) + DecisionsOf(tenant, requests[1..], ds[1..])
  }

  /** A tenant is treated exactly as if nobody else sent requests. */
  lemma {:induction false} TenantsAreIndependent(counters: map<Uuid, Window>, requests: seq<Request>, tenant: Uuid)
    ensures DecisionsOf(tenant, requests, Decisions(counters, requests))
         == Alone(if tenant in counters then Some(counters[tenant]) else None, Of(tenant, requests))
    decreases |requests|
  {
    if requests != [] {
      var r := requests[0];
      var w := NextWindow(if r.tenant in counters then Some(counters[r.tenant]) else None, r.config, r.now);
      var ds := Decisions(counters, requests);
      TenantsAreIndependent(counters[r.tenant := w], requests[1..], tenant);
      assert ds[1..] == Decisions(counters[r.tenant := w], requests[1..]);
      if r.tenant == tenant {
        assert Of(tenant, requests)[1..] == Of(tenant, requests[1..]);
      } else {
        assert Of(tenant, requests) == Of(tenant, requests[1..]);
      }
    }
  }

  // ----- the shape of a window

  /** By this configuration, a window opened at `start` has ended: it lasts `windowSecs` seconds to the tick. */
  predicate Over(start: Instant, config: RateLimitConfig, now: Instant) {
    config.windowSecs == 0 || now >= start + config.windowSecs * 1_000_000_000
  }

  /** A tenant's next request falls into its open window exactly if that is not over. */
  lemma ExpiredIffOver(w: Window, config: RateLimitConfig, now: Instant)
    ensures NextWindow(Some(w), config, now)
         == if Over(w.start, config, now) then Window(1, now) else Window(w.count + 1, w.start)
  {
  }

  /** All requests fall into the window that `start` opens. */
  ghost predicate Within(requests: seq<Request>, config: RateLimitConfig, start: Instant) {
    forall i :: 0 <= i < |requests| ==>
      requests[i].config == config && start <= requests[i].now < start + config.windowSecs * 1_000_000_000
  }

  /** The answers to the requests of one window from the `count`-th on: counting down, then rejecting. */
  lemma {:induction false} WindowShape(
    w: Window, requests: seq<Request>, config: RateLimitConfig, i: nat)
    requires Within(requests, config, w.start) && i < |requests|
    ensures Alone(Some(w), requests)[i] ==
      var n := w.count + 1 + i;
      if n <= config.maxRequests then Admitted(config.maxRequests, config.maxRequests - n, config.windowSecs)
      else Rejected
    decreases |requests|
  {
    if i > 0 {
      var w' := NextWindow(Some(w), requests[0].config, requests[0].now);
      WindowShape(w', requests[1..], config, i - 1);
    }
  }

  /** A fresh or expired window: remaining = max - 1, ..., 1, 0, and then rejections only. */
  lemma {:induction false} FreshWindowShape(
    w: Option<Window>, requests: seq<Request>, config: RateLimitConfig, i: nat)
    requires requests != [] && (w.Some? ==> Over(w.value.start, config, requests[0].now))
    requires Within(requests, config, requests[0].now) && i < |requests|
    ensures Alone(w, requests)[i] ==
      if i < config.maxRequests then Admitted(config.maxRequests, config.maxRequests - 1 - i, config.windowSecs)
      else Rejected
  {
    if i > 0 {
      WindowShape(Window(1, requests[0].now), requests[1..], config, i - 1);
    }
  }

  // ----- rejections do not extend the wait

  ghost predicate InTime(requests: seq<Request>, from: Instant)
    decreases |requests|
  {
    requests != [] ==> from <= requests[0].now && InTime(requests[1..], requests[0].now)
  }

  /** The window after a run of requests. */
  function WindowAfter(w: Option<Window>, requests: seq<Request>): Option<Window>
    decreases |requests|
  {
    if requests == [] then w
    else WindowAfter(Some(NextWindow(w, requests[0].config, requests[0].now)), requests[1..])
  }

  lemma {:induction false} WindowAfterNext(w: Option<Window>, requests: seq<Request>, next: Request)
    ensures WindowAfter(w, requests + [next])
         == Some(NextWindow(WindowAfter(w, requests), next.config, next.now))
    ensures Alone(w, requests + [next])
         == Alone(w, requests) + [Decide(NextWindow(WindowAfter(w, requests), next.config, next.now), next.config)]
    decreases |requests|
  {
    if requests == [] {
      assert [next][1..] == [];
      assert requests + [next] == [next];
    } else {
      assert (requests + [next])[1..] == requests[1..] + [next];
      WindowAfterNext(Some(NextWindow(w, requests[0].config, requests[0].now)), requests[1..], next);
    }
  }

  /** The position of the request that opened the current window: the last that found its predecessor's over. */
  function Opening(requests: seq<Request>): (o: nat)
    requires requests != []
    ensures o < |requests|
    decreases |requests|
  {
    var last := |requests| - 1;
    if last == 0 then 0
    else
      var o := Opening(requests[..last]);
      if Over(requests[o].now, requests[last].config, requests[last].now) then last else o
  }

  lemma {:induction false} OpeningIsStart(requests: seq<Request>)
    requires requests != []
    ensures var o := Opening(requests);
      WindowAfter(None, requests) == Some(Window(|requests| - o, requests[o].now))
    decreases |requests|
  {
    var last := |requests| - 1;
    WindowAfterNext(None, requests[..last], requests[last]);
    assert requests[..last] + [requests[last]] == requests;
    if last > 0 {
      OpeningIsStart(requests[..last]);
      var o := Opening(requests[..last]);
      ExpiredIffOver(Window(last - o, requests[o].now), requests[last].config, requests[last].now);
    } else {
      assert requests[..last] == [];
    }
  }

  /** The latest decision on a tenant's requests in a run from an empty limiter. */
  function LatestDecision(tenant: Uuid, requests: seq<Request>): Decision
    requires Of(tenant, requests) != []
  {
    var own := DecisionsOf(tenant, requests, Decisions(map[], requests));
    own[|own| - 1]
  }

  lemma {:induction false} OfNext(requests: seq<Request>, next: Request)
    ensures Of(next.tenant, requests + [next]) == Of(next.tenant, requests) + [next]
    decreases |requests|
  {
    if requests != [] {
      assert (requests + [next])[1..] == requests[1..] + [next];
      OfNext(requests[1..], next);
    } else {
      assert requests + [next] == [next] && [next][1..] == [];
    }
  }

  /**
   Main result. After any run, whatever the configurations were, the next request is admitted exactly if
   its limit is not zero and, by its own configuration, the window is over or not yet full.
   */
  lemma {:induction false} NextIsAdmittedIff(requests: seq<Request>, next: Request)
    ensures Of(next.tenant, requests + [next]) == Of(next.tenant, requests) + [next]
    ensures var own, max := Of(next.tenant, requests), next.config.maxRequests;
      LatestDecision(next.tenant, requests + [next])
        == if own == [] || Over(own[Opening(own)].now, next.config, next.now)
           then if max > 0 then Admitted(max, max - 1, next.config.windowSecs) else Rejected
           else
             var n := |own| - Opening(own);
             if n < max then Admitted(max, max - n - 1, next.config.windowSecs) else Rejected
  {
    var own := Of(next.tenant, requests);
    OfNext(requests, next);
    TenantsAreIndependent(map[], requests + [next], next.tenant);
    WindowAfterNext(None, own, next);
    if own != [] {
      OpeningIsStart(own);
      ExpiredIffOver(Window(|own| - Opening(own), own[Opening(own)].now), next.config, next.now);
    }
  }

  lemma {:induction false} InTimeSorted(requests: seq<Request>, from: Instant, i: nat, j: nat)
    requires InTime(requests, from) && i <= j < |requests|
    ensures from <= requests[i].now <= requests[j].now
    decreases |requests|
  {
    if j > 0 {
      InTimeSorted(requests[1..], requests[0].now, if i > 0 then i - 1 else 0, j - 1);
    }
  }

  /** Silence for the window of the latest request is enough. */
  lemma {:induction false} SilenceSuffices(requests: seq<Request>, next: Request)
    requires InTime(requests, 0) && Of(next.tenant, requests) != []
    requires var own := Of(next.tenant, requests);
      var latest := own[|own| - 1];
      && next.now >= latest.now + latest.config.windowSecs * 1_000_000_000
      && next.config.windowSecs <= latest.config.windowSecs
    requires next.config.maxRequests > 0
    ensures Of(next.tenant, requests + [next]) != []
    ensures LatestDecision(next.tenant, requests + [next])
         == Admitted(next.config.maxRequests, next.config.maxRequests - 1, next.config.windowSecs)
  {
    var own := Of(next.tenant, requests);
    NextIsAdmittedIff(requests, next);
    OfInTime(requests, next.tenant, 0);
    InTimeSorted(own, 0, Opening(own), |own| - 1);
    assert next.config.windowSecs * 1_000_000_000 <= own[|own| - 1].config.windowSecs * 1_000_000_000;
  }

  /** How long a reply advises its client to wait: Retry-After, or else X-RateLimit-Reset. */
  function Advised(reply: Reply): nat {
    match reply
    case TooManyRequests(retryAfterSecs, _, _) => retryAfterSecs
    case Passed(Some(Admitted(_, _, resetSecs))) => resetSecs
    case Passed(_) => 0
  }

  lemma {:induction false} LatestAlone(w: Option<Window>, requests: seq<Request>)
    requires requests != []
    ensures var last := |requests| - 1;
      var d := Alone(w, requests)[last];
      d.Admitted? ==> d.resetSecs == requests[last].config.windowSecs
    decreases |requests|
  {
    if |requests| > 1 {
      LatestAlone(Some(NextWindow(w, requests[0].config, requests[0].now)), requests[1..]);
    }
  }

  /**
   Main result. Whatever was rejected before, a tenant that waits as many seconds as the reply to its
   latest request advises (section 10.2.3 of RFC 9110) is admitted next with a full quota, unless the
   window has been made longer or the limit zero meanwhile.
   */
  lemma {:induction false} RetryAfterSuffices(requests: seq<Request>, next: Request)
    requires InTime(requests, 0) && Of(next.tenant, requests) != []
    requires var own := Of(next.tenant, requests);
      var latest := own[|own| - 1];
      var secs := Advised(ReplyTo(LatestDecision(next.tenant, requests), latest.config));
      next.now >= latest.now + secs * 1_000_000_000 && next.config.windowSecs <= secs
    requires next.config.maxRequests > 0
    ensures Of(next.tenant, requests + [next]) != []
    ensures LatestDecision(next.tenant, requests + [next])
         == Admitted(next.config.maxRequests, next.config.maxRequests - 1, next.config.windowSecs)
  {
    TenantsAreIndependent(map[], requests, next.tenant);
    LatestAlone(None, Of(next.tenant, requests));
    SilenceSuffices(requests, next);
  }

  /** A tenant told to come back after one second comes back then, and is rejected: the window was raised. */
  lemma LongerWindowOutlastsRetryAfter()
    ensures var short, long := RateLimitConfig(1, 1), RateLimitConfig(1, 60);
      var requests := [Request(0, short, 0), Request(0, short, 0)];
      var next := Request(0, long, 1_000_000_000);
      && Of(0, requests) == requests && LatestDecision(0, requests) == Rejected
      && Advised(ReplyTo(LatestDecision(0, requests), short)) == 1
      && Of(0, requests + [next]) != [] && LatestDecision(0, requests + [next]) == Rejected
  {
    var request, next := Request(0, RateLimitConfig(1, 1), 0), Request(0, RateLimitConfig(1, 60), 1_000_000_000);
    SecondIsRejected(request);
    NextIsAdmittedIff([request, request], next);
  }

  /** A limit of one: the second of two requests at the same time is rejected, in the window of the first. */
  lemma SecondIsRejected(request: Request)
    requires request.tenant == 0 && request.config.maxRequests == 1 && WindowNanos(request.config) > 0
    ensures var requests := [request, request];
      && Of(0, requests) == requests && Opening(requests) == 0 && LatestDecision(0, requests) == Rejected
  {
    assert Of(0, []) == [];
    OfNext([], request);
    assert [] + [request] == [request];
    OfNext([request], request);
    assert [request] + [request] == [request, request];
    NextIsAdmittedIff([request], request);
    assert [request, request][..1] == [request];
  }

  // ----- how many requests an interval admits

  /** The number of requests admitted at times in [a, b). */
  function AdmittedIn(requests: seq<Request>, ds: seq<Decision>, a: Instant, b: Instant): nat
    requires |ds| == |requests|
    decreases |requests|
  {
    if requests == [] then 0
    else (if ds[0].Admitted? && a <= requests[0].now < b then 1 else 0)
         + AdmittedIn(requests[1..], ds[1..], a, b)
  }

  /** How many windows of length `len` can open in a stretch of time `d`. */
  function Slots(d: int, len: nat): nat
    requires len > 0
    decreases if d > 0 then d else 0
  {
    if d <= 0 then 0 else 1 + Slots(d - len, len)
  }

  lemma {:induction false} SlotsGrow(d: int, e: int, len: nat)
    requires len > 0 && d <= e
    ensures Slots(d, len) <= Slots(e, len)
    decreases if e > 0 then e else 0
  {
    if d > 0 { SlotsGrow(d - len, e - len, len); }
  }

  /** That is the stretch divided by the length, rounded up: the least number of lengths that cover it. */
  lemma {:induction false} SlotsIsCeiling(d: nat, len: nat)
    requires len > 0
    ensures d <= Slots(d, len) * len
    ensures d > 0 ==> (Slots(d, len) - 1) * len < d
    decreases d
  {
    if d > len {
      SlotsIsCeiling(d - len, len);
      var n := Slots(d - len, len);
      assert (n + 1) * len == n * len + len;
      assert n * len == (n - 1) * len + len;
    } else if d > 0 {
      assert Slots(d - len, len) == 0;
    }
  }

  ghost predicate Constant(requests: seq<Request>, config: RateLimitConfig) {
    forall i :: 0 <= i < |requests| ==> requests[i].config == config
  }

  /** Requests from `b` on do not count. */
  lemma {:induction false} NothingLate(w: Option<Window>, requests: seq<Request>, a: Instant, b: Instant)
    requires InTime(requests, b)
    ensures AdmittedIn(requests, Alone(w, requests), a, b) == 0
    decreases |requests|
  {
    if requests != [] {
      InTimeLater(requests[1..], requests[0].now, b);
      NothingLate(Some(NextWindow(w, requests[0].config, requests[0].now)), requests[1..], a, b);
    }
  }

  lemma {:induction false} InTimeLater(requests: seq<Request>, from: Instant, earlier: Instant)
    requires InTime(requests, from) && earlier <= from
    ensures InTime(requests, earlier)
  {
  }

  /** What a window still has to give. */
  function Room(w: Window, max: nat): nat {
    if w.count < max then max - w.count else 0
  }

  /** The most that can be admitted in [a, b) when all requests to come are at or after `a`. */
  function Supply(w: Option<Window>, config: RateLimitConfig, a: Instant, b: Instant): nat
    requires WindowNanos(config) > 0
  {
    var len, max := WindowNanos(config), config.maxRequests;
    if w.None? || w.value.start + len <= a then Slots(b - a, len) * max
    else Room(w.value, max) + Slots(b - (w.value.start + len), len) * max
  }

  lemma {:induction false} AdmittedWithinSupply(
    w: Option<Window>, requests: seq<Request>, config: RateLimitConfig, a: Instant, b: Instant, from: Instant)
    requires WindowNanos(config) > 0 && Constant(requests, config)
    requires InTime(requests, from) && a <= from && (w.Some? ==> w.value.start <= from)
    ensures AdmittedIn(requests, Alone(w, requests), a, b) <= Supply(w, config, a, b)
    decreases |requests|
  {
    if requests != [] {
      var t := requests[0].now;
      var w' := NextWindow(w, config, t);
      if t >= b {
        InTimeLater(requests, t, b);
        NothingLate(w, requests, a, b);
      } else {
        AdmittedWithinSupply(Some(w'), requests[1..], config, a, b, t);
        SupplyStep(w, config, a, b, t);
      }
    }
  }

  /** One request takes no more from the supply than it uses. */
  lemma SupplyStep(w: Option<Window>, config: RateLimitConfig, a: Instant, b: Instant, t: Instant)
    requires WindowNanos(config) > 0 && a <= t < b && (w.Some? ==> w.value.start <= t)
    ensures var w' := NextWindow(w, config, t);
      (if Decide(w', config).Admitted? then 1 else 0) + Supply(Some(w'), config, a, b) <= Supply(w, config, a, b)
  {
    var len, max := WindowNanos(config), config.maxRequests;
    if Expired(w, config, t) {
      var edge := if w.None? || w.value.start + len <= a then a else w.value.start + len;
      SlotsGrow(b - t, b - edge, len);
      assert Slots(b - t, len) == 1 + Slots(b - (t + len), len);
      MoreSlots(Slots(b - t, len), Slots(b - edge, len), max);
      assert (1 + Slots(b - (t + len), len)) * max == max + Slots(b - (t + len), len) * max;
    }
  }

  lemma MoreSlots(n: nat, m: nat, max: nat)
    requires n <= m
    ensures n * max <= m * max
  {
  }

  /**
   The most that a stretch of time of length `d` can admit: as many full quotas as windows can open in it,
   or, if a window was already open and outlasts its first instant, what that one has left and a full
   quota for each window that can open in the rest.
   */
  function MostAdmitted(config: RateLimitConfig, d: nat): int
    requires WindowNanos(config) > 0
  {
    var len, max := WindowNanos(config), config.maxRequests;
    var anew, straddling := Slots(d, len) * max, Slots(d - 1, len) * max + max - 1;
    if anew >= straddling then anew else straddling
  }

  /** One tenant's requests never exceed it. */
  lemma {:induction false} SlidingBoundAlone(
    w: Option<Window>, requests: seq<Request>, config: RateLimitConfig, a: Instant, b: Instant, from: Instant)
    requires WindowNanos(config) > 0 && Constant(requests, config) && a < b
    requires InTime(requests, from) && (w.Some? ==> w.value.start <= from && w.value.count > 0)
    ensures AdmittedIn(requests, Alone(w, requests), a, b) <= MostAdmitted(config, b - a)
    decreases |requests|
  {
    if requests != [] {
      var t := requests[0].now;
      if t < a {
        SlidingBoundAlone(Some(NextWindow(w, config, t)), requests[1..], config, a, b, t);
      } else {
        InTimeSame(requests, from);
        AdmittedWithinSupply(w, requests, config, a, b, t);
        SupplyIsBounded(w, config, a, b);
      }
    }
  }

  lemma InTimeSame(requests: seq<Request>, from: Instant)
    requires InTime(requests, from) && requests != []
    ensures InTime(requests, requests[0].now)
  {
  }

  lemma SupplyIsBounded(w: Option<Window>, config: RateLimitConfig, a: Instant, b: Instant)
    requires WindowNanos(config) > 0 && a < b && (w.Some? ==> w.value.count > 0)
    ensures Supply(w, config, a, b) <= MostAdmitted(config, b - a)
  {
    var len, max := WindowNanos(config), config.maxRequests;
    if w.Some? && w.value.start + len > a {
      var rest := b - (w.value.start + len);
      SlotsGrow(rest, b - a - 1, len);
      MoreSlots(Slots(rest, len), Slots(b - a - 1, len), max);
      SlotsGrow(rest, b - a, len);
      MoreSlots(Slots(rest, len), Slots(b - a, len), max);
    }
  }

  lemma {:induction false} OfInTime(requests: seq<Request>, tenant: Uuid, from: Instant)
    requires InTime(requests, from)
    ensures InTime(Of(tenant, requests), from)
    decreases |requests|
  {
    if requests != [] {
      OfInTime(requests[1..], tenant, requests[0].now);
      if requests[0].tenant != tenant {
        assert Of(tenant, requests) == Of(tenant, requests[1..]);
        InTimeLater(Of(tenant, requests[1..]), requests[0].now, from);
      } else {
        assert Of(tenant, requests)[1..] == Of(tenant, requests[1..]);
      }
    }
  }

  /** How often a tenant is admitted at times in [a, b), in a run from an empty limiter. */
  function AdmittedTo(tenant: Uuid, requests: seq<Request>, a: Instant, b: Instant): nat {
    AdmittedIn(Of(tenant, requests), DecisionsOf(tenant, requests, Decisions(map[], requests)), a, b)
  }

  /**
   Main result, over every run of any number of tenants: what any stretch of time [a, b) can admit to a
   tenant with a constant configuration; within the length of one window, fewer than twice the limit.
   */
  lemma {:induction false} SlidingBound(
    requests: seq<Request>, tenant: Uuid, config: RateLimitConfig, a: Instant, b: Instant)
    requires InTime(requests, 0) && WindowNanos(config) > 0 && a < b
    requires Constant(Of(tenant, requests), config)
    ensures AdmittedTo(tenant, requests, a, b) <= MostAdmitted(config, b - a)
    ensures b - a == WindowNanos(config) && config.maxRequests > 0 ==>
      AdmittedTo(tenant, requests, a, b) <= 2 * config.maxRequests - 1
  {
    TenantsAreIndependent(map[], requests, tenant);
    OfInTime(requests, tenant, 0);
    SlidingBoundAlone(None, Of(tenant, requests), config, a, b, 0);
    if config.maxRequests > 0 {
      MostInOneWindow(config);
    }
  }

  lemma MostInOneWindow(config: RateLimitConfig)
    requires WindowNanos(config) > 0 && config.maxRequests > 0
    ensures MostAdmitted(config, WindowNanos(config)) == 2 * config.maxRequests - 1
  {
    var len := WindowNanos(config);
    assert Slots(0, len) == 0 && Slots(-1, len) == 0;
    assert Slots(len, len) == 1 && Slots(len - 1, len) == 1;
  }

  // ----- the bound is attained

  function Burst(config: RateLimitConfig, k: nat, now: Instant, rest: seq<Request>): seq<Request> {
    if k == 0 then rest else [Request(0, config, now)] + Burst(config, k - 1, now, rest)
  }

  /** A burst that fits into the window is admitted in full. */
  lemma {:induction false} BurstIsAdmitted(
    w: Window, config: RateLimitConfig, k: nat, now: Instant, rest: seq<Request>, a: Instant, b: Instant)
    requires a <= now < b && w.start <= now < w.start + WindowNanos(config) && w.count + k <= config.maxRequests
    ensures var requests := Burst(config, k, now, rest);
      AdmittedIn(requests, Alone(Some(w), requests), a, b)
        == k + AdmittedIn(rest, Alone(Some(Window(w.count + k, w.start)), rest), a, b)
    decreases k
  {
    if k > 0 {
      var requests := Burst(config, k, now, rest);
      assert requests[1..] == Burst(config, k - 1, now, rest);
      BurstIsAdmitted(Window(w.count + 1, w.start), config, k - 1, now, rest, a, b);
    }
  }

  /** A full quota at the start of each of the windows `k` to `n`. */
  function Quotas(config: RateLimitConfig, k: nat, n: nat): seq<Request>
    decreases n + 1 - k
  {
    if k > n then [] else Burst(config, config.maxRequests, k * WindowNanos(config), Quotas(config, k + 1, n))
  }

  lemma {:induction false} QuotasAreAdmitted(config: RateLimitConfig, k: nat, n: nat, a: Instant, b: Instant)
    requires config.maxRequests > 0 && WindowNanos(config) > 0 && 0 < k <= n + 1
    requires a <= k * WindowNanos(config) && n * WindowNanos(config) < b
    ensures AdmittedIn(Quotas(config, k, n), Alone(Some(Window(config.maxRequests, (k - 1) * WindowNanos(config))),
                                                   Quotas(config, k, n)), a, b)
         == (n + 1 - k) * config.maxRequests
    decreases n + 1 - k
  {
    var len, max := WindowNanos(config), config.maxRequests;
    if k <= n {
      var rest := Quotas(config, k + 1, n);
      var requests := Quotas(config, k, n);
      MoreSlots(k, n, len);
      Successor(k - 1, len);
      Successor(k, len);
      Successor(n - k, max);
      assert requests[1..] == Burst(config, max - 1, k * len, rest);
      assert NextWindow(Some(Window(max, (k - 1) * len)), config, k * len) == Window(1, k * len);
      BurstIsAdmitted(Window(1, k * len), config, max - 1, k * len, rest, a, b);
      QuotasAreAdmitted(config, k + 1, n, a, b);
    }
  }

  lemma Successor(k: nat, x: nat)
    ensures (k + 1) * x == k * x + x
  {
  }

  /** A request at 0, the rest of its quota at `late`, then a full quota at the start of each next window. */
  function Straddle(config: RateLimitConfig, late: Instant, n: nat): seq<Request>
    requires config.maxRequests > 0
  {
    Burst(config, 1, 0, Burst(config, config.maxRequests - 1, late, Quotas(config, 1, n)))
  }

  lemma {:induction false} StraddleIsAdmitted(config: RateLimitConfig, late: Instant, n: nat, b: Instant)
    requires config.maxRequests > 0 && late < WindowNanos(config)
    requires late < b && n * WindowNanos(config) < b
    ensures var requests, max := Straddle(config, late, n), config.maxRequests;
      AdmittedIn(requests, Alone(None, requests), late, b)
        == n * max + max - (if late == 0 then 0 else 1)
  {
    var max := config.maxRequests;
    var last := Quotas(config, 1, n);
    var middle := Burst(config, max - 1, late, last);
    assert Burst(config, 0, 0, middle) == middle;
    assert Straddle(config, late, n) == [Request(0, config, 0)] + middle;
    assert Straddle(config, late, n)[1..] == middle;
    assert NextWindow(None, config, 0) == Window(1, 0);
    BurstIsAdmitted(Window(1, 0), config, max - 1, late, last, late, b);
    QuotasAreAdmitted(config, 1, n, late, b);
  }

  /** A run of tenant 0 alone, under one configuration. */
  ghost predicate Solo(requests: seq<Request>, config: RateLimitConfig) {
    forall i :: 0 <= i < |requests| ==> requests[i].tenant == 0 && requests[i].config == config
  }

  lemma {:induction false} SoloIsOwn(requests: seq<Request>, config: RateLimitConfig)
    requires Solo(requests, config)
    ensures Of(0, requests) == requests
    decreases |requests|
  {
    if requests != [] {
      SoloIsOwn(requests[1..], config);
    }
  }

  lemma {:induction false} BurstInTime(
    config: RateLimitConfig, k: nat, now: Instant, rest: seq<Request>, from: Instant)
    requires InTime(rest, now) && Solo(rest, config) && from <= now
    ensures InTime(Burst(config, k, now, rest), from) && Solo(Burst(config, k, now, rest), config)
    decreases k
  {
    if k > 0 {
      BurstInTime(config, k - 1, now, rest, now);
      assert Burst(config, k, now, rest)[1..] == Burst(config, k - 1, now, rest);
    } else {
      InTimeLater(rest, now, from);
    }
  }

  lemma {:induction false} QuotasInTime(config: RateLimitConfig, k: nat, n: nat, from: Instant)
    requires from <= k * WindowNanos(config)
    ensures InTime(Quotas(config, k, n), from) && Solo(Quotas(config, k, n), config)
    decreases n + 1 - k
  {
    if k <= n {
      Successor(k, WindowNanos(config));
      QuotasInTime(config, k + 1, n, k * WindowNanos(config));
      BurstInTime(config, config.maxRequests, k * WindowNanos(config), Quotas(config, k + 1, n), from);
    }
  }

  lemma StraddleInTime(config: RateLimitConfig, late: Instant, n: nat)
    requires config.maxRequests > 0 && late < WindowNanos(config)
    ensures InTime(Straddle(config, late, n), 0) && Solo(Straddle(config, late, n), config)
  {
    QuotasInTime(config, 1, n, late);
    BurstInTime(config, config.maxRequests - 1, late, Quotas(config, 1, n), 0);
    BurstInTime(config, 1, 0, Burst(config, config.maxRequests - 1, late, Quotas(config, 1, n)), 0);
  }

  /** The run that gets the most out of a stretch of length `d`, and when to begin the stretch. */
  function GreedyRun(config: RateLimitConfig, d: nat): (Instant, seq<Request>)
    requires WindowNanos(config) > 0 && d > 0
  {
    var len := WindowNanos(config);
    if config.maxRequests == 0 then (0, [])
    else if Slots(d, len) == Slots(d - 1, len) then (len - 1, Straddle(config, len - 1, Slots(d, len)))
    else (0, Straddle(config, 0, Slots(d, len) - 1))
  }

  /** For every limit, window and length, the bound is what some run in the scope of `SlidingBound` admits. */
  lemma {:induction false} SlidingBoundIsTight(config: RateLimitConfig, d: nat)
    requires WindowNanos(config) > 0 && d > 0
    ensures var (a, requests) := GreedyRun(config, d);
      && InTime(requests, 0) && Constant(Of(0, requests), config)
      && AdmittedTo(0, requests, a, a + d) == MostAdmitted(config, d)
  {
    var (a, requests) := GreedyRun(config, d);
    if config.maxRequests > 0 {
      GreedyRunIsAdmitted(config, d);
      StraddleInTime(config, a, if a == 0 then Slots(d, WindowNanos(config)) - 1 else Slots(d, WindowNanos(config)));
      SoloIsOwn(requests, config);
      TenantsAreIndependent(map[], requests, 0);
    }
  }

  lemma GreedyRunIsAdmitted(config: RateLimitConfig, d: nat)
    requires config.maxRequests > 0 && WindowNanos(config) > 0 && d > 0
    ensures var (a, requests) := GreedyRun(config, d);
      AdmittedIn(requests, Alone(None, requests), a, a + d) == MostAdmitted(config, d)
  {
    var len, max := WindowNanos(config), config.maxRequests;
    var n, m := Slots(d, len), Slots(d - 1, len);
    SlotsIsCeiling(d, len);
    SlotsIsCeiling(d - 1, len);
    Successor(n - 1, len);
    Successor(n - 1, max);
    SlotsGrow(d - 1, d, len);
    if n == m {
      StraddleIsAdmitted(config, len - 1, n, len - 1 + d);
    } else {
      StraddleIsAdmitted(config, 0, n - 1, d);
      MoreSlots(m, n - 1, max);
    }
  }

  // ----- configuration changes within a window

  /** No request of the run, under its own configuration, finds the window over. */
  ghost predicate StaysOpen(start: Instant, requests: seq<Request>) {
    forall i :: 0 <= i < |requests| ==> !Over(start, requests[i].config, requests[i].now)
  }

  function AdmittedCount(ds: seq<Decision>): nat {
    if ds == [] then 0 else (if ds[0].Admitted? then 1 else 0) + AdmittedCount(ds[1..])
  }

  /** One window admits at most the largest limit it ever sees, less what it had counted before. */
  lemma {:induction false} LargestLimitRules(w: Window, requests: seq<Request>, max: nat)
    requires StaysOpen(w.start, requests)
    requires forall i :: 0 <= i < |requests| ==> requests[i].config.maxRequests <= max
    ensures AdmittedCount(Alone(Some(w), requests)) <= Room(w, max)
    decreases |requests|
  {
    if requests != [] {
      var ds := Alone(Some(w), requests);
      var w' := NextWindow(Some(w), requests[0].config, requests[0].now);
      LargestLimitRules(w', requests[1..], max);
      assert ds[1..] == Alone(Some(w'), requests[1..]);
    }
  }
}
