/** What the limiter promises over whole runs: evicting idle buckets is invisible when an idle bucket has had time
    to refill, every window of calls is bounded, and no schedule that respects the bucket admits more. */
module RateLimitTheorems {
  import opened Options
  import opened RateLimit

  /** One critical section under the limiter's mutex. */
  datatype Event =
    | Request(ip: string, created: real, now: real)
    | Tick(now: real)
  {
    function Start(): real {
      if Request? then created else now
    }
  }

  /** The clock never runs backwards, within a request or between events. */
  ghost predicate Ordered(events: seq<Event>) {
    && (forall i | 0 <= i < |events| :: events[i].Start() <= events[i].now)
    && (forall i, j | 0 <= i < j < |events| :: events[i].now <= events[j].Start())
  }

  // ----- the evicting table and the private bucket --------------------------------------------

  function TableStep(cfg: Config, m: Table, e: Event): Table {
    match e
    case Request(ip, created, now) => m[ip := AfterCall(cfg, Charged(cfg, m, ip, created), now)]
    case Tick(now) => Sweep(cfg, m, now)
  }

  function TableAfter(cfg: Config, events: seq<Event>): Table {
    if events == [] then map[]
    else TableStep(cfg, TableAfter(cfg, events[..|events| - 1]), events[|events| - 1])
  }

  /** What the limiter answers to request `i`. */
  predicate Decision(cfg: Config, events: seq<Event>, i: nat)
    requires i < |events| && events[i].Request?
  {
    Admits(cfg, Charged(cfg, TableAfter(cfg, events[..i]), events[i].ip, events[i].created), events[i].now)
  }

  /** A bucket that sees only the requests of `ip` and is never evicted. */
  function PrivateAfter(cfg: Config, ip: string, events: seq<Event>): Option<Bucket> {
    if events == [] then None
    else
      var before := PrivateAfter(cfg, ip, events[..|events| - 1]);
      var e := events[|events| - 1];
      if e.Request? && e.ip == ip then Some(AfterCall(cfg, PrivateCharged(cfg, before, e.created), e.now))
      else before
  }

  function PrivateCharged(cfg: Config, own: Option<Bucket>, created: real): Bucket {
    if own.Some? then own.value else FullBucket(cfg, created)
  }

  predicate PrivateDecision(cfg: Config, events: seq<Event>, i: nat)
    requires i < |events| && events[i].Request?
  {
    Admits(cfg, PrivateCharged(cfg, PrivateAfter(cfg, events[i].ip, events[..i]), events[i].created), events[i].now)
  }

  /** Eviction and the other clients never change an answer. */
  ghost predicate Transparent(cfg: Config) {
    forall events: seq<Event>, i: nat | Ordered(events) && i < |events| && events[i].Request? ::
      Decision(cfg, events, i) == PrivateDecision(cfg, events, i)
  }

  // ----- eviction is transparent ----------------------------------------------------------------

  lemma InflowMonotone(cfg: Config, x: real, y: real)
    requires x <= y && 0.0 <= cfg.rate
    ensures Inflow(cfg, x) <= Inflow(cfg, y)
  {
  }

  lemma InflowAdds(cfg: Config, x: real, y: real)
    ensures Inflow(cfg, x + y) == Inflow(cfg, x) + Inflow(cfg, y)
  {
  }

  lemma InflowOfNothing(cfg: Config)
    ensures Inflow(cfg, 0.0) == 0.0
  {
  }

  lemma InflowIsPositive(cfg: Config, x: real)
    requires 0.0 <= x && 0.0 <= cfg.rate
    ensures 0.0 <= Inflow(cfg, x)
  {
  }

  /** Reading the bucket at the moment it was last used adds nothing. */
  lemma LevelAtOnce(cfg: Config, b: Bucket)
    ensures Level(cfg, b, b.lastTime) == if b.tokens > cfg.burst as real then cfg.burst as real else b.tokens
  {
    hide Inflow;
    InflowOfNothing(cfg);
  }

  lemma CallSpends(cfg: Config, b: Bucket, now: real)
    ensures Level(cfg, AfterCall(cfg, b, now), now) == Level(cfg, b, now) - if Admits(cfg, b, now) then 1.0 else 0.0
  {
    hide Inflow;
    LevelAtOnce(cfg, AfterCall(cfg, b, now));
    LevelIsCapped(cfg, b, now);
  }

  lemma LevelIsCapped(cfg: Config, b: Bucket, now: real)
    ensures Level(cfg, b, now) <= cfg.burst as real
  {
    hide Inflow;
  }

  ghost predicate Healthy(cfg: Config, b: Bucket, now: real) {
    0.0 <= b.tokens <= cfg.burst as real && b.lastTime <= now
  }

  /** The stored bucket is the private one, or it was evicted after its private twin went stale. */
  ghost predicate InStep(cfg: Config, m: Table, own: Option<Bucket>, ip: string, now: real) {
    match own
    case None => ip !in m
    case Some(b) =>
      && Healthy(cfg, b, now)
      && if ip in m then m[ip] == b else now - b.lastTime > cfg.staleAfter
  }

  lemma StaleMeansFull(cfg: Config, b: Bucket, now: real)
    requires 0.0 <= cfg.rate && Inflow(cfg, cfg.staleAfter) >= cfg.burst as real
    requires 0.0 <= b.tokens && now - b.lastTime >= cfg.staleAfter
    ensures Level(cfg, b, now) == cfg.burst as real
  {
    hide Inflow;
    InflowMonotone(cfg, cfg.staleAfter, now - b.lastTime);
  }

  lemma FreshMeansFull(cfg: Config, created: real, now: real)
    requires 0.0 <= cfg.rate && created <= now
    ensures Level(cfg, FullBucket(cfg, created), now) == cfg.burst as real
  {
    hide Inflow;
    InflowIsPositive(cfg, now - created);
  }

  lemma CallKeepsHealthy(cfg: Config, b: Bucket, now: real)
    requires 0.0 <= cfg.rate && 0 <= cfg.burst && Healthy(cfg, b, now)
    ensures Healthy(cfg, AfterCall(cfg, b, now), now)
  {
    hide Inflow;
    InflowIsPositive(cfg, now - b.lastTime);
  }

  /** On a request of its own client, the evicting table and the private bucket agree. */
  lemma SameCharge(cfg: Config, m: Table, own: Option<Bucket>, e: Event, last: real)
    requires 0.0 <= cfg.rate && 1 <= cfg.burst && Inflow(cfg, cfg.staleAfter) >= cfg.burst as real
    requires e.Request? && last <= e.created <= e.now && InStep(cfg, m, own, e.ip, last)
    ensures Level(cfg, Charged(cfg, m, e.ip, e.created), e.now) == Level(cfg, PrivateCharged(cfg, own, e.created), e.now)
    ensures Healthy(cfg, AfterCall(cfg, PrivateCharged(cfg, own, e.created), e.now), e.now)
  {
    hide Inflow;
    FreshMeansFull(cfg, e.created, e.now);
    if own.Some? {
      if e.ip !in m {
        StaleMeansFull(cfg, own.value, e.now);
      }
      CallKeepsHealthy(cfg, own.value, e.now);
    }
  }

  lemma {:induction false} StaysInStep(cfg: Config, ip: string, events: seq<Event>)
    requires Ordered(events) && events != []
    requires 0.0 <= cfg.rate && 1 <= cfg.burst && Inflow(cfg, cfg.staleAfter) >= cfg.burst as real
    ensures InStep(cfg, TableAfter(cfg, events), PrivateAfter(cfg, ip, events), ip, events[|events| - 1].now)
  {
    hide Inflow;
    var e := events[|events| - 1];
    var before := events[..|events| - 1];
    var last := if before == [] then e.Start() else before[|before| - 1].now;
    if before != [] {
      StaysInStep(cfg, ip, before);
    }
    if e.Request? && e.ip == ip {
      SameCharge(cfg, TableAfter(cfg, before), PrivateAfter(cfg, ip, before), e, last);
    }
  }

  lemma EnoughTimeIsTransparent(cfg: Config, events: seq<Event>, i: nat)
    requires 0.0 <= cfg.rate && 1 <= cfg.burst && Inflow(cfg, cfg.staleAfter) >= cfg.burst as real
    requires Ordered(events) && i < |events| && events[i].Request?
    ensures Decision(cfg, events, i) == PrivateDecision(cfg, events, i)
  {
    hide Inflow;
    var before := events[..i];
    var last := if before == [] then events[i].created else before[i - 1].now;
    if before != [] {
      StaysInStep(cfg, events[i].ip, before);
    }
    SameCharge(cfg, TableAfter(cfg, before), PrivateAfter(cfg, events[i].ip, before), events[i], last);
  }

  // ----- windows are bounded ---------------------------------------------------------------------

  /** Requests of `ip` that the private bucket admits among events `i`, .., `j - 1`. */
  function PrivateAdmitted(cfg: Config, ip: string, events: seq<Event>, i: nat, j: nat): nat
    requires i <= j <= |events|
  {
    if i == j then 0
    else
      PrivateAdmitted(cfg, ip, events, i, j - 1)
      + if events[j - 1].Request? && events[j - 1].ip == ip && PrivateDecision(cfg, events, j - 1) then 1 else 0
  }

  /** Requests of `ip` that the evicting limiter admits among events `i`, .., `j - 1`. */
  function Admitted(cfg: Config, ip: string, events: seq<Event>, i: nat, j: nat): nat
    requires i <= j <= |events|
  {
    if i == j then 0
    else
      Admitted(cfg, ip, events, i, j - 1)
      + if events[j - 1].Request? && events[j - 1].ip == ip && Decision(cfg, events, j - 1) then 1 else 0
  }

  function Supply(cfg: Config, own: Option<Bucket>, now: real): real {
    if own.Some? then Level(cfg, own.value, now) else cfg.burst as real
  }

  lemma {:induction false} PrivateStaysHealthy(cfg: Config, ip: string, events: seq<Event>)
    requires Ordered(events) && 0.0 <= cfg.rate && 0 <= cfg.burst && events != []
    ensures var own := PrivateAfter(cfg, ip, events);
            own.Some? ==> Healthy(cfg, own.value, events[|events| - 1].now)
  {
    hide Inflow;
    var e := events[|events| - 1];
    var before := events[..|events| - 1];
    if before != [] {
      PrivateStaysHealthy(cfg, ip, before);
    }
    if e.Request? && e.ip == ip {
      FreshMeansFull(cfg, e.created, e.now);
      var own := PrivateAfter(cfg, ip, before);
      if own.Some? {
        CallKeepsHealthy(cfg, own.value, e.now);
      }
    }
  }

  /** The level grows at most at the configured rate. */
  lemma LevelGrows(cfg: Config, b: Bucket, s: real, t: real)
    requires 0.0 <= cfg.rate && s <= t
    ensures Level(cfg, b, t) <= Level(cfg, b, s) + Inflow(cfg, t - s)
  {
    hide Inflow;
    InflowIsPositive(cfg, t - s);
    InflowAdds(cfg, s - b.lastTime, t - s);
  }

  lemma SupplyGrows(cfg: Config, own: Option<Bucket>, s: real, t: real)
    requires 0.0 <= cfg.rate && s <= t
    ensures Supply(cfg, own, t) <= Supply(cfg, own, s) + Inflow(cfg, t - s)
  {
    hide Inflow;
    InflowIsPositive(cfg, t - s);
    if own.Some? {
      LevelGrows(cfg, own.value, s, t);
    }
  }

  /** An event spends what it admits from the supply of its own client. */
  lemma SupplySpent(cfg: Config, ip: string, events: seq<Event>, j: nat)
    requires Ordered(events) && 0.0 <= cfg.rate && 0 < j <= |events|
    ensures Supply(cfg, PrivateAfter(cfg, ip, events[..j]), events[j - 1].now)
            + (PrivateAdmitted(cfg, ip, events, j - 1, j)) as real
            == Supply(cfg, PrivateAfter(cfg, ip, events[..j - 1]), events[j - 1].now)
  {
    hide Inflow;
    var e := events[j - 1];
    var own := PrivateAfter(cfg, ip, events[..j - 1]);
    assert events[..j][..j - 1] == events[..j - 1];
    assert PrivateAdmitted(cfg, ip, events, j - 1, j - 1) == 0;
    if e.Request? && e.ip == ip {
      CallSpends(cfg, PrivateCharged(cfg, own, e.created), e.now);
      FreshMeansFull(cfg, e.created, e.now);
    }
  }

  /** Admissions plus what is left never exceed a full bucket plus what flowed in. */
  ghost predicate Conserved(cfg: Config, ip: string, events: seq<Event>, i: nat, j: nat)
    requires i < j <= |events|
  {
    PrivateAdmitted(cfg, ip, events, i, j) as real
    + Supply(cfg, PrivateAfter(cfg, ip, events[..j]), events[j - 1].now)
    <= cfg.burst as real + Inflow(cfg, events[j - 1].now - events[i].now)
  }

  lemma FirstWindow(cfg: Config, ip: string, events: seq<Event>, j: nat)
    requires Ordered(events) && 0.0 <= cfg.rate && 0 < j <= |events|
    ensures Conserved(cfg, ip, events, j - 1, j)
  {
    hide Inflow;
    SupplySpent(cfg, ip, events, j);
    LevelsAreCapped(cfg, PrivateAfter(cfg, ip, events[..j - 1]), events[j - 1].now);
    InflowOfNothing(cfg);
  }

  lemma NextWindow(cfg: Config, ip: string, events: seq<Event>, i: nat, j: nat)
    requires Ordered(events) && 0.0 <= cfg.rate && i < j - 1 < |events| && Conserved(cfg, ip, events, i, j - 1)
    ensures Conserved(cfg, ip, events, i, j)
  {
    hide Inflow;
    var own := PrivateAfter(cfg, ip, events[..j - 1]);
    var t0, t1, t2 := events[i].now, events[j - 2].now, events[j - 1].now;
    SupplySpent(cfg, ip, events, j);
    SupplyGrows(cfg, own, t1, t2);
    AdmittedSplits(cfg, ip, events, i, j);
    AddWindows(PrivateAdmitted(cfg, ip, events, i, j - 1), PrivateAdmitted(cfg, ip, events, j - 1, j),
               Supply(cfg, own, t1), Supply(cfg, own, t2), Supply(cfg, PrivateAfter(cfg, ip, events[..j]), t2),
               cfg, t0, t1, t2);
  }

  lemma {:induction false} Conservation(cfg: Config, ip: string, events: seq<Event>, i: nat, j: nat)
    requires Ordered(events) && 0.0 <= cfg.rate && i < j <= |events|
    ensures Conserved(cfg, ip, events, i, j)
  {
    hide Inflow;
    if i == j - 1 {
      FirstWindow(cfg, ip, events, j);
    } else {
      Conservation(cfg, ip, events, i, j - 1);
      NextWindow(cfg, ip, events, i, j);
    }
  }

  lemma LevelsAreCapped(cfg: Config, own: Option<Bucket>, t: real)
    ensures Supply(cfg, own, t) <= cfg.burst as real
  {
    hide Inflow;
  }

  lemma AdmittedSplits(cfg: Config, ip: string, events: seq<Event>, i: nat, j: nat)
    requires i < j <= |events|
    ensures PrivateAdmitted(cfg, ip, events, i, j)
            == PrivateAdmitted(cfg, ip, events, i, j - 1) + PrivateAdmitted(cfg, ip, events, j - 1, j)
  {
    hide Inflow;
    assert PrivateAdmitted(cfg, ip, events, j - 1, j - 1) == 0;
  }

  lemma AddWindows(a1: nat, a2: nat, s1: real, s2: real, s3: real, cfg: Config, t0: real, t1: real, t2: real)
    requires a1 as real + s1 <= cfg.burst as real + Inflow(cfg, t1 - t0)
    requires s2 <= s1 + Inflow(cfg, t2 - t1)
    requires s3 + a2 as real == s2
    ensures (a1 + a2) as real + s3 <= cfg.burst as real + Inflow(cfg, t2 - t0)
  {
    hide Inflow;
    InflowAdds(cfg, t1 - t0, t2 - t1);
  }

  lemma {:induction false} NoBurstNoAdmission(cfg: Config, ip: string, events: seq<Event>, i: nat, j: nat)
    requires cfg.burst < 1 && i <= j <= |events|
    ensures PrivateAdmitted(cfg, ip, events, i, j) == 0 && Admitted(cfg, ip, events, i, j) == 0
  {
    hide Inflow;
    if i < j {
      NoBurstNoAdmission(cfg, ip, events, i, j - 1);
    }
  }

  lemma LevelIsPositive(cfg: Config, b: Bucket, now: real)
    requires 0.0 <= cfg.rate && 0 <= cfg.burst && Healthy(cfg, b, now)
    ensures 0.0 <= Level(cfg, b, now)
  {
    hide Inflow;
    InflowIsPositive(cfg, now - b.lastTime);
  }

  lemma SupplyIsPositive(cfg: Config, ip: string, events: seq<Event>)
    requires Ordered(events) && 0.0 <= cfg.rate && 0 <= cfg.burst && events != []
    ensures 0.0 <= Supply(cfg, PrivateAfter(cfg, ip, events), events[|events| - 1].now)
  {
    hide Inflow;
    PrivateStaysHealthy(cfg, ip, events);
    var own := PrivateAfter(cfg, ip, events);
    if own.Some? {
      LevelIsPositive(cfg, own.value, events[|events| - 1].now);
    }
  }

  /** A private bucket admits at most a burst plus the inflow over any window of any run. */
  lemma PrivateWindowBound(cfg: Config, ip: string, events: seq<Event>, i: nat, j: nat)
    requires Ordered(events) && 0.0 <= cfg.rate && i < j <= |events|
    ensures PrivateAdmitted(cfg, ip, events, i, j) as real
            <= (if cfg.burst < 0 then 0 else cfg.burst) as real + Inflow(cfg, events[j - 1].now - events[i].now)
  {
    hide Inflow;
    if cfg.burst < 1 {
      NoBurstNoAdmission(cfg, ip, events, i, j);
      InflowIsPositive(cfg, events[j - 1].now - events[i].now);
    } else {
      Conservation(cfg, ip, events, i, j);
      SupplyIsPositive(cfg, ip, events[..j]);
      assert events[..j][j - 1] == events[j - 1];
    }
  }

  lemma {:induction false} TransparentCounts(cfg: Config, ip: string, events: seq<Event>, i: nat, j: nat)
    requires Transparent(cfg) && Ordered(events) && i <= j <= |events|
    ensures Admitted(cfg, ip, events, i, j) == PrivateAdmitted(cfg, ip, events, i, j)
  {
    hide Inflow;
    if i < j {
      TransparentCounts(cfg, ip, events, i, j - 1);
    }
  }

  /** Eviction is invisible when a bucket refills completely before it can be evicted, and when the burst admits
      nothing at all. */
  lemma EnoughForAll(cfg: Config)
    requires cfg.burst < 1 || (0.0 <= cfg.rate && Inflow(cfg, cfg.staleAfter) >= cfg.burst as real)
    ensures Transparent(cfg)
  {
    hide Inflow;
    if cfg.burst >= 1 {
      forall events: seq<Event>, i: nat | Ordered(events) && i < |events| && events[i].Request?
        ensures Decision(cfg, events, i) == PrivateDecision(cfg, events, i)
      {
        EnoughTimeIsTransparent(cfg, events, i);
      }
    }
  }

  /** The same bound for the evicting limiter, whatever the other clients do. */
  lemma WindowBound(cfg: Config, ip: string, events: seq<Event>, i: nat, j: nat)
    requires Ordered(events) && 0.0 <= cfg.rate && i < j <= |events|
    requires cfg.burst < 1 || Inflow(cfg, cfg.staleAfter) >= cfg.burst as real
    ensures Admitted(cfg, ip, events, i, j) as real
            <= (if cfg.burst < 0 then 0 else cfg.burst) as real + Inflow(cfg, events[j - 1].now - events[i].now)
  {
    hide Inflow;
    EnoughForAll(cfg);
    TransparentCounts(cfg, ip, events, i, j);
    PrivateWindowBound(cfg, ip, events, i, j);
  }

  // ----- greedy is optimal ------------------------------------------------------------------------------

  /** The bucket's tokens after the arrivals at `times`, spending one token for each accepted arrival. */
  function Spend(cfg: Config, b: Bucket, times: seq<real>, accept: seq<bool>): Bucket
    requires |times| == |accept|
  {
    if times == [] then b
    else
      var n := |times| - 1;
      var level := Level(cfg, Spend(cfg, b, times[..n], accept[..n]), times[n]);
      Bucket(if accept[n] then level - 1.0 else level, times[n])
  }

  /** A schedule that only accepts what its own capped bucket covers. */
  ghost predicate Covered(cfg: Config, b: Bucket, times: seq<real>, accept: seq<bool>)
    requires |times| == |accept|
  {
    forall n | 0 <= n < |times| && accept[n] :: Level(cfg, Spend(cfg, b, times[..n], accept[..n]), times[n]) >= 1.0
  }

  /** The answers the bucket itself gives. */
  function Greedy(cfg: Config, b: Bucket, times: seq<real>): (g: seq<bool>)
    ensures |g| == |times|
  {
    if times == [] then []
    else
      var n := |times| - 1;
      Greedy(cfg, b, times[..n]) + [Admits(cfg, GreedyBucket(cfg, b, times[..n]), times[n])]
  }

  function GreedyBucket(cfg: Config, b: Bucket, times: seq<real>): Bucket {
    if times == [] then b
    else AfterCall(cfg, GreedyBucket(cfg, b, times[..|times| - 1]), times[|times| - 1])
  }

  function Count(accept: seq<bool>): nat {
    if accept == [] then 0
    else Count(accept[..|accept| - 1]) + if accept[|accept| - 1] then 1 else 0
  }

  /** The bucket is never behind, and whatever tokens it is short of it has already handed out. */
  lemma {:induction false} NeverBehind(cfg: Config, b: Bucket, times: seq<real>, accept: seq<bool>)
    requires |times| == |accept| && Covered(cfg, b, times, accept)
    ensures Count(Greedy(cfg, b, times)) >= Count(accept)
    ensures GreedyBucket(cfg, b, times).tokens + (Count(Greedy(cfg, b, times)) - Count(accept)) as real
            >= Spend(cfg, b, times, accept).tokens
    ensures times != [] ==> GreedyBucket(cfg, b, times).lastTime == Spend(cfg, b, times, accept).lastTime
  {
    hide Inflow;
    if times != [] {
      var n := |times| - 1;
      assert Covered(cfg, b, times[..n], accept[..n]) by {
        forall i | 0 <= i < n && accept[..n][i]
          ensures Level(cfg, Spend(cfg, b, times[..n][..i], accept[..n][..i]), times[..n][i]) >= 1.0
        {
          assert times[..n][..i] == times[..i] && accept[..n][..i] == accept[..i];
        }
      }
      NeverBehind(cfg, b, times[..n], accept[..n]);
      var g, a := GreedyBucket(cfg, b, times[..n]), Spend(cfg, b, times[..n], accept[..n]);
      var lead := Count(Greedy(cfg, b, times[..n])) - Count(accept[..n]);
      LevelGap(cfg, g, a, lead, times[n]);
      assert Greedy(cfg, b, times)[..n] == Greedy(cfg, b, times[..n]);
    }
  }

  lemma LevelGap(cfg: Config, g: Bucket, a: Bucket, lead: nat, t: real)
    requires g.lastTime == a.lastTime && g.tokens + lead as real >= a.tokens
    ensures Level(cfg, g, t) + lead as real >= Level(cfg, a, t)
  {
    hide Inflow;
  }

  /** On every prefix of any arrivals the bucket admits at least as many requests as any covered schedule. */
  lemma GreedyIsOptimal(cfg: Config, b: Bucket, times: seq<real>, accept: seq<bool>, n: nat)
    requires |times| == |accept| && Covered(cfg, b, times, accept) && n <= |times|
    ensures Covered(cfg, b, times, Greedy(cfg, b, times))
    ensures Count(Greedy(cfg, b, times)[..n]) >= Count(accept[..n])
  {
    hide Inflow;
    GreedyIsCovered(cfg, b, times);
    GreedyPrefix(cfg, b, times, n);
    assert Covered(cfg, b, times[..n], accept[..n]) by {
      forall i | 0 <= i < n && accept[..n][i]
        ensures Level(cfg, Spend(cfg, b, times[..n][..i], accept[..n][..i]), times[..n][i]) >= 1.0
      {
        assert times[..n][..i] == times[..i] && accept[..n][..i] == accept[..i];
      }
    }
    NeverBehind(cfg, b, times[..n], accept[..n]);
  }

  lemma {:induction false} GreedyPrefix(cfg: Config, b: Bucket, times: seq<real>, n: nat)
    requires n <= |times|
    ensures Greedy(cfg, b, times)[..n] == Greedy(cfg, b, times[..n])
  {
    hide Inflow;
    if n < |times| {
      var m := |times| - 1;
      GreedyPrefix(cfg, b, times[..m], n);
      assert times[..m][..n] == times[..n];
      assert Greedy(cfg, b, times)[..n] == Greedy(cfg, b, times[..m])[..n];
    } else {
      assert times[..n] == times;
    }
  }

  lemma {:induction false} GreedySpends(cfg: Config, b: Bucket, times: seq<real>)
    ensures Spend(cfg, b, times, Greedy(cfg, b, times)) == GreedyBucket(cfg, b, times)
  {
    hide Inflow;
    if times != [] {
      var n := |times| - 1;
      GreedySpends(cfg, b, times[..n]);
      assert Greedy(cfg, b, times)[..n] == Greedy(cfg, b, times[..n]);
    }
  }

  lemma GreedyIsCovered(cfg: Config, b: Bucket, times: seq<real>)
    ensures Covered(cfg, b, times, Greedy(cfg, b, times))
  {
    hide Inflow;
    var g := Greedy(cfg, b, times);
    forall n | 0 <= n < |times| && g[n]
      ensures Level(cfg, Spend(cfg, b, times[..n], g[..n]), times[n]) >= 1.0
    {
      GreedyPrefix(cfg, b, times, n);
      GreedyPrefix(cfg, b, times, n + 1);
      assert g[..n + 1][n] == g[n];
      assert times[..n + 1][..n] == times[..n];
      GreedySpends(cfg, b, times[..n]);
    }
  }
}
