/** Exactly when eviction is invisible and windows are bounded, also with a ticker that sweeps at the multiples of its
    interval and at no other time. */
module RateLimitExact {
  import opened Options
  import opened RateLimit
  import opened RateLimitTheorems

  // ----- the ticker -----------------------------------------------------------------------------------------

  /** The time of the `k`th tick. */
  function TickTime(interval: real, k: int): real {
    k as real * interval
  }

  function TickCount(events: seq<Event>): nat {
    if events == [] then 0
    else TickCount(events[..|events| - 1]) + if events[|events| - 1].Tick? then 1 else 0
  }

  /** The `i`th event is the next tick at its time, or a request that comes no later than the next tick. */
  ghost predicate OnTime(interval: real, events: seq<Event>, i: nat)
    requires i < |events|
  {
    var next := TickTime(interval, TickCount(events[..i]) + 1);
    if events[i].Tick? then events[i].now == next else events[i].now <= next
  }

  /** The sweeps come at the multiples of the interval, and none is left out. */
  ghost predicate Periodic(interval: real, events: seq<Event>) {
    forall i | 0 <= i < |events| :: OnTime(interval, events, i)
  }

  ghost predicate TickerTransparent(cfg: Config, interval: real) {
    forall events: seq<Event>, i: nat | Ordered(events) && Periodic(interval, events) && i < |events| && events[i].Request? ::
      Decision(cfg, events, i) == PrivateDecision(cfg, events, i)
  }

  // ----- a client that comes back -----------------------------------------------------------------------------

  /** `n` requests at `t`, the first `m` ticks, and `n` more requests at the moment of the last tick. */
  function Relapse(n: nat, interval: real, m: nat, t: real): (events: seq<Event>)
    ensures |events| == 2 * n + m
  {
    seq(2 * n + m, i =>
      if i < n then Request("a", t, t)
      else if i < n + m then Tick(TickTime(interval, i - n + 1))
      else Request("a", TickTime(interval, m), TickTime(interval, m)))
  }

  /** The first volley comes before the first tick, and more than `staleAfter` before the second. */
  ghost predicate Timed(cfg: Config, interval: real, m: nat, t: real) {
    && 1 <= cfg.burst && 0.0 < interval && 1 <= m && 0.0 <= t <= interval
    && TickTime(interval, m) - t > cfg.staleAfter
    && Inflow(cfg, TickTime(interval, m) - t) < cfg.burst as real
  }

  lemma RelapseAt(n: nat, interval: real, m: nat, t: real, i: nat)
    requires i < 2 * n + m
    ensures Relapse(n, interval, m, t)[..i + 1][..i] == Relapse(n, interval, m, t)[..i]
    ensures Relapse(n, interval, m, t)[i]
            == if i < n then Request("a", t, t)
               else if i < n + m then Tick(TickTime(interval, i - n + 1))
               else Request("a", TickTime(interval, m), TickTime(interval, m))
  {
  }

  lemma TicksInOrder(interval: real, i: int, j: int)
    requires 0.0 < interval && i <= j
    ensures TickTime(interval, i) <= TickTime(interval, j)
    ensures TickTime(interval, 1) == interval
  {
    Scaled(i as real, j as real, interval);
  }

  lemma Scaled(x: real, y: real, factor: real)
    requires x <= y && 0.0 < factor
    ensures x * factor <= y * factor
  {
  }

  lemma RelapseIsOrdered(n: nat, interval: real, m: nat, t: real)
    requires 0.0 < interval && 1 <= m && 0.0 <= t <= interval
    ensures Ordered(Relapse(n, interval, m, t))
  {
    var events := Relapse(n, interval, m, t);
    forall i, j | 0 <= i < j < |events|
      ensures events[i].now <= events[j].Start()
    {
      RelapseInOrder(n, interval, m, t, i, j);
      hide Relapse;
    }
  }

  lemma RelapseInOrder(n: nat, interval: real, m: nat, t: real, i: nat, j: nat)
    requires 0.0 < interval && 1 <= m && 0.0 <= t <= interval && i < j < 2 * n + m
    ensures Relapse(n, interval, m, t)[i].now <= Relapse(n, interval, m, t)[j].Start()
  {
    RelapseAt(n, interval, m, t, i);
    RelapseAt(n, interval, m, t, j);
    hide Relapse, TickTime;
    if i < n {
      TicksInOrder(interval, 1, if j < n + m && n <= j then j - n + 1 else m);
    } else if i < n + m {
      TicksInOrder(interval, i - n + 1, if j < n + m then j - n + 1 else m);
    }
  }

  lemma {:induction false} RelapseTicks(n: nat, interval: real, m: nat, t: real, i: nat)
    requires i <= 2 * n + m
    ensures TickCount(Relapse(n, interval, m, t)[..i]) == if i <= n then 0 else if i <= n + m then i - n else m
  {
    hide Relapse, TickTime;
    if i > 0 {
      RelapseTicks(n, interval, m, t, i - 1);
      RelapseAt(n, interval, m, t, i - 1);
    }
  }

  lemma RelapseIsPeriodic(n: nat, interval: real, m: nat, t: real)
    requires 0.0 < interval && 1 <= m && 0.0 <= t <= interval
    ensures Periodic(interval, Relapse(n, interval, m, t))
  {
    var events := Relapse(n, interval, m, t);
    forall i | 0 <= i < |events|
      ensures OnTime(interval, events, i)
    {
      RelapseTicks(n, interval, m, t, i);
      RelapseAt(n, interval, m, t, i);
      TicksInOrder(interval, m, m + 1);
      hide Relapse, TickCount, TickTime;
    }
  }

  lemma TableGrows(cfg: Config, interval: real, m: nat, t: real, i: nat)
    requires 0 <= cfg.burst && i < 2 * cfg.burst + m
    ensures var events := Relapse(cfg.burst, interval, m, t);
            && TableAfter(cfg, events[..i + 1]) == TableStep(cfg, TableAfter(cfg, events[..i]), events[i])
            && events[..i + 1][..i] == events[..i] && events[..i + 1][i] == events[i]
  {
    hide Inflow, TickTime, Relapse;
    RelapseAt(cfg.burst, interval, m, t, i);
  }

  /** The limiter's own bucket during the first volley, and the private one: both spend a token a call. */
  lemma {:induction false} FirstVolley(cfg: Config, interval: real, m: nat, t: real, k: nat)
    requires 1 <= cfg.burst && k <= cfg.burst
    ensures var prefix := Relapse(cfg.burst, interval, m, t)[..k];
            && TableAfter(cfg, prefix) == (if k == 0 then map[] else map["a" := Bucket((cfg.burst - k) as real, t)])
            && PrivateAfter(cfg, "a", prefix) == (if k == 0 then None else Some(Bucket((cfg.burst - k) as real, t)))
  {
    hide Inflow, TickTime, Relapse;
    if k > 0 {
      FirstVolley(cfg, interval, m, t, k - 1);
      RelapseAt(cfg.burst, interval, m, t, k - 1);
      LevelAtOnce(cfg, Bucket((cfg.burst - k + 1) as real, t));
    }
  }

  /** Each sweep leaves the one entry or drops it, and the last one drops it. */
  lemma {:induction false} SweepsForget(cfg: Config, interval: real, m: nat, t: real, j: nat)
    requires Timed(cfg, interval, m, t) && j <= m
    ensures var prefix := Relapse(cfg.burst, interval, m, t)[..cfg.burst + j];
            && (TableAfter(cfg, prefix) == map[] || (j < m && TableAfter(cfg, prefix) == map["a" := Bucket(0.0, t)]))
            && PrivateAfter(cfg, "a", prefix) == Some(Bucket(0.0, t))
  {
    hide Inflow, TickTime, Relapse;
    if j == 0 {
      FirstVolley(cfg, interval, m, t, cfg.burst);
    } else {
      SweepsForget(cfg, interval, m, t, j - 1);
      RelapseAt(cfg.burst, interval, m, t, cfg.burst + j - 1);
      TableGrows(cfg, interval, m, t, cfg.burst + j - 1);
    }
  }

  /** After the sweeps the limiter has forgotten the client and admits a second full volley. */
  lemma {:induction false} SecondVolley(cfg: Config, interval: real, m: nat, t: real, k: nat)
    requires Timed(cfg, interval, m, t) && k <= cfg.burst
    ensures TableAfter(cfg, Relapse(cfg.burst, interval, m, t)[..cfg.burst + m + k])
            == if k == 0 then map[] else map["a" := Bucket((cfg.burst - k) as real, TickTime(interval, m))]
  {
    hide Inflow, TickTime, Relapse;
    if k == 0 {
      SweepsForget(cfg, interval, m, t, m);
    } else {
      SecondVolley(cfg, interval, m, t, k - 1);
      RelapseAt(cfg.burst, interval, m, t, cfg.burst + m + k - 1);
      TableGrows(cfg, interval, m, t, cfg.burst + m + k - 1);
      LevelAtOnce(cfg, Bucket((cfg.burst - k + 1) as real, TickTime(interval, m)));
    }
  }

  lemma SecondVolleyAdmitted(cfg: Config, interval: real, m: nat, t: real, i: nat)
    requires Timed(cfg, interval, m, t) && cfg.burst + m <= i < 2 * cfg.burst + m
    ensures Relapse(cfg.burst, interval, m, t)[i].Request? && Decision(cfg, Relapse(cfg.burst, interval, m, t), i)
  {
    hide Inflow, TickTime, Relapse;
    RelapseAt(cfg.burst, interval, m, t, i);
    SecondVolley(cfg, interval, m, t, i - cfg.burst - m);
    LevelAtOnce(cfg, Bucket((2 * cfg.burst + m - i) as real, TickTime(interval, m)));
  }

  ghost predicate PrivateAdmitsTo(cfg: Config, interval: real, m: nat, t: real, k: nat)
    requires 1 <= cfg.burst && k <= cfg.burst
  {
    forall i | cfg.burst + m <= i < cfg.burst + m + k ::
      Relapse(cfg.burst, interval, m, t)[i].Request? && PrivateDecision(cfg, Relapse(cfg.burst, interval, m, t), i)
  }

  lemma PrivateCall(cfg: Config, interval: real, m: nat, t: real, k: nat)
    requires 1 <= k <= cfg.burst && PrivateAdmitsTo(cfg, interval, m, t, k)
    requires PrivateAfter(cfg, "a", Relapse(cfg.burst, interval, m, t)[..cfg.burst + m + k - 1]).Some?
    ensures var before := PrivateAfter(cfg, "a", Relapse(cfg.burst, interval, m, t)[..cfg.burst + m + k - 1]);
            var own := PrivateAfter(cfg, "a", Relapse(cfg.burst, interval, m, t)[..cfg.burst + m + k]);
            var now := TickTime(interval, m);
            own.Some? && Level(cfg, own.value, now) == Level(cfg, before.value, now) - 1.0 >= 0.0
  {
    hide Inflow, TickTime, Relapse;
    var i := cfg.burst + m + k - 1;
    RelapseAt(cfg.burst, interval, m, t, i);
    assert PrivateDecision(cfg, Relapse(cfg.burst, interval, m, t), i);
    CallSpends(cfg, PrivateAfter(cfg, "a", Relapse(cfg.burst, interval, m, t)[..i]).value, TickTime(interval, m));
  }

  /** The private bucket has only what flowed in since the first volley. */
  lemma {:induction false} PrivateRunsDry(cfg: Config, interval: real, m: nat, t: real, k: nat)
    requires Timed(cfg, interval, m, t) && k <= cfg.burst && PrivateAdmitsTo(cfg, interval, m, t, k)
    ensures var own := PrivateAfter(cfg, "a", Relapse(cfg.burst, interval, m, t)[..cfg.burst + m + k]);
            var now := TickTime(interval, m);
            own.Some? && Level(cfg, own.value, now) == Inflow(cfg, now - t) - k as real
  {
    hide Inflow, TickTime, Relapse;
    if k == 0 {
      SweepsForget(cfg, interval, m, t, m);
    } else {
      PrivateRunsDry(cfg, interval, m, t, k - 1);
      PrivateCall(cfg, interval, m, t, k);
    }
  }

  lemma PrivateCannotKeepUp(cfg: Config, interval: real, m: nat, t: real)
    requires Timed(cfg, interval, m, t)
    ensures !PrivateAdmitsTo(cfg, interval, m, t, cfg.burst)
  {
    hide Inflow, TickTime, Relapse;
    if PrivateAdmitsTo(cfg, interval, m, t, cfg.burst) {
      PrivateRunsDry(cfg, interval, m, t, cfg.burst - 1);
      PrivateCall(cfg, interval, m, t, cfg.burst);
      assert false;
    }
  }

  /** The second volley is answered differently, in a run whose ticks are all on time. */
  lemma TooShortIsVisible(cfg: Config, interval: real, m: nat, t: real)
    requires Timed(cfg, interval, m, t)
    ensures !TickerTransparent(cfg, interval)
  {
    hide Inflow, TickTime, PrivateDecision, Decision, Timed;
    TimedBounds(cfg, interval, m, t);
    var events := Relapse(cfg.burst, interval, m, t);
    PrivateCannotKeepUp(cfg, interval, m, t);
    RelapseIsOrdered(cfg.burst, interval, m, t);
    RelapseIsPeriodic(cfg.burst, interval, m, t);
    var i :| cfg.burst + m <= i < cfg.burst + m + cfg.burst && !(events[i].Request? && PrivateDecision(cfg, events, i));
    SecondVolleyAdmitted(cfg, interval, m, t, i);
    hide Relapse;
    assert Decision(cfg, events, i) != PrivateDecision(cfg, events, i);
  }

  lemma TimedBounds(cfg: Config, interval: real, m: nat, t: real)
    requires Timed(cfg, interval, m, t)
    ensures 1 <= cfg.burst && 0.0 < interval && 1 <= m && 0.0 <= t <= interval
  {
  }

  /** A moment after an entry turns stale and before its bucket is full again. */
  lemma TooShortPause(cfg: Config) returns (pause: real)
    requires 1 <= cfg.burst && (cfg.rate < 0.0 || Inflow(cfg, cfg.staleAfter) < cfg.burst as real)
    ensures 0.0 <= pause && cfg.staleAfter < pause && Inflow(cfg, pause) < cfg.burst as real
  {
    if cfg.staleAfter < 0.0 {
      pause := 0.0;
    } else if cfg.rate <= 0.0 {
      pause := cfg.staleAfter + 1.0;
    } else {
      var full := cfg.burst as real / cfg.rate;
      FillTime(cfg, full);
      pause := (cfg.staleAfter + full) / 2.0;
    }
    if 0.0 < cfg.rate && 0.0 <= cfg.staleAfter {
      hide Inflow;
    } else {
      NoRefill(cfg, pause);
    }
  }

  lemma NoRefill(cfg: Config, pause: real)
    requires 0.0 <= pause && (cfg.rate <= 0.0 || pause == 0.0)
    ensures Inflow(cfg, pause) <= 0.0
  {
  }

  /** A bucket refills from empty in `full` seconds, and strictly less flows in over any shorter time. */
  lemma FillTime(cfg: Config, full: real)
    requires 0.0 < cfg.rate && full == cfg.burst as real / cfg.rate
    ensures Inflow(cfg, full) == cfg.burst as real
    ensures forall t {:trigger Inflow(cfg, t)} :: t < full <==> Inflow(cfg, t) < cfg.burst as real
  {
    assert full * cfg.rate == cfg.burst as real;
    forall t
      ensures t < full <==> Inflow(cfg, t) < cfg.burst as real
    {
      if t < full {
        assert t * cfg.rate < full * cfg.rate;
      } else {
        InflowMonotone(cfg, full, t);
      }
    }
  }

  lemma TickAfter(pause: real, interval: real, m: nat)
    requires 0.0 <= pause && 0.0 < interval && m == (pause / interval).Floor + 1
    ensures pause <= TickTime(interval, m) <= pause + interval
  {
    var ticks := pause / interval;
    assert ticks * interval == pause;
    Scaled((m - 1) as real, ticks, interval);
    Scaled(ticks, m as real, interval);
    assert m as real * interval == (m - 1) as real * interval + interval;
  }

  /** A first volley that long before a tick of its own interval. */
  lemma RelapseExists(cfg: Config, interval: real) returns (m: nat, t: real)
    requires 0.0 < interval && 1 <= cfg.burst && (cfg.rate < 0.0 || Inflow(cfg, cfg.staleAfter) < cfg.burst as real)
    ensures Timed(cfg, interval, m, t)
  {
    var pause := TooShortPause(cfg);
    m := (pause / interval).Floor + 1;
    t := TickTime(interval, m) - pause;
    hide Inflow;
    TickAfter(pause, interval, m);
    hide TickTime;
  }

  /** Eviction is invisible exactly when a bucket refills completely before it can be evicted, or when the burst
      admits nothing at all; whatever the moments of the sweeps, and just as well for every fixed interval. */
  lemma TransparencyIsExact(cfg: Config, interval: real)
    requires 0.0 < interval
    ensures Transparent(cfg) <==> cfg.burst < 1 || (0.0 <= cfg.rate && Inflow(cfg, cfg.staleAfter) >= cfg.burst as real)
    ensures TickerTransparent(cfg, interval) <==> Transparent(cfg)
  {
    hide Inflow, TickTime, Decision, PrivateDecision, Periodic;
    if cfg.burst < 1 || (0.0 <= cfg.rate && Inflow(cfg, cfg.staleAfter) >= cfg.burst as real) {
      EnoughForAll(cfg);
    } else {
      var m, t := RelapseExists(cfg, interval);
      TooShortIsVisible(cfg, interval, m, t);
    }
  }

  lemma DefaultIsTransparent()
    ensures Transparent(DefaultConfig) && TickerTransparent(DefaultConfig, 300.0)
  {
    TransparencyIsExact(DefaultConfig, 300.0);
  }

  // ----- the window bound, exactly ----------------------------------------------------------------------

  ghost predicate WindowBounded(cfg: Config, ip: string, events: seq<Event>, i: nat, j: nat)
    requires i < j <= |events|
  {
    Admitted(cfg, ip, events, i, j) as real
    <= (if cfg.burst < 0 then 0 else cfg.burst) as real + Inflow(cfg, events[j - 1].now - events[i].now)
  }

  /** Every window of every run admits at most a burst plus the inflow. */
  ghost predicate WindowsBounded(cfg: Config) {
    forall ip: string, events: seq<Event>, i: nat, j: nat | Ordered(events) && i < j <= |events| ::
      WindowBounded(cfg, ip, events, i, j)
  }

  /** Every window of every run whose sweeps are on time. */
  ghost predicate TickerWindowsBounded(cfg: Config, interval: real) {
    forall ip: string, events: seq<Event>, i: nat, j: nat | Ordered(events) && Periodic(interval, events) && i < j <= |events| ::
      WindowBounded(cfg, ip, events, i, j)
  }

  lemma FirstVolleyAdmitted(cfg: Config, interval: real, m: nat, t: real, i: nat)
    requires i < cfg.burst
    ensures Relapse(cfg.burst, interval, m, t)[i].Request? && Decision(cfg, Relapse(cfg.burst, interval, m, t), i)
  {
    hide Inflow, TickTime, Relapse;
    RelapseAt(cfg.burst, interval, m, t, i);
    FirstVolley(cfg, interval, m, t, i);
    LevelAtOnce(cfg, Bucket((cfg.burst - i) as real, t));
  }

  lemma {:induction false} BothVolleysAdmitted(cfg: Config, interval: real, m: nat, t: real, k: nat)
    requires Timed(cfg, interval, m, t) && k <= 2 * cfg.burst + m
    ensures Admitted(cfg, "a", Relapse(cfg.burst, interval, m, t), 0, k)
            == if k <= cfg.burst then k else if k <= cfg.burst + m then cfg.burst else k - m
  {
    hide Inflow, TickTime, Relapse, Decision;
    if k > 0 {
      BothVolleysAdmitted(cfg, interval, m, t, k - 1);
      RelapseAt(cfg.burst, interval, m, t, k - 1);
      if k - 1 < cfg.burst {
        FirstVolleyAdmitted(cfg, interval, m, t, k - 1);
      } else if k - 1 >= cfg.burst + m {
        SecondVolleyAdmitted(cfg, interval, m, t, k - 1);
      }
    }
  }

  /** A client that is forgotten too soon gets two bursts in a window that has not brought one in. */
  lemma RelapseBreaksBound(cfg: Config, interval: real, m: nat, t: real)
    requires Timed(cfg, interval, m, t)
    ensures !TickerWindowsBounded(cfg, interval)
  {
    hide Inflow, TickTime, Relapse, Decision;
    var n := 2 * cfg.burst + m;
    var events := Relapse(cfg.burst, interval, m, t);
    RelapseIsOrdered(cfg.burst, interval, m, t);
    RelapseIsPeriodic(cfg.burst, interval, m, t);
    BothVolleysAdmitted(cfg, interval, m, t, n);
    RelapseAt(cfg.burst, interval, m, t, 0);
    RelapseAt(cfg.burst, interval, m, t, n - 1);
    hide Periodic, Ordered;
    assert events[n - 1].now - events[0].now == TickTime(interval, m) - t;
    assert Admitted(cfg, "a", events, 0, n) == 2 * cfg.burst;
    assert !WindowBounded(cfg, "a", events, 0, n);
  }

  /** With a negative rate even an empty window is over the bound. */
  lemma NegativeRateBreaksBound(cfg: Config, interval: real)
    requires cfg.rate < 0.0 && cfg.burst < 1 && 0.0 < interval
    ensures !TickerWindowsBounded(cfg, interval)
  {
    var events := Relapse(0, interval, 2, 0.0);
    RelapseIsOrdered(0, interval, 2, 0.0);
    RelapseIsPeriodic(0, interval, 2, 0.0);
    hide Ordered, Periodic;
    assert events[1].now - events[0].now == interval;
    assert Inflow(cfg, interval) < 0.0;
    assert !WindowBounded(cfg, "a", events, 0, 2);
  }

  /** Windows are bounded under exactly the condition that makes eviction invisible, given a rate that is not
      negative; whatever the moments of the sweeps, and just as well for every fixed interval. */
  lemma WindowBoundIsExact(cfg: Config, interval: real)
    requires 0.0 < interval
    ensures WindowsBounded(cfg) <==> 0.0 <= cfg.rate && (cfg.burst < 1 || Inflow(cfg, cfg.staleAfter) >= cfg.burst as real)
    ensures TickerWindowsBounded(cfg, interval) <==> WindowsBounded(cfg)
  {
    hide Inflow, TickTime, Admitted, Periodic;
    if 0.0 <= cfg.rate && (cfg.burst < 1 || Inflow(cfg, cfg.staleAfter) >= cfg.burst as real) {
      forall ip: string, events: seq<Event>, i: nat, j: nat | Ordered(events) && i < j <= |events|
        ensures WindowBounded(cfg, ip, events, i, j)
      {
        WindowBound(cfg, ip, events, i, j);
      }
    } else if cfg.burst < 1 {
      NegativeRateBreaksBound(cfg, interval);
    } else {
      var m, t := RelapseExists(cfg, interval);
      RelapseBreaksBound(cfg, interval, m, t);
    }
    hide WindowBounded, Ordered;
  }
}
