/** The limiter's answers without its bucket.  A request is admitted exactly when it fits in every window that ends
    with it: the requests admitted since any earlier one, and this one, are at most a burst plus what the rate allows
    in the time between.  Each answer is so fixed by the times and the earlier answers alone. */
module RateLimitWindow {
  import opened Options
  import opened RateLimit
  import opened RateLimitTheorems
  import opened RateLimitExact

  // ----- one bucket that starts full -----------------------------------------------------------------

  /** With `x` more at arrival `n`, the window from arrival `i` still holds no more than a burst and the inflow. */
  ghost predicate WindowFits(cfg: Config, times: seq<real>, accept: seq<bool>, i: nat, n: nat, x: real)
    requires i <= n < |times| == |accept|
  {
    Count(accept[i..n]) as real + x <= cfg.burst as real + (times[n] - times[i]) * cfg.rate
  }

  ghost predicate AllWindowsFit(cfg: Config, times: seq<real>, accept: seq<bool>, n: nat, x: real)
    requires n < |times| == |accept|
  {
    forall i | 0 <= i <= n :: WindowFits(cfg, times, accept, i, n, x)
  }

  lemma LevelReaches(cfg: Config, b: Bucket, now: real, x: real)
    ensures Level(cfg, b, now) >= x
            <==> cfg.burst as real >= x && b.tokens + Inflow(cfg, now - b.lastTime) >= x
  {
    hide Inflow;
  }

  lemma {:induction false} CountGrows(accept: seq<bool>, i: nat, n: nat)
    requires i < n <= |accept|
    ensures Count(accept[i..n]) == Count(accept[i..n - 1]) + if accept[n - 1] then 1 else 0
  {
    assert accept[i..n][..n - i - 1] == accept[i..n - 1];
    assert accept[i..n][n - i - 1] == accept[n - 1];
  }

  /** Moving a window's end on by one arrival shifts the amount it must still hold. */
  lemma WindowShifts(cfg: Config, times: seq<real>, accept: seq<bool>, i: nat, n: nat, x: real)
    requires i < n < |times| == |accept|
    ensures WindowFits(cfg, times, accept, i, n, x)
            <==> WindowFits(cfg, times, accept, i, n - 1,
                            x + (if accept[n - 1] then 1.0 else 0.0) - Inflow(cfg, times[n] - times[n - 1]))
  {
    CountGrows(accept, i, n);
    InflowAdds(cfg, times[n - 1] - times[i], times[n] - times[n - 1]);
    assert times[n] - times[i] == (times[n - 1] - times[i]) + (times[n] - times[n - 1]);
    assert Inflow(cfg, times[n] - times[i]) == (times[n] - times[i]) * cfg.rate;
    assert Inflow(cfg, times[n - 1] - times[i]) == (times[n - 1] - times[i]) * cfg.rate;
  }

  lemma AllWindowsShift(cfg: Config, times: seq<real>, accept: seq<bool>, n: nat, x: real)
    requires 0 < n < |times| == |accept|
    ensures AllWindowsFit(cfg, times, accept, n, x)
            <==> cfg.burst as real >= x
                 && AllWindowsFit(cfg, times, accept, n - 1,
                                  x + (if accept[n - 1] then 1.0 else 0.0) - Inflow(cfg, times[n] - times[n - 1]))
  {
    hide WindowFits, Inflow;
    var m, y := n - 1, x + (if accept[n - 1] then 1.0 else 0.0) - Inflow(cfg, times[n] - times[n - 1]);
    LastWindow(cfg, times, accept, n, x);
    if AllWindowsFit(cfg, times, accept, n, x) {
      forall i | 0 <= i <= m
        ensures WindowFits(cfg, times, accept, i, m, y)
      {
        WindowShifts(cfg, times, accept, i, n, x);
      }
      assert WindowFits(cfg, times, accept, n, n, x);
    }
    if AllWindowsFit(cfg, times, accept, n - 1, y) && cfg.burst as real >= x {
      forall i | 0 <= i <= n
        ensures WindowFits(cfg, times, accept, i, n, x)
      {
        if i < n {
          WindowShifts(cfg, times, accept, i, n, x);
        }
      }
    }
  }

  lemma LastWindow(cfg: Config, times: seq<real>, accept: seq<bool>, n: nat, x: real)
    requires n < |times| == |accept|
    ensures WindowFits(cfg, times, accept, n, n, x) <==> cfg.burst as real >= x
  {
    assert accept[n..n] == [];
  }

  /** A bucket that started full holds the least that any window leaves. */
  lemma {:induction false} LevelIsWindows(
      cfg: Config, created: real, times: seq<real>, accept: seq<bool>, n: nat, x: real)
    requires n < |times| == |accept| && 0.0 <= cfg.rate && created <= times[0]
    ensures Level(cfg, Spend(cfg, FullBucket(cfg, created), times[..n], accept[..n]), times[n]) >= x
            <==> AllWindowsFit(cfg, times, accept, n, x)
    decreases n
  {
    hide Inflow, WindowFits, Level;
    var full := FullBucket(cfg, created);
    if n == 0 {
      FreshMeansFull(cfg, created, times[0]);
      LastWindow(cfg, times, accept, 0, x);
    } else {
      var y := x + (if accept[n - 1] then 1.0 else 0.0) - Inflow(cfg, times[n] - times[n - 1]);
      LevelIsWindows(cfg, created, times, accept, n - 1, y);
      AllWindowsShift(cfg, times, accept, n, x);
      SpendSteps(cfg, full, times, accept, n);
      LevelReaches(cfg, Spend(cfg, full, times[..n], accept[..n]), times[n], x);
    }
  }

  lemma SpendSteps(cfg: Config, b: Bucket, times: seq<real>, accept: seq<bool>, n: nat)
    requires 0 < n <= |times| == |accept|
    ensures Spend(cfg, b, times[..n], accept[..n])
            == Bucket(Level(cfg, Spend(cfg, b, times[..n - 1], accept[..n - 1]), times[n - 1])
                      - (if accept[n - 1] then 1.0 else 0.0), times[n - 1])
  {
    hide Level;
    assert times[..n][..n - 1] == times[..n - 1] && accept[..n][..n - 1] == accept[..n - 1];
  }

  /** Arrival `n` fits: with it, no window ending at it holds more than a burst plus what flows in meanwhile. */
  ghost predicate Fits(rate: real, burst: int, times: seq<real>, accept: seq<bool>, n: nat)
    requires n < |times| == |accept|
  {
    forall i | 0 <= i <= n ::
      (Count(accept[i..n]) + 1) as real <= burst as real + (times[n] - times[i]) * rate
  }

  lemma FitsIsWindows(cfg: Config, times: seq<real>, accept: seq<bool>, n: nat)
    requires n < |times| == |accept|
    ensures Fits(cfg.rate, cfg.burst, times, accept, n) <==> AllWindowsFit(cfg, times, accept, n, 1.0)
  {
    forall i: nat | i <= n
      ensures WindowFits(cfg, times, accept, i, n, 1.0)
              <==> (Count(accept[i..n]) + 1) as real <= cfg.burst as real + (times[n] - times[i]) * cfg.rate
    {
    }
  }

  /** A schedule that accepts only what fits. */
  ghost predicate AllFit(rate: real, burst: int, times: seq<real>, accept: seq<bool>)
    requires |times| == |accept|
  {
    forall n | 0 <= n < |times| && accept[n] :: Fits(rate, burst, times, accept, n)
  }

  /** A bucket that starts full admits an arrival if and only if it fits. */
  lemma AdmittedExactly(cfg: Config, created: real, times: seq<real>, n: nat)
    requires n < |times| && 0.0 <= cfg.rate && created <= times[0]
    ensures Greedy(cfg, FullBucket(cfg, created), times)[n]
            <==> Fits(cfg.rate, cfg.burst, times, Greedy(cfg, FullBucket(cfg, created), times), n)
  {
    hide Inflow, Level, Fits;
    var full := FullBucket(cfg, created);
    var g := Greedy(cfg, full, times);
    GreedyPrefix(cfg, full, times, n);
    GreedyPrefix(cfg, full, times, n + 1);
    assert g[..n + 1][n] == g[n];
    assert times[..n + 1][..n] == times[..n];
    GreedySpends(cfg, full, times[..n]);
    LevelIsWindows(cfg, created, times, g, n, 1.0);
    FitsIsWindows(cfg, times, g, n);
  }

  /** Covered schedules are those that fit, so the two notions of what a bucket allows agree. */
  lemma CoveredExactly(cfg: Config, created: real, times: seq<real>, accept: seq<bool>)
    requires |times| == |accept| && 0.0 <= cfg.rate && (times != [] ==> created <= times[0])
    ensures Covered(cfg, FullBucket(cfg, created), times, accept) <==> AllFit(cfg.rate, cfg.burst, times, accept)
  {
    hide Inflow, Level, Fits;
    forall n: nat | n < |times| && accept[n]
      ensures Level(cfg, Spend(cfg, FullBucket(cfg, created), times[..n], accept[..n]), times[n]) >= 1.0
              <==> Fits(cfg.rate, cfg.burst, times, accept, n)
    {
      LevelIsWindows(cfg, created, times, accept, n, 1.0);
      FitsIsWindows(cfg, times, accept, n);
    }
  }

  /** On every prefix the bucket admits at least as many arrivals as any schedule whose acceptances all fit. */
  lemma NoScheduleBeatsTheBucket(cfg: Config, created: real, times: seq<real>, accept: seq<bool>, n: nat)
    requires |times| == |accept| && n <= |times| && 0.0 <= cfg.rate && (times != [] ==> created <= times[0])
    requires AllFit(cfg.rate, cfg.burst, times, accept)
    ensures AllFit(cfg.rate, cfg.burst, times, Greedy(cfg, FullBucket(cfg, created), times))
    ensures Count(Greedy(cfg, FullBucket(cfg, created), times)[..n]) >= Count(accept[..n])
  {
    hide AllFit, Covered;
    var full := FullBucket(cfg, created);
    CoveredExactly(cfg, created, times, accept);
    GreedyIsOptimal(cfg, full, times, accept, n);
    CoveredExactly(cfg, created, times, Greedy(cfg, full, times));
  }

  // ----- the limiter in any run ------------------------------------------------------------------------

  /** What is there at `t` is what was there at `s` and the inflow, up to a burst. */
  lemma SupplyReaches(cfg: Config, own: Option<Bucket>, s: real, t: real, x: real)
    requires 0.0 <= cfg.rate && s <= t
    ensures Supply(cfg, own, t) >= x
            <==> cfg.burst as real >= x && Supply(cfg, own, s) + Inflow(cfg, t - s) >= x
  {
    hide Inflow;
    InflowIsPositive(cfg, t - s);
    if own.Some? {
      InflowAdds(cfg, s - own.value.lastTime, t - s);
    }
  }

  /** The events `i`, .., `n - 1` leave `x` of a burst and the inflow up to `t`. */
  ghost predicate Leaves(cfg: Config, ip: string, events: seq<Event>, i: nat, n: nat, t: real, x: real)
    requires i < n <= |events|
  {
    PrivateAdmitted(cfg, ip, events, i, n) as real + x <= cfg.burst as real + Inflow(cfg, t - events[i].now)
  }

  ghost predicate AllLeave(cfg: Config, ip: string, events: seq<Event>, n: nat, t: real, x: real)
    requires n <= |events|
  {
    cfg.burst as real >= x && forall i | 0 <= i < n :: Leaves(cfg, ip, events, i, n, t, x)
  }

  /** What must be left at `t` after event `n - 1` for `x` to be there, as of just before it. */
  function Before(cfg: Config, ip: string, events: seq<Event>, n: nat, t: real, x: real): real
    requires 0 < n <= |events|
  {
    x + PrivateAdmitted(cfg, ip, events, n - 1, n) as real - Inflow(cfg, t - events[n - 1].now)
  }

  lemma LeavesShifts(cfg: Config, ip: string, events: seq<Event>, i: nat, n: nat, t: real, x: real)
    requires i < n - 1 < |events|
    ensures Leaves(cfg, ip, events, i, n, t, x)
            <==> Leaves(cfg, ip, events, i, n - 1, events[n - 1].now, Before(cfg, ip, events, n, t, x))
  {
    hide Inflow, PrivateAdmitted;
    AdmittedSplits(cfg, ip, events, i, n);
    InflowAdds(cfg, events[n - 1].now - events[i].now, t - events[n - 1].now);
  }

  lemma AllLeaveShifts(cfg: Config, ip: string, events: seq<Event>, n: nat, t: real, x: real)
    requires 0 < n <= |events|
    ensures AllLeave(cfg, ip, events, n, t, x)
            <==> cfg.burst as real >= x
                 && AllLeave(cfg, ip, events, n - 1, events[n - 1].now, Before(cfg, ip, events, n, t, x))
  {
    var m, y := n - 1, Before(cfg, ip, events, n, t, x);
    assert Leaves(cfg, ip, events, n - 1, n, t, x) <==> cfg.burst as real >= y;
    hide Leaves, Inflow, PrivateAdmitted, Before;
    if AllLeave(cfg, ip, events, n, t, x) {
      forall i | 0 <= i < m
        ensures Leaves(cfg, ip, events, i, m, events[m].now, y)
      {
        LeavesShifts(cfg, ip, events, i, n, t, x);
      }
    }
    if AllLeave(cfg, ip, events, n - 1, events[n - 1].now, y) && cfg.burst as real >= x {
      forall i | 0 <= i < n
        ensures Leaves(cfg, ip, events, i, n, t, x)
      {
        if i < n - 1 {
          LeavesShifts(cfg, ip, events, i, n, t, x);
        }
      }
    }
  }

  /** A private bucket holds the least that any window of the run leaves. */
  lemma {:induction false} SupplyIsWindows(cfg: Config, ip: string, events: seq<Event>, n: nat, t: real, x: real)
    requires Ordered(events) && 0.0 <= cfg.rate && n <= |events| && (n > 0 ==> events[n - 1].now <= t)
    ensures Supply(cfg, PrivateAfter(cfg, ip, events[..n]), t) >= x <==> AllLeave(cfg, ip, events, n, t, x)
    decreases n
  {
    hide Inflow, Leaves, Level, PrivateAdmitted;
    if n > 0 {
      var last := events[n - 1].now;
      SupplyReaches(cfg, PrivateAfter(cfg, ip, events[..n]), last, t, x);
      SupplySpent(cfg, ip, events, n);
      SupplyIsWindows(cfg, ip, events, n - 1, last, Before(cfg, ip, events, n, t, x));
      AllLeaveShifts(cfg, ip, events, n, t, x);
    }
  }

  /** Request `n` fits in every window of a private bucket's run that ends with it. */
  ghost predicate PrivatelyFits(cfg: Config, events: seq<Event>, n: nat)
    requires n < |events| && events[n].Request?
  {
    forall i | 0 <= i <= n ::
      (PrivateAdmitted(cfg, events[n].ip, events, i, n) + 1) as real
      <= cfg.burst as real + (events[n].now - events[i].now) * cfg.rate
  }

  /** The same for the limiter with its evictions, counting what the limiter admitted. */
  ghost predicate RequestFits(cfg: Config, events: seq<Event>, n: nat)
    requires n < |events| && events[n].Request?
  {
    forall i | 0 <= i <= n ::
      (Admitted(cfg, events[n].ip, events, i, n) + 1) as real
      <= cfg.burst as real + (events[n].now - events[i].now) * cfg.rate
  }

  lemma FitIsLeaves(cfg: Config, ip: string, events: seq<Event>, i: nat, n: nat)
    requires i < n < |events|
    ensures Leaves(cfg, ip, events, i, n, events[n].now, 1.0)
            <==> (PrivateAdmitted(cfg, ip, events, i, n) + 1) as real
                 <= cfg.burst as real + (events[n].now - events[i].now) * cfg.rate
  {
    hide PrivateAdmitted;
  }

  lemma FitsIsAllLeave(cfg: Config, events: seq<Event>, n: nat)
    requires n < |events| && events[n].Request?
    ensures PrivatelyFits(cfg, events, n) <==> AllLeave(cfg, events[n].ip, events, n, events[n].now, 1.0)
  {
    var ip := events[n].ip;
    assert PrivateAdmitted(cfg, ip, events, n, n) == 0;
    hide PrivateAdmitted, Leaves;
    forall i: nat | i < n
      ensures Leaves(cfg, ip, events, i, n, events[n].now, 1.0)
              <==> (PrivateAdmitted(cfg, ip, events, i, n) + 1) as real
                   <= cfg.burst as real + (events[n].now - events[i].now) * cfg.rate
    {
      FitIsLeaves(cfg, ip, events, i, n);
    }
  }

  /** A private bucket admits a request if and only if it fits. */
  lemma PrivateDecisionExactly(cfg: Config, events: seq<Event>, n: nat)
    requires Ordered(events) && 0.0 <= cfg.rate && n < |events| && events[n].Request?
    ensures PrivateDecision(cfg, events, n) <==> PrivatelyFits(cfg, events, n)
  {
    hide Inflow, Level, AllLeave;
    var e := events[n];
    FreshMeansFull(cfg, e.created, e.now);
    SupplyIsWindows(cfg, e.ip, events, n, e.now, 1.0);
    FitsIsAllLeave(cfg, events, n);
  }

  /** In every run the limiter admits exactly the requests that fit. */
  ghost predicate WindowsDecide(cfg: Config) {
    forall events: seq<Event>, n: nat | Ordered(events) && n < |events| && events[n].Request? ::
      Decision(cfg, events, n) == RequestFits(cfg, events, n)
  }

  lemma SameCountsSameFit(cfg: Config, events: seq<Event>, n: nat)
    requires n < |events| && events[n].Request?
    requires forall i | 0 <= i <= n ::
               Admitted(cfg, events[n].ip, events, i, n) == PrivateAdmitted(cfg, events[n].ip, events, i, n)
    ensures RequestFits(cfg, events, n) == PrivatelyFits(cfg, events, n)
  {
    hide Admitted, PrivateAdmitted;
  }

  /** Where windows decide, the limiter and the private bucket give the same answers, as both are fixed by them. */
  lemma {:induction false} WindowsFixAnswers(cfg: Config, events: seq<Event>, n: nat)
    requires WindowsDecide(cfg) && Ordered(events) && 0.0 <= cfg.rate && n <= |events|
    ensures forall i: nat | i < n && events[i].Request? :: Decision(cfg, events, i) == PrivateDecision(cfg, events, i)
    decreases n
  {
    hide Decision, PrivateDecision, RequestFits, PrivatelyFits;
    if n > 0 {
      WindowsFixAnswers(cfg, events, n - 1);
      var m := n - 1;
      if events[m].Request? {
        forall i | 0 <= i <= m
          ensures Admitted(cfg, events[m].ip, events, i, m) == PrivateAdmitted(cfg, events[m].ip, events, i, m)
        {
          SameAnswersSameCounts(cfg, events[m].ip, events, i, m);
        }
        SameCountsSameFit(cfg, events, m);
        PrivateDecisionExactly(cfg, events, m);
      }
    }
  }

  lemma {:induction false} SameAnswersSameCounts(cfg: Config, ip: string, events: seq<Event>, i: nat, n: nat)
    requires i <= n <= |events|
    requires forall j: nat | j < n && events[j].Request? :: Decision(cfg, events, j) == PrivateDecision(cfg, events, j)
    ensures Admitted(cfg, ip, events, i, n) == PrivateAdmitted(cfg, ip, events, i, n)
    decreases n
  {
    hide Decision, PrivateDecision;
    if i < n {
      SameAnswersSameCounts(cfg, ip, events, i, n - 1);
    }
  }

  /** The limiter admits exactly the requests that fit, in every run, if and only if its evictions are invisible. */
  lemma WindowsDecideExactly(cfg: Config)
    requires 0.0 <= cfg.rate
    ensures WindowsDecide(cfg) <==> Transparent(cfg)
  {
    hide Decision, PrivateDecision, RequestFits, PrivatelyFits;
    if Transparent(cfg) {
      forall events: seq<Event>, n: nat | Ordered(events) && n < |events| && events[n].Request?
        ensures Decision(cfg, events, n) == RequestFits(cfg, events, n)
      {
        PrivateDecisionExactly(cfg, events, n);
        forall i: nat | i <= n
          ensures Admitted(cfg, events[n].ip, events, i, n) == PrivateAdmitted(cfg, events[n].ip, events, i, n)
        {
          TransparentCounts(cfg, events[n].ip, events, i, n);
        }
        SameCountsSameFit(cfg, events, n);
      }
    }
    if WindowsDecide(cfg) {
      forall events: seq<Event>, i: nat | Ordered(events) && i < |events| && events[i].Request?
        ensures Decision(cfg, events, i) == PrivateDecision(cfg, events, i)
      {
        WindowsFixAnswers(cfg, events, i + 1);
      }
    }
  }

  /** The limiter admits exactly the requests that fit, in every run, if and only if the burst admits nothing or an
      idle bucket is kept until it has refilled. */
  lemma LimiterAdmitsExactly(cfg: Config)
    requires 0.0 <= cfg.rate
    ensures WindowsDecide(cfg) <==> cfg.burst < 1 || cfg.staleAfter * cfg.rate >= cfg.burst as real
  {
    hide WindowsDecide, Transparent, TickerTransparent;
    WindowsDecideExactly(cfg);
    TransparencyIsExact(cfg, 1.0);
  }

  /** As configured, with a bucket of 20, ten a second and ten idle minutes, the limiter admits what fits. */
  lemma DefaultAdmitsExactly(events: seq<Event>, n: nat)
    requires Ordered(events) && n < |events| && events[n].Request?
    ensures Decision(DefaultConfig, events, n)
            <==> forall i | 0 <= i <= n ::
                   (Admitted(DefaultConfig, events[n].ip, events, i, n) + 1) as real
                   <= 20.0 + (events[n].now - events[i].now) * 10.0
  {
    hide Decision, Admitted;
    LimiterAdmitsExactly(DefaultConfig);
    assert WindowsDecide(DefaultConfig);
    assert RequestFits(DefaultConfig, events, n) == Decision(DefaultConfig, events, n);
  }
}
