/** Fair runs converge: if an app's own calls are answered and nobody else touches its objects, then whatever else
    goes on in the cluster, its service and its mappings match the spec sooner or later, and from then on. */
module AppProgress {
  import opened Options
  import opened Kube
  import opened ApiServer
  import opened Operator
  import opened SoloPass
  import opened AppConvergence
  import opened DomainConvergence
  import opened AppStages
  import DL = DrainLiveness
  import DP = DrainProgress
  import DW = DrainWitness
  import CL = Client
  import AV = AppVersions
  import AC = AppController

  // ----- along the run ------------------------------------------------------------------------------------------

  lemma QuietAt(s: State, trace: nat -> Label, k: Key, i: nat)
    requires QuietRun(s, trace, k)
    ensures Quiet(DL.At(s, trace, i), trace(i), k)
    ensures DL.At(s, trace, i + 1) == Step(DL.At(s, trace, i), trace(i))
  {
    hide DL.At, Quiet, DL.AppMovesAfter;
    DP.AtNext(s, trace, i);
  }

  lemma NextTurn(s: State, trace: nat -> Label, k: Key, i: nat) returns (m: nat)
    requires QuietRun(s, trace, k)
    ensures i <= m && DL.AppMoves(trace(m), k)
  {
    hide DL.AppMoves, Quiet;
    assert DL.AppMovesAfter(trace, k, i);
    m :| i <= m && DL.AppMoves(trace(m), k);
  }

  lemma StepGoesOn(s: State, l: Label, k: Key)
    requires Good(s, k) && Quiet(s, l, k)
    ensures GoesOn(s, Step(s, l), k)
  {
    hide Good, Quiet, Step, GoesOn;
    if DL.AppMoves(l, k) {
      OwnTurn(s, l, k);
    } else {
      OthersGoOn(s, l, k);
    }
  }

  lemma GoesOnChains(s: State, t: State, u: State, k: Key)
    requires GoesOn(s, t, k) && GoesOn(t, u, k)
    ensures GoesOn(s, u, k)
  {
    hide Good, Matches, MissingHosts;
  }

  lemma GoesOnHere(s: State, k: Key)
    requires Good(s, k)
    ensures GoesOn(s, s, k)
  {
    hide Matches, MissingHosts, NoForeign, StageFits;
  }

  lemma {:induction false} RunGoesOn(s: State, trace: nat -> Label, k: Key, i: nat, j: nat)
    requires QuietRun(s, trace, k) && i <= j && Good(DL.At(s, trace, i), k)
    ensures GoesOn(DL.At(s, trace, i), DL.At(s, trace, j), k)
    decreases j - i
  {
    hide DL.At, Step, Quiet, QuietRun, Good, GoesOn;
    if i == j {
      GoesOnHere(DL.At(s, trace, i), k);
    } else {
      RunGoesOn(s, trace, k, i, j - 1);
      GoodAfter(DL.At(s, trace, i), DL.At(s, trace, j - 1), k);
      QuietAt(s, trace, k, j - 1);
      StepGoesOn(DL.At(s, trace, j - 1), trace(j - 1), k);
      GoesOnChains(DL.At(s, trace, i), DL.At(s, trace, j - 1), DL.At(s, trace, j), k);
    }
  }

  lemma OthersKeepPass(s: State, l: Label, k: Key)
    requires Quiet(s, l, k) && !DL.AppMoves(l, k)
    ensures var t := Step(s, l);
            && AppIdle(t, k) == AppIdle(s, k) && AppEffort(t, k) == AppEffort(s, k) && AppLeft(t, k) == AppLeft(s, k)
            && Rank(t, k) == Rank(s, k)
  {
    CL.OthersLeaveAppPass(s, l, k);
    hide Step, LeavesAlone;
    assert Find(Step(s, l).appPasses, k) == Find(s.appPasses, k);
  }

  /** The pass in flight, even one that has failed, comes to its end. */
  lemma {:induction false} PassEnds(s: State, trace: nat -> Label, k: Key, i: nat, m: nat) returns (j: nat)
    requires QuietRun(s, trace, k) && i <= m && DL.AppMoves(trace(m), k)
    ensures i <= j && AppIdle(DL.At(s, trace, j), k)
    decreases AppEffort(DL.At(s, trace, i), k), AppLeft(DL.At(s, trace, i), k), m - i
  {
    hide DL.At, Step, Quiet, QuietRun, DL.AppMoves, AppIdle, AppEffort, AppLeft;
    var now, l := DL.At(s, trace, i), trace(i);
    if AppIdle(now, k) {
      j := i;
    } else {
      QuietAt(s, trace, k, i);
      if DL.AppMoves(l, k) {
        DP.OwnAppTurnAdvances(now, l, k);
        var next := NextTurn(s, trace, k, i + 1);
        j := PassEnds(s, trace, k, i + 1, next);
      } else {
        OthersKeepPass(now, l, k);
        j := PassEnds(s, trace, k, i + 1, m);
      }
    }
  }

  lemma OthersKeepWork(s: State, l: Label, k: Key)
    requires Work(s, k) && Quiet(s, l, k) && !DL.AppMoves(l, k)
    ensures Work(Step(s, l), k) && GoesOn(s, Step(s, l), k)
  {
    OthersGoOn(s, l, k);
    hide Step, Quiet, Good, Owned;
    assert Find(Step(s, l).appPasses, k) == Find(s.appPasses, k);
    GoodAfter(s, Step(s, l), k);
    hide GoesOn;
  }

  /** A missing host of `s` has been made at `t`, or the app matches there. */
  ghost predicate Improved(s: State, t: State, k: Key) {
    GoesOn(s, t, k) && (Matches(t.store, k) || MissingHosts(t.store, k) < MissingHosts(s.store, k))
  }

  lemma ImprovedFrom(s: State, t: State, u: State, k: Key)
    requires GoesOn(s, t, k) && Improved(t, u, k)
    ensures Improved(s, u, k)
  {
    GoesOnChains(s, t, u, k);
    hide Good, Matches, MissingHosts;
  }

  /** A pass that has not failed makes a missing host or brings the app to match. */
  lemma {:induction false} PassImproves(s: State, trace: nat -> Label, k: Key, i: nat, m: nat) returns (j: nat)
    requires QuietRun(s, trace, k) && Work(DL.At(s, trace, i), k) && i <= m && DL.AppMoves(trace(m), k)
    ensures i <= j && Improved(DL.At(s, trace, i), DL.At(s, trace, j), k)
    decreases Rank(DL.At(s, trace, i), k), AppLeft(DL.At(s, trace, i), k), m - i
  {
    hide DL.At, Step, Quiet, QuietRun, DL.AppMoves, AppLeft, Rank, Work, GoesOn, Good, Matches, MissingHosts;
    var now, l, t := DL.At(s, trace, i), trace(i), DL.At(s, trace, i + 1);
    QuietAt(s, trace, k, i);
    if DL.AppMoves(l, k) {
      WorkTurn(now, l, k);
      WorkApps(now, t, k);
      if Matches(t.store, k) || MissingHosts(t.store, k) < MissingHosts(now.store, k) {
        j := i + 1;
      } else {
        var next := NextTurn(s, trace, k, i + 1);
        j := PassImproves(s, trace, k, i + 1, next);
        ImprovedFrom(now, t, DL.At(s, trace, j), k);
      }
    } else {
      OthersKeepWork(now, l, k);
      OthersKeepPass(now, l, k);
      j := PassImproves(s, trace, k, i + 1, m);
      ImprovedFrom(now, t, DL.At(s, trace, j), k);
    }
  }

  lemma WorkApps(s: State, t: State, k: Key)
    requires Advanced(s, t, k)
    ensures k in s.store.apps && k in t.store.apps
  {
    hide NoForeign, Matches, MissingHosts;
  }

  lemma IdleWorks(s: State, k: Key)
    requires Good(s, k) && AppIdle(s, k)
    ensures Work(s, k)
  {
    hide NoForeign;
  }

  /** Pass after pass, until the app matches. */
  lemma {:induction false} Matching(s: State, trace: nat -> Label, k: Key, i: nat) returns (j: nat)
    requires QuietRun(s, trace, k) && Good(DL.At(s, trace, i), k)
    ensures i <= j && Good(DL.At(s, trace, j), k) && Matches(DL.At(s, trace, j).store, k)
    decreases |MissingHosts(DL.At(s, trace, i).store, k)|
  {
    hide DL.At, QuietRun, DL.AppMoves, AppIdle, Work, GoesOn, Good, Matches, MissingHosts;
    GoodApp(DL.At(s, trace, i), k);
    var turn := NextTurn(s, trace, k, i);
    var idle := PassEnds(s, trace, k, i, turn);
    RunGoesOn(s, trace, k, i, idle);
    GoodAfter(DL.At(s, trace, i), DL.At(s, trace, idle), k);
    IdleWorks(DL.At(s, trace, idle), k);
    turn := NextTurn(s, trace, k, idle);
    var better := PassImproves(s, trace, k, idle, turn);
    ImprovedFrom(DL.At(s, trace, i), DL.At(s, trace, idle), DL.At(s, trace, better), k);
    GoodAfter(DL.At(s, trace, i), DL.At(s, trace, better), k);
    GoodApp(DL.At(s, trace, better), k);
    if Matches(DL.At(s, trace, better).store, k) {
      j := better;
    } else {
      FewerMissing(DL.At(s, trace, i).store, DL.At(s, trace, better).store, k);
      j := Matching(s, trace, k, better);
    }
  }

  lemma FewerMissing(a: Store, b: Store, k: Key)
    requires k in a.apps && k in b.apps && MissingHosts(b, k) < MissingHosts(a, k)
    ensures |MissingHosts(b, k)| < |MissingHosts(a, k)|
  {
    DL.Shrinks(MissingHosts(b, k), MissingHosts(a, k));
    hide MissingHosts;
  }

  // ----- whatever pass is in flight -------------------------------------------------------------------------------

  /** The app is healthy and nobody else maps a host it wants; the pass in flight may work on any older copy. */
  ghost predicate Settled(s: State, k: Key) {
    Healthy(s.store, k) && NoForeign(s.store, k) && AV.Current(s, k)
  }

  lemma OthersSettled(s: State, l: Label, k: Key)
    requires Settled(s, k) && Quiet(s, l, k) && !DL.AppMoves(l, k)
    ensures Settled(Step(s, l), k)
  {
    var t := Step(s, l);
    CL.OthersLeaveAppPass(s, l, k);
    hide Step;
    LeftAloneForeign(s.store, t.store, k);
    assert Find(t.store.apps, k) == Find(s.store.apps, k);
    hide LeavesAlone, NoForeign;
    AV.StepCurrent(s, l, k);
    hide AV.Current;
  }

  /** Whatever a pass writes of the app, the spec stays. */
  lemma VerbKeepsSpec(apps: map<Key, App>, rv: nat, call: Call, k: Key)
    requires k in apps && !apps[k].deleting && (call.UpdateApp? || call.UpdateAppStatus?) && call.key == k
    requires call.app.rv == apps[k].rv ==> call.app.spec == apps[k].spec
    ensures var after := ServeApp(apps, rv, call).0;
            k in after && !after[k].deleting && after[k].spec == apps[k].spec
  {
  }

  lemma MappingCalls(k: Key, p: AC.Pass)
    requires !p.pc.Finished?
    ensures var call := AC.NextCall(k, p);
            WritesMapping(call) ==> call.key.ns == k.ns && (call.CreateMapping? ==> LabelledFor(call.mapping, k.name))
  {
  }

  lemma CallKeepsSpec(store: Store, k: Key, p: AC.Pass, chance: Chance)
    requires Healthy(store, k) && !p.pc.Finished? && (!p.pc.Get? ==> AV.CopyFits(store, k, p))
    ensures var after := Deliver(store, AC.NextCall(k, p), chance).0;
            k in after.apps && after.apps[k].spec == store.apps[k].spec && Alive(after, k)
  {
    var call := AC.NextCall(k, p);
    DeliverTouches(store, call, chance);
    AV.CallOnApp(k, p);
    hide Deliver, AC.NextCall, ServeApp;
    if WritesApp(call) {
      VerbKeepsSpec(store.apps, store.clock, call, k);
    }
  }

  /** The pass's deletions and creations leave nobody else with a wanted host. */
  lemma VerbKeepsForeign(a: Store, b: Store, k: Key, call: Call)
    requires k in a.apps && k in b.apps && b.apps[k].spec == a.apps[k].spec && NoForeign(a, k)
    requires b.mappings == a.mappings || (WritesMapping(call) && b.mappings == ServeMapping(a.mappings, a.clock, call).0)
    requires WritesMapping(call) ==> call.key.ns == k.ns && (call.CreateMapping? ==> LabelledFor(call.mapping, k.name))
    ensures NoForeign(b, k)
  {
    forall h | h in Wanted(b, k) && h in Hosts(b.mappings, k.ns)
      ensures h in Owned(b, k)
    {
      HostsAt(a.mappings, k.ns, h);
      HostsAt(b.mappings, k.ns, h);
      OwnedAt(a, k, h);
      OwnedAt(b, k, h);
      hide Owned;
    }
  }

  lemma OwnSettled(s: State, k: Key, chance: Chance)
    requires Settled(s, k)
    ensures Settled(AppStep(s, k, chance), k)
  {
    AV.StepCurrent(s, AppTurn(k, chance), k);
    assert Step(s, AppTurn(k, chance)) == AppStep(s, k, chance);
    if !AppIdle(s, k) {
      var p := s.appPasses[k];
      var call := AC.NextCall(k, p);
      AppTurnTaken(s, k, chance);
      CallKeepsSpec(s.store, k, p, chance);
      DeliverTouches(s.store, call, chance);
      DL.AppCallKeepsTenants(s.store, k, p, chance);
      MappingCalls(k, p);
      hide Deliver, AC.NextCall, AC.Resume, NoForeign, AppStep, Step, ServeMapping, ServeService, ServeApp, AV.Current;
      VerbKeepsForeign(s.store, AppStep(s, k, chance).store, k, call);
    } else {
      hide NoForeign, Step, AV.Current;
    }
  }

  lemma StepSettled(s: State, l: Label, k: Key)
    requires Settled(s, k) && Quiet(s, l, k)
    ensures Settled(Step(s, l), k)
  {
    hide Settled, Quiet, AppStep;
    if DL.AppMoves(l, k) {
      OwnSettled(s, k, l.chance);
    } else {
      hide Step;
      OthersSettled(s, l, k);
    }
  }

  lemma {:induction false} RunSettled(s: State, trace: nat -> Label, k: Key, i: nat)
    requires QuietRun(s, trace, k) && Settled(s, k)
    ensures Settled(DL.At(s, trace, i), k)
  {
    hide Step, Quiet, QuietRun, Settled;
    if i > 0 {
      RunSettled(s, trace, k, i - 1);
      QuietAt(s, trace, k, i - 1);
      StepSettled(DL.At(s, trace, i - 1), trace(i - 1), k);
    }
  }

  lemma IdleIsGood(s: State, k: Key)
    requires Settled(s, k) && AppIdle(s, k)
    ensures Good(s, k)
  {
    hide NoForeign, AV.Current;
  }

  // ----- the theorem ----------------------------------------------------------------------------------------------

  /** From any moment on, with whatever pass in flight: in every fair run that leaves the app's objects alone, the
      service and the mappings match the spec at some moment, and at every later one. */
  lemma RunConverges(s: State, trace: nat -> Label, k: Key) returns (j: nat)
    requires Settled(s, k) && QuietRun(s, trace, k)
    ensures forall m: nat | j <= m :: k in DL.At(s, trace, m).store.apps && Matches(DL.At(s, trace, m).store, k)
  {
    hide DL.At, QuietRun, Settled, Good, Matches, AppIdle, DL.AppMoves, GoesOn;
    var turn := NextTurn(s, trace, k, 0);
    var idle := PassEnds(s, trace, k, 0, turn);
    RunSettled(s, trace, k, idle);
    IdleIsGood(DL.At(s, trace, idle), k);
    j := Matching(s, trace, k, idle);
    forall m: nat | j <= m
      ensures k in DL.At(s, trace, m).store.apps && Matches(DL.At(s, trace, m).store, k)
    {
      RunGoesOn(s, trace, k, j, m);
      StillMatches(DL.At(s, trace, j), DL.At(s, trace, m), k);
    }
  }

  /** In particular after any history: once the app is healthy and nobody else maps a host it wants, such a run brings
      it to match, for good. */
  lemma HistoryConverges(states: seq<State>, labels: seq<Label>, trace: nat -> Label, k: Key) returns (j: nat)
    requires History(states, labels) && AV.Begins(states[0], k)
    requires var t := states[|labels|]; Healthy(t.store, k) && NoForeign(t.store, k) && QuietRun(t, trace, k)
    ensures forall m: nat | j <= m ::
              var u := DL.At(states[|labels|], trace, m); k in u.store.apps && Matches(u.store, k)
  {
    AV.HistoryCurrent(states, labels, k, |labels|);
    hide DL.At, QuietRun, Matches, NoForeign, AV.Current, AV.Begins;
    j := RunConverges(states[|labels|], trace, k);
  }

  lemma StillMatches(s: State, t: State, k: Key)
    requires GoesOn(s, t, k) && Matches(s.store, k)
    ensures k in t.store.apps && Matches(t.store, k)
  {
    hide Matches, NoForeign, MissingHosts;
  }

  // ----- such runs exist ------------------------------------------------------------------------------------------

  ghost function Reach(s: State, k: Key, i: nat): State {
    if i == 0 then s else Step(Reach(s, k, i - 1), Pick(Reach(s, k, i - 1), k))
  }

  /** The app's own turn, with its call answered. */
  ghost function Pick(s: State, k: Key): Label {
    AppTurn(k, Chance(NoFault, if AppIdle(s, k) then [] else DW.OrderFor(s.store, AC.NextCall(k, s.appPasses[k]))))
  }

  ghost function Solo(s: State, k: Key): nat -> Label {
    (i: nat) => Pick(Reach(s, k, i), k)
  }

  lemma {:induction false} ReachIsAt(s: State, k: Key, i: nat)
    ensures DL.At(s, Solo(s, k), i) == Reach(s, k, i)
  {
    hide Step, Pick;
    if i > 0 {
      ReachIsAt(s, k, i - 1);
    }
  }

  lemma PickIsQuiet(s: State, k: Key)
    ensures Quiet(s, Pick(s, k), k) && DL.AppMoves(Pick(s, k), k)
  {
    hide Serve, AC.NextCall, DW.OrderFor;
    if !AppIdle(s, k) {
      DW.EveryCallAnswered(s.store, AC.NextCall(k, s.appPasses[k]));
    }
  }

  /** From every state and for every app. */
  lemma QuietRunExists(s: State, k: Key)
    ensures QuietRun(s, Solo(s, k), k)
  {
    hide Quiet, DL.AppMoves, Pick, DL.At;
    var trace := Solo(s, k);
    forall i: nat
      ensures DL.AppMovesAfter(trace, k, i) && Quiet(DL.At(s, trace, i), trace(i), k)
    {
      ReachIsAt(s, k, i);
      PickIsQuiet(Reach(s, k, i), k);
      assert DL.AppMoves(trace(i), k);
    }
  }
}
