/** In every reachable state the copy an app's pass works on is no newer than the stored app, and where it carries the
    stored version it is the stored spec; so what a pass writes back never replaces a spec it has not read. */
module AppVersions {
  import opened Options
  import opened Kube
  import opened ApiServer
  import opened Operator
  import FS = FinalizerSafety
  import DL = DrainLiveness
  import PA = PhaseAgreement
  import AC = AppController
  import TC = TenantController

  /** The copy is from this server, and the stored spec if it carries the stored version. */
  predicate CopyFits(store: Store, k: Key, p: AC.Pass) {
    p.app.rv < store.clock && (k in store.apps && p.app.rv == store.apps[k].rv ==> p.app.spec == store.apps[k].spec)
  }

  ghost predicate Current(s: State, k: Key) {
    && (k in s.store.apps ==> s.store.apps[k].rv < s.store.clock)
    && (!AppIdle(s, k) && !s.appPasses[k].pc.Get? ==> CopyFits(s.store, k, s.appPasses[k]))
  }

  // ----- the app's own calls ------------------------------------------------------------------------------------

  lemma CallOnApp(k: Key, p: AC.Pass)
    requires !p.pc.Finished?
    ensures var call := AC.NextCall(k, p);
            && (WritesApp(call) ==> (call.UpdateApp? || call.UpdateAppStatus?) && call.key == k && call.app == p.app && !p.pc.Get?)
            && (p.pc.Get? ==> call == GetApp(k))
  {
  }

  /** The calls that go on with the app they are answered, and the last calls of their passes. */
  predicate Refreshes(pc: AC.Pc) {
    pc.Get? || pc.AddFinalizer? || pc.MarkPending? || pc.MarkPaused? || pc.MarkDeploying?
  }

  predicate Last(pc: AC.Pc) {
    pc.StatusWrite? || pc.FailureWrite? || pc.DropFinalizer?
  }

  lemma ResumeKeepsCopy(k: Key, p: AC.Pass, r: Response)
    requires !p.pc.Finished?
    ensures var q := AC.Resume(p, r);
            && !q.pc.Get?
            && (Last(p.pc) ==> q.pc.Finished?)
            && (Refreshes(p.pc) && !q.pc.Finished? ==> r.GotApp? && q.app.rv == r.app.rv && q.app.spec == r.app.spec)
            && (!Last(p.pc) && !Refreshes(p.pc) ==> q.app.rv == p.app.rv && q.app.spec == p.app.spec)
    ensures !Last(p.pc) && !Refreshes(p.pc) ==> !WritesApp(AC.NextCall(k, p))
  {
    hide AC.Stale, AC.Missing, AC.DesiredServiceSpec, AC.Observed, AC.DesiredMapping, AC.ReplacedService, AC.DesiredService;
  }

  /** A write stores a new version, or nothing. */
  lemma WriteIsNew(apps: map<Key, App>, rv: nat, call: Call, k: Key)
    requires (call.UpdateApp? || call.UpdateAppStatus?) && call.key == k
    ensures var (after, r) := ServeApp(apps, rv, call);
            && (after == apps || (k in after ==> after[k].rv == rv))
            && (r.GotApp? ==> r.app.rv == rv && (k in after ==> after[k] == r.app))
  {
  }

  lemma ReadIsStored(apps: map<Key, App>, rv: nat, k: Key)
    ensures ServeApp(apps, rv, GetApp(k)) == (apps, if k in apps then GotApp(apps[k]) else NotFound)
  {
  }

  lemma OwnCallCurrent(store: Store, k: Key, p: AC.Pass, chance: Chance)
    requires !p.pc.Finished? && (k in store.apps ==> store.apps[k].rv < store.clock) && (!p.pc.Get? ==> CopyFits(store, k, p))
    ensures var (after, r) := Deliver(store, AC.NextCall(k, p), chance);
            var q := AC.Resume(p, r);
            && (k in after.apps ==> after.apps[k].rv < after.clock)
            && (!q.pc.Finished? ==> !q.pc.Get? && CopyFits(after, k, q))
  {
    var call := AC.NextCall(k, p);
    var (after, r) := Deliver(store, call, chance);
    DeliverTouches(store, call, chance);
    PA.AnswerOf(store, call, chance);
    AnsweredMoves(store, call, chance);
    CallOnApp(k, p);
    ResumeKeepsCopy(k, p, r);
    hide Deliver, AC.NextCall, AC.Resume, ServeApp;
    if WritesApp(call) {
      WriteIsNew(store.apps, store.clock, call, k);
    } else if p.pc.Get? {
      ReadIsStored(store.apps, store.clock, k);
    }
  }

  /** A call that is answered, or takes effect, moves the clock. */
  lemma AnsweredMoves(store: Store, call: Call, chance: Chance)
    ensures var (after, r) := Deliver(store, call, chance);
            && after.clock >= store.clock && (after != store || !r.Error? ==> after.clock == store.clock + 1)
            && (!r.Error? && WritesApp(call) ==> after.apps == ServeApp(store.apps, store.clock, call).0)
  {
    ServeTouches(store, call, chance.order);
    hide Serve, ServeApp, ServeTenant, ServeService, ServeMapping;
  }

  // ----- everyone else ------------------------------------------------------------------------------------------

  /** The stored app is as it was, gone, or of a version that no copy has. */
  predicate Renewed(a: Store, b: Store, k: Key) {
    && b.clock >= a.clock
    && (k in b.apps ==> Find(b.apps, k) == Find(a.apps, k) || a.clock <= b.apps[k].rv < b.clock)
  }

  lemma RenewedFits(a: Store, b: Store, k: Key, p: AC.Pass)
    requires Renewed(a, b, k) && CopyFits(a, k, p)
    ensures CopyFits(b, k, p)
  {
  }

  lemma DeleteRenews(store: Store, at: Key, chance: Chance, k: Key)
    ensures Renewed(store, Deliver(store, Call.DeleteApp(at), chance).0, k)
  {
    AppServed(store, Call.DeleteApp(at), chance.order);
    hide Serve;
  }

  lemma TenantCallRenews(store: Store, m: string, p: TC.Pass, chance: Chance, k: Key)
    requires !p.pc.Finished?
    ensures Renewed(store, Deliver(store, TC.NextCall(m, p), chance).0, k)
  {
    var call := TC.NextCall(m, p);
    DL.TenantCallsOwn(m, p);
    hide TC.NextCall;
    if WritesApp(call) {
      DeleteRenews(store, call.key, chance, k);
    } else {
      DeliverTouches(store, call, chance);
      AnsweredMoves(store, call, chance);
    }
    hide Deliver;
  }

  lemma OtherStepRenews(s: State, l: Label, k: Key)
    requires !(l.AppTurn? && l.key == k)
    ensures Renewed(s.store, Step(s, l).store, k)
  {
    hide Deliver, AC.NextCall, AC.Resume, TC.NextCall, TC.Resume;
    match l {
      case AppTurn(j, chance) =>
        if !AppIdle(s, j) {
          FS.AppCallSeparate(s.store, j, s.appPasses[j], chance, k);
          AnsweredMoves(s.store, AC.NextCall(j, s.appPasses[j]), chance);
          var after := Deliver(s.store, AC.NextCall(j, s.appPasses[j]), chance).0;
          assert Find(after.apps, k) == Find(s.store.apps, k);
        }
      case TenantTurn(m, chance) =>
        if !Idle(s, m) {
          TenantCallRenews(s.store, m, s.tenantPasses[m], chance, k);
        }
      case _ =>
    }
  }

  lemma OtherStepLeavesPass(s: State, l: Label, k: Key)
    requires !(l.AppTurn? && l.key == k)
    ensures var t := Step(s, l);
            k in t.appPasses ==> k in s.appPasses && t.appPasses[k] == s.appPasses[k]
  {
    hide Deliver, AC.NextCall, AC.Resume, TC.NextCall, TC.Resume;
  }

  lemma StepCurrent(s: State, l: Label, k: Key)
    requires Current(s, k)
    ensures Current(Step(s, l), k)
  {
    if l.AppTurn? && l.key == k {
      if !AppIdle(s, k) {
        OwnCallCurrent(s.store, k, s.appPasses[k], l.chance);
        AppTurnTaken(s, k, l.chance);
        hide Deliver, AC.NextCall, AC.Resume, AppStep;
      }
    } else {
      OtherStepRenews(s, l, k);
      OtherStepLeavesPass(s, l, k);
      hide Step;
      if !AppIdle(Step(s, l), k) && !Step(s, l).appPasses[k].pc.Get? {
        RenewedFits(s.store, Step(s, l).store, k, s.appPasses[k]);
      }
    }
  }

  /** No pass in flight, and a version that was handed out by this server. */
  ghost predicate Begins(s: State, k: Key) {
    k !in s.appPasses && (k in s.store.apps ==> s.store.apps[k].rv < s.store.clock)
  }

  /** At the end of every history, whoever interferes and whatever fails. */
  lemma {:induction false} HistoryCurrent(states: seq<State>, labels: seq<Label>, k: Key, i: nat)
    requires History(states, labels) && Begins(states[0], k) && i <= |labels|
    ensures Current(states[i], k)
  {
    hide Step;
    if i > 0 {
      hide Current, Begins;
      HistoryCurrent(states, labels, k, i - 1);
      assert StepAt(states, labels, i - 1);
      StepCurrent(states[i - 1], labels[i - 1], k);
    }
  }
}
