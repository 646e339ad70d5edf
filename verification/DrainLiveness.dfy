/** A tenant that is being deleted drains: its apps only ever get fewer, and every fair run without failures
    reaches the teardown of its namespace. */
module DrainLiveness {
  import opened Options
  import opened Kube
  import opened ApiServer
  import opened Operator
  import opened DrainSafety
  import FS = FinalizerSafety
  import PA = PhaseAgreement
  import AC = AppController
  import TC = TenantController

  // ----- the pair that falls ------------------------------------------------------------------------------------

  function Present(s: Store, ns: string): set<Key> {
    set k | k in s.apps && k.ns == ns
  }

  function Unmarked(s: Store, ns: string): set<Key> {
    set k | k in s.apps && k.ns == ns && !s.apps[k].deleting
  }

  /** Neither unmarks nor adds an App. */
  ghost predicate OnlyFewer(a: map<Key, App>, b: map<Key, App>) {
    forall k | k in b :: k in a && (a[k].deleting ==> b[k].deleting)
  }

  lemma VerbsOnlyFewer(apps: map<Key, App>, rv: nat, call: Call)
    ensures OnlyFewer(apps, ServeApp(apps, rv, call).0)
  {
  }

  lemma CallsOnlyFewer(store: Store, call: Call, chance: Chance)
    ensures OnlyFewer(store.apps, Deliver(store, call, chance).0.apps)
  {
    hide Deliver, ServeApp;
    DeliverTouches(store, call, chance);
    VerbsOnlyFewer(store.apps, store.clock, call);
  }

  lemma StepsOnlyFewer(s: State, l: Label)
    requires !l.CreateApp?
    ensures OnlyFewer(s.store.apps, Step(s, l).store.apps)
  {
    hide Deliver, AC.NextCall, AC.Resume, TC.NextCall, TC.Resume;
    match l {
      case AppTurn(k, chance) =>
        if k in s.appPasses && !s.appPasses[k].pc.Finished? {
          CallsOnlyFewer(s.store, AC.NextCall(k, s.appPasses[k]), chance);
        }
      case TenantTurn(n, chance) =>
        if n in s.tenantPasses && !s.tenantPasses[n].pc.Finished? {
          CallsOnlyFewer(s.store, TC.NextCall(n, s.tenantPasses[n]), chance);
        }
      case _ =>
    }
  }

  /** With no new app, both the apps not yet marked for deletion and the apps that remain only get fewer. */
  lemma DrainNeverRises(s: State, l: Label, ns: string)
    requires l.CreateApp? ==> l.key.ns != ns
    ensures Unmarked(Step(s, l).store, ns) <= Unmarked(s.store, ns)
    ensures Present(Step(s, l).store, ns) <= Present(s.store, ns)
  {
    if !l.CreateApp? {
      StepsOnlyFewer(s, l);
      hide Step;
    }
  }

  ghost predicate NoNewApps(labels: seq<Label>, ns: string, i: nat, j: nat)
    requires j <= |labels|
  {
    forall x | i <= x < j :: labels[x].CreateApp? ==> labels[x].key.ns != ns
  }

  /** Over any stretch of any history without new apps both only ever get fewer, whoever acts and whatever
      fails. */
  lemma {:induction false} HistoryNeverRises(states: seq<State>, labels: seq<Label>, ns: string, i: nat, j: nat)
    requires History(states, labels) && i <= j <= |labels| && NoNewApps(labels, ns, i, j)
    ensures Unmarked(states[j].store, ns) <= Unmarked(states[i].store, ns)
    ensures Present(states[j].store, ns) <= Present(states[i].store, ns)
    decreases j - i
  {
    hide Step, Unmarked, Present;
    if i < j {
      HistoryNeverRises(states, labels, ns, i, j - 1);
      assert StepAt(states, labels, j - 1);
      DrainNeverRises(states[j - 1], labels[j - 1], ns);
    }
  }

  lemma MarkingUnlinks(s: State, n: string, chance: Chance)
    requires n in s.tenantPasses && s.tenantPasses[n].pc.DrainApp? && chance.fault != Lost
    requires Key(TenantNamespace(n), s.tenantPasses[n].pc.app) in s.store.apps
    ensures TenantStep(s, n, chance).store.apps
         == Unlinked(s.store.apps, Key(TenantNamespace(n), s.tenantPasses[n].pc.app), s.store.clock)
  {
    var call := Call.DeleteApp(Key(TenantNamespace(n), s.tenantPasses[n].pc.app));
    TenantTurnTaken(s, n, chance);
    AppServed(s.store, call, chance.order);
    assert TC.NextCall(n, s.tenantPasses[n]) == call;
    hide Serve, TenantStep, TenantNamespace, Unlinked, TC.NextCall, TC.Resume;
  }

  /** The tenant pass's delete call on an unmarked app lowers the first, whatever becomes of its answer. */
  lemma MarkingLowersUnmarked(s: State, n: string, chance: Chance)
    requires n in s.tenantPasses && s.tenantPasses[n].pc.DrainApp? && chance.fault != Lost
    requires Key(TenantNamespace(n), s.tenantPasses[n].pc.app) in Unmarked(s.store, TenantNamespace(n))
    ensures var t := Step(s, TenantTurn(n, chance));
            && Unmarked(t.store, TenantNamespace(n)) < Unmarked(s.store, TenantNamespace(n))
            && |Unmarked(t.store, TenantNamespace(n))| < |Unmarked(s.store, TenantNamespace(n))|
  {
    hide TenantNamespace;
    var ns := TenantNamespace(n);
    var k := Key(ns, s.tenantPasses[n].pc.app);
    var t := Step(s, TenantTurn(n, chance));
    MarkingUnlinks(s, n, chance);
    hide Step;
    DrainNeverRises(s, TenantTurn(n, chance), ns);
    assert k !in Unmarked(t.store, ns);
    Shrinks(Unmarked(t.store, ns), Unmarked(s.store, ns));
  }

  /** Dropping the last finalizer of a marked app lowers the second and leaves the first. */
  lemma DroppingLowersPresent(s: State, k: Key, chance: Chance)
    requires k in s.appPasses && s.appPasses[k].pc.DropFinalizer? && chance.fault != Lost
    requires k in s.store.apps && s.store.apps[k].deleting
    requires s.appPasses[k].app.rv == s.store.apps[k].rv && s.appPasses[k].app.finalizers == {}
    ensures var t := Step(s, AppTurn(k, chance));
            && Unmarked(t.store, k.ns) == Unmarked(s.store, k.ns)
            && Present(t.store, k.ns) < Present(s.store, k.ns)
            && |Present(t.store, k.ns)| < |Present(s.store, k.ns)|
  {
    var t := Step(s, AppTurn(k, chance));
    assert t.store.apps == s.store.apps - {k};
    hide Step;
    assert k in Present(s.store, k.ns) && k !in Present(t.store, k.ns);
    Shrinks(Present(t.store, k.ns), Present(s.store, k.ns));
  }

  lemma Shrinks<T>(a: set<T>, b: set<T>)
    requires a < b
    ensures |a| < |b|
  {
    var x :| x in b && x !in a;
    assert a <= b - {x};
    FewerElements(a, b - {x});
  }

  lemma {:induction false} FewerElements<T>(a: set<T>, b: set<T>)
    requires a <= b
    ensures |a| <= |b|
  {
    if a != {} {
      var x :| x in a;
      FewerElements(a - {x}, b - {x});
    }
  }

  // ----- fair runs without failures -----------------------------------------------------------------------------

  /** An infinite run. */
  function At(s: State, trace: nat -> Label, i: nat): State {
    if i == 0 then s else Step(At(s, trace, i - 1), trace(i - 1))
  }

  /** A turn that concerns tenant `n` or the apps in its namespace goes well: calls are answered, no pass is
      abandoned, and no user creates or edits there.  Everybody else may do and suffer anything. */
  ghost predicate Calm(s: State, l: Label, n: string) {
    match l
    case AppTurn(k, chance) =>
      k.ns == TenantNamespace(n) && !AppIdle(s, k) ==>
        chance.fault == NoFault && !Deliver(s.store, AC.NextCall(k, s.appPasses[k]), chance).1.Error?
    case TenantTurn(m, chance) =>
      m == n && !Idle(s, n) ==>
        chance.fault == NoFault && !Deliver(s.store, TC.NextCall(n, s.tenantPasses[n]), chance).1.Error?
    case AppCrash(k) => k.ns != TenantNamespace(n)
    case TenantCrash(m) => m != n
    case CreateApp(k, _, _) => k.ns != TenantNamespace(n)
    case EditApp(k, _, _) => k.ns != TenantNamespace(n)
    case EditTenant(m, _, _) => m != n
    case _ => true
  }

  ghost predicate TenantMoves(l: Label, n: string) {
    l.TenantTurn? && l.name == n
  }

  ghost predicate AppMoves(l: Label, k: Key) {
    l.AppTurn? && l.key == k
  }

  ghost predicate TenantMovesAfter(trace: nat -> Label, n: string, i: nat) {
    exists j: nat :: i <= j && TenantMoves(trace(j), n)
  }

  ghost predicate AppMovesAfter(trace: nat -> Label, k: Key, i: nat) {
    exists j: nat :: i <= j && AppMoves(trace(j), k)
  }

  /** The tenant controller and the app controller, for each app there is in the namespace, keep taking turns. */
  ghost predicate Fair(s: State, trace: nat -> Label, n: string) {
    && (forall i: nat :: TenantMovesAfter(trace, n, i))
    && (forall k: Key, i: nat | k.ns == TenantNamespace(n) && k in At(s, trace, i).store.apps :: AppMovesAfter(trace, k, i))
  }

  ghost predicate CalmRun(s: State, trace: nat -> Label, n: string) {
    Fair(s, trace, n) && forall i: nat :: Calm(At(s, trace, i), trace(i), n)
  }

  ghost predicate Reached(s: State, n: string) {
    n in s.tenantPasses && TC.TearingDown(s.tenantPasses[n].pc)
  }

  /** The tenant is marked, and the operator's finalizer is the only one on apps of its namespace, stored or
      in the copies of passes in flight. */
  ghost predicate Draining(s: State, n: string) {
    && n in s.store.tenants && s.store.tenants[n].deleting
    && FewFinalizers(s.store.apps, TenantNamespace(n))
    && (forall k | k in s.appPasses && k.ns == TenantNamespace(n) :: s.appPasses[k].app.finalizers <= {FINALIZER_APP})
  }

  ghost predicate FewFinalizers(apps: map<Key, App>, ns: string) {
    forall k | k in apps && k.ns == ns :: apps[k].finalizers <= {FINALIZER_APP}
  }

  /** Objects that wait for deletion have a finalizer to wait for, and a pass adds the finalizer it means to. */
  ghost predicate Sane(s: State) {
    && (forall k | k in s.store.apps && s.store.apps[k].deleting :: s.store.apps[k].finalizers != {})
    && (forall n | n in s.store.tenants && s.store.tenants[n].deleting :: s.store.tenants[n].finalizers != {})
    && (forall n | n in s.tenantPasses && s.tenantPasses[n].pc.AddFinalizer? ::
          s.tenantPasses[n].tenant.finalizers != {})
  }

  ghost predicate AllMarked(s: State, n: string) {
    forall k | k in s.store.apps && k.ns == TenantNamespace(n) :: s.store.apps[k].deleting
  }

  // ----- what turns of others leave alone ---------------------------------------------------------------------

  lemma AppCallsWriteNoTenant(k: Key, p: AC.Pass)
    requires !p.pc.Finished?
    ensures !WritesTenant(AC.NextCall(k, p))
  {
  }

  lemma TenantCallsOwn(m: string, p: TC.Pass)
    requires !p.pc.Finished?
    ensures var call := TC.NextCall(m, p);
            && (WritesTenant(call) ==> call.name == m)
            && (WritesApp(call) ==> call.DeleteApp? && call.key.ns == TenantNamespace(m))
            && (call.UpdateTenant? ==> p.pc.AddFinalizer? || p.pc.DropFinalizer?)
  {
  }

  lemma AppCallKeepsTenants(store: Store, k: Key, p: AC.Pass, chance: Chance)
    requires !p.pc.Finished?
    ensures Deliver(store, AC.NextCall(k, p), chance).0.tenants == store.tenants
  {
    hide Deliver, AC.NextCall;
    AppCallsWriteNoTenant(k, p);
    DeliverTouches(store, AC.NextCall(k, p), chance);
  }

  lemma TenantCallKeepsOthers(store: Store, m: string, p: TC.Pass, chance: Chance, n: string)
    requires !p.pc.Finished? && m != n
    ensures Find(Deliver(store, TC.NextCall(m, p), chance).0.tenants, n) == Find(store.tenants, n)
  {
    hide Deliver, TC.NextCall;
    TenantCallsOwn(m, p);
    DeliverTouches(store, TC.NextCall(m, p), chance);
  }

  lemma OtherTurnFrame(s: State, l: Label, n: string)
    requires (l.AppTurn? || l.TenantTurn?) && !TenantMoves(l, n)
    ensures var t := Step(s, l);
            && Find(t.tenantPasses, n) == Find(s.tenantPasses, n)
            && Find(t.store.tenants, n) == Find(s.store.tenants, n)
  {
    hide Deliver, AC.NextCall, AC.Resume, TC.NextCall, TC.Resume;
    match l {
      case AppTurn(k, chance) =>
        if !AppIdle(s, k) {
          AppCallKeepsTenants(s.store, k, s.appPasses[k], chance);
        }
      case TenantTurn(m, chance) =>
        if !Idle(s, m) {
          TenantCallKeepsOthers(s.store, m, s.tenantPasses[m], chance, n);
          var after := Deliver(s.store, TC.NextCall(m, s.tenantPasses[m]), chance).0;
          assert Find(after.tenants, n) == Find(s.store.tenants, n);
        }
    }
  }

  /** Only its own turns move a tenant's pass or change a marked tenant. */
  lemma TenantFrame(s: State, l: Label, n: string)
    requires Calm(s, l, n) && !TenantMoves(l, n) && n in s.store.tenants && s.store.tenants[n].deleting && Sane(s)
    ensures var t := Step(s, l);
            && Find(t.tenantPasses, n) == Find(s.tenantPasses, n)
            && Find(t.store.tenants, n) == Find(s.store.tenants, n)
  {
    if l.AppTurn? || l.TenantTurn? {
      OtherTurnFrame(s, l, n);
      hide Step, Calm;
    }
  }

  /** Only its own turns move an app's pass or change a marked app. */
  lemma AppFrame(s: State, l: Label, n: string, k: Key)
    requires Calm(s, l, n) && !AppMoves(l, k) && k.ns == TenantNamespace(n) && Sane(s)
    ensures var t := Step(s, l);
            && Find(t.appPasses, k) == Find(s.appPasses, k)
            && (k in s.store.apps && s.store.apps[k].deleting ==>
                  Find(t.store.apps, k) == Find(s.store.apps, k))
            && (k !in s.store.apps ==> k !in t.store.apps)
  {
    hide Deliver, AC.NextCall, AC.Resume, TC.NextCall, TC.Resume;
    match l {
      case AppTurn(j, chance) =>
        if !AppIdle(s, j) {
          FS.AppCallSeparate(s.store, j, s.appPasses[j], chance, k);
          var after := Deliver(s.store, AC.NextCall(j, s.appPasses[j]), chance).0;
          assert Find(after.apps, k) == Find(s.store.apps, k);
        }
      case TenantTurn(m, chance) =>
        if !Idle(s, m) {
          TenantCallOnApps(s.store, m, s.tenantPasses[m], chance, k);
        }
      case _ =>
    }
  }

  /** A tenant's calls change no marked app, and bring none back. */
  lemma TenantCallOnApps(store: Store, m: string, p: TC.Pass, chance: Chance, k: Key)
    requires !p.pc.Finished?
    requires k in store.apps && store.apps[k].deleting ==> store.apps[k].finalizers != {}
    ensures var after := Deliver(store, TC.NextCall(m, p), chance).0;
            && (k in store.apps && store.apps[k].deleting ==> Find(after.apps, k) == Find(store.apps, k))
            && (k !in store.apps ==> k !in after.apps)
  {
    hide Deliver, TC.NextCall;
    TenantCallsOwn(m, p);
    DeliverTouches(store, TC.NextCall(m, p), chance);
  }

  // ----- draining goes on ---------------------------------------------------------------------------------------

  lemma VerbsSane(apps: map<Key, App>, rv: nat, call: Call)
    requires forall k | k in apps && apps[k].deleting :: apps[k].finalizers != {}
    ensures var after := ServeApp(apps, rv, call).0;
            forall k | k in after && after[k].deleting :: after[k].finalizers != {}
  {
  }

  lemma TenantVerbsSane(tenants: map<string, Tenant>, rv: nat, call: Call)
    requires forall n | n in tenants && tenants[n].deleting :: tenants[n].finalizers != {}
    ensures var after := ServeTenant(tenants, rv, call).0;
            forall n | n in after && after[n].deleting :: after[n].finalizers != {}
  {
  }

  lemma CallSane(store: Store, call: Call, chance: Chance)
    requires forall k | k in store.apps && store.apps[k].deleting :: store.apps[k].finalizers != {}
    requires forall n | n in store.tenants && store.tenants[n].deleting :: store.tenants[n].finalizers != {}
    ensures var after := Deliver(store, call, chance).0;
            && (forall k | k in after.apps && after.apps[k].deleting :: after.apps[k].finalizers != {})
            && (forall n | n in after.tenants && after.tenants[n].deleting :: after.tenants[n].finalizers != {})
  {
    hide Deliver, ServeApp, ServeTenant;
    DeliverTouches(store, call, chance);
    VerbsSane(store.apps, store.clock, call);
    TenantVerbsSane(store.tenants, store.clock, call);
  }

  lemma ResumeSane(n: string, p: TC.Pass, r: Response, quantities: set<string>)
    requires !p.pc.Finished?
    ensures var q := TC.Resume(n, p, r, quantities); q.pc.AddFinalizer? ==> q.tenant.finalizers != {}
  {
    hide TC.MergedLabels, TC.LimitsOf;
  }

  lemma TurnSane(s: State, l: Label)
    requires Sane(s) && (l.AppTurn? || l.TenantTurn?)
    ensures Sane(Step(s, l))
  {
    hide Deliver, AC.NextCall, AC.Resume, TC.NextCall, TC.Resume;
    match l {
      case AppTurn(k, chance) =>
        if !AppIdle(s, k) {
          CallSane(s.store, AC.NextCall(k, s.appPasses[k]), chance);
        }
      case TenantTurn(n, chance) =>
        if !Idle(s, n) {
          var call := TC.NextCall(n, s.tenantPasses[n]);
          CallSane(s.store, call, chance);
          ResumeSane(n, s.tenantPasses[n], Deliver(s.store, call, chance).1, s.quantities);
        }
    }
  }

  lemma StepSane(s: State, l: Label)
    requires Sane(s)
    ensures Sane(Step(s, l))
  {
    if l.AppTurn? || l.TenantTurn? {
      TurnSane(s, l);
      hide Step, Sane;
    }
  }

  lemma VerbFewFinalizers(apps: map<Key, App>, rv: nat, call: Call, ns: string)
    requires FewFinalizers(apps, ns)
    requires call.UpdateApp? && call.key.ns == ns ==> call.app.finalizers <= {FINALIZER_APP}
    ensures FewFinalizers(ServeApp(apps, rv, call).0, ns)
    ensures var r := ServeApp(apps, rv, call).1;
            r.GotApp? && (call.GetApp? || WritesApp(call)) && call.key.ns == ns ==> r.app.finalizers <= {FINALIZER_APP}
  {
  }

  lemma ResumeFewFinalizers(p: AC.Pass, r: Response)
    requires !p.pc.Finished? && p.app.finalizers <= {FINALIZER_APP} && (r.GotApp? ==> r.app.finalizers <= {FINALIZER_APP})
    ensures AC.Resume(p, r).app.finalizers <= {FINALIZER_APP}
  {
    hide AC.Stale, AC.Missing, AC.DesiredServiceSpec, AC.Observed;
  }

  lemma AppCallsApps(k: Key, p: AC.Pass)
    requires !p.pc.Finished?
    ensures var call := AC.NextCall(k, p);
            && (call.GetApp? || WritesApp(call) ==> call.key == k)
            && (call.UpdateApp? ==> call.app == p.app)
  {
  }

  lemma AnswersWithApp(apps: map<Key, App>, rv: nat, call: Call)
    ensures ServeApp(apps, rv, call).1.GotApp? ==> call.GetApp? || WritesApp(call)
  {
  }

  lemma AppCallFewFinalizers(store: Store, k: Key, p: AC.Pass, chance: Chance, ns: string)
    requires !p.pc.Finished? && FewFinalizers(store.apps, ns)
    requires k.ns == ns ==> p.app.finalizers <= {FINALIZER_APP}
    ensures var (after, r) := Deliver(store, AC.NextCall(k, p), chance);
            && FewFinalizers(after.apps, ns)
            && (k.ns == ns && r.GotApp? ==> r.app.finalizers <= {FINALIZER_APP})
  {
    hide Deliver, AC.NextCall, ServeApp, FewFinalizers;
    var call := AC.NextCall(k, p);
    DeliverTouches(store, call, chance);
    PA.AnswerOf(store, call, chance);
    AppCallsApps(k, p);
    AnswersWithApp(store.apps, store.clock, call);
    VerbFewFinalizers(store.apps, store.clock, call, ns);
  }

  lemma TenantCallFewFinalizers(store: Store, m: string, p: TC.Pass, chance: Chance, ns: string)
    requires !p.pc.Finished? && FewFinalizers(store.apps, ns)
    ensures FewFinalizers(Deliver(store, TC.NextCall(m, p), chance).0.apps, ns)
  {
    hide Deliver, TC.NextCall, ServeApp, FewFinalizers;
    DeliverTouches(store, TC.NextCall(m, p), chance);
    TenantCallsOwn(m, p);
    VerbFewFinalizers(store.apps, store.clock, TC.NextCall(m, p), ns);
  }

  /** The tenant's own calls before teardown leave it marked. */
  lemma OwnCallKeepsTenant(s: State, n: string, chance: Chance)
    requires Sane(s) && !Idle(s, n) && !Reached(s, n) && n in s.store.tenants && s.store.tenants[n].deleting
    ensures var after := Deliver(s.store, TC.NextCall(n, s.tenantPasses[n]), chance).0;
            n in after.tenants && after.tenants[n].deleting
  {
    hide Deliver, TC.NextCall;
    var p := s.tenantPasses[n];
    var call := TC.NextCall(n, p);
    DeliverTouches(s.store, call, chance);
    TenantCallsOwn(n, p);
    UpdateSendsCopy(n, p);
  }

  lemma UpdateSendsCopy(n: string, p: TC.Pass)
    requires !p.pc.Finished?
    ensures TC.NextCall(n, p).UpdateTenant? ==> TC.NextCall(n, p).tenant == p.tenant
  {
  }

  lemma StepDrains(s: State, l: Label, n: string)
    requires Sane(s) && Draining(s, n) && Calm(s, l, n)
    requires Reached(s, n) && TenantMoves(l, n) ==> n in Step(s, l).store.tenants && Step(s, l).store.tenants[n].deleting
    ensures Draining(Step(s, l), n)
  {
    hide Deliver, AC.NextCall, AC.Resume, TC.NextCall, TC.Resume, FewFinalizers, Sane;
    if !TenantMoves(l, n) {
      TenantFrame(s, l, n);
    }
    match l {
      case AppTurn(k, chance) =>
        if !AppIdle(s, k) {
          var p := s.appPasses[k];
          AppCallFewFinalizers(s.store, k, p, chance, TenantNamespace(n));
          if k.ns == TenantNamespace(n) {
            ResumeFewFinalizers(p, Deliver(s.store, AC.NextCall(k, p), chance).1);
          }
        }
      case TenantTurn(m, chance) =>
        if !Idle(s, m) {
          TenantCallFewFinalizers(s.store, m, s.tenantPasses[m], chance, TenantNamespace(n));
          if m == n && !Reached(s, n) {
            OwnCallKeepsTenant(s, n, chance);
          }
        }
      case _ => UserFewFinalizers(s, l, n);
    }
  }

  lemma UserFewFinalizers(s: State, l: Label, n: string)
    requires Draining(s, n) && Calm(s, l, n) && !l.AppTurn? && !l.TenantTurn?
    ensures FewFinalizers(Step(s, l).store.apps, TenantNamespace(n))
    ensures forall k | k in Step(s, l).appPasses :: k in s.appPasses && Step(s, l).appPasses[k] == s.appPasses[k]
  {
  }
}
