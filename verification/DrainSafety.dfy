/** Two controllers, one teardown: a tenant's namespace is deleted and its finalizer dropped only when no App
    is left in it. */
module DrainSafety {
  import opened Options
  import opened Kube
  import opened ApiServer
  import opened Operator
  import opened FinalizerSafety
  import AC = AppController
  import TC = TenantController

  ghost predicate NoApps(s: Store, ns: string) {
    forall k | k in s.apps :: k.ns != ns
  }

  /** A pass that is tearing down has seen an empty namespace, and it stayed empty. */
  ghost predicate Drained(s: State, n: string) {
    n in s.tenantPasses && TC.TearingDown(s.tenantPasses[n].pc) ==>
      NoApps(s.store, TenantNamespace(n)) || n in s.failedListing || n in s.lateApps
  }

  /** No step but a user's creation adds an App. */
  lemma VerbsAddNoApps(apps: map<Key, App>, rv: nat, call: Call)
    ensures ServeApp(apps, rv, call).0.Keys <= apps.Keys
  {
  }

  lemma CallsAddNoApps(store: Store, call: Call, chance: Chance)
    ensures Deliver(store, call, chance).0.apps.Keys <= store.apps.Keys
  {
    hide Deliver, ServeApp;
    DeliverTouches(store, call, chance);
    VerbsAddNoApps(store.apps, store.clock, call);
  }

  lemma FewerAppsStayDrained(s: State, t: State, n: string)
    requires Drained(s, n) && t.store.apps.Keys <= s.store.apps.Keys
    requires n in t.tenantPasses ==> n in s.tenantPasses && t.tenantPasses[n] == s.tenantPasses[n]
    requires (n in s.failedListing ==> n in t.failedListing) && (n in s.lateApps ==> n in t.lateApps)
    ensures Drained(t, n)
  {
    assert forall k | k in t.store.apps :: k in t.store.apps.Keys && k in s.store.apps;
  }

  lemma AppStepKeepsDrained(s: State, k: Key, chance: Chance, n: string)
    requires Drained(s, n)
    ensures Drained(AppStep(s, k, chance), n)
  {
    hide Deliver, AC.NextCall, AC.Resume;
    if k in s.appPasses && !s.appPasses[k].pc.Finished? {
      CallsAddNoApps(s.store, AC.NextCall(k, s.appPasses[k]), chance);
    }
    FewerAppsStayDrained(s, AppStep(s, k, chance), n);
  }

  lemma OtherTenantKeepsDrained(s: State, m: string, chance: Chance, n: string)
    requires Drained(s, n) && m != n
    ensures Drained(TenantStep(s, m, chance), n)
  {
    hide Deliver, TC.NextCall, TC.Resume;
    if m in s.tenantPasses && !s.tenantPasses[m].pc.Finished? {
      CallsAddNoApps(s.store, TC.NextCall(m, s.tenantPasses[m]), chance);
    }
    FewerAppsStayDrained(s, TenantStep(s, m, chance), n);
  }

  /** Teardown is entered only from the listing. */
  lemma TeardownBegins(n: string, p: TC.Pass, r: Response, quantities: set<string>)
    requires !p.pc.Finished?
    ensures TC.TearingDown(TC.Resume(n, p, r, quantities).pc) ==>
              TC.TearingDown(p.pc) || (p.pc.DrainList? && (r.Listed? ==> r.names == []))
  {
    hide TC.MergedLabels, TC.LimitsOf;
  }

  /** An empty listing means an empty namespace. */
  lemma EmptyListing(store: Store, ns: string, chance: Chance)
    ensures var (after, r) := Deliver(store, ListApps(ns), chance);
            r.Listed? && r.names == [] ==> NoApps(after, ns)
  {
    forall k | k in store.apps && k.ns == ns
      ensures k.name in AppNames(store.apps, ns)
    {
    }
  }

  lemma OwnTenantKeepsDrained(s: State, n: string, chance: Chance)
    requires Drained(s, n)
    ensures Drained(TenantStep(s, n, chance), n)
  {
    if n in s.tenantPasses && !s.tenantPasses[n].pc.Finished? {
      var p := s.tenantPasses[n];
      var (after, r) := Deliver(s.store, TC.NextCall(n, p), chance);
      TeardownBegins(n, p, r, s.quantities);
      CallsAddNoApps(s.store, TC.NextCall(n, p), chance);
      EmptyListing(s.store, TenantNamespace(n), chance);
      assert p.pc.DrainList? ==> TC.NextCall(n, p) == ListApps(TenantNamespace(n));
      TenantTurnTaken(s, n, chance);
      hide Deliver, TC.NextCall, TC.Resume, TenantStep, TenantNamespace;
      assert forall k | k in after.apps :: k in after.apps.Keys && k in s.store.apps;
    }
  }

  lemma UserStepKeepsDrained(s: State, l: Label, n: string)
    requires !l.AppTurn? && !l.TenantTurn? && Drained(s, n)
    ensures Drained(Step(s, l), n)
  {
    if !l.CreateApp? {
      FewerAppsStayDrained(s, Step(s, l), n);
    }
  }

  lemma {:induction false} RunKeepsDrained(s: State, labels: seq<Label>, n: string)
    requires Initial(s)
    ensures Drained(Run(s, labels), n)
  {
    if labels != [] {
      hide Drained, AppStep, TenantStep;
      var before, l := Run(s, labels[..|labels| - 1]), labels[|labels| - 1];
      RunKeepsDrained(s, labels[..|labels| - 1], n);
      match l {
        case AppTurn(k, chance) => AppStepKeepsDrained(before, k, chance, n);
        case TenantTurn(m, chance) =>
          if m == n {
            OwnTenantKeepsDrained(before, n, chance);
          } else {
            OtherTenantKeepsDrained(before, m, chance, n);
          }
        case _ => UserStepKeepsDrained(before, l, n);
      }
    }
  }

  /** The namespace of the tenant holds no App, nothing the operator made for one, and no pass that could make
      anything there is in flight. */
  ghost predicate Deserted(t: State, n: string) {
    var ns := TenantNamespace(n);
    && NoApps(t.store, ns)
    && (forall k | k in t.store.services && t.store.services[k].made && k.ns == ns :: k in t.failedCleanup)
    && (forall at | at in t.store.mappings && t.store.mappings[at].made && at.ns == ns ::
          OwnerOf(at, t.store.mappings[at]) in t.failedCleanup)
    && (forall k | k in t.appPasses && k.ns == ns :: !AC.Armed(t.appPasses[k].pc))
  }

  ghost predicate TearsDown(t: State, n: string) {
    n in t.tenantPasses && TC.TearingDown(t.tenantPasses[n].pc)
  }

  lemma RunFindsNothing(s: State, labels: seq<Label>, n: string)
    requires Initial(s)
    ensures var t := Run(s, labels);
            TearsDown(t, n) && n !in t.failedListing && n !in t.lateApps ==> Deserted(t, n)
  {
    hide Initial, Run, NoApps, Inv;
    RunKeepsDrained(s, labels, n);
    RunKeepsInv(s, labels);
    var t := Run(s, labels);
    InvProtectsChildren(t);
    if NoApps(t.store, TenantNamespace(n)) {
      EmptyIsDeserted(t, n);
    }
    hide Deserted;
  }

  lemma EmptyIsDeserted(t: State, n: string)
    requires Inv(t) && ChildrenProtected(t) && NoApps(t.store, TenantNamespace(n))
    ensures Deserted(t, n)
  {
    var ns := TenantNamespace(n);
    NothingProtected(t.store, ns);
    hide NoApps, Protected, OwnerOf, TenantNamespace;
    forall k | k in t.appPasses && k.ns == ns
      ensures !AC.Armed(t.appPasses[k].pc)
    {
      assert Guarded(t, k);
    }
    forall at | at in t.store.mappings && t.store.mappings[at].made && at.ns == ns
      ensures OwnerOf(at, t.store.mappings[at]) in t.failedCleanup
    {
      OwnerIsNear(at, t.store.mappings[at]);
    }
  }

  lemma OwnerIsNear(at: Key, m: Mapping)
    ensures OwnerOf(at, m).ns == at.ns
  {
  }

  /** At the end of every history, if a tenant's pass is tearing down, in particular if it is about to delete
      the namespace or to drop the finalizer, and if its listing was answered and no App was created since, the
      namespace is deserted. */
  lemma TeardownFindsNothing(states: seq<State>, labels: seq<Label>, n: string)
    requires History(states, labels) && Initial(states[0])
    requires var t := states[|labels|]; TearsDown(t, n) && n !in t.failedListing && n !in t.lateApps
    ensures Deserted(states[|labels|], n)
  {
    hide Initial, Run, Deserted;
    HistoryIsRun(states, labels);
    RunFindsNothing(states[0], labels, n);
  }

  lemma NothingProtected(s: Store, ns: string)
    requires NoApps(s, ns)
    ensures forall k: Key | k.ns == ns :: !Protected(s, k)
  {
  }

  /** Where Apps remain, the pass tears down all the same exactly when listing them failed. */
  lemma FailedListingTearsDown(s: State, n: string, chance: Chance)
    requires n in s.tenantPasses && s.tenantPasses[n].pc.DrainList? && !NoApps(s.store, TenantNamespace(n))
    ensures var t := TenantStep(s, n, chance);
            && n in t.tenantPasses && t.store.apps == s.store.apps
            && (TC.TearingDown(t.tenantPasses[n].pc) <==> Deliver(s.store, ListApps(TenantNamespace(n)), chance).1.Error?)
            && (TC.TearingDown(t.tenantPasses[n].pc) ==> n in t.failedListing)
  {
    var ns, p := TenantNamespace(n), s.tenantPasses[n];
    EmptyListing(s.store, ns, chance);
    AppsListed(s.store, ns, chance);
    TC.DrainListHead(n, p.tenant, s.quantities);
    TenantTurnTaken(s, n, chance);
    hide AppNames, Listing, TenantNamespace, Deliver, TC.NextCall, TC.Resume, TenantStep;
    assert NoApps(Deliver(s.store, ListApps(ns), chance).0, ns) == NoApps(s.store, ns);
    hide NoApps;
  }

  /** An App created in the namespace while its tenant's pass is tearing down, at whatever call it stands, is
      recorded as late, and the pass goes on tearing down with the App there. */
  lemma LateAppIsRecorded(s: State, n: string, k: Key, spec: AppSpec, finalizers: set<string>)
    requires TearsDown(s, n) && k.ns == TenantNamespace(n) && k !in s.store.apps
    ensures var t := Step(s, CreateApp(k, spec, finalizers));
            && TearsDown(t, n) && t.tenantPasses[n] == s.tenantPasses[n]
            && k in t.store.apps && n in t.lateApps && !Deserted(t, n)
  {
    hide TenantNamespace;
    var t := Step(s, CreateApp(k, spec, finalizers));
    assert k in t.store.apps;
    assert !NoApps(t.store, TenantNamespace(n));
  }

  /** The namespace goes with the App in it: the delete call asks nobody. */
  lemma LateAppLosesNamespace(s: State, n: string, k: Key, spec: AppSpec, finalizers: set<string>, order: seq<string>)
    requires TearsDown(s, n) && s.tenantPasses[n].pc.NamespaceRemove?
    requires k.ns == TenantNamespace(n) && k !in s.store.apps
    ensures var t := Step(Step(s, CreateApp(k, spec, finalizers)), TenantTurn(n, Chance(NoFault, order)));
            k in t.store.apps && TenantNamespace(n) !in t.store.namespaces
  {
    LateAppIsRecorded(s, n, k, spec, finalizers);
    var mid := Step(s, CreateApp(k, spec, finalizers));
    assert TC.NextCall(n, mid.tenantPasses[n]) == DeleteNamespace(TenantNamespace(n));
    TenantTurnTaken(mid, n, Chance(NoFault, order));
    NamespaceGoes(mid.store, TenantNamespace(n), order);
    hide Step, TenantStep, Deliver, TC.Resume, TC.NextCall, TenantNamespace, Deserted;
    assert Step(mid, TenantTurn(n, Chance(NoFault, order))) == TenantStep(mid, n, Chance(NoFault, order)) by { TurnIsStep(mid, n, order); }
  }

  lemma TurnIsStep(s: State, n: string, order: seq<string>)
    ensures Step(s, TenantTurn(n, Chance(NoFault, order))) == TenantStep(s, n, Chance(NoFault, order))
  {
    hide TenantStep;
  }

  lemma NamespaceGoes(store: Store, ns: string, order: seq<string>)
    ensures var after := Deliver(store, DeleteNamespace(ns), Chance(NoFault, order)).0;
            after.apps == store.apps && ns !in after.namespaces
  {
  }
}
