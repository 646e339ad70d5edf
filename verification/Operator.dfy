/** Both controllers, the users and everyone else who writes to the cluster, taking turns on one API
    server.  One label is one turn; it fixes who moves and how the call turns out, so a run is a list of
    labels.  At most one pass per object is in flight. */
module Operator {
  import opened Options
  import opened Kube
  import opened ApiServer
  import AC = AppController
  import TC = TenantController

  /** The last three components remember what went wrong, for the theorems only: apps whose current or
      last deletion pass had a cleanup call fail, tenants whose current pass could not list the apps, and
      tenants in whose namespace an app was created while a pass was already tearing down. */
  datatype State = State(
    store: Store, appPasses: map<Key, AC.Pass>, tenantPasses: map<string, TC.Pass>, quantities: set<string>,
    failedCleanup: set<Key>, failedListing: set<string>, lateApps: set<string>)

  datatype Label =
    | AppTurn(key: Key, chance: Chance)        // start a pass for the app, or make its next call
    | AppCrash(key: Key)                       // the pass is abandoned
    | TenantTurn(name: string, chance: Chance)
    | TenantCrash(name: string)
    | CreateApp(key: Key, appSpec: AppSpec, finalizers: set<string>)
    | EditApp(key: Key, appSpec: AppSpec, finalizers: set<string>)
    | DeleteApp(key: Key)
    | CreateTenant(name: string, tenantSpec: TenantSpec, finalizers: set<string>)
    | EditTenant(name: string, tenantSpec: TenantSpec, finalizers: set<string>)
    | DeleteTenant(name: string)
    | PutService(key: Key, service: Service)   // someone else creates a service of their own
    | ReportService(key: Key, annotations: Labels, status: Option<ServiceStatus>)  // Knative's part of a service
    | DropService(key: Key)
    | PutMapping(key: Key, mapping: Mapping)
    | DropMapping(key: Key)
    | WriteTenantChildren(namespaces: map<string, Namespace>, capsules: map<string, Capsule>,
                          policies: map<Key, Policy>, quotas: map<Key, Quota>)

  // ----- controllers ----------------------------------------------------------------------------------------

  /** The app exists and carries the operator's finalizer. */
  predicate Protected(s: Store, k: Key) {
    k in s.apps && FINALIZER_APP in s.apps[k].finalizers
  }

  function AppStep(s: State, k: Key, chance: Chance): State {
    if k !in s.appPasses || s.appPasses[k].pc.Finished? then
      s.(appPasses := s.appPasses[k := AC.NewPass],
         failedCleanup := if Protected(s.store, k) then s.failedCleanup - {k} else s.failedCleanup)
    else
      var p := s.appPasses[k];
      var (store, r) := Deliver(s.store, AC.NextCall(k, p), chance);
      var q := AC.Resume(p, r);
      s.(store := store,
         appPasses := if q.pc.Finished? then s.appPasses - {k} else s.appPasses[k := q],
         failedCleanup := if AC.Cleaning(p.pc) && r.Error? then s.failedCleanup + {k} else s.failedCleanup)
  }

  function TenantStep(s: State, n: string, chance: Chance): State {
    if n !in s.tenantPasses || s.tenantPasses[n].pc.Finished? then
      s.(tenantPasses := s.tenantPasses[n := TC.NewPass],
         failedListing := s.failedListing - {n}, lateApps := s.lateApps - {n})
    else
      var p := s.tenantPasses[n];
      var (store, r) := Deliver(s.store, TC.NextCall(n, p), chance);
      var q := TC.Resume(n, p, r, s.quantities);
      s.(store := store,
         tenantPasses := if q.pc.Finished? then s.tenantPasses - {n} else s.tenantPasses[n := q],
         failedListing := if p.pc.DrainList? && !r.Listed? then s.failedListing + {n} else s.failedListing)
  }

  // ----- users ------------------------------------------------------------------------------------------------

  function UserCreateApp(s: State, k: Key, spec: AppSpec, finalizers: set<string>): State {
    if k in s.store.apps then s
    else
      var app := App(s.store.clock, false, finalizers - {FINALIZER_APP}, spec, NewAppStatus);
      s.(store := s.store.(clock := s.store.clock + 1, apps := s.store.apps[k := app]),
         lateApps := s.lateApps + set n | n in s.tenantPasses && TC.TearingDown(s.tenantPasses[n].pc) && TenantNamespace(n) == k.ns)
  }

  /** Users edit the spec and finalizers of their own, never the operator's finalizer or the status. */
  function UserEditApp(s: State, k: Key, spec: AppSpec, finalizers: set<string>): State {
    if k !in s.store.apps then s
    else
      var app := s.store.apps[k];
      var kept := finalizers - {FINALIZER_APP} + (app.finalizers * {FINALIZER_APP});
      var edited := app.(rv := s.store.clock, spec := spec, finalizers := kept);
      s.(store := s.store.(
           clock := s.store.clock + 1,
           apps := if app.deleting && kept == {} then s.store.apps - {k} else s.store.apps[k := edited]))
  }

  function UserDeleteApp(s: State, k: Key): State {
    if k !in s.store.apps then s
    else s.(store := s.store.(clock := s.store.clock + 1, apps := Unlinked(s.store.apps, k, s.store.clock)))
  }

  function UserCreateTenant(s: State, n: string, spec: TenantSpec, finalizers: set<string>): State {
    if n in s.store.tenants then s
    else
      var t := Tenant(s.store.clock, false, finalizers - {FINALIZER_TENANT}, spec, NewTenantStatus);
      s.(store := s.store.(clock := s.store.clock + 1, tenants := s.store.tenants[n := t]))
  }

  function UserEditTenant(s: State, n: string, spec: TenantSpec, finalizers: set<string>): State {
    if n !in s.store.tenants then s
    else
      var t := s.store.tenants[n];
      var kept := finalizers - {FINALIZER_TENANT} + (t.finalizers * {FINALIZER_TENANT});
      var edited := t.(rv := s.store.clock, spec := spec, finalizers := kept);
      s.(store := s.store.(
           clock := s.store.clock + 1,
           tenants := if t.deleting && kept == {} then s.store.tenants - {n} else s.store.tenants[n := edited]))
  }

  function UserDeleteTenant(s: State, n: string): State {
    if n !in s.store.tenants then s
    else
      var t := s.store.tenants[n];
      s.(store := s.store.(
           clock := s.store.clock + 1,
           tenants := if t.finalizers == {} then s.store.tenants - {n}
                      else if t.deleting then s.store.tenants
                      else s.store.tenants[n := t.(rv := s.store.clock, deleting := true)]))
  }

  // ----- everyone else ----------------------------------------------------------------------------------------

  function OutsideStep(s: State, l: Label): State {
    var store := s.store.(clock := s.store.clock + 1);
    match l
    case PutService(k, svc) =>
      if k in store.services then s
      else s.(store := store.(services := store.services[k := svc.(rv := s.store.clock, made := false)]))
    case ReportService(k, annotations, status) =>
      if k !in store.services then s
      else
        var svc := store.services[k].(rv := s.store.clock, annotations := annotations, status := status);
        s.(store := store.(services := store.services[k := svc]))
    case DropService(k) => s.(store := store.(services := store.services - {k}))
    case PutMapping(k, m) =>
      if k in store.mappings then s
      else s.(store := store.(mappings := store.mappings[k := m.(rv := s.store.clock, made := false)]))
    case DropMapping(k) => s.(store := store.(mappings := store.mappings - {k}))
    case WriteTenantChildren(namespaces, capsules, policies, quotas) =>
      s.(store := store.(namespaces := namespaces, capsules := capsules, policies := policies, quotas := quotas))
    case _ => s
  }

  function Step(s: State, l: Label): State {
    match l
    case AppTurn(k, chance) => AppStep(s, k, chance)
    case AppCrash(k) => s.(appPasses := s.appPasses - {k})
    case TenantTurn(n, chance) => TenantStep(s, n, chance)
    case TenantCrash(n) => s.(tenantPasses := s.tenantPasses - {n})
    case CreateApp(k, spec, finalizers) => UserCreateApp(s, k, spec, finalizers)
    case EditApp(k, spec, finalizers) => UserEditApp(s, k, spec, finalizers)
    case DeleteApp(k) => UserDeleteApp(s, k)
    case CreateTenant(n, spec, finalizers) => UserCreateTenant(s, n, spec, finalizers)
    case EditTenant(n, spec, finalizers) => UserEditTenant(s, n, spec, finalizers)
    case DeleteTenant(n) => UserDeleteTenant(s, n)
    case _ => OutsideStep(s, l)
  }

  function Run(s: State, labels: seq<Label>): State {
    if labels == [] then s
    else Step(Run(s, labels[..|labels| - 1]), labels[|labels| - 1])
  }

  /** No pass in flight and nothing yet made by the operator. */
  ghost predicate Initial(s: State) {
    && s.appPasses == map[] && s.tenantPasses == map[]
    && (forall k | k in s.store.services :: !s.store.services[k].made)
    && (forall k | k in s.store.mappings :: !s.store.mappings[k].made)
    && (forall k | k in s.store.apps :: s.store.apps[k].status == NewAppStatus)
  }

  lemma RunConcat(s: State, a: seq<Label>, b: seq<Label>)
    ensures Run(s, a + b) == Run(Run(s, a), b)
  {
    hide Step;
    if b == [] {
      assert a + b == a;
    } else {
      var n := |b| - 1;
      assert (a + b)[..|a + b| - 1] == a + b[..n];
      RunConcat(s, a, b[..n]);
    }
  }

  /** The `i`th step of a history. */
  ghost predicate StepAt(states: seq<State>, labels: seq<Label>, i: nat)
    requires |states| == |labels| + 1 && i < |labels|
  {
    states[i + 1] == Step(states[i], labels[i])
  }

  /** A run with all its states. */
  ghost predicate History(states: seq<State>, labels: seq<Label>) {
    |states| == |labels| + 1 && forall i | 0 <= i < |labels| :: StepAt(states, labels, i)
  }

  lemma HistoryPrefix(states: seq<State>, labels: seq<Label>, n: nat)
    requires History(states, labels) && n <= |labels|
    ensures History(states[..n + 1], labels[..n])
  {
    hide Step;
    var fewer, first := states[..n + 1], labels[..n];
    forall i | 0 <= i < n
      ensures StepAt(fewer, first, i)
    {
      assert StepAt(states, labels, i);
    }
  }

  lemma {:induction false} HistoryIsRun(states: seq<State>, labels: seq<Label>)
    requires History(states, labels)
    ensures states[|labels|] == Run(states[0], labels)
  {
    if labels == [] {
    } else {
      hide Step;
      var n := |labels| - 1;
      HistoryPrefix(states, labels, n);
      HistoryIsRun(states[..n + 1], labels[..n]);
      assert StepAt(states, labels, n);
    }
  }

  // ----- one call of a pass ---------------------------------------------------------------------------------

  /** The state after the call at which the app's pass stands, with what it did to the cluster and its answer. */
  lemma AppTurnTaken(s: State, k: Key, chance: Chance)
    requires !AppIdle(s, k)
    ensures var p := s.appPasses[k];
            var (after, r) := Deliver(s.store, AC.NextCall(k, p), chance);
            var q := AC.Resume(p, r);
            AppStep(s, k, chance) == s.(
              store := after, appPasses := if q.pc.Finished? then s.appPasses - {k} else s.appPasses[k := q],
              failedCleanup := if AC.Cleaning(p.pc) && r.Error? then s.failedCleanup + {k} else s.failedCleanup)
  {
    hide Deliver, AC.NextCall, AC.Resume, AC.Cleaning;
  }

  lemma TenantTurnTaken(s: State, n: string, chance: Chance)
    requires !Idle(s, n)
    ensures var p := s.tenantPasses[n];
            var (after, r) := Deliver(s.store, TC.NextCall(n, p), chance);
            var q := TC.Resume(n, p, r, s.quantities);
            TenantStep(s, n, chance) == s.(
              store := after, tenantPasses := if q.pc.Finished? then s.tenantPasses - {n} else s.tenantPasses[n := q],
              failedListing := if p.pc.DrainList? && !r.Listed? then s.failedListing + {n} else s.failedListing)
  {
    hide Deliver, TC.NextCall, TC.Resume;
  }

  /** A listing changes nothing but the clock, and comes back in the order the chance gives, or not at all. */
  lemma AppsListed(store: Store, ns: string, chance: Chance)
    ensures var (after, r) := Deliver(store, ListApps(ns), chance);
            && after == store.(clock := after.clock)
            && r == if chance.fault == NoFault then Listing(chance.order, AppNames(store.apps, ns)) else Error
  {
    hide Enumerates, AppNames, Listing;
  }

  // ----- passes in flight -----------------------------------------------------------------------------------

  predicate Idle(s: State, n: string) {
    n !in s.tenantPasses || s.tenantPasses[n].pc.Finished?
  }

  predicate AppIdle(s: State, k: Key) {
    k !in s.appPasses || s.appPasses[k].pc.Finished?
  }

  /** How far a pass is from its end, and how much is left of its stage. */
  function TenantEffort(s: State, n: string): nat {
    if Idle(s, n) then 0 else TC.Stage(s.tenantPasses[n].pc)
  }

  function TenantLeft(s: State, n: string): nat {
    if Idle(s, n) then 0 else TC.Remaining(s.tenantPasses[n].pc)
  }

  function AppEffort(s: State, k: Key): nat {
    if AppIdle(s, k) then 0 else AC.Stage(s.appPasses[k].pc)
  }

  function AppLeft(s: State, k: Key): nat {
    if AppIdle(s, k) then 0 else AC.Remaining(s.appPasses[k].pc)
  }

  lemma TenantTurnAdvances(s: State, n: string, chance: Chance)
    requires !Idle(s, n)
    ensures var t := TenantStep(s, n, chance);
            TenantEffort(t, n) < TenantEffort(s, n)
            || (TenantEffort(t, n) == TenantEffort(s, n) && TenantLeft(t, n) < TenantLeft(s, n))
  {
    var p := s.tenantPasses[n];
    assert TC.Stage(p.pc) > 0;
    hide Deliver, TC.NextCall, TC.Resume, TC.Stage, TC.Remaining;
    TC.ResumeAdvances(n, p, Deliver(s.store, TC.NextCall(n, p), chance).1, s.quantities);
  }

  lemma AppTurnAdvances(s: State, k: Key, chance: Chance)
    requires !AppIdle(s, k)
    ensures var t := AppStep(s, k, chance);
            AppEffort(t, k) < AppEffort(s, k)
            || (AppEffort(t, k) == AppEffort(s, k) && AppLeft(t, k) < AppLeft(s, k))
  {
    var p := s.appPasses[k];
    assert AC.Stage(p.pc) > 0;
    hide Deliver, AC.NextCall, AC.Resume, AC.Stage, AC.Remaining;
    AC.ResumeAdvances(p, Deliver(s.store, AC.NextCall(k, p), chance).1);
  }
}
