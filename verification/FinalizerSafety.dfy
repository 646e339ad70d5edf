/** In every run, whatever fails and whoever interferes, a child the operator made belongs to an App that
    exists and carries the finalizer, unless a cleanup call failed in that App's deletion pass. */
module FinalizerSafety {
  import opened Options
  import opened Kube
  import opened ApiServer
  import opened Operator
  import AC = AppController
  import TC = TenantController

  /** `at` holds a mapping the operator made for the app at `k`. */
  ghost predicate MadeFor(s: Store, at: Key, k: Key) {
    at in s.mappings && s.mappings[at].made && at.ns == k.ns && LabelledFor(s.mappings[at], k.name)
  }

  ghost predicate MadeService(s: Store, k: Key) {
    k in s.services && s.services[k].made
  }

  ghost predicate NoMappings(s: Store, k: Key) {
    forall at :: !MadeFor(s, at, k)
  }

  ghost predicate OnlyMappings(s: Store, k: Key, hosts: seq<string>) {
    forall at | MadeFor(s, at, k) :: at.name in hosts
  }

  /** What the operator's passes keep for the app at `k`. */
  ghost predicate Guarded(s: State, k: Key) {
    && (!NoMappings(s.store, k) || MadeService(s.store, k) ==> Protected(s.store, k) || k in s.failedCleanup)
    && (k in s.appPasses ==> PassGuarded(s, k, s.appPasses[k]))
  }

  ghost predicate PassGuarded(s: State, k: Key, p: AC.Pass) {
    && (AC.Armed(p.pc) ==> Protected(s.store, k))
    && (p.pc.AddFinalizer? ==> FINALIZER_APP in p.app.finalizers)
    && (p.pc.CleanMapping? ==> OnlyMappings(s.store, k, [p.pc.host] + p.pc.left) || k in s.failedCleanup)
    && (p.pc.CleanGet? || p.pc.CleanDelete? ==> NoMappings(s.store, k) || k in s.failedCleanup)
    && (p.pc.DropFinalizer? ==> (NoMappings(s.store, k) && !MadeService(s.store, k)) || k in s.failedCleanup)
  }

  /** Mappings the operator made carry the label their cleanup selects by. */
  ghost predicate Labelled(s: Store) {
    forall at | at in s.mappings && s.mappings[at].made :: LABEL_APP in s.mappings[at].labels
  }

  ghost predicate Inv(s: State) {
    Labelled(s.store) && (forall k :: Guarded(s, k))
  }

  // ----- steps that leave an app's children alone --------------------------------------------------------------

  /** Nothing happens to the app at `k` that its guard depends on, except that children may go away. */
  ghost predicate Unharmed(s: State, t: State, k: Key) {
    && (k in s.appPasses <==> k in t.appPasses) && (k in s.appPasses ==> t.appPasses[k] == s.appPasses[k])
    && (k in s.failedCleanup <==> k in t.failedCleanup)
    && (Protected(s.store, k) ==> Protected(t.store, k))
    && (MadeService(t.store, k) ==> MadeService(s.store, k))
    && (forall at | MadeFor(t.store, at, k) :: MadeFor(s.store, at, k))
  }

  lemma UnharmedStaysGuarded(s: State, t: State, k: Key)
    requires Guarded(s, k) && Unharmed(s, t, k)
    ensures Guarded(t, k)
  {
    hide MadeFor, MadeService, Protected;
  }

  lemma UserStepUnharmed(s: State, l: Label, k: Key)
    requires !l.AppTurn? && !l.TenantTurn? && (l.AppCrash? ==> l.key != k)
    ensures Unharmed(s, Step(s, l), k)
  {
    if l.CreateApp? || l.EditApp? || l.DeleteApp? {
      AppUserUnharmed(s, l, k);
    } else if l.PutService? || l.ReportService? || l.DropService? || l.PutMapping? || l.DropMapping? {
      ChildUserUnharmed(s, l, k);
    } else {
      hide MadeFor, MadeService, Protected;
      SameForApp(s, Step(s, l), k);
    }
  }

  lemma SameForApp(s: State, t: State, k: Key)
    requires t.store.apps == s.store.apps && t.store.services == s.store.services
    requires t.store.mappings == s.store.mappings
    ensures (Protected(s.store, k) <==> Protected(t.store, k)) && (MadeService(s.store, k) <==> MadeService(t.store, k))
    ensures forall at :: MadeFor(t.store, at, k) <==> MadeFor(s.store, at, k)
  {
  }

  lemma AppUserUnharmed(s: State, l: Label, k: Key)
    requires l.CreateApp? || l.EditApp? || l.DeleteApp?
    ensures Unharmed(s, Step(s, l), k)
  {
  }

  lemma ChildUserUnharmed(s: State, l: Label, k: Key)
    requires l.PutService? || l.ReportService? || l.DropService? || l.PutMapping? || l.DropMapping?
    ensures Unharmed(s, Step(s, l), k)
  {
    hide LabelledFor;
  }

  lemma UserStepLabelled(s: State, l: Label)
    requires !l.AppTurn? && !l.TenantTurn? && Labelled(s.store)
    ensures Labelled(Step(s, l).store)
  {
  }

  /** The only verb on apps that a finalizer does not stop is an update that leaves it out. */
  lemma VerbKeepsProtection(apps: map<Key, App>, rv: nat, call: Call, k: Key)
    requires k in apps && FINALIZER_APP in apps[k].finalizers && WritesApp(call)
    requires call.UpdateApp? && call.key == k ==> FINALIZER_APP in call.app.finalizers
    ensures var after := ServeApp(apps, rv, call).0; k in after && FINALIZER_APP in after[k].finalizers
  {
  }

  lemma TenantCalls(n: string, p: TC.Pass)
    requires !p.pc.Finished?
    ensures var call := TC.NextCall(n, p);
            !call.UpdateApp? && !call.UpdateAppStatus? && !WritesService(call) && !WritesMapping(call)
  {
  }

  /** Tenant passes reach the apps only through DeleteApp, which honours finalizers. */
  lemma TenantCallUnharmed(store: Store, n: string, p: TC.Pass, chance: Chance, k: Key)
    requires !p.pc.Finished?
    ensures var after := Deliver(store, TC.NextCall(n, p), chance).0;
            && after.services == store.services && after.mappings == store.mappings
            && (Protected(store, k) ==> Protected(after, k))
  {
    hide Deliver, TC.NextCall, ServeApp;
    var call := TC.NextCall(n, p);
    TenantCalls(n, p);
    DeliverTouches(store, call, chance);
    if Protected(store, k) && WritesApp(call) {
      VerbKeepsProtection(store.apps, store.clock, call, k);
    }
  }

  lemma TenantStepUnharmed(s: State, n: string, chance: Chance, k: Key)
    ensures Unharmed(s, TenantStep(s, n, chance), k)
    ensures Labelled(s.store) ==> Labelled(TenantStep(s, n, chance).store)
  {
    hide Deliver, TC.NextCall, TC.Resume;
    if n in s.tenantPasses && !s.tenantPasses[n].pc.Finished? {
      TenantCallUnharmed(s.store, n, s.tenantPasses[n], chance, k);
    }
  }

  /** An app pass writes its own app and service, and mappings in its own namespace under its own label. */
  lemma AppCalls(k: Key, p: AC.Pass)
    requires !p.pc.Finished?
    ensures var call := AC.NextCall(k, p);
            && !call.DeleteApp?
            && (WritesApp(call) ==> call.key == k)
            && (WritesService(call) ==> call.key == k)
            && (WritesMapping(call) ==> call.key.ns == k.ns)
            && (call.CreateMapping? ==> call.mapping.labels == AC.ChildLabels(k, p.app.spec))
            && (call.UpdateApp? ==> p.pc.AddFinalizer? || p.pc.DropFinalizer?)
  {
  }

  /** A pass of one app does nothing to another: names separate services, labels separate mappings. */
  lemma AppCallSeparate(store: Store, j: Key, p: AC.Pass, chance: Chance, k: Key)
    requires j != k && !p.pc.Finished?
    ensures var after := Deliver(store, AC.NextCall(j, p), chance).0;
            && Find(after.apps, k) == Find(store.apps, k)
            && Find(after.services, k) == Find(store.services, k)
            && (forall at | MadeFor(after, at, k) :: MadeFor(store, at, k))
  {
    hide Deliver, AC.NextCall;
    AppCalls(j, p);
    DeliverTouches(store, AC.NextCall(j, p), chance);
  }

  lemma OtherAppUnharmed(s: State, j: Key, chance: Chance, k: Key)
    requires j != k
    ensures Unharmed(s, AppStep(s, j, chance), k)
  {
    hide Deliver, AC.NextCall, AC.Resume, MadeFor;
    if j in s.appPasses && !s.appPasses[j].pc.Finished? {
      AppCallSeparate(s.store, j, s.appPasses[j], chance, k);
      var after := Deliver(s.store, AC.NextCall(j, s.appPasses[j]), chance).0;
      assert Find(after.apps, k) == Find(s.store.apps, k);
      assert Find(after.services, k) == Find(s.store.services, k);
    }
  }

  // ----- the app's own pass -------------------------------------------------------------------------------------

  lemma AppCallLabelled(store: Store, k: Key, p: AC.Pass, chance: Chance)
    requires !p.pc.Finished? && Labelled(store)
    ensures Labelled(Deliver(store, AC.NextCall(k, p), chance).0)
  {
    hide Deliver, AC.NextCall;
    AppCalls(k, p);
    DeliverTouches(store, AC.NextCall(k, p), chance);
  }

  lemma AppStepLabelled(s: State, k: Key, chance: Chance)
    requires Labelled(s.store)
    ensures Labelled(AppStep(s, k, chance).store)
  {
    hide Deliver, AC.NextCall, AC.Resume, Labelled;
    if k in s.appPasses && !s.appPasses[k].pc.Finished? {
      AppCallLabelled(s.store, k, s.appPasses[k], chance);
    }
  }

  /** While a pass is armed nothing it calls takes the finalizer away. */
  lemma ArmedCall(store: Store, k: Key, p: AC.Pass, chance: Chance)
    requires AC.Armed(p.pc) && Protected(store, k)
    ensures Protected(Deliver(store, AC.NextCall(k, p), chance).0, k)
  {
    hide Deliver, AC.NextCall, ServeApp;
    var call := AC.NextCall(k, p);
    AppCalls(k, p);
    DeliverTouches(store, call, chance);
    if WritesApp(call) {
      VerbKeepsProtection(store.apps, store.clock, call, k);
    }
  }

  lemma ArmedResume(p: AC.Pass, r: Response)
    requires AC.Armed(p.pc)
    ensures AC.Armed(AC.Resume(p, r).pc) || AC.Resume(p, r).pc.Finished?
  {
  }

  lemma ArmedStep(s: State, k: Key, chance: Chance)
    requires Guarded(s, k) && k in s.appPasses && AC.Armed(s.appPasses[k].pc)
    ensures Guarded(AppStep(s, k, chance), k)
  {
    hide Deliver, AC.NextCall, AC.Resume, NoMappings, MadeService, OnlyMappings, Protected;
    var p := s.appPasses[k];
    ArmedCall(s.store, k, p, chance);
    ArmedResume(p, Deliver(s.store, AC.NextCall(k, p), chance).1);
  }

  /** Reading an app arms the pass only if the app is protected. */
  lemma GetStep(s: State, k: Key, chance: Chance)
    requires Guarded(s, k) && k in s.appPasses && s.appPasses[k].pc.Get?
    ensures Guarded(AppStep(s, k, chance), k)
  {
    hide OnlyMappings;
    var (after, r) := Deliver(s.store, GetApp(k), chance);
    assert after.apps == s.store.apps && after.services == s.store.services && after.mappings == s.store.mappings;
    assert r.GotApp? ==> k in s.store.apps && r.app == s.store.apps[k];
    SameChildren(s.store, after, k);
  }

  lemma SameMappings(a: Store, b: Store, k: Key)
    requires a.mappings == b.mappings
    ensures NoMappings(a, k) == NoMappings(b, k)
  {
    assert forall at :: MadeFor(a, at, k) == MadeFor(b, at, k);
  }

  lemma SameChildren(a: Store, b: Store, k: Key)
    requires a.services == b.services && a.mappings == b.mappings
    ensures NoMappings(a, k) == NoMappings(b, k) && MadeService(a, k) == MadeService(b, k)
    ensures forall hosts :: OnlyMappings(a, k, hosts) == OnlyMappings(b, k, hosts)
  {
    assert forall at :: MadeFor(a, at, k) == MadeFor(b, at, k);
  }

  /** Writing the finalizer protects the app before the pass goes on. */
  lemma AddFinalizerStep(s: State, k: Key, chance: Chance)
    requires Guarded(s, k) && k in s.appPasses && s.appPasses[k].pc.AddFinalizer?
    ensures Guarded(AppStep(s, k, chance), k)
  {
    var p := s.appPasses[k];
    AppServed(s.store, UpdateApp(k, p.app), chance.order);
    hide OnlyMappings, Serve;
    var (after, r) := Deliver(s.store, UpdateApp(k, p.app), chance);
    assert after.services == s.store.services && after.mappings == s.store.mappings;
    assert r.GotApp? ==> Protected(after, k);
    assert Protected(s.store, k) ==> Protected(after, k);
    SameChildren(s.store, after, k);
  }

  /** A completed listing names every mapping the operator made for the app. */
  lemma CompleteListing(store: Store, k: Key, chance: Chance)
    ensures var (after, r) := Deliver(store, ListMappings(k.ns, k.name), chance);
            && after.apps == store.apps && after.services == store.services && after.mappings == store.mappings
            && (r.Listed? ==> OnlyMappings(store, k, r.names))
            && (r.Listed? || r.Error?)
  {
    var (after, r) := Deliver(store, ListMappings(k.ns, k.name), chance);
    forall at | MadeFor(store, at, k) && r.Listed?
      ensures at.name in r.names
    {
      assert at.name in MappingNames(store.mappings, k.ns, k.name);
    }
  }

  lemma CleanListStep(s: State, k: Key, chance: Chance)
    requires Guarded(s, k) && k in s.appPasses && s.appPasses[k].pc.CleanList?
    ensures Guarded(AppStep(s, k, chance), k)
  {
    CompleteListing(s.store, k, chance);
    var (after, r) := Deliver(s.store, ListMappings(k.ns, k.name), chance);
    hide Deliver, MadeService;
    SameChildren(s.store, after, k);
    if r.Listed? {
      ToCleanGuarded(s.store, k, s.appPasses[k].app, r.names);
    }
  }

  lemma ToCleanGuarded(store: Store, k: Key, app: App, left: seq<string>)
    requires OnlyMappings(store, k, left)
    ensures var q := AC.ToClean(app, left);
            if q.pc.CleanMapping? then OnlyMappings(store, k, [q.pc.host] + q.pc.left)
            else q.pc.CleanGet? && NoMappings(store, k)
  {
    if left != [] {
      assert [left[0]] + left[1..] == left;
    }
  }

  /** Deleting the first listed mapping leaves only the others. */
  lemma DeleteListed(store: Store, k: Key, host: string, left: seq<string>, chance: Chance)
    ensures var (after, r) := Deliver(store, DeleteMapping(Key(k.ns, host)), chance);
            && after.apps == store.apps && after.services == store.services
            && (OnlyMappings(store, k, [host] + left) ==> OnlyMappings(after, k, [host] + left))
            && (OnlyMappings(store, k, [host] + left) && (r.Ok? || r.NotFound?) ==> OnlyMappings(after, k, left))
            && (NoMappings(store, k) ==> NoMappings(after, k))
            && (r.Ok? || r.NotFound? || r.Error?)
  {
    DeleteMappingServed(store, Key(k.ns, host), chance.order);
    hide Serve;
    var (after, r) := Deliver(store, DeleteMapping(Key(k.ns, host)), chance);
    assert forall at | MadeFor(after, at, k) :: MadeFor(store, at, k);
    if OnlyMappings(store, k, [host] + left) && (r.Ok? || r.NotFound?) {
      assert Key(k.ns, host) !in after.mappings;
      forall at | MadeFor(after, at, k)
        ensures at.name in left
      {
        assert at.name in [host] + left;
        assert at == Key(k.ns, at.name);
      }
    }
  }

  lemma SameService(a: Store, b: Store, k: Key)
    requires a.services == b.services
    ensures MadeService(a, k) == MadeService(b, k)
  {
  }

  lemma CleanMappingStep(s: State, k: Key, chance: Chance)
    requires Guarded(s, k) && k in s.appPasses && s.appPasses[k].pc.CleanMapping?
    ensures Guarded(AppStep(s, k, chance), k)
  {
    hide Deliver, OnlyMappings, NoMappings, MadeService, AC.NextCall, AC.Resume, AC.ToClean, AppStep;
    var p := s.appPasses[k];
    var (after, r) := Deliver(s.store, DeleteMapping(Key(k.ns, p.pc.host)), chance);
    DeleteListed(s.store, k, p.pc.host, p.pc.left, chance);
    SameService(s.store, after, k);
    CleanMappingResumes(k, p, r);
    AppTurnTaken(s, k, chance);
    if (r.Ok? || r.NotFound?) && OnlyMappings(after, k, p.pc.left) {
      ToCleanGuarded(after, k, p.app, p.pc.left);
    }
  }

  lemma CleanMappingResumes(k: Key, p: AC.Pass, r: Response)
    requires p.pc.CleanMapping?
    ensures AC.NextCall(k, p) == DeleteMapping(Key(k.ns, p.pc.host))
    ensures AC.Resume(p, r) == if r.Ok? || r.NotFound? then AC.ToClean(p.app, p.pc.left) else AC.Pass(AC.CleanGet, p.app)
    ensures AC.ToClean(p.app, p.pc.left).pc.CleanMapping? || AC.ToClean(p.app, p.pc.left).pc.CleanGet?
  {
  }

  /** Looking for the service without an error finds it or shows there is none. */
  lemma FindService(store: Store, k: Key, chance: Chance)
    ensures var (after, r) := Deliver(store, GetService(k), chance);
            && after.apps == store.apps && after.services == store.services && after.mappings == store.mappings
            && (!r.GotService? && !r.Error? ==> !MadeService(store, k))
  {
  }

  /** Deleting the service without an error leaves none. */
  lemma RemoveService(store: Store, k: Key, chance: Chance)
    ensures var (after, r) := Deliver(store, DeleteService(k), chance);
            && after.apps == store.apps && after.mappings == store.mappings
            && (!r.Error? ==> !MadeService(after, k))
            && (MadeService(after, k) ==> MadeService(store, k))
  {
    DeleteServiceServed(store, k, chance.order);
    hide Serve;
  }

  lemma CleanGetStep(s: State, k: Key, chance: Chance)
    requires Guarded(s, k) && k in s.appPasses && s.appPasses[k].pc.CleanGet?
    ensures Guarded(AppStep(s, k, chance), k)
  {
    FindService(s.store, k, chance);
    hide Deliver, NoMappings, OnlyMappings;
    var after := Deliver(s.store, GetService(k), chance).0;
    SameMappings(s.store, after, k);
  }

  lemma CleanDeleteStep(s: State, k: Key, chance: Chance)
    requires Guarded(s, k) && k in s.appPasses && s.appPasses[k].pc.CleanDelete?
    ensures Guarded(AppStep(s, k, chance), k)
  {
    RemoveService(s.store, k, chance);
    hide Deliver, NoMappings, OnlyMappings, MadeService;
    var after := Deliver(s.store, DeleteService(k), chance).0;
    SameMappings(s.store, after, k);
  }

  lemma DropStep(s: State, k: Key, chance: Chance)
    requires Guarded(s, k) && k in s.appPasses && s.appPasses[k].pc.DropFinalizer?
    ensures Guarded(AppStep(s, k, chance), k)
  {
    var p := s.appPasses[k];
    AppServed(s.store, UpdateApp(k, p.app), chance.order);
    hide OnlyMappings, NoMappings, MadeService, Serve, ServeApp;
    var (after, r) := Deliver(s.store, UpdateApp(k, p.app), chance);
    assert after.services == s.store.services && after.mappings == s.store.mappings;
    SameChildren(s.store, after, k);
    AppTurnTaken(s, k, chance);
    assert AC.NextCall(k, p) == UpdateApp(k, p.app) && AC.Resume(p, r).pc.Finished?;
    hide Deliver, AppStep, Protected, AC.NextCall, AC.Resume;
  }

  lemma OwnStep(s: State, k: Key, chance: Chance)
    requires Guarded(s, k)
    ensures Guarded(AppStep(s, k, chance), k)
  {
    if k !in s.appPasses || s.appPasses[k].pc.Finished? {
    } else {
      hide Guarded, AppStep;
      var pc := s.appPasses[k].pc;
      if AC.Armed(pc) {
        ArmedStep(s, k, chance);
      } else if pc.Get? {
        GetStep(s, k, chance);
      } else if pc.AddFinalizer? {
        AddFinalizerStep(s, k, chance);
      } else if pc.CleanList? {
        CleanListStep(s, k, chance);
      } else if pc.CleanMapping? {
        CleanMappingStep(s, k, chance);
      } else if pc.DropFinalizer? {
        DropStep(s, k, chance);
      } else if pc.CleanGet? {
        CleanGetStep(s, k, chance);
      } else {
        CleanDeleteStep(s, k, chance);
      }
    }
  }

  // ----- every run --------------------------------------------------------------------------------------------

  lemma CrashStaysGuarded(s: State, k: Key)
    requires Guarded(s, k)
    ensures Guarded(Step(s, AppCrash(k)), k)
  {
    hide NoMappings, MadeService, Protected;
  }

  lemma StepKeepsInv(s: State, l: Label)
    requires Inv(s)
    ensures Inv(Step(s, l))
  {
    hide Guarded, Labelled, AppStep, TenantStep, Unharmed;
    forall k
      ensures Guarded(Step(s, l), k)
    {
      match l {
        case AppTurn(j, chance) =>
          if j == k {
            OwnStep(s, k, chance);
          } else {
            OtherAppUnharmed(s, j, chance, k);
            UnharmedStaysGuarded(s, Step(s, l), k);
          }
        case TenantTurn(n, chance) =>
          TenantStepUnharmed(s, n, chance, k);
          UnharmedStaysGuarded(s, Step(s, l), k);
        case _ => OutsiderKeepsGuard(s, l, k);
      }
    }
    match l {
      case AppTurn(j, chance) => AppStepLabelled(s, j, chance);
      case TenantTurn(n, chance) => TenantStepUnharmed(s, n, chance, Key("", ""));
      case _ => UserStepLabelled(s, l);
    }
  }

  lemma OutsiderKeepsGuard(s: State, l: Label, k: Key)
    requires !l.AppTurn? && !l.TenantTurn? && Guarded(s, k)
    ensures Guarded(Step(s, l), k)
  {
    hide Guarded, Step, Unharmed;
    if l.AppCrash? && l.key == k {
      CrashStaysGuarded(s, k);
    } else {
      UserStepUnharmed(s, l, k);
      UnharmedStaysGuarded(s, Step(s, l), k);
    }
  }

  lemma {:induction false} RunKeepsInv(s: State, labels: seq<Label>)
    requires Initial(s)
    ensures Inv(Run(s, labels))
  {
    if labels != [] {
      hide Inv, Step;
      RunKeepsInv(s, labels[..|labels| - 1]);
      StepKeepsInv(Run(s, labels[..|labels| - 1]), labels[|labels| - 1]);
    }
  }

  /** The app a mapping made by the operator belongs to. */
  function OwnerOf(at: Key, m: Mapping): Key {
    Key(at.ns, LabelOf(m.labels, LABEL_APP))
  }

  /** Whatever the operator made belongs to a protected app, or to one whose cleanup failed. */
  ghost predicate ChildrenProtected(t: State) {
    && (forall k | k in t.store.services && t.store.services[k].made ::
          Protected(t.store, k) || k in t.failedCleanup)
    && (forall at | at in t.store.mappings && t.store.mappings[at].made ::
          var owner := OwnerOf(at, t.store.mappings[at]);
          Protected(t.store, owner) || owner in t.failedCleanup)
  }

  lemma InvProtectsChildren(t: State)
    requires Inv(t)
    ensures ChildrenProtected(t)
  {
    hide Protected;
    forall k | k in t.store.services && t.store.services[k].made
      ensures Protected(t.store, k) || k in t.failedCleanup
    {
      assert Guarded(t, k);
    }
    forall at | at in t.store.mappings && t.store.mappings[at].made
      ensures var owner := OwnerOf(at, t.store.mappings[at]);
              Protected(t.store, owner) || owner in t.failedCleanup
    {
      var owner := OwnerOf(at, t.store.mappings[at]);
      assert MadeFor(t.store, at, owner);
      assert Guarded(t, owner);
    }
  }

  /** Finalizer before children, at the end of every history. */
  lemma ChildrenAreProtected(states: seq<State>, labels: seq<Label>)
    requires History(states, labels) && Initial(states[0])
    ensures ChildrenProtected(states[|labels|])
  {
    hide Initial, Run, ChildrenProtected, Inv;
    HistoryIsRun(states, labels);
    RunKeepsInv(states[0], labels);
    InvProtectsChildren(states[|labels|]);
  }

  // ----- and only then ----------------------------------------------------------------------------------------

  const Served := Chance(NoFault, [])

  /** The deletion pass drops the finalizer even when deleting the service failed.  With its copy of the app
      current, two more turns always remove the app, and they orphan the service exactly when the delete
      call is lost. */
  lemma LostDeleteOrphans(s: State, k: Key, chance: Chance)
    requires k in s.appPasses && s.appPasses[k].pc.CleanDelete? && MadeService(s.store, k)
    requires k in s.store.apps && s.store.apps[k].deleting && s.store.apps[k].finalizers == {FINALIZER_APP}
    requires s.appPasses[k].app == s.store.apps[k]
    ensures var t := Step(Step(s, AppTurn(k, chance)), AppTurn(k, Served));
            && k !in t.store.apps && k !in t.appPasses
            && (MadeService(t.store, k) <==> chance.fault == Lost)
            && (k in t.failedCleanup <==> k in s.failedCleanup || chance.fault != NoFault)
  {
    var p := s.appPasses[k];
    var mid := Step(s, AppTurn(k, chance));
    DeletedOrLost(s, k, chance);
    var q := AC.ToDrop(p.app);
    assert q.app.finalizers == {};
    hide Deliver, AC.ToDrop;
    LastUpdateRemoves(mid.store, k, q.app);
    assert AC.NextCall(k, q) == UpdateApp(k, q.app) by { DropCall(k, p.app); }
    hide AC.NextCall;
    assert AC.Resume(q, Deliver(mid.store, UpdateApp(k, q.app), Served).1).pc.Finished? by { DropEnds(p.app, Deliver(mid.store, UpdateApp(k, q.app), Served).1); }
  }

  lemma DropCall(k: Key, app: App)
    ensures !AC.ToDrop(app).pc.Finished? && AC.NextCall(k, AC.ToDrop(app)) == UpdateApp(k, AC.ToDrop(app).app)
    ensures !AC.Cleaning(AC.ToDrop(app).pc)
  {
  }

  lemma DropEnds(app: App, r: Response)
    ensures !AC.ToDrop(app).pc.Finished? && AC.Resume(AC.ToDrop(app), r).pc.Finished?
  {
  }

  /** After the delete call the pass is about to drop the finalizer, whatever became of the call. */
  lemma DeletedOrLost(s: State, k: Key, chance: Chance)
    requires k in s.appPasses && s.appPasses[k].pc.CleanDelete? && MadeService(s.store, k)
    ensures var mid := Step(s, AppTurn(k, chance));
            && mid.store.apps == s.store.apps && k in mid.appPasses && mid.appPasses[k] == AC.ToDrop(s.appPasses[k].app)
            && (MadeService(mid.store, k) <==> chance.fault == Lost)
            && (k in mid.failedCleanup <==> k in s.failedCleanup || chance.fault != NoFault)
  {
    DeleteServiceServed(s.store, k, chance.order);
    hide Serve;
  }

  lemma LastUpdateRemoves(store: Store, k: Key, app: App)
    requires k in store.apps && store.apps[k].deleting && app.rv == store.apps[k].rv && app.finalizers == {}
    ensures var (after, r) := Deliver(store, UpdateApp(k, app), Served);
            after.apps == store.apps - {k} && after.services == store.services && r.GotApp?
  {
  }
}
