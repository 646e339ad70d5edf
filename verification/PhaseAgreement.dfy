/** The phase the App controller persists never contradicts the condition it persists with it. */
module PhaseAgreement {
  import opened Options
  import opened Kube
  import opened ApiServer
  import opened Operator
  import AC = AppController
  import TC = TenantController

  ghost predicate Agrees(st: AppStatus) {
    match st.phase
    case Unset => st.ready == None
    case Pending => st.ready == None
    case Deploying => st.ready.Some? ==> !st.ready.value.holds
    case Ready => st.ready.Some? && st.ready.value.holds
    case Failed => st.ready.Some? && !st.ready.value.holds
    case Paused => true
  }

  ghost predicate AllAgree(s: State) {
    && (forall k | k in s.store.apps :: Agrees(s.store.apps[k].status))
    && (forall k | k in s.appPasses :: Agrees(s.appPasses[k].app.status))
  }

  /** What the controller does with an answer keeps the copy's phase and condition in agreement. */
  lemma ResumeAgrees(p: AC.Pass, r: Response)
    requires !p.pc.Finished? && Agrees(p.app.status) && (r.GotApp? ==> Agrees(r.app.status))
    ensures Agrees(AC.Resume(p, r).app.status)
  {
    hide AC.Stale, AC.Missing, AC.DesiredServiceSpec;
  }

  lemma VerbAgrees(apps: map<Key, App>, rv: nat, call: Call)
    requires forall k | k in apps :: Agrees(apps[k].status)
    requires call.UpdateAppStatus? ==> Agrees(call.app.status)
    ensures var (after, r) := ServeApp(apps, rv, call);
            (forall k | k in after :: Agrees(after[k].status)) && (r.GotApp? ==> Agrees(r.app.status))
  {
    hide Agrees;
  }

  lemma AnswerOf(store: Store, call: Call, chance: Chance)
    ensures Deliver(store, call, chance).1.GotApp? ==>
              Deliver(store, call, chance).1 == ServeApp(store.apps, store.clock, call).1
  {
    hide ServeApp, ServeTenant, ServeService, ServeMapping, ServeTenantChild, Listing;
    if chance.fault.NoFault? {
      OnlyAppsAnswerApp(store, call);
    }
  }

  /** Only calls on Apps are answered with one. */
  lemma OnlyAppsAnswerApp(store: Store, call: Call)
    ensures !ServeTenant(store.tenants, store.clock, call).1.GotApp?
    ensures !ServeService(store.services, store.clock, call).1.GotApp?
    ensures !ServeMapping(store.mappings, store.clock, call).1.GotApp?
    ensures !ServeTenantChild(store, call).1.GotApp?
    ensures forall order, names :: !Listing(order, names).GotApp?
  {
    assert !ServeTenant(store.tenants, store.clock, call).1.GotApp?;
    hide ServeTenant;
    assert !ServeService(store.services, store.clock, call).1.GotApp?;
    hide ServeService;
    assert !ServeMapping(store.mappings, store.clock, call).1.GotApp?;
    hide ServeMapping;
    NoChildAnswersApp(store, call);
  }

  lemma NoChildAnswersApp(store: Store, call: Call)
    ensures !ServeTenantChild(store, call).1.GotApp?
  {
    assert !ServeNamespace(store.namespaces, store.clock, call).1.GotApp?;
    assert !ServeCapsule(store.capsules, store.clock, call).1.GotApp?;
    hide ServeNamespace, ServeCapsule;
    assert !ServePolicy(store.policies, store.clock, call).1.GotApp?;
    assert !ServeQuota(store.quotas, store.clock, call).1.GotApp?;
    hide ServePolicy, ServeQuota;
  }

  lemma CallAgrees(store: Store, call: Call, chance: Chance)
    requires forall k | k in store.apps :: Agrees(store.apps[k].status)
    requires call.UpdateAppStatus? ==> Agrees(call.app.status)
    ensures var (after, r) := Deliver(store, call, chance);
            (forall k | k in after.apps :: Agrees(after.apps[k].status)) && (r.GotApp? ==> Agrees(r.app.status))
  {
    hide Agrees, Deliver, ServeApp;
    DeliverTouches(store, call, chance);
    AnswerOf(store, call, chance);
    VerbAgrees(store.apps, store.clock, call);
  }

  lemma AppWrites(k: Key, p: AC.Pass)
    requires !p.pc.Finished?
    ensures AC.NextCall(k, p).UpdateAppStatus? ==> AC.NextCall(k, p).app == p.app
  {
  }

  lemma TenantWritesNoStatus(n: string, p: TC.Pass)
    requires !p.pc.Finished?
    ensures !TC.NextCall(n, p).UpdateAppStatus?
  {
  }

  lemma AppStepAgrees(s: State, k: Key, chance: Chance)
    requires AllAgree(s)
    ensures AllAgree(AppStep(s, k, chance))
  {
    if k in s.appPasses && !s.appPasses[k].pc.Finished? {
      hide Agrees, Deliver, AC.NextCall, AC.Resume;
      var p := s.appPasses[k];
      AppWrites(k, p);
      CallAgrees(s.store, AC.NextCall(k, p), chance);
      ResumeAgrees(p, Deliver(s.store, AC.NextCall(k, p), chance).1);
    }
  }

  lemma TenantStepAgrees(s: State, n: string, chance: Chance)
    requires AllAgree(s)
    ensures AllAgree(TenantStep(s, n, chance))
  {
    hide Agrees, Deliver, TC.NextCall, TC.Resume;
    if n in s.tenantPasses && !s.tenantPasses[n].pc.Finished? {
      TenantWritesNoStatus(n, s.tenantPasses[n]);
      CallAgrees(s.store, TC.NextCall(n, s.tenantPasses[n]), chance);
    }
  }

  lemma UserStepAgrees(s: State, l: Label)
    requires AllAgree(s) && !l.AppTurn? && !l.TenantTurn?
    ensures AllAgree(Step(s, l))
  {
    assert Agrees(NewAppStatus);
    hide Agrees;
  }

  /** In every reachable state, under any failures and any pausing and unpausing, each persisted status has a
      condition that fits its phase. */
  lemma {:induction false} PhasesAgree(s: State, labels: seq<Label>)
    requires Initial(s)
    ensures AllAgree(Run(s, labels))
  {
    if labels == [] {
    } else {
      hide AllAgree, AppStep, TenantStep, Initial;
      var before, l := Run(s, labels[..|labels| - 1]), labels[|labels| - 1];
      PhasesAgree(s, labels[..|labels| - 1]);
      match l {
        case AppTurn(k, chance) => AppStepAgrees(before, k, chance);
        case TenantTurn(n, chance) => TenantStepAgrees(before, n, chance);
        case _ => UserStepAgrees(before, l);
      }
    }
  }
}
