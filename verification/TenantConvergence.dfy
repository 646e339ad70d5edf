/** One pass of the Tenant controller without failures makes any cluster match the tenant's spec, and a second
    one changes no content. */
module TenantConvergence {
  import opened Options
  import opened Kube
  import opened ApiServer
  import opened Operator
  import opened TenantStages
  import TC = TenantController

  /** The rest of the pass `p` alone with an API server that answers every call. */
  function Finish(store: Store, n: string, p: TC.Pass, order: seq<string>, quantities: set<string>): Store
    decreases TC.Stage(p.pc), TC.Remaining(p.pc)
  {
    if p.pc.Finished? then store
    else
      var (after, r) := Serve(store, TC.NextCall(n, p), order);
      TC.ResumeAdvances(n, p, r, quantities);
      Finish(after, n, TC.Resume(n, p, r, quantities), order, quantities)
  }

  lemma FinishStep(store: Store, n: string, p: TC.Pass, order: seq<string>, quantities: set<string>)
    requires !p.pc.Finished?
    ensures var (after, r) := Serve(store, TC.NextCall(n, p), order);
            Finish(store, n, p, order, quantities) == Finish(after, n, TC.Resume(n, p, r, quantities), order, quantities)
  {
    hide Serve, TC.NextCall, TC.Resume, TC.Stage, TC.Remaining;
  }

  lemma FinishEnds(store: Store, n: string, p: TC.Pass, order: seq<string>, quantities: set<string>)
    requires p.pc.Finished?
    ensures Finish(store, n, p, order, quantities) == store
  {
  }

  function OnePass(store: Store, n: string, order: seq<string>, quantities: set<string>): Store {
    Finish(store, n, TC.NewPass, order, quantities)
  }

  function Turns(n: string, order: seq<string>, count: nat): seq<Label> {
    seq(count, _ => TenantTurn(n, Chance(NoFault, order)))
  }

  /** A solo pass is a run of the whole machine in which only the tenant's own controller takes turns. */
  lemma {:induction false} FinishIsRun(s: State, n: string, order: seq<string>) returns (count: nat)
    requires !Idle(s, n)
    ensures var t := Run(s, Turns(n, order, count));
            && Idle(t, n)
            && t.store == Finish(s.store, n, s.tenantPasses[n], order, s.quantities)
    decreases TenantEffort(s, n), TenantLeft(s, n)
  {
    var l := TenantTurn(n, Chance(NoFault, order));
    var t := Step(s, l);
    var p := s.tenantPasses[n];
    FinishStep(s.store, n, p, order, s.quantities);
    hide TC.NextCall, TC.Resume, Serve, TC.Stage, TC.Remaining, Finish;
    var (after, r) := Serve(s.store, TC.NextCall(n, p), order);
    var q := TC.Resume(n, p, r, s.quantities);
    assert t.store == after && t.quantities == s.quantities && (Idle(t, n) <==> q.pc.Finished?);
    TenantTurnAdvances(s, n, l.chance);
    assert Run(s, Turns(n, order, 1)) == t by {
      assert Turns(n, order, 1) == [l];
      assert [l][..0] == [];
      assert Run(s, []) == s;
    }
    if Idle(t, n) {
      count := 1;
      FinishEnds(after, n, q, order, s.quantities);
    } else {
      hide Step, TenantEffort, TenantLeft;
      count := FinishIsRun(t, n, order);
      assert Turns(n, order, 1) + Turns(n, order, count) == Turns(n, order, 1 + count);
      RunConcat(s, Turns(n, order, 1), Turns(n, order, count));
      count := 1 + count;
    }
  }

  // ----- up to the namespace ----------------------------------------------------------------------------------------

  /** The limits are texts that the quantity parser accepts. */
  predicate Parses(spec: TenantSpec, quantities: set<string>) {
    TC.LimitsOf(spec).cpu in quantities && TC.LimitsOf(spec).memory in quantities
  }

  /** `b` is `a` but for the status, version and operator's finalizer of the tenant. */
  ghost predicate SameButTenant(a: Store, b: Store, n: string) {
    && b == a.(tenants := b.tenants, clock := b.clock)
    && n in a.tenants && n in b.tenants && b.tenants == a.tenants[n := b.tenants[n]]
    && b.tenants[n].spec == a.tenants[n].spec && b.tenants[n].deleting == a.tenants[n].deleting
    && b.tenants[n].finalizers + {FINALIZER_TENANT} == a.tenants[n].finalizers + {FINALIZER_TENANT}
  }

  lemma StatusStored(store: Store, n: string, status: TenantStatus, order: seq<string>)
    requires n in store.tenants
    ensures var written := store.tenants[n].(status := status);
            var (after, r) := Serve(store, UpdateTenantStatus(n, written), order);
            && r == GotTenant(after.tenants[n]) && SameButTenant(store, after, n)
            && after.tenants[n] == written.(rv := store.clock)
  {
  }

  function Started(status: TenantStatus): TenantStatus {
    if status.phase == NoPhase then status.(phase := TenantPending) else status
  }

  lemma PendingRuns(store: Store, n: string, order: seq<string>, quantities: set<string>) returns (st: Store)
    requires n in store.tenants
    ensures SameButTenant(store, st, n) && st.tenants[n].finalizers == store.tenants[n].finalizers
    ensures st.tenants[n].status == Started(store.tenants[n].status)
    ensures Finish(store, n, TC.AfterFinalizer(store.tenants[n]), order, quantities)
         == Finish(st, n, TC.Pass(TC.NamespaceGet, st.tenants[n]), order, quantities)
  {
    hide Finish;
    if store.tenants[n].status.phase == NoPhase {
      var status := store.tenants[n].status.(phase := TenantPending);
      StatusStored(store, n, status, order);
      FinishStep(store, n, TC.Pass(TC.MarkPending, TC.Phased(store.tenants[n], TenantPending)), order, quantities);
      hide Serve;
      st := Serve(store, UpdateTenantStatus(n, store.tenants[n].(status := status)), order).0;
    } else {
      st := store;
      assert store.tenants[n := store.tenants[n]] == store.tenants;
    }
  }

  lemma FinalizerStored(store: Store, n: string, order: seq<string>, quantities: set<string>) returns (st: Store)
    requires n in store.tenants && !store.tenants[n].deleting
    ensures SameButTenant(store, st, n) && FINALIZER_TENANT in st.tenants[n].finalizers
    ensures st.tenants[n].status == store.tenants[n].status
    ensures Finish(store, n, TC.Pass(TC.AddFinalizer, store.tenants[n].(finalizers := store.tenants[n].finalizers + {FINALIZER_TENANT})), order, quantities)
         == Finish(st, n, TC.AfterFinalizer(st.tenants[n]), order, quantities)
  {
    hide Finish, TC.AfterFinalizer;
    var t := store.tenants[n].(finalizers := store.tenants[n].finalizers + {FINALIZER_TENANT});
    FinishStep(store, n, TC.Pass(TC.AddFinalizer, t), order, quantities);
    st := Serve(store, UpdateTenant(n, t), order).0;
  }

  lemma SameChain(a: Store, b: Store, c: Store, n: string)
    requires SameButTenant(a, b, n) && SameButTenant(b, c, n)
    ensures SameButTenant(a, c, n)
  {
    assert a.tenants[n := c.tenants[n]] == a.tenants[n := b.tenants[n]][n := c.tenants[n]];
  }

  lemma PrologueRuns(store: Store, n: string, order: seq<string>, quantities: set<string>) returns (st: Store)
    requires n in store.tenants && !store.tenants[n].deleting
    ensures SameButTenant(store, st, n) && FINALIZER_TENANT in st.tenants[n].finalizers
    ensures st.tenants[n].status == Started(store.tenants[n].status)
    ensures OnePass(store, n, order, quantities) == Finish(st, n, TC.Pass(TC.NamespaceGet, st.tenants[n]), order, quantities)
  {
    FinishStep(store, n, TC.NewPass, order, quantities);
    var mid := Serve(store, GetTenant(n), order).0;
    hide Finish, TC.AfterFinalizer;
    assert mid.tenants[n := mid.tenants[n]] == mid.tenants;
    assert SameButTenant(store, mid, n);
    hide Serve;
    if FINALIZER_TENANT !in mid.tenants[n].finalizers {
      var added := FinalizerStored(mid, n, order, quantities);
      SameChain(store, mid, added, n);
      st := PendingRuns(added, n, order, quantities);
      SameChain(store, added, st, n);
    } else {
      st := PendingRuns(mid, n, order, quantities);
      SameChain(store, mid, st, n);
    }
  }

  // ----- the four stages --------------------------------------------------------------------------------------------

  /** Created with the three labels, or given those it lacks. */
  ghost predicate NamespaceSettled(a: map<string, Namespace>, b: map<string, Namespace>, n: string) {
    var ns := TenantNamespace(n);
    && ns in b && b == a[ns := b[ns]] && WellLabelled(b[ns].labels, n)
    && (ns in a ==> forall key | !Ours(key) :: Find(b[ns].labels, key) == Find(a[ns].labels, key))
    && (ns in a && WellLabelled(a[ns].labels, n) ==> b == a)
  }

  lemma NamespaceRuns(store: Store, n: string, t: Tenant, order: seq<string>, quantities: set<string>) returns (st: Store)
    ensures st == store.(namespaces := st.namespaces, clock := st.clock)
    ensures NamespaceSettled(store.namespaces, st.namespaces, n)
    ensures Finish(store, n, TC.Pass(TC.NamespaceGet, t), order, quantities)
         == Finish(st, n, TC.Pass(TC.CapsuleGet, t), order, quantities)
  {
    hide Finish, TenantNamespace;
    var ns := TenantNamespace(n);
    var mid := Serve(store, GetNamespace(ns), order).0;
    assert mid == store.(clock := store.clock + 1);
    FinishStep(store, n, TC.Pass(TC.NamespaceGet, t), order, quantities);
    if ns !in store.namespaces {
      st := NamespaceCreates(mid, n, t, order, quantities);
    } else {
      hide TC.MergedLabels;
      MergedLabelsMeaning(store.namespaces[ns].labels, n);
      var merged := TC.MergedLabels(store.namespaces[ns].labels, n);
      if merged == store.namespaces[ns].labels {
        st := mid;
        assert store.namespaces[ns := store.namespaces[ns]] == store.namespaces;
      } else {
        st := NamespaceUpdates(mid, n, t, store.namespaces[ns].(labels := merged), order, quantities);
      }
    }
    hide Serve, WellLabelled, Ours;
  }

  lemma NamespaceCreates(store: Store, n: string, t: Tenant, order: seq<string>, quantities: set<string>) returns (st: Store)
    requires TenantNamespace(n) !in store.namespaces
    ensures st == store.(namespaces := st.namespaces, clock := st.clock)
    ensures NamespaceSettled(store.namespaces, st.namespaces, n)
    ensures Finish(store, n, TC.Pass(TC.NamespaceCreate, t), order, quantities)
         == Finish(st, n, TC.Pass(TC.CapsuleGet, t), order, quantities)
  {
    hide Finish, TenantNamespace;
    FinishStep(store, n, TC.Pass(TC.NamespaceCreate, t), order, quantities);
    st := Serve(store, CreateNamespace(TenantNamespace(n), Namespace(0, TC.NamespaceLabels(n))), order).0;
  }

  lemma NamespaceUpdates(store: Store, n: string, t: Tenant, x: Namespace, order: seq<string>, quantities: set<string>)
    returns (st: Store)
    requires TenantNamespace(n) in store.namespaces && x.rv == store.namespaces[TenantNamespace(n)].rv
    ensures st == store.(namespaces := store.namespaces[TenantNamespace(n) := x.(rv := store.clock)], clock := st.clock)
    ensures Finish(store, n, TC.Pass(TC.NamespaceUpdate(x), t), order, quantities)
         == Finish(st, n, TC.Pass(TC.CapsuleGet, t), order, quantities)
  {
    hide Finish, TenantNamespace;
    FinishStep(store, n, TC.Pass(TC.NamespaceUpdate(x), t), order, quantities);
    st := Serve(store, UpdateNamespace(TenantNamespace(n), x), order).0;
  }

  /** Where the Capsule stage leads. */
  function AfterCapsule(t: Tenant, quantities: set<string>): TC.Pass {
    if TC.Isolated(t.spec) then TC.Pass(TC.PolicyGet, t) else AfterPolicy(t, quantities)
  }

  function AfterPolicy(t: Tenant, quantities: set<string>): TC.Pass {
    TC.Pass(if Parses(t.spec, quantities) then TC.QuotaGet else TC.Finished, t)
  }

  lemma CapsuleVerbs(store: Store, k: string, x: Capsule, order: seq<string>)
    ensures Serve(store, GetCapsule(k), order)
         == (store.(clock := store.clock + 1), if k in store.capsules then GotCapsule(store.capsules[k]) else NotFound)
    ensures if k !in store.capsules then
              Serve(store, CreateCapsule(k, x), order)
              == (store.(capsules := store.capsules[k := x.(rv := store.clock)], clock := store.clock + 1), Ok)
            else
              Serve(store, UpdateCapsule(k, x.(rv := store.capsules[k].rv)), order)
              == (store.(capsules := store.capsules[k := x.(rv := store.clock)], clock := store.clock + 1), Ok)
  {
  }

  function CapsuleWrite(m: map<string, Capsule>, k: string): TC.Pc {
    if k in m then TC.CapsuleUpdate(m[k].rv) else TC.CapsuleCreate
  }

  lemma CapsuleLooks(store: Store, n: string, t: Tenant, order: seq<string>, quantities: set<string>)
    ensures Finish(store, n, TC.Pass(TC.CapsuleGet, t), order, quantities)
         == Finish(store.(clock := store.clock + 1), n, TC.Pass(CapsuleWrite(store.capsules, n), t), order, quantities)
  {
    hide Finish, Serve, TC.DesiredCapsule, TC.LimitsOf, TC.Isolated;
    CapsuleVerbs(store, n, TC.DesiredCapsule(n, t.spec), order);
    FinishStep(store, n, TC.Pass(TC.CapsuleGet, t), order, quantities);
  }

  lemma CapsuleWrites(store: Store, n: string, t: Tenant, order: seq<string>, quantities: set<string>) returns (st: Store)
    ensures st == store.(capsules := store.capsules[n := TC.DesiredCapsule(n, t.spec).(rv := store.clock)], clock := store.clock + 1)
    ensures Finish(store, n, TC.Pass(CapsuleWrite(store.capsules, n), t), order, quantities)
         == Finish(st, n, AfterCapsule(t, quantities), order, quantities)
  {
    hide Finish, Serve, TC.DesiredCapsule, TC.LimitsOf, TC.Isolated;
    CapsuleVerbs(store, n, TC.DesiredCapsule(n, t.spec), order);
    FinishStep(store, n, TC.Pass(CapsuleWrite(store.capsules, n), t), order, quantities);
    st := store.(capsules := store.capsules[n := TC.DesiredCapsule(n, t.spec).(rv := store.clock)], clock := store.clock + 1);
  }

  lemma CapsuleRuns(store: Store, n: string, t: Tenant, order: seq<string>, quantities: set<string>) returns (st: Store)
    ensures st == store.(capsules := store.capsules[n := TC.DesiredCapsule(n, t.spec).(rv := store.clock + 1)], clock := st.clock)
    ensures Finish(store, n, TC.Pass(TC.CapsuleGet, t), order, quantities)
         == Finish(st, n, AfterCapsule(t, quantities), order, quantities)
  {
    CapsuleLooks(store, n, t, order, quantities);
    hide Finish, CapsuleWrite, TC.DesiredCapsule, TC.LimitsOf, TC.Isolated;
    st := CapsuleWrites(store.(clock := store.clock + 1), n, t, order, quantities);
  }

  lemma PolicyVerbs(store: Store, k: Key, x: Policy, order: seq<string>)
    ensures Serve(store, GetPolicy(k), order)
         == (store.(clock := store.clock + 1), if k in store.policies then GotPolicy(store.policies[k]) else NotFound)
    ensures if k !in store.policies then
              Serve(store, CreatePolicy(k, x), order)
              == (store.(policies := store.policies[k := x.(rv := store.clock)], clock := store.clock + 1), Ok)
            else
              Serve(store, UpdatePolicy(k, x.(rv := store.policies[k].rv)), order)
              == (store.(policies := store.policies[k := x.(rv := store.clock)], clock := store.clock + 1), Ok)
  {
  }

  function PolicyWrite(m: map<Key, Policy>, k: Key): TC.Pc {
    if k in m then TC.PolicyUpdate(m[k].rv) else TC.PolicyCreate
  }

  lemma PolicyLooks(store: Store, n: string, t: Tenant, order: seq<string>, quantities: set<string>)
    ensures Finish(store, n, TC.Pass(TC.PolicyGet, t), order, quantities)
         == Finish(store.(clock := store.clock + 1), n, TC.Pass(PolicyWrite(store.policies, TC.PolicyKey(n)), t), order, quantities)
  {
    hide Finish, Serve, TC.DesiredPolicy, TC.PolicyKey, TC.LimitsOf;
    PolicyVerbs(store, TC.PolicyKey(n), TC.DesiredPolicy(n), order);
    FinishStep(store, n, TC.Pass(TC.PolicyGet, t), order, quantities);
  }

  lemma PolicyWrites(store: Store, n: string, t: Tenant, order: seq<string>, quantities: set<string>) returns (st: Store)
    ensures st == store.(policies := store.policies[TC.PolicyKey(n) := TC.DesiredPolicy(n).(rv := store.clock)], clock := store.clock + 1)
    ensures Finish(store, n, TC.Pass(PolicyWrite(store.policies, TC.PolicyKey(n)), t), order, quantities)
         == Finish(st, n, AfterPolicy(t, quantities), order, quantities)
  {
    hide Finish, Serve, TC.DesiredPolicy, TC.PolicyKey, TC.LimitsOf;
    PolicyVerbs(store, TC.PolicyKey(n), TC.DesiredPolicy(n), order);
    FinishStep(store, n, TC.Pass(PolicyWrite(store.policies, TC.PolicyKey(n)), t), order, quantities);
    st := store.(policies := store.policies[TC.PolicyKey(n) := TC.DesiredPolicy(n).(rv := store.clock)], clock := store.clock + 1);
  }

  lemma PolicyRuns(store: Store, n: string, t: Tenant, order: seq<string>, quantities: set<string>) returns (st: Store)
    ensures st == store.(policies := store.policies[TC.PolicyKey(n) := TC.DesiredPolicy(n).(rv := store.clock + 1)], clock := st.clock)
    ensures Finish(store, n, TC.Pass(TC.PolicyGet, t), order, quantities)
         == Finish(st, n, AfterPolicy(t, quantities), order, quantities)
  {
    PolicyLooks(store, n, t, order, quantities);
    hide Finish, PolicyWrite, TC.DesiredPolicy, TC.PolicyKey, TC.LimitsOf;
    st := PolicyWrites(store.(clock := store.clock + 1), n, t, order, quantities);
  }

  lemma QuotaVerbs(store: Store, k: Key, x: Quota, order: seq<string>)
    ensures Serve(store, GetQuota(k), order)
         == (store.(clock := store.clock + 1), if k in store.quotas then GotQuota(store.quotas[k]) else NotFound)
    ensures if k !in store.quotas then
              Serve(store, CreateQuota(k, x), order)
              == (store.(quotas := store.quotas[k := x.(rv := store.clock)], clock := store.clock + 1), Ok)
            else
              Serve(store, UpdateQuota(k, x.(rv := store.quotas[k].rv)), order)
              == (store.(quotas := store.quotas[k := x.(rv := store.clock)], clock := store.clock + 1), Ok)
  {
  }

  function QuotaWrite(m: map<Key, Quota>, k: Key): TC.Pc {
    if k in m then TC.QuotaUpdate(m[k]) else TC.QuotaCreate
  }

  lemma QuotaLooks(store: Store, n: string, t: Tenant, order: seq<string>, quantities: set<string>)
    ensures Finish(store, n, TC.Pass(TC.QuotaGet, t), order, quantities)
         == Finish(store.(clock := store.clock + 1), n, TC.Pass(QuotaWrite(store.quotas, TC.QuotaKey(n)), t), order, quantities)
  {
    hide Finish, Serve, TC.DesiredQuota, TC.QuotaKey;
    QuotaVerbs(store, TC.QuotaKey(n), TC.DesiredQuota(n, t.spec), order);
    FinishStep(store, n, TC.Pass(TC.QuotaGet, t), order, quantities);
  }

  lemma QuotaWrites(store: Store, n: string, t: Tenant, order: seq<string>, quantities: set<string>) returns (st: Store)
    ensures st == store.(quotas := store.quotas[TC.QuotaKey(n) := TC.DesiredQuota(n, t.spec).(rv := store.clock)], clock := store.clock + 1)
    ensures Finish(store, n, TC.Pass(QuotaWrite(store.quotas, TC.QuotaKey(n)), t), order, quantities)
         == Finish(st, n, TC.Pass(TC.CountApps, t), order, quantities)
  {
    hide Finish, Serve, TC.DesiredQuota, TC.QuotaKey;
    QuotaVerbs(store, TC.QuotaKey(n), TC.DesiredQuota(n, t.spec), order);
    FinishStep(store, n, TC.Pass(QuotaWrite(store.quotas, TC.QuotaKey(n)), t), order, quantities);
    st := store.(quotas := store.quotas[TC.QuotaKey(n) := TC.DesiredQuota(n, t.spec).(rv := store.clock)], clock := store.clock + 1);
  }

  lemma QuotaRuns(store: Store, n: string, t: Tenant, order: seq<string>, quantities: set<string>) returns (st: Store)
    ensures st == store.(quotas := store.quotas[TC.QuotaKey(n) := TC.DesiredQuota(n, t.spec).(rv := store.clock + 1)], clock := st.clock)
    ensures Finish(store, n, TC.Pass(TC.QuotaGet, t), order, quantities)
         == Finish(st, n, TC.Pass(TC.CountApps, t), order, quantities)
  {
    QuotaLooks(store, n, t, order, quantities);
    hide Finish, QuotaWrite, TC.DesiredQuota, TC.QuotaKey;
    st := QuotaWrites(store.(clock := store.clock + 1), n, t, order, quantities);
  }

  function Activated(n: string, count: nat): TenantStatus {
    TenantStatus(Active, TenantNamespace(n), ToInt32(count), Some(Condition(true, "Reconciled")))
  }

  lemma CountRuns(store: Store, n: string, t: Tenant, order: seq<string>, quantities: set<string>)
    requires Enumerates(order, AppNames(store.apps, TenantNamespace(n)))
    ensures Finish(store, n, TC.Pass(TC.CountApps, t), order, quantities)
         == Finish(store.(clock := store.clock + 1), n, TC.Pass(TC.ActiveWrite, t.(status := Activated(n, |order|))), order, quantities)
  {
    hide Finish, Enumerates, AppNames, ToInt32, TenantNamespace;
    FinishStep(store, n, TC.Pass(TC.CountApps, t), order, quantities);
  }

  lemma ActiveRuns(store: Store, n: string, status: TenantStatus, order: seq<string>, quantities: set<string>)
    requires n in store.tenants
    ensures var st := Finish(store, n, TC.Pass(TC.ActiveWrite, store.tenants[n].(status := status)), order, quantities);
            SameButTenant(store, st, n) && st.tenants[n].status == status && st.tenants[n].finalizers == store.tenants[n].finalizers
  {
    var p := TC.Pass(TC.ActiveWrite, store.tenants[n].(status := status));
    var (after, r) := Serve(store, UpdateTenantStatus(n, p.tenant), order);
    StatusStored(store, n, status, order);
    FinishStep(store, n, p, order, quantities);
    FinishEnds(after, n, TC.Resume(n, p, r, quantities), order, quantities);
    hide Finish, Serve;
  }

  lemma ActivationRuns(store: Store, n: string, order: seq<string>, quantities: set<string>) returns (st: Store)
    requires n in store.tenants && Enumerates(order, AppNames(store.apps, TenantNamespace(n)))
    ensures SameButTenant(store, st, n) && st.tenants[n].finalizers == store.tenants[n].finalizers
    ensures st.tenants[n].status == Activated(n, |order|)
    ensures st == Finish(store, n, TC.Pass(TC.CountApps, store.tenants[n]), order, quantities)
  {
    CountRuns(store, n, store.tenants[n], order, quantities);
    var mid := store.(clock := store.clock + 1);
    ActiveRuns(mid, n, Activated(n, |order|), order, quantities);
    hide Finish, Activated, AppNames, Enumerates;
    st := Finish(store, n, TC.Pass(TC.CountApps, store.tenants[n]), order, quantities);
  }

  // ----- the whole pass ---------------------------------------------------------------------------------------------

  /** What one pass does to any cluster whose tenant's limits parse, or not.  A policy that isolation no
      longer asks for stays. */
  ghost predicate Provisioned(a: Store, b: Store, n: string, parses: bool, count: nat)
    requires n in a.tenants
  {
    var spec := a.tenants[n].spec;
    && SameButTenant(a.(namespaces := b.namespaces, capsules := b.capsules, policies := b.policies, quotas := b.quotas), b, n)
    && FINALIZER_TENANT in b.tenants[n].finalizers
    && b.tenants[n].status ==
         (if parses then Activated(n, count) else Started(a.tenants[n].status))
    && NamespaceSettled(a.namespaces, b.namespaces, n)
    && CapsuleSettled(a.capsules, b.capsules, n, spec)
    && PolicySettled(a.policies, b.policies, n, spec)
    && QuotaSettled(a.quotas, b.quotas, n, spec, parses)
  }

  ghost predicate CapsuleSettled(a: map<string, Capsule>, b: map<string, Capsule>, n: string, spec: TenantSpec) {
    n in b && b == a[n := b[n]] && TC.CapsuleFor(b[n], n, spec)
  }

  ghost predicate PolicySettled(a: map<Key, Policy>, b: map<Key, Policy>, n: string, spec: TenantSpec) {
    var k := TC.PolicyKey(n);
    if TC.Isolated(spec) then k in b && b == a[k := b[k]] && TC.PolicyFor(b[k], n) else b == a
  }

  ghost predicate QuotaSettled(a: map<Key, Quota>, b: map<Key, Quota>, n: string, spec: TenantSpec, parses: bool) {
    var k := TC.QuotaKey(n);
    if parses then k in b && b == a[k := b[k]] && TC.QuotaFor(b[k], n, spec) else b == a
  }

  lemma IsolationRuns(store: Store, n: string, t: Tenant, order: seq<string>, quantities: set<string>) returns (st: Store)
    ensures st == store.(policies := st.policies, clock := st.clock)
    ensures PolicySettled(store.policies, st.policies, n, t.spec)
    ensures Finish(store, n, AfterCapsule(t, quantities), order, quantities)
         == Finish(st, n, AfterPolicy(t, quantities), order, quantities)
  {
    hide Finish, TC.DesiredPolicy, TC.PolicyFor, TC.PolicyKey, TC.Isolated;
    if TC.Isolated(t.spec) {
      st := PolicyRuns(store, n, t, order, quantities);
      TC.PolicyForExactly(st.policies[TC.PolicyKey(n)], n);
    } else {
      st := store;
    }
  }

  lemma CapsuleSettles(store: Store, n: string, t: Tenant, order: seq<string>, quantities: set<string>) returns (st: Store)
    ensures st == store.(capsules := st.capsules, clock := st.clock)
    ensures CapsuleSettled(store.capsules, st.capsules, n, t.spec)
    ensures Finish(store, n, TC.Pass(TC.CapsuleGet, t), order, quantities)
         == Finish(st, n, AfterCapsule(t, quantities), order, quantities)
  {
    hide Finish, AfterCapsule, TC.DesiredCapsule, TC.CapsuleFor;
    st := CapsuleRuns(store, n, t, order, quantities);
    TC.CapsuleForExactly(st.capsules[n], n, t.spec);
  }

  lemma QuotaSettles(store: Store, n: string, t: Tenant, order: seq<string>, quantities: set<string>) returns (st: Store)
    ensures st == store.(quotas := st.quotas, clock := st.clock)
    ensures QuotaSettled(store.quotas, st.quotas, n, t.spec, true)
    ensures Finish(store, n, TC.Pass(TC.QuotaGet, t), order, quantities)
         == Finish(st, n, TC.Pass(TC.CountApps, t), order, quantities)
  {
    hide Finish, TC.DesiredQuota, TC.QuotaFor, TC.QuotaKey;
    st := QuotaRuns(store, n, t, order, quantities);
    TC.QuotaForExactly(st.quotas[TC.QuotaKey(n)], n, t.spec);
  }

  /** From any cluster one pass provisions the tenant, as far as its limits parse. */
  lemma PassProvisions(store: Store, n: string, order: seq<string>, quantities: set<string>)
    requires n in store.tenants && !store.tenants[n].deleting
    requires Enumerates(order, AppNames(store.apps, TenantNamespace(n)))
    ensures Provisioned(store, OnePass(store, n, order, quantities), n, Parses(store.tenants[n].spec, quantities), |order|)
  {
    hide OnePass, Finish, Parses, TC.Isolated;
    hide AppNames, Enumerates, ToInt32, TenantNamespace, NamespaceSettled, CapsuleSettled, PolicySettled, QuotaSettled;
    var s1 := PrologueRuns(store, n, order, quantities);
    var t := s1.tenants[n];
    var s2 := NamespaceRuns(s1, n, t, order, quantities);
    var s3 := CapsuleSettles(s2, n, t, order, quantities);
    var s4 := IsolationRuns(s3, n, t, order, quantities);
    if Parses(t.spec, quantities) {
      var s5 := QuotaSettles(s4, n, t, order, quantities);
      var st := ActivationRuns(s5, n, order, quantities);
      assert store.tenants[n := st.tenants[n]] == s1.tenants[n := st.tenants[n]];
    } else {
      FinishEnds(s4, n, AfterPolicy(t, quantities), order, quantities);
      NoQuota(store.quotas, n, t.spec);
    }
  }

  lemma NoQuota(m: map<Key, Quota>, n: string, spec: TenantSpec)
    ensures QuotaSettled(m, m, n, spec, false)
  {
  }

  /** Every amount the quota would hold is one the parser accepts. */
  ghost predicate AmountsParse(spec: TenantSpec, quantities: set<string>) {
    && (forall amount | TC.GrantsCpu(amount, spec) :: amount in quantities)
    && (forall amount | TC.GrantsMemory(amount, spec) :: amount in quantities)
  }

  lemma AmountsParseExactly(spec: TenantSpec, quantities: set<string>)
    ensures Parses(spec, quantities) <==> AmountsParse(spec, quantities)
  {
    var a := TC.LimitsOf(spec);
    TC.GrantsExactly(a, spec);
    hide TC.LimitsOf;
    assert TC.GrantsCpu(a.cpu, spec) && TC.GrantsMemory(a.memory, spec);
    forall amount | TC.GrantsCpu(amount, spec)
      ensures amount == a.cpu
    {
    }
    forall amount | TC.GrantsMemory(amount, spec)
      ensures amount == a.memory
    {
    }
  }

  /** The three labels of the namespace, as they are spelled. */
  predicate NamespaceNamed(labels: Labels, n: string) {
    && LabelOf(labels, "app.kubernetes.io/managed-by") == "kuberless"
    && LabelOf(labels, "kuberless.io/tenant") == n && LabelOf(labels, "capsule.clastix.io/tenant") == n
  }

  /** What one pass leaves, object by object: the namespace with its labels, the Capsule tenant, the policy unless
      isolation is off, and with amounts that parse the quota and the tenant Active with the number of its apps. */
  lemma PassLeaves(store: Store, n: string, order: seq<string>, quantities: set<string>)
    requires n in store.tenants && !store.tenants[n].deleting
    requires Enumerates(order, AppNames(store.apps, TenantNamespace(n)))
    ensures var (st, spec, ns) := (OnePass(store, n, order, quantities), store.tenants[n].spec, "tenant-" + n);
            var (policy, quota) := (Key(ns, n + "-isolation"), Key(ns, n + "-quota"));
            && ns in st.namespaces && NamespaceNamed(st.namespaces[ns].labels, n)
            && n in st.capsules && TC.CapsuleFor(st.capsules[n], n, spec)
            && (if spec.networkIsolation == Some(false) then st.policies == store.policies
                else policy in st.policies && TC.PolicyFor(st.policies[policy], n))
            && n in st.tenants
            && (if AmountsParse(spec, quantities) then
                  && quota in st.quotas && TC.QuotaFor(st.quotas[quota], n, spec)
                  && st.tenants[n].status
                     == TenantStatus(Active, ns, ToInt32(|AppNames(store.apps, ns)|), Some(Condition(true, "Reconciled")))
                else
                  && st.quotas == store.quotas
                  && st.tenants[n].status == Started(store.tenants[n].status))
  {
    PassProvisions(store, n, order, quantities);
    AmountsParseExactly(store.tenants[n].spec, quantities);
    EnumerationLength(order, AppNames(store.apps, TenantNamespace(n)));
    hide OnePass, Parses, AmountsParse, AppNames, Enumerates, ToInt32, TC.CapsuleFor, TC.PolicyFor, TC.QuotaFor, Started;
  }

  lemma IncrementWraps(x: int)
    requires IsInt32(x)
    ensures ToInt32(x + 1) == if x == 0x7fff_ffff then -0x8000_0000 else x + 1
  {
  }

  /** After a pass the Capsule tenant has room for one namespace more than the tenant may have apps, except at
      the largest int32, where the sum wraps and the quota is below every limit. */
  lemma QuotaHasRoom(store: Store, n: string, order: seq<string>, quantities: set<string>)
    requires n in store.tenants && !store.tenants[n].deleting && IsInt32(store.tenants[n].spec.maxApps)
    requires Enumerates(order, AppNames(store.apps, TenantNamespace(n)))
    ensures var (st, limit) := (OnePass(store, n, order, quantities), store.tenants[n].spec.maxApps);
            && n in st.capsules && st.capsules[n].owner == store.tenants[n].spec.ownerEmail
            && (st.capsules[n].quota == limit + 1 <==> limit < 0x7fff_ffff)
            && (limit == 0x7fff_ffff ==> st.capsules[n].quota == -0x8000_0000)
  {
    hide OnePass, Parses, AppNames, Enumerates, ToInt32, NamespaceSettled, PolicySettled, QuotaSettled, SameButTenant;
    PassProvisions(store, n, order, quantities);
    IncrementWraps(store.tenants[n].spec.maxApps);
  }

  lemma ProvisionedIsAllFour(a: Store, b: Store, n: string, count: nat)
    requires n in a.tenants && Provisioned(a, b, n, true, count)
    ensures AllFour(b, n, a.tenants[n].spec)
  {
    hide WellLabelled, TC.PolicyKey, TC.QuotaKey, TC.ChildLabels, TC.LimitsOf, ToInt32;
  }

  /** Equal but for versions. */
  ghost predicate SameContent(a: Store, b: Store, n: string) {
    && b == a.(tenants := b.tenants, capsules := b.capsules, policies := b.policies, quotas := b.quotas, clock := b.clock)
    && n in a.tenants && n in b.tenants && b.tenants == a.tenants[n := a.tenants[n].(rv := b.tenants[n].rv)]
    && n in a.capsules && n in b.capsules && b.capsules == a.capsules[n := a.capsules[n].(rv := b.capsules[n].rv)]
    && SameQuotas(a.quotas, b.quotas, TC.QuotaKey(n)) && SamePolicies(a.policies, b.policies, TC.PolicyKey(n))
  }

  ghost predicate SameQuotas(a: map<Key, Quota>, b: map<Key, Quota>, k: Key) {
    b == a || (k in a && k in b && b == a[k := a[k].(rv := b[k].rv)])
  }

  ghost predicate SamePolicies(a: map<Key, Policy>, b: map<Key, Policy>, k: Key) {
    b == a || (k in a && k in b && b == a[k := a[k].(rv := b[k].rv)])
  }

  lemma {:induction false} EnumerationLength(order: seq<string>, names: set<string>)
    requires Enumerates(order, names)
    ensures |order| == |names|
    decreases |order|
  {
    if order == [] {
      assert names == {};
    } else {
      var rest := order[1..];
      assert order == [order[0]] + rest;
      assert order[0] !in rest;
      assert forall i | 0 <= i < |rest| :: rest[i] == order[i + 1];
      EnumerationLength(rest, names - {order[0]});
    }
  }

  lemma ProvisionedAgain(a: Store, b: Store, c: Store, n: string, parses: bool, count: nat)
    requires n in a.tenants && Provisioned(a, b, n, parses, count) && Provisioned(b, c, n, parses, count)
    ensures SameContent(b, c, n)
  {
    var spec, policy, quota := a.tenants[n].spec, TC.PolicyKey(n), TC.QuotaKey(n);
    TC.CapsuleForExactly(b.capsules[n], n, spec);
    TC.CapsuleForExactly(c.capsules[n], n, spec);
    if TC.Isolated(spec) {
      TC.PolicyForExactly(b.policies[policy], n);
      TC.PolicyForExactly(c.policies[policy], n);
    }
    if parses {
      TC.QuotaForExactly(b.quotas[quota], n, spec);
      TC.QuotaForExactly(c.quotas[quota], n, spec);
    }
    hide TC.PolicyKey, TC.QuotaKey, TC.DesiredCapsule, TC.DesiredPolicy, TC.DesiredQuota, TC.CapsuleFor, TC.PolicyFor, TC.QuotaFor;
    hide TC.Isolated, ToInt32, WellLabelled, TenantNamespace;
    assert b.tenants[n].finalizers == c.tenants[n].finalizers;
    assert c.tenants[n] == b.tenants[n].(rv := c.tenants[n].rv);
  }

  /** Provisioning settles in one pass.  With limits that parse it leaves the four objects as the spec says,
      foreign labels kept and the tenant Active; with others it stops before the quota.  Either way a second
      pass changes nothing but versions. */
  lemma SecondPassChangesNoContent(store: Store, n: string, order: seq<string>, again: seq<string>, quantities: set<string>)
    requires n in store.tenants && !store.tenants[n].deleting
    requires Enumerates(order, AppNames(store.apps, TenantNamespace(n)))
    requires Enumerates(again, AppNames(store.apps, TenantNamespace(n)))
    ensures var first := OnePass(store, n, order, quantities);
            var second := OnePass(first, n, again, quantities);
            var parses := Parses(store.tenants[n].spec, quantities);
            && Provisioned(store, first, n, parses, |order|)
            && (parses ==> AllFour(first, n, store.tenants[n].spec))
            && SameContent(first, second, n)
  {
    hide OnePass, AppNames, AllFour, SameContent, Parses;
    var first := OnePass(store, n, order, quantities);
    var parses := Parses(store.tenants[n].spec, quantities);
    PassProvisions(store, n, order, quantities);
    if parses {
      ProvisionedIsAllFour(store, first, n, |order|);
    }
    EnumerationLength(order, AppNames(store.apps, TenantNamespace(n)));
    EnumerationLength(again, AppNames(store.apps, TenantNamespace(n)));
    assert first.apps == store.apps && first.tenants[n].spec == store.tenants[n].spec;
    PassProvisions(first, n, again, quantities);
    hide Provisioned;
    ProvisionedAgain(store, first, OnePass(first, n, again, quantities), n, parses, |order|);
  }

  // ----- a tenant that is being deleted -----------------------------------------------------------------------------

  /** Reading the tenant and marking its phase lead to the listing of its apps. */
  lemma DeletingRuns(store: Store, n: string, order: seq<string>, quantities: set<string>) returns (st: Store)
    requires n in store.tenants && store.tenants[n].deleting
    ensures SameButTenant(store, st, n) && st.tenants[n].finalizers == store.tenants[n].finalizers
    ensures st.tenants[n].status == store.tenants[n].status.(phase := Deleting)
    ensures OnePass(store, n, order, quantities) == Finish(st, n, TC.Pass(TC.DrainList, st.tenants[n]), order, quantities)
  {
    var mid := store.(clock := store.clock + 1);
    var status := store.tenants[n].status.(phase := Deleting);
    var p := TC.Pass(TC.MarkDeleting, store.tenants[n].(status := status));
    assert Serve(store, GetTenant(n), order) == (mid, GotTenant(store.tenants[n]));
    FinishStep(store, n, TC.NewPass, order, quantities);
    TC.GetHead(n, quantities);
    TC.MarkHead(n, store.tenants[n], quantities);
    FinishStep(mid, n, p, order, quantities);
    StatusStored(mid, n, status, order);
    hide Finish, Serve, TC.NextCall, TC.Resume, TC.AfterGet;
    st := Serve(mid, UpdateTenantStatus(n, p.tenant), order).0;
  }

  lemma ListingRuns(store: Store, n: string, t: Tenant, order: seq<string>, quantities: set<string>)
    requires Enumerates(order, AppNames(store.apps, TenantNamespace(n)))
    ensures Finish(store, n, TC.Pass(TC.DrainList, t), order, quantities)
         == Finish(store.(clock := store.clock + 1), n, TC.AfterDrainList(t, order), order, quantities)
  {
    TC.DrainListHead(n, t, quantities);
    hide Finish, AppNames, Enumerates, TenantNamespace, TC.NextCall, TC.Resume, TC.AfterDrainList;
    FinishStep(store, n, TC.Pass(TC.DrainList, t), order, quantities);
  }

  /** The named apps of the namespace are marked, or gone if nothing holds them; all others are as they were. */
  ghost predicate MarkedApps(a: map<Key, App>, b: map<Key, App>, ns: string, names: seq<string>) {
    forall k ::
      if k in a && k.ns == ns && k.name in names then
        if a[k].finalizers == {} then k !in b else k in b && b[k] == a[k].(deleting := true, rv := b[k].rv)
      else (k in b <==> k in a) && (k in a ==> b[k] == a[k])
  }

  lemma MarkedChain(a: map<Key, App>, b: map<Key, App>, c: map<Key, App>, ns: string, host: string, rest: seq<string>)
    requires MarkedApps(a, b, ns, [host]) && MarkedApps(b, c, ns, rest)
    ensures MarkedApps(a, c, ns, [host] + rest)
  {
    forall k
      ensures k in c ==> k in b && k in a
    {
    }
  }

  lemma AppDeleted(store: Store, ns: string, app: string, order: seq<string>)
    ensures var (st, r) := Serve(store, Call.DeleteApp(Key(ns, app)), order);
            && st == store.(apps := st.apps, clock := store.clock + 1)
            && MarkedApps(store.apps, st.apps, ns, [app]) && (r.Ok? || r.NotFound?)
  {
    AppServed(store, Call.DeleteApp(Key(ns, app)), order);
    hide Serve;
  }

  lemma {:induction false} DrainsRun(store: Store, n: string, t: Tenant, names: seq<string>, order: seq<string>, quantities: set<string>)
    requires names != []
    ensures var st := Finish(store, n, TC.AfterDrainList(t, names), order, quantities);
            && st == store.(apps := st.apps, clock := st.clock)
            && MarkedApps(store.apps, st.apps, TenantNamespace(n), names)
    decreases |names|
  {
    var ns := TenantNamespace(n);
    var p := TC.Pass(TC.DrainApp(names[0], names[1..]), t);
    var (mid, r) := Serve(store, Call.DeleteApp(Key(ns, names[0])), order);
    AppDeleted(store, ns, names[0], order);
    TC.DrainHead(n, t, names, 0, quantities);
    assert names[0..] == names;
    FinishStep(store, n, p, order, quantities);
    assert names == [names[0]] + names[1..];
    hide Finish, Serve, MarkedApps, TenantNamespace, TC.NextCall, TC.Resume, TC.AfterDrainList;
    if names[1..] == [] {
      FinishEnds(mid, n, TC.Pass(TC.Finished, t), order, quantities);
      assert names == [names[0]];
    } else {
      DrainsRun(mid, n, t, names[1..], order, quantities);
      MarkedChain(store.apps, mid.apps, Finish(mid, n, TC.AfterDrainList(t, names[1..]), order, quantities).apps, ns, names[0], names[1..]);
    }
  }

  /** With apps left, one pass marks every one of them, touches nothing else in the cluster, and tears nothing
      down. */
  lemma DrainPassMarks(store: Store, n: string, order: seq<string>, quantities: set<string>)
    requires n in store.tenants && store.tenants[n].deleting
    requires Enumerates(order, AppNames(store.apps, TenantNamespace(n))) && order != []
    ensures var st := OnePass(store, n, order, quantities);
            && SameButTenant(store.(apps := st.apps), st, n)
            && st.tenants[n].status == store.tenants[n].status.(phase := Deleting)
            && MarkedApps(store.apps, st.apps, TenantNamespace(n), order)
  {
    hide OnePass, Finish, TC.AfterDrainList, MarkedApps, AppNames, Enumerates, TenantNamespace;
    var s1 := DeletingRuns(store, n, order, quantities);
    ListingRuns(s1, n, s1.tenants[n], order, quantities);
    DrainsRun(s1.(clock := s1.clock + 1), n, s1.tenants[n], order, order, quantities);
  }

  lemma PolicyRemoval(store: Store, k: Key, order: seq<string>)
    ensures Serve(store, GetPolicy(k), order)
         == (store.(clock := store.clock + 1), if k in store.policies then GotPolicy(store.policies[k]) else NotFound)
    ensures k in store.policies ==>
              Serve(store, DeletePolicy(k), order) == (store.(policies := store.policies - {k}, clock := store.clock + 1), Ok)
  {
  }

  lemma PolicyGoes(store: Store, n: string, t: Tenant, order: seq<string>, quantities: set<string>) returns (st: Store)
    ensures st == store.(policies := store.policies - {TC.PolicyKey(n)}, clock := st.clock)
    ensures Finish(store, n, TC.Pass(TC.PolicyFind, t), order, quantities)
         == Finish(st, n, TC.Pass(TC.CapsuleFind, t), order, quantities)
  {
    TC.RemovePolicyHeads(n, t, quantities);
    hide Finish, Serve, TC.NextCall, TC.Resume, TC.PolicyKey;
    var k := TC.PolicyKey(n);
    var mid := store.(clock := store.clock + 1);
    PolicyRemoval(store, k, order);
    PolicyRemoval(mid, k, order);
    FinishStep(store, n, TC.Pass(TC.PolicyFind, t), order, quantities);
    if k in store.policies {
      FinishStep(mid, n, TC.Pass(TC.PolicyRemove, t), order, quantities);
      st := mid.(policies := mid.policies - {k}, clock := mid.clock + 1);
    } else {
      st := mid;
      assert store.policies - {k} == store.policies;
    }
  }

  lemma CapsuleRemoval(store: Store, k: string, order: seq<string>)
    ensures Serve(store, GetCapsule(k), order)
         == (store.(clock := store.clock + 1), if k in store.capsules then GotCapsule(store.capsules[k]) else NotFound)
    ensures k in store.capsules ==>
              Serve(store, DeleteCapsule(k), order) == (store.(capsules := store.capsules - {k}, clock := store.clock + 1), Ok)
  {
  }

  lemma CapsuleGoes(store: Store, n: string, t: Tenant, order: seq<string>, quantities: set<string>) returns (st: Store)
    ensures st == store.(capsules := store.capsules - {n}, clock := st.clock)
    ensures Finish(store, n, TC.Pass(TC.CapsuleFind, t), order, quantities)
         == Finish(st, n, TC.Pass(TC.NamespaceFind, t), order, quantities)
  {
    TC.RemoveCapsuleHeads(n, t, quantities);
    hide Finish, Serve, TC.NextCall, TC.Resume;
    var k := n;
    var mid := store.(clock := store.clock + 1);
    CapsuleRemoval(store, k, order);
    CapsuleRemoval(mid, k, order);
    FinishStep(store, n, TC.Pass(TC.CapsuleFind, t), order, quantities);
    if k in store.capsules {
      FinishStep(mid, n, TC.Pass(TC.CapsuleRemove, t), order, quantities);
      st := mid.(capsules := mid.capsules - {k}, clock := mid.clock + 1);
    } else {
      st := mid;
      assert store.capsules - {k} == store.capsules;
    }
  }

  lemma NamespaceRemoval(store: Store, k: string, order: seq<string>)
    ensures Serve(store, GetNamespace(k), order)
         == (store.(clock := store.clock + 1), if k in store.namespaces then GotNamespace(store.namespaces[k]) else NotFound)
    ensures k in store.namespaces ==>
              Serve(store, DeleteNamespace(k), order) == (store.(namespaces := store.namespaces - {k}, clock := store.clock + 1), Ok)
  {
  }

  lemma NamespaceGoes(store: Store, n: string, t: Tenant, order: seq<string>, quantities: set<string>) returns (st: Store)
    ensures st == store.(namespaces := store.namespaces - {TenantNamespace(n)}, clock := st.clock)
    ensures Finish(store, n, TC.Pass(TC.NamespaceFind, t), order, quantities)
         == Finish(st, n, TC.ToDrop(t), order, quantities)
  {
    TC.RemoveNamespaceHeads(n, t, quantities);
    hide Finish, Serve, TC.NextCall, TC.Resume, TenantNamespace, TC.ToDrop;
    var k := TenantNamespace(n);
    var mid := store.(clock := store.clock + 1);
    NamespaceRemoval(store, k, order);
    NamespaceRemoval(mid, k, order);
    FinishStep(store, n, TC.Pass(TC.NamespaceFind, t), order, quantities);
    if k in store.namespaces {
      FinishStep(mid, n, TC.Pass(TC.NamespaceRemove, t), order, quantities);
      st := mid.(namespaces := mid.namespaces - {k}, clock := mid.clock + 1);
    } else {
      st := mid;
      assert store.namespaces - {k} == store.namespaces;
    }
  }

  /** The tenant without the operator's finalizer, or gone if it was the last. */
  function Released(tenants: map<string, Tenant>, n: string, rv: nat): map<string, Tenant>
    requires n in tenants
  {
    var rest := tenants[n].finalizers - {FINALIZER_TENANT};
    if rest == {} then tenants - {n} else tenants[n := tenants[n].(rv := rv, finalizers := rest)]
  }

  lemma DropRuns(store: Store, n: string, order: seq<string>, quantities: set<string>)
    requires n in store.tenants && store.tenants[n].deleting
    ensures var st := Finish(store, n, TC.ToDrop(store.tenants[n]), order, quantities);
            st == store.(tenants := Released(store.tenants, n, store.clock), clock := st.clock)
  {
    var p := TC.ToDrop(store.tenants[n]);
    FinishStep(store, n, p, order, quantities);
    TenantServed(store, UpdateTenant(n, p.tenant), order);
    var (after, r) := Serve(store, UpdateTenant(n, p.tenant), order);
    FinishEnds(after, n, TC.Resume(n, p, r, quantities), order, quantities);
    hide Finish, Serve;
  }

  /** With no apps left, one pass removes policy, Capsule tenant and namespace, and releases the tenant. */
  lemma TeardownPassRemoves(store: Store, n: string, quantities: set<string>)
    requires n in store.tenants && store.tenants[n].deleting && AppNames(store.apps, TenantNamespace(n)) == {}
    ensures var st := OnePass(store, n, [], quantities);
            && st == store.(tenants := st.tenants, policies := store.policies - {TC.PolicyKey(n)},
                            capsules := store.capsules - {n}, namespaces := store.namespaces - {TenantNamespace(n)},
                            clock := st.clock)
            && st.tenants - {n} == store.tenants - {n}
            && (n in st.tenants <==> store.tenants[n].finalizers - {FINALIZER_TENANT} != {})
            && (n in st.tenants ==> FINALIZER_TENANT !in st.tenants[n].finalizers)
  {
    hide OnePass, Finish, AppNames, TenantNamespace, TC.PolicyKey;
    var s1 := DeletingRuns(store, n, [], quantities);
    var t := s1.tenants[n];
    ListingRuns(s1, n, t, [], quantities);
    var s2 := PolicyGoes(s1.(clock := s1.clock + 1), n, t, [], quantities);
    var s3 := CapsuleGoes(s2, n, t, [], quantities);
    var s4 := NamespaceGoes(s3, n, t, [], quantities);
    DropRuns(s4, n, [], quantities);
    ReleasedFromBoth(store.tenants, s4.tenants, n, s4.clock);
    hide Released, TC.ToDrop;
  }

  lemma ReleasedFromBoth(before: map<string, Tenant>, marked: map<string, Tenant>, n: string, rv: nat)
    requires n in before && n in marked && marked == before[n := marked[n]]
    requires marked[n].finalizers == before[n].finalizers
    ensures var after := Released(marked, n, rv);
            && after - {n} == before - {n}
            && (n in after <==> before[n].finalizers - {FINALIZER_TENANT} != {})
            && (n in after ==> FINALIZER_TENANT !in after[n].finalizers)
  {
  }
}
