/** A tenant becomes Active only when its namespace, Capsule tenant, network policy and quota are all as its
    spec says, in every interleaving and whatever fails. */
module TenantStages {
  import opened Options
  import opened Kube
  import opened ApiServer
  import opened Operator
  import DL = DrainLiveness
  import AC = AppController
  import TC = TenantController

  // ----- the canonical objects --------------------------------------------------------------------------------------

  ghost predicate WellLabelled(labels: Labels, n: string) {
    && LabelOf(labels, LABEL_MANAGED_BY) == MANAGED_BY_VALUE
    && LabelOf(labels, LABEL_TENANT) == n
    && LabelOf(labels, LABEL_CAPSULE) == n
  }

  predicate Ours(key: string) {
    key == LABEL_MANAGED_BY || key == LABEL_TENANT || key == LABEL_CAPSULE
  }

  /** Merging sets the three labels and keeps every other; it changes nothing exactly when they are set. */
  lemma MergedLabelsMeaning(labels: Labels, n: string)
    ensures WellLabelled(TC.MergedLabels(labels, n), n)
    ensures forall key | !Ours(key) :: Find(TC.MergedLabels(labels, n), key) == Find(labels, key)
    ensures TC.MergedLabels(labels, n) == labels <==> WellLabelled(labels, n)
  {
    assert LABEL_MANAGED_BY != LABEL_TENANT && LABEL_TENANT != LABEL_CAPSULE && LABEL_MANAGED_BY != LABEL_CAPSULE by {
      assert LABEL_MANAGED_BY[0] == 'a' && LABEL_TENANT[0] == 'k' && LABEL_CAPSULE[0] == 'c';
    }
  }

  ghost predicate NamespaceDone(s: Store, n: string) {
    var ns := TenantNamespace(n);
    ns in s.namespaces && WellLabelled(s.namespaces[ns].labels, n)
  }

  ghost predicate CapsuleDone(s: Store, n: string, spec: TenantSpec) {
    n in s.capsules && TC.CapsuleFor(s.capsules[n], n, spec)
  }

  ghost predicate PolicyDone(s: Store, n: string, spec: TenantSpec) {
    TC.Isolated(spec) ==> TC.PolicyKey(n) in s.policies && TC.PolicyFor(s.policies[TC.PolicyKey(n)], n)
  }

  ghost predicate QuotaDone(s: Store, n: string, spec: TenantSpec) {
    TC.QuotaKey(n) in s.quotas && TC.QuotaFor(s.quotas[TC.QuotaKey(n)], n, spec)
  }

  ghost predicate AllFour(s: Store, n: string, spec: TenantSpec) {
    NamespaceDone(s, n) && CapsuleDone(s, n, spec) && PolicyDone(s, n, spec) && QuotaDone(s, n, spec)
  }

  // ----- what a pass has done by each stage -------------------------------------------------------------------------

  predicate PastQuota(pc: TC.Pc) {
    pc.CountApps? || pc.ActiveWrite?
  }

  predicate PastPolicy(pc: TC.Pc) {
    PastQuota(pc) || pc.QuotaGet? || pc.QuotaCreate? || pc.QuotaUpdate?
  }

  predicate PastCapsule(pc: TC.Pc) {
    PastPolicy(pc) || pc.PolicyGet? || pc.PolicyCreate? || pc.PolicyUpdate?
  }

  predicate PastNamespace(pc: TC.Pc) {
    PastCapsule(pc) || pc.CapsuleGet? || pc.CapsuleCreate? || pc.CapsuleUpdate?
  }

  ghost predicate StagesDone(s: Store, n: string, p: TC.Pass) {
    && (PastNamespace(p.pc) ==> NamespaceDone(s, n))
    && (PastCapsule(p.pc) ==> CapsuleDone(s, n, p.tenant.spec))
    && (PastPolicy(p.pc) ==> PolicyDone(s, n, p.tenant.spec))
    && (PastQuota(p.pc) ==> QuotaDone(s, n, p.tenant.spec))
    && (p.pc.NamespaceUpdate? ==> WellLabelled(p.pc.namespace.labels, n))
  }

  /** Nothing of the four changes for the tenant `n`. */
  ghost predicate SameFour(a: Store, b: Store, n: string) {
    && Find(b.namespaces, TenantNamespace(n)) == Find(a.namespaces, TenantNamespace(n))
    && Find(b.capsules, n) == Find(a.capsules, n)
    && Find(b.policies, TC.PolicyKey(n)) == Find(a.policies, TC.PolicyKey(n))
    && Find(b.quotas, TC.QuotaKey(n)) == Find(a.quotas, TC.QuotaKey(n))
  }

  lemma SameFourKeeps(a: Store, b: Store, n: string, p: TC.Pass)
    requires SameFour(a, b, n) && StagesDone(a, n, p)
    ensures StagesDone(b, n, p)
  {
    hide WellLabelled, TC.CapsuleFor, TC.PolicyFor, TC.QuotaFor, TC.Isolated;
  }

  // ----- who writes the four ----------------------------------------------------------------------------------------

  predicate WritesFour(call: Call) {
    call.CreateNamespace? || call.UpdateNamespace? || call.DeleteNamespace?
    || call.CreateCapsule? || call.UpdateCapsule? || call.DeleteCapsule?
    || call.CreatePolicy? || call.UpdatePolicy? || call.DeletePolicy? || call.CreateQuota? || call.UpdateQuota?
  }

  predicate ReadsFour(call: Call) {
    call.GetNamespace? || call.GetCapsule? || call.GetPolicy? || call.GetQuota?
  }

  lemma ReadsLeaveFour(s: Store, call: Call)
    requires ReadsFour(call)
    ensures SameTenantChildren(s, ServeTenantChild(s, call).0)
  {
  }

  lemma ServeLeavesFour(s: Store, call: Call, order: seq<string>)
    requires !WritesFour(call)
    ensures SameTenantChildren(s, Serve(s, call, order).0)
  {
    if ForTenantChild(call) {
      ReadsLeaveFour(s, call);
      assert Serve(s, call, order) == ServeTenantChild(s, call) by {
        hide ServeTenantChild;
      }
    } else {
      OthersKeepTenantChildren(s, call, order);
    }
    hide Serve, ServeTenantChild;
  }

  lemma OthersLeaveFour(s: Store, call: Call, chance: Chance)
    requires !WritesFour(call)
    ensures SameTenantChildren(s, Deliver(s, call, chance).0)
  {
    ServeLeavesFour(s, call, chance.order);
    hide Serve, WritesFour;
  }

  lemma AppsLeaveFour(k: Key, p: AC.Pass)
    requires !p.pc.Finished?
    ensures !WritesFour(AC.NextCall(k, p))
  {
  }

  /** The objects of different tenants have different names. */
  lemma NamesApart(m: string, n: string)
    requires m != n
    ensures TenantNamespace(m) != TenantNamespace(n)
    ensures TC.PolicyKey(m) != TC.PolicyKey(n) && TC.QuotaKey(m) != TC.QuotaKey(n)
  {
    if TenantNamespace(m) == TenantNamespace(n) {
      NamespaceInjective(m, n);
    }
  }

  /** Which of the four a tenant's call is about. */
  lemma TenantCallsOwnFour(n: string, p: TC.Pass)
    requires !p.pc.Finished?
    ensures var call := TC.NextCall(n, p);
            && (call.GetNamespace? || call.CreateNamespace? || call.UpdateNamespace? || call.DeleteNamespace? ==>
                  call.name == TenantNamespace(n))
            && (call.GetCapsule? || call.CreateCapsule? || call.UpdateCapsule? || call.DeleteCapsule? ==> call.name == n)
            && (call.GetPolicy? || call.CreatePolicy? || call.UpdatePolicy? || call.DeletePolicy? ==> call.key == TC.PolicyKey(n))
            && (call.GetQuota? || call.CreateQuota? || call.UpdateQuota? ==> call.key == TC.QuotaKey(n))
  {
  }

  lemma FourServed(s: Store, call: Call, order: seq<string>)
    requires WritesFour(call)
    ensures Serve(s, call, order) == ServeTenantChild(s, call)
  {
    hide ServeTenantChild;
  }

  lemma CallKeepsOthers(s: Store, m: string, p: TC.Pass, chance: Chance, n: string)
    requires !p.pc.Finished? && m != n
    ensures SameFour(s, Deliver(s, TC.NextCall(m, p), chance).0, n)
  {
    var call := TC.NextCall(m, p);
    NamesApart(m, n);
    TenantCallsOwnFour(m, p);
    hide TC.NextCall, TC.PolicyKey, TC.QuotaKey, TenantNamespace;
    if WritesFour(call) {
      FourServed(s, call, chance.order);
      ChildKeepsOthers(s, call, n);
      hide Serve, ServeTenantChild, WritesFour;
    } else {
      OthersLeaveFour(s, call, chance);
      hide Deliver;
    }
  }

  /** A write to other names leaves these four. */
  lemma ChildKeepsOthers(s: Store, call: Call, n: string)
    requires call.CreateNamespace? || call.UpdateNamespace? || call.DeleteNamespace? ==> call.name != TenantNamespace(n)
    requires call.CreateCapsule? || call.UpdateCapsule? || call.DeleteCapsule? ==> call.name != n
    requires call.CreatePolicy? || call.UpdatePolicy? || call.DeletePolicy? ==> call.key != TC.PolicyKey(n)
    requires call.CreateQuota? || call.UpdateQuota? ==> call.key != TC.QuotaKey(n)
    ensures SameFour(s, ServeTenantChild(s, call).0, n)
  {
    hide TC.PolicyKey, TC.QuotaKey, TenantNamespace;
  }

  // ----- every step keeps what the stages have done -----------------------------------------------------------------

  ghost predicate Staged(s: State, n: string) {
    n in s.tenantPasses ==> StagesDone(s.store, n, s.tenantPasses[n])
  }

  /** Whatever of the four was as some spec says still is. */
  ghost predicate LeavesFour(a: Store, b: Store, n: string) {
    && (NamespaceDone(a, n) ==> NamespaceDone(b, n))
    && (forall spec | CapsuleDone(a, n, spec) :: CapsuleDone(b, n, spec))
    && (forall spec | PolicyDone(a, n, spec) :: PolicyDone(b, n, spec))
    && (forall spec | QuotaDone(a, n, spec) :: QuotaDone(b, n, spec))
  }

  lemma SameFourLeaves(a: Store, b: Store, n: string)
    requires SameFour(a, b, n)
    ensures LeavesFour(a, b, n)
  {
    hide WellLabelled, TC.CapsuleFor, TC.PolicyFor, TC.QuotaFor, TC.Isolated, TC.PolicyKey, TC.QuotaKey;
  }

  lemma LeavesFourKeeps(a: Store, b: Store, n: string, p: TC.Pass)
    requires LeavesFour(a, b, n) && StagesDone(a, n, p)
    ensures StagesDone(b, n, p)
  {
    hide NamespaceDone, CapsuleDone, PolicyDone, QuotaDone, WellLabelled;
  }

  /** What others do leaves the four alone, and it is the outsiders' choice whether they do. */
  lemma TurnLeavesFour(s: State, l: Label, n: string)
    requires l.AppTurn? || (l.TenantTurn? && l.name != n)
    ensures SameFour(s.store, Step(s, l).store, n)
    ensures n in Step(s, l).tenantPasses ==> n in s.tenantPasses && Step(s, l).tenantPasses[n] == s.tenantPasses[n]
  {
    hide Deliver, AC.NextCall, AC.Resume, TC.NextCall, TC.Resume;
    match l {
      case AppTurn(k, chance) =>
        if !AppIdle(s, k) {
          AppsLeaveFour(k, s.appPasses[k]);
          OthersLeaveFour(s.store, AC.NextCall(k, s.appPasses[k]), chance);
        }
      case TenantTurn(m, chance) =>
        if !Idle(s, m) {
          CallKeepsOthers(s.store, m, s.tenantPasses[m], chance, n);
        }
    }
  }

  lemma UserLeavesFour(s: State, l: Label, n: string)
    requires !l.AppTurn? && !l.TenantTurn? && !l.WriteTenantChildren?
    ensures SameFour(s.store, Step(s, l).store, n)
    ensures n in Step(s, l).tenantPasses ==> n in s.tenantPasses && Step(s, l).tenantPasses[n] == s.tenantPasses[n]
  {
    hide AppStep, TenantStep, TenantNamespace, TC.PolicyKey, TC.QuotaKey;
  }

  lemma OtherStepLeavesFour(s: State, l: Label, n: string)
    requires (l.TenantTurn? ==> l.name != n) && !l.WriteTenantChildren?
    ensures SameFour(s.store, Step(s, l).store, n)
    ensures n in Step(s, l).tenantPasses ==> n in s.tenantPasses && Step(s, l).tenantPasses[n] == s.tenantPasses[n]
  {
    hide Step, SameFour;
    if l.AppTurn? || l.TenantTurn? {
      TurnLeavesFour(s, l, n);
    } else {
      UserLeavesFour(s, l, n);
    }
  }

  lemma OtherStepStaged(s: State, l: Label, n: string)
    requires Staged(s, n) && (l.TenantTurn? ==> l.name != n)
    requires l.WriteTenantChildren? ==> LeavesFour(s.store, Step(s, l).store, n)
    ensures Staged(Step(s, l), n)
  {
    var t := Step(s, l);
    if !l.WriteTenantChildren? {
      OtherStepLeavesFour(s, l, n);
      SameFourLeaves(s.store, t.store, n);
    }
    assert n in t.tenantPasses ==> n in s.tenantPasses && t.tenantPasses[n] == s.tenantPasses[n];
    hide Step, StagesDone, LeavesFour, SameFour;
    if n in t.tenantPasses {
      LeavesFourKeeps(s.store, t.store, n, s.tenantPasses[n]);
    }
  }

  /** The answer Ok to a write means that it is stored. */
  lemma WriteStored(s: Store, call: Call, chance: Chance)
    requires WritesFour(call) && Deliver(s, call, chance).1.Ok?
    ensures Deliver(s, call, chance).0 == ServeTenantChild(s, call).0 && ServeTenantChild(s, call).1.Ok?
  {
    FourServed(s, call, chance.order);
    hide Serve, ServeTenantChild, WritesFour;
  }

  lemma NamespaceStored(s: Store, call: Call)
    requires (call.CreateNamespace? || call.UpdateNamespace?) && ServeTenantChild(s, call).1.Ok?
    ensures ServeTenantChild(s, call).0 == s.(clock := s.clock + 1, namespaces := s.namespaces[call.name := call.namespace.(rv := s.clock)])
  {
  }

  lemma CapsuleStored(s: Store, call: Call)
    requires (call.CreateCapsule? || call.UpdateCapsule?) && ServeTenantChild(s, call).1.Ok?
    ensures ServeTenantChild(s, call).0 == s.(clock := s.clock + 1, capsules := s.capsules[call.name := call.capsule.(rv := s.clock)])
  {
  }

  lemma PolicyStored(s: Store, call: Call)
    requires (call.CreatePolicy? || call.UpdatePolicy?) && ServeTenantChild(s, call).1.Ok?
    ensures ServeTenantChild(s, call).0 == s.(clock := s.clock + 1, policies := s.policies[call.key := call.policy.(rv := s.clock)])
  {
  }

  lemma QuotaStored(s: Store, call: Call)
    requires (call.CreateQuota? || call.UpdateQuota?) && ServeTenantChild(s, call).1.Ok?
    ensures ServeTenantChild(s, call).0 == s.(clock := s.clock + 1, quotas := s.quotas[call.key := call.quota.(rv := s.clock)])
  {
  }

  predicate Before(pc: TC.Pc) {
    !PastNamespace(pc) && !pc.NamespaceUpdate?
  }

  predicate InNamespace(pc: TC.Pc) {
    pc.NamespaceGet? || pc.NamespaceCreate? || pc.NamespaceUpdate?
  }

  predicate InCapsule(pc: TC.Pc) {
    pc.CapsuleGet? || pc.CapsuleCreate? || pc.CapsuleUpdate?
  }

  predicate InPolicy(pc: TC.Pc) {
    pc.PolicyGet? || pc.PolicyCreate? || pc.PolicyUpdate?
  }

  predicate InQuota(pc: TC.Pc) {
    pc.QuotaGet? || pc.QuotaCreate? || pc.QuotaUpdate?
  }

  /** Outside the four stages a pass does not step into their middle. */
  lemma OutsideStages(n: string, p: TC.Pass, r: Response, quantities: set<string>)
    requires !p.pc.Finished? && !InNamespace(p.pc) && !InCapsule(p.pc) && !InPolicy(p.pc) && !InQuota(p.pc)
    ensures var q := TC.Resume(n, p, r, quantities);
            if p.pc.CountApps? then q.pc.ActiveWrite? && q.tenant.spec == p.tenant.spec else Before(q.pc)
    ensures PastNamespace(p.pc) ==> !WritesFour(TC.NextCall(n, p))
  {
    hide TC.LimitsOf;
  }

  lemma OutsideStep(s: Store, n: string, p: TC.Pass, chance: Chance, quantities: set<string>)
    requires !p.pc.Finished? && !InNamespace(p.pc) && !InCapsule(p.pc) && !InPolicy(p.pc) && !InQuota(p.pc)
    requires StagesDone(s, n, p)
    ensures var (t, r) := Deliver(s, TC.NextCall(n, p), chance); StagesDone(t, n, TC.Resume(n, p, r, quantities))
  {
    var (t, r) := Deliver(s, TC.NextCall(n, p), chance);
    OutsideStages(n, p, r, quantities);
    hide Deliver, TC.NextCall, TC.Resume, WritesFour;
    if p.pc.CountApps? {
      OthersLeaveFour(s, TC.NextCall(n, p), chance);
      SameFourKeeps(s, t, n, p);
    }
  }

  /** What the namespace calls write, and where their answers lead. */
  lemma NamespaceCalled(s: Store, n: string, p: TC.Pass, chance: Chance, quantities: set<string>)
    requires InNamespace(p.pc) && (p.pc.NamespaceUpdate? ==> WellLabelled(p.pc.namespace.labels, n))
    ensures var (t, r) := Deliver(s, TC.NextCall(n, p), chance);
            var q := TC.Resume(n, p, r, quantities);
            && !PastCapsule(q.pc) && (PastNamespace(q.pc) ==> NamespaceDone(t, n))
            && (q.pc.NamespaceUpdate? ==> WellLabelled(q.pc.namespace.labels, n))
  {
    hide TC.MergedLabels, WellLabelled;
    var call := TC.NextCall(n, p);
    var (t, r) := Deliver(s, call, chance);
    if p.pc.NamespaceGet? {
      NamespaceRead(s, n, chance);
      hide Deliver;
      if r.GotNamespace? {
        MergedLabelsMeaning(r.namespace.labels, n);
        MergedAreWell(r.namespace.labels, n);
      }
    } else {
      if r.Ok? {
        WriteStored(s, call, chance);
        NamespaceStored(s, call);
        NewLabelsAreWell(n);
      }
      hide Deliver, ServeTenantChild;
    }
  }

  lemma MergedAreWell(labels: Labels, n: string)
    ensures WellLabelled(TC.MergedLabels(labels, n), n)
  {
    MergedLabelsMeaning(labels, n);
  }

  lemma NewLabelsAreWell(n: string)
    ensures WellLabelled(TC.NamespaceLabels(n), n)
  {
    assert LABEL_MANAGED_BY != LABEL_TENANT && LABEL_TENANT != LABEL_CAPSULE && LABEL_MANAGED_BY != LABEL_CAPSULE by {
      assert LABEL_MANAGED_BY[0] == 'a' && LABEL_TENANT[0] == 'k' && LABEL_CAPSULE[0] == 'c';
    }
  }

  lemma NamespaceStep(s: Store, n: string, p: TC.Pass, chance: Chance, quantities: set<string>)
    requires InNamespace(p.pc) && StagesDone(s, n, p)
    ensures var (t, r) := Deliver(s, TC.NextCall(n, p), chance); StagesDone(t, n, TC.Resume(n, p, r, quantities))
  {
    NamespaceCalled(s, n, p, chance, quantities);
    hide Deliver, TC.NextCall, TC.Resume, WellLabelled, NamespaceDone, CapsuleDone, PolicyDone, QuotaDone;
  }

  lemma NamespaceRead(s: Store, n: string, chance: Chance)
    ensures var (t, r) := Deliver(s, GetNamespace(TenantNamespace(n)), chance);
            SameTenantChildren(s, t)
            && (r.GotNamespace? ==> TenantNamespace(n) in s.namespaces && r.namespace == s.namespaces[TenantNamespace(n)])
  {
  }

  lemma CapsuleDelivered(s: Store, n: string, p: TC.Pass, chance: Chance)
    requires InCapsule(p.pc)
    ensures var (t, r) := Deliver(s, TC.NextCall(n, p), chance);
            && (p.pc.CapsuleGet? ==> SameTenantChildren(s, t))
            && (!p.pc.CapsuleGet? && r.Ok? ==> CapsuleDone(t, n, p.tenant.spec) && t.namespaces == s.namespaces)
  {
    hide TC.CapsuleFor, TC.ChildLabels, TC.LimitsOf, ToInt32, Deliver, ServeTenantChild;
    var call := TC.NextCall(n, p);
    if p.pc.CapsuleGet? {
      OthersLeaveFour(s, call, chance);
    } else if Deliver(s, call, chance).1.Ok? {
      WriteStored(s, call, chance);
      CapsuleStored(s, call);
      TC.CapsuleForExactly(Deliver(s, call, chance).0.capsules[n], n, p.tenant.spec);
    }
  }

  lemma CapsuleLeads(n: string, p: TC.Pass, r: Response, quantities: set<string>)
    requires InCapsule(p.pc)
    ensures var q := TC.Resume(n, p, r, quantities);
            && (PastCapsule(q.pc) ==> !p.pc.CapsuleGet? && r.Ok?)
            && (!Before(q.pc) ==> q.tenant == p.tenant && (p.pc.CapsuleGet? || r.Ok?))
            && (PastPolicy(q.pc) ==> !TC.Isolated(p.tenant.spec)) && !PastQuota(q.pc) && (!Before(q.pc) ==> PastNamespace(q.pc))
  {
    hide TC.LimitsOf, TC.Isolated;
  }

  /** What the Capsule calls write, and where their answers lead. */
  lemma CapsuleCalled(s: Store, n: string, p: TC.Pass, chance: Chance, quantities: set<string>)
    requires InCapsule(p.pc)
    ensures var (t, r) := Deliver(s, TC.NextCall(n, p), chance);
            var q := TC.Resume(n, p, r, quantities);
            && (PastCapsule(q.pc) ==> CapsuleDone(t, n, p.tenant.spec))
            && (PastPolicy(q.pc) ==> !TC.Isolated(p.tenant.spec)) && !PastQuota(q.pc)
            && (!Before(q.pc) ==> q.tenant == p.tenant && PastNamespace(q.pc) && t.namespaces == s.namespaces)
  {
    hide Deliver, TC.NextCall, TC.Resume, CapsuleDone, TC.Isolated;
    CapsuleDelivered(s, n, p, chance);
    CapsuleLeads(n, p, Deliver(s, TC.NextCall(n, p), chance).1, quantities);
  }

  lemma NoIsolationDone(s: Store, n: string, spec: TenantSpec)
    requires !TC.Isolated(spec)
    ensures PolicyDone(s, n, spec)
  {
  }

  lemma CapsuleStep(s: Store, n: string, p: TC.Pass, chance: Chance, quantities: set<string>)
    requires InCapsule(p.pc) && StagesDone(s, n, p)
    ensures var (t, r) := Deliver(s, TC.NextCall(n, p), chance); StagesDone(t, n, TC.Resume(n, p, r, quantities))
  {
    CapsuleCalled(s, n, p, chance, quantities);
    hide Deliver, TC.NextCall, TC.Resume, WellLabelled, CapsuleDone, PolicyDone, QuotaDone, TC.Isolated;
    var t := Deliver(s, TC.NextCall(n, p), chance).0;
    if !TC.Isolated(p.tenant.spec) {
      NoIsolationDone(t, n, p.tenant.spec);
    }
  }

  lemma PolicyDelivered(s: Store, n: string, p: TC.Pass, chance: Chance)
    requires InPolicy(p.pc)
    ensures var (t, r) := Deliver(s, TC.NextCall(n, p), chance);
            && (p.pc.PolicyGet? ==> SameTenantChildren(s, t))
            && (!p.pc.PolicyGet? && r.Ok? ==> PolicyDone(t, n, p.tenant.spec) && t.namespaces == s.namespaces && t.capsules == s.capsules)
  {
    hide TC.PolicyFor, TC.ChildLabels, TC.LimitsOf, ToInt32, Deliver, ServeTenantChild;
    var call := TC.NextCall(n, p);
    if p.pc.PolicyGet? {
      OthersLeaveFour(s, call, chance);
    } else if Deliver(s, call, chance).1.Ok? {
      WriteStored(s, call, chance);
      PolicyStored(s, call);
      TC.PolicyForExactly(Deliver(s, call, chance).0.policies[TC.PolicyKey(n)], n);
    }
  }

  lemma PolicyLeads(n: string, p: TC.Pass, r: Response, quantities: set<string>)
    requires InPolicy(p.pc)
    ensures var q := TC.Resume(n, p, r, quantities);
            && (PastPolicy(q.pc) ==> !p.pc.PolicyGet? && r.Ok?)
            && (!Before(q.pc) ==> q.tenant == p.tenant && (p.pc.PolicyGet? || r.Ok?))
            && !PastQuota(q.pc) && (!Before(q.pc) ==> PastCapsule(q.pc))
  {
    hide TC.LimitsOf, TC.Isolated;
  }

  /** What the policy calls write, and where their answers lead. */
  lemma PolicyCalled(s: Store, n: string, p: TC.Pass, chance: Chance, quantities: set<string>)
    requires InPolicy(p.pc)
    ensures var (t, r) := Deliver(s, TC.NextCall(n, p), chance);
            var q := TC.Resume(n, p, r, quantities);
            && (PastPolicy(q.pc) ==> PolicyDone(t, n, p.tenant.spec)) && !PastQuota(q.pc)
            && (!Before(q.pc) ==>
                  q.tenant == p.tenant && PastCapsule(q.pc) && t.namespaces == s.namespaces && t.capsules == s.capsules)
  {
    hide Deliver, TC.NextCall, TC.Resume, PolicyDone;
    PolicyDelivered(s, n, p, chance);
    PolicyLeads(n, p, Deliver(s, TC.NextCall(n, p), chance).1, quantities);
  }

  lemma PolicyStep(s: Store, n: string, p: TC.Pass, chance: Chance, quantities: set<string>)
    requires InPolicy(p.pc) && StagesDone(s, n, p)
    ensures var (t, r) := Deliver(s, TC.NextCall(n, p), chance); StagesDone(t, n, TC.Resume(n, p, r, quantities))
  {
    PolicyCalled(s, n, p, chance, quantities);
    hide Deliver, TC.NextCall, TC.Resume, WellLabelled, PolicyDone, QuotaDone, TC.CapsuleFor;
  }

  lemma QuotaDelivered(s: Store, n: string, p: TC.Pass, chance: Chance)
    requires InQuota(p.pc)
    ensures var (t, r) := Deliver(s, TC.NextCall(n, p), chance);
            && (p.pc.QuotaGet? ==> SameTenantChildren(s, t))
            && (!p.pc.QuotaGet? && r.Ok? ==> QuotaDone(t, n, p.tenant.spec) && t.namespaces == s.namespaces && t.capsules == s.capsules && t.policies == s.policies)
  {
    hide TC.QuotaFor, TC.ChildLabels, TC.LimitsOf, ToInt32, Deliver, ServeTenantChild;
    var call := TC.NextCall(n, p);
    if p.pc.QuotaGet? {
      OthersLeaveFour(s, call, chance);
    } else if Deliver(s, call, chance).1.Ok? {
      WriteStored(s, call, chance);
      QuotaStored(s, call);
      TC.QuotaForExactly(Deliver(s, call, chance).0.quotas[TC.QuotaKey(n)], n, p.tenant.spec);
    }
  }

  lemma QuotaLeads(n: string, p: TC.Pass, r: Response, quantities: set<string>)
    requires InQuota(p.pc)
    ensures var q := TC.Resume(n, p, r, quantities);
            && (PastQuota(q.pc) ==> !p.pc.QuotaGet? && r.Ok?)
            && (!Before(q.pc) ==> q.tenant == p.tenant && (p.pc.QuotaGet? || r.Ok?))
            && (!Before(q.pc) ==> PastPolicy(q.pc))
  {
    hide TC.LimitsOf, TC.Isolated;
  }

  /** What the quota calls write, and where their answers lead. */
  lemma QuotaCalled(s: Store, n: string, p: TC.Pass, chance: Chance, quantities: set<string>)
    requires InQuota(p.pc)
    ensures var (t, r) := Deliver(s, TC.NextCall(n, p), chance);
            var q := TC.Resume(n, p, r, quantities);
            && (PastQuota(q.pc) ==> QuotaDone(t, n, p.tenant.spec))
            && (!Before(q.pc) ==>
                  && q.tenant == p.tenant && PastPolicy(q.pc)
                  && t.namespaces == s.namespaces && t.capsules == s.capsules && t.policies == s.policies)
  {
    hide Deliver, TC.NextCall, TC.Resume, QuotaDone;
    QuotaDelivered(s, n, p, chance);
    QuotaLeads(n, p, Deliver(s, TC.NextCall(n, p), chance).1, quantities);
  }

  lemma QuotaStep(s: Store, n: string, p: TC.Pass, chance: Chance, quantities: set<string>)
    requires InQuota(p.pc) && StagesDone(s, n, p)
    ensures var (t, r) := Deliver(s, TC.NextCall(n, p), chance); StagesDone(t, n, TC.Resume(n, p, r, quantities))
  {
    QuotaCalled(s, n, p, chance, quantities);
    hide Deliver, TC.NextCall, TC.Resume, WellLabelled, QuotaDone, TC.CapsuleFor, TC.PolicyFor, TC.Isolated;
  }

  // ----- what one call of the pass itself does --------------------------------------------------------------------

  /** The stages that one answer completes, whatever the cluster was like. */
  ghost predicate Completes(t: Store, n: string, p: TC.Pass, q: TC.Pass) {
    var spec := p.tenant.spec;
    && (PastNamespace(q.pc) ==> q.tenant.spec == spec && (PastNamespace(p.pc) || (InNamespace(p.pc) && NamespaceDone(t, n))))
    && (PastCapsule(q.pc) ==> PastCapsule(p.pc) || (PastNamespace(p.pc) && CapsuleDone(t, n, spec)))
    && (PastPolicy(q.pc) ==> PastPolicy(p.pc) || ((TC.Isolated(spec) ==> PastCapsule(p.pc)) && PolicyDone(t, n, spec)))
    && (PastQuota(q.pc) ==> PastQuota(p.pc) || (PastPolicy(p.pc) && QuotaDone(t, n, spec)))
    && (q.pc.NamespaceUpdate? ==> WellLabelled(q.pc.namespace.labels, n))
  }

  lemma NamespaceCompletes(s: Store, n: string, p: TC.Pass, chance: Chance, quantities: set<string>)
    requires InNamespace(p.pc) && (p.pc.NamespaceUpdate? ==> WellLabelled(p.pc.namespace.labels, n))
    ensures var (t, r) := Deliver(s, TC.NextCall(n, p), chance); Completes(t, n, p, TC.Resume(n, p, r, quantities))
  {
    assert StagesDone(s, n, p);
    NamespaceStep(s, n, p, chance, quantities);
    NamespaceLeads(n, p, Deliver(s, TC.NextCall(n, p), chance).1, quantities);
    hide Deliver, TC.NextCall, TC.Resume, WellLabelled, NamespaceDone, CapsuleDone, PolicyDone, QuotaDone;
  }

  lemma NamespaceLeads(n: string, p: TC.Pass, r: Response, quantities: set<string>)
    requires InNamespace(p.pc)
    ensures var q := TC.Resume(n, p, r, quantities); !PastCapsule(q.pc) && q.tenant.spec == p.tenant.spec
  {
    hide TC.MergedLabels;
  }

  lemma CapsuleCompletes(s: Store, n: string, p: TC.Pass, chance: Chance, quantities: set<string>)
    requires InCapsule(p.pc)
    ensures var (t, r) := Deliver(s, TC.NextCall(n, p), chance); Completes(t, n, p, TC.Resume(n, p, r, quantities))
  {
    hide Deliver, TC.NextCall, TC.Resume, WellLabelled, NamespaceDone, CapsuleDone, PolicyDone, QuotaDone, TC.Isolated;
    CapsuleCalled(s, n, p, chance, quantities);
    if !TC.Isolated(p.tenant.spec) {
      NoIsolationDone(Deliver(s, TC.NextCall(n, p), chance).0, n, p.tenant.spec);
    }
  }

  lemma PolicyCompletes(s: Store, n: string, p: TC.Pass, chance: Chance, quantities: set<string>)
    requires InPolicy(p.pc)
    ensures var (t, r) := Deliver(s, TC.NextCall(n, p), chance); Completes(t, n, p, TC.Resume(n, p, r, quantities))
  {
    hide Deliver, TC.NextCall, TC.Resume, WellLabelled, NamespaceDone, CapsuleDone, PolicyDone, QuotaDone, TC.Isolated;
    PolicyCalled(s, n, p, chance, quantities);
  }

  lemma QuotaCompletes(s: Store, n: string, p: TC.Pass, chance: Chance, quantities: set<string>)
    requires InQuota(p.pc)
    ensures var (t, r) := Deliver(s, TC.NextCall(n, p), chance); Completes(t, n, p, TC.Resume(n, p, r, quantities))
  {
    hide Deliver, TC.NextCall, TC.Resume, WellLabelled, NamespaceDone, CapsuleDone, PolicyDone, QuotaDone, TC.Isolated;
    QuotaCalled(s, n, p, chance, quantities);
  }

  lemma CallCompletes(s: Store, n: string, p: TC.Pass, chance: Chance, quantities: set<string>)
    requires !p.pc.Finished? && (p.pc.NamespaceUpdate? ==> WellLabelled(p.pc.namespace.labels, n))
    ensures var (t, r) := Deliver(s, TC.NextCall(n, p), chance); Completes(t, n, p, TC.Resume(n, p, r, quantities))
  {
    if InNamespace(p.pc) {
      NamespaceCompletes(s, n, p, chance, quantities);
    } else if InCapsule(p.pc) {
      CapsuleCompletes(s, n, p, chance, quantities);
    } else if InPolicy(p.pc) {
      PolicyCompletes(s, n, p, chance, quantities);
    } else if InQuota(p.pc) {
      QuotaCompletes(s, n, p, chance, quantities);
    } else {
      OutsideStages(n, p, Deliver(s, TC.NextCall(n, p), chance).1, quantities);
      hide Deliver, TC.NextCall, TC.Resume, NamespaceDone, CapsuleDone, PolicyDone, QuotaDone, WellLabelled;
    }
    hide Completes;
  }

  lemma OwnStepStaged(s: State, n: string, chance: Chance)
    requires Staged(s, n)
    ensures Staged(TenantStep(s, n, chance), n)
  {
    if !Idle(s, n) {
      var p := s.tenantPasses[n];
      if InNamespace(p.pc) {
        NamespaceStep(s.store, n, p, chance, s.quantities);
      } else if InCapsule(p.pc) {
        CapsuleStep(s.store, n, p, chance, s.quantities);
      } else if InPolicy(p.pc) {
        PolicyStep(s.store, n, p, chance, s.quantities);
      } else if InQuota(p.pc) {
        QuotaStep(s.store, n, p, chance, s.quantities);
      } else {
        OutsideStep(s.store, n, p, chance, s.quantities);
      }
      hide Deliver, TC.NextCall, TC.Resume, StagesDone;
    } else {
      hide NamespaceDone, CapsuleDone, PolicyDone, QuotaDone;
    }
  }

  lemma StepStaged(s: State, l: Label, n: string)
    requires Staged(s, n) && (l.WriteTenantChildren? ==> LeavesFour(s.store, Step(s, l).store, n))
    ensures Staged(Step(s, l), n)
  {
    if l.TenantTurn? && l.name == n {
      hide TenantStep, Staged, LeavesFour;
      OwnStepStaged(s, n, l.chance);
    } else {
      hide Step, Staged, LeavesFour;
      OtherStepStaged(s, l, n);
    }
  }

  // ----- a copy that is current says what is stored -----------------------------------------------------------------

  /** The status writes of a pass other than the last one of the pipeline do not say Active. */
  ghost predicate PhaseFits(p: TC.Pass) {
    && (p.pc.MarkPending? ==> p.tenant.status.phase == TenantPending)
    && (p.pc.FailureWrite? ==> p.tenant.status.phase == TenantFailed)
    && (p.pc.MarkDeleting? ==> p.tenant.status.phase == Deleting)
  }

  ghost predicate CopyFits(s: Store, n: string, p: TC.Pass) {
    && p.tenant.rv < s.clock
    && (n in s.tenants && s.tenants[n].rv == p.tenant.rv ==> s.tenants[n].spec == p.tenant.spec)
  }

  ghost predicate Current(s: State, n: string) {
    && (n in s.store.tenants ==> s.store.tenants[n].rv < s.store.clock)
    && (n in s.tenantPasses && !s.tenantPasses[n].pc.Get? && !s.tenantPasses[n].pc.Finished? ==>
          CopyFits(s.store, n, s.tenantPasses[n]) && PhaseFits(s.tenantPasses[n]))
  }

  lemma ServeClock(s: Store, call: Call, order: seq<string>)
    ensures Serve(s, call, order).0.clock == s.clock + 1
  {
    ServeTouches(s, call, order);
    hide Serve;
  }

  lemma ClockGrows(s: Store, call: Call, chance: Chance)
    ensures Deliver(s, call, chance).0.clock >= s.clock
  {
    ServeClock(s, call, chance.order);
    hide Serve;
  }

  lemma TurnLeavesTenant(s: State, l: Label, n: string)
    requires l.AppTurn? || (l.TenantTurn? && l.name != n)
    ensures var t := Step(s, l);
            && t.store.clock >= s.store.clock
            && (n in t.tenantPasses ==> n in s.tenantPasses && t.tenantPasses[n] == s.tenantPasses[n])
            && (n in t.store.tenants ==>
                  Find(t.store.tenants, n) == Find(s.store.tenants, n)
                  || (t.store.tenants[n].rv == s.store.clock < t.store.clock
                      && t.store.tenants[n].status == if n in s.store.tenants then s.store.tenants[n].status else NewTenantStatus))
  {
    hide Deliver, AC.NextCall, AC.Resume, TC.NextCall, TC.Resume;
    match l {
      case AppTurn(k, chance) =>
        if !AppIdle(s, k) {
          ClockGrows(s.store, AC.NextCall(k, s.appPasses[k]), chance);
          DL.AppCallKeepsTenants(s.store, k, s.appPasses[k], chance);
        }
      case TenantTurn(m, chance) =>
        if !Idle(s, m) {
          ClockGrows(s.store, TC.NextCall(m, s.tenantPasses[m]), chance);
          DL.TenantCallKeepsOthers(s.store, m, s.tenantPasses[m], chance, n);
          var after := Deliver(s.store, TC.NextCall(m, s.tenantPasses[m]), chance).0;
          assert Find(after.tenants, n) == Find(s.store.tenants, n);
        }
    }
  }

  lemma UserLeavesTenant(s: State, l: Label, n: string)
    requires !l.AppTurn? && !l.TenantTurn?
    ensures var t := Step(s, l);
            && t.store.clock >= s.store.clock
            && (n in t.tenantPasses ==> n in s.tenantPasses && t.tenantPasses[n] == s.tenantPasses[n])
            && (n in t.store.tenants ==>
                  Find(t.store.tenants, n) == Find(s.store.tenants, n)
                  || (t.store.tenants[n].rv == s.store.clock < t.store.clock
                      && t.store.tenants[n].status == if n in s.store.tenants then s.store.tenants[n].status else NewTenantStatus))
  {
    hide AppStep, TenantStep;
  }

  lemma OtherStepTenant(s: State, l: Label, n: string)
    requires l.TenantTurn? ==> l.name != n
    ensures var t := Step(s, l);
            && t.store.clock >= s.store.clock
            && (n in t.tenantPasses ==> n in s.tenantPasses && t.tenantPasses[n] == s.tenantPasses[n])
            && (n in t.store.tenants ==>
                  Find(t.store.tenants, n) == Find(s.store.tenants, n)
                  || (t.store.tenants[n].rv == s.store.clock < t.store.clock
                      && t.store.tenants[n].status == if n in s.store.tenants then s.store.tenants[n].status else NewTenantStatus))
  {
    hide Step;
    if l.AppTurn? || l.TenantTurn? {
      TurnLeavesTenant(s, l, n);
    } else {
      UserLeavesTenant(s, l, n);
    }
  }

  lemma OtherStepCurrent(s: State, l: Label, n: string)
    requires Current(s, n) && (l.TenantTurn? ==> l.name != n)
    ensures Current(Step(s, l), n)
  {
    OtherStepTenant(s, l, n);
    hide Step, PhaseFits;
    var t := Step(s, l);
    if n in t.store.tenants && Find(t.store.tenants, n) == Find(s.store.tenants, n) {
      assert t.store.tenants[n] == s.store.tenants[n];
    }
  }

  predicate Refreshes(pc: TC.Pc) {
    pc.AddFinalizer? || pc.MarkPending? || pc.MarkDeleting?
  }

  /** Between its writes of the tenant a pass keeps the copy's version and spec. */
  lemma CopyKept(n: string, p: TC.Pass, r: Response, quantities: set<string>)
    requires !p.pc.Finished? && !p.pc.Get? && !Refreshes(p.pc)
    ensures var q := TC.Resume(n, p, r, quantities);
            q.tenant.rv == p.tenant.rv && q.tenant.spec == p.tenant.spec && PhaseFits(q) && !q.pc.Get?
  {
    hide TC.LimitsOf, TC.MergedLabels;
  }

  lemma CopyRefreshed(n: string, p: TC.Pass, r: Response, quantities: set<string>)
    requires p.pc.Get? || Refreshes(p.pc)
    ensures var q := TC.Resume(n, p, r, quantities);
            q.pc.Finished? || (r.GotTenant? && q.tenant.rv == r.tenant.rv && q.tenant.spec == r.tenant.spec && PhaseFits(q) && !q.pc.Get?)
  {
  }

  /** Calls that a pass makes between its writes of the tenant leave the tenant alone. */
  lemma KeepsTenants(s: Store, n: string, p: TC.Pass, chance: Chance)
    requires !p.pc.Finished? && !Refreshes(p.pc) && !p.pc.ActiveWrite? && !p.pc.FailureWrite? && !p.pc.DropFinalizer?
    ensures Deliver(s, TC.NextCall(n, p), chance).0.tenants == s.tenants
  {
    NoTenantWrite(n, p);
    DeliverTouches(s, TC.NextCall(n, p), chance);
    hide Deliver, TC.NextCall;
  }

  lemma NoTenantWrite(n: string, p: TC.Pass)
    requires !p.pc.Finished? && !Refreshes(p.pc) && !p.pc.ActiveWrite? && !p.pc.FailureWrite? && !p.pc.DropFinalizer?
    ensures !WritesTenant(TC.NextCall(n, p))
  {
  }

  lemma ReadCurrent(s: Store, n: string, chance: Chance)
    ensures var (t, r) := Deliver(s, GetTenant(n), chance);
            t.tenants == s.tenants && (r.GotTenant? ==> n in s.tenants && r.tenant == s.tenants[n])
  {
  }

  /** A write of the tenant is answered with what is stored now. */
  lemma WriteCurrent(s: Store, n: string, call: Call, chance: Chance)
    requires WritesTenant(call) && call.name == n
    ensures var (t, r) := Deliver(s, call, chance);
            && (r.GotTenant? && n in t.tenants ==> t.tenants[n] == r.tenant)
            && (r.GotTenant? ==> r.tenant.rv == s.clock < t.clock)
            && (n in t.tenants ==> n in s.tenants && (t.tenants == s.tenants || t.tenants[n].rv == s.clock < t.clock))
  {
    TenantServed(s, call, chance.order);
    hide Serve;
  }

  lemma OwnStepCurrent(s: State, n: string, chance: Chance)
    requires Current(s, n)
    ensures Current(TenantStep(s, n, chance), n)
  {
    if !Idle(s, n) {
      var p := s.tenantPasses[n];
      var call := TC.NextCall(n, p);
      var (after, r) := Deliver(s.store, call, chance);
      ClockGrows(s.store, call, chance);
      if p.pc.Get? {
        ReadCurrent(s.store, n, chance);
        assert call == GetTenant(n);
        CopyRefreshed(n, p, r, s.quantities);
      } else if Refreshes(p.pc) {
        assert WritesTenant(call) && call.name == n;
        WriteCurrent(s.store, n, call, chance);
        CopyRefreshed(n, p, r, s.quantities);
      } else {
        CopyKept(n, p, r, s.quantities);
        LastWrites(s.store, n, p, chance, s.quantities);
      }
      hide Deliver, TC.NextCall, TC.Resume, PhaseFits;
    }
  }

  /** The remaining writes of the tenant are the last calls of their passes. */
  lemma LastWrites(s: Store, n: string, p: TC.Pass, chance: Chance, quantities: set<string>)
    requires !p.pc.Finished? && !p.pc.Get? && !Refreshes(p.pc)
    ensures var (t, r) := Deliver(s, TC.NextCall(n, p), chance);
            || t.tenants == s.tenants
            || (TC.Resume(n, p, r, quantities).pc.Finished? && (n in t.tenants ==> t.tenants[n].rv < t.clock))
  {
    if p.pc.ActiveWrite? || p.pc.FailureWrite? || p.pc.DropFinalizer? {
      WriteCurrent(s, n, TC.NextCall(n, p), chance);
      hide Deliver;
    } else {
      KeepsTenants(s, n, p, chance);
      hide Deliver, TC.NextCall, TC.Resume;
    }
  }

  lemma StepCurrent(s: State, l: Label, n: string)
    requires Current(s, n)
    ensures Current(Step(s, l), n)
  {
    if l.TenantTurn? && l.name == n {
      hide TenantStep, Current;
      OwnStepCurrent(s, n, l.chance);
    } else {
      hide Step, Current;
      OtherStepCurrent(s, l, n);
    }
  }
}
