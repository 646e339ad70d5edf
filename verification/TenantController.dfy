/** One reconciliation pass of the Tenant controller as a machine that stops at every client call
    (operator/controller/tenant_controller.go with operator/reconciler/namespace.go, capsule.go, cilium.go
    and resourcequota.go). */
module TenantController {
  import opened Options
  import opened Kube
  import opened ApiServer

  datatype Pc =
    | Get | AddFinalizer | MarkPending
    | NamespaceGet | NamespaceCreate | NamespaceUpdate(namespace: Namespace)
    | CapsuleGet | CapsuleCreate | CapsuleUpdate(rv: nat)
    | PolicyGet | PolicyCreate | PolicyUpdate(rv: nat)
    | QuotaGet | QuotaCreate | QuotaUpdate(existing: Quota)
    | CountApps | ActiveWrite | FailureWrite
    | MarkDeleting | DrainList | DrainApp(app: string, left: seq<string>)
    | PolicyFind | PolicyRemove | CapsuleFind | CapsuleRemove | NamespaceFind | NamespaceRemove | DropFinalizer
    | Finished

  datatype Pass = Pass(pc: Pc, tenant: Tenant)

  const NewPass := Pass(Get, Tenant(0, false, {}, TenantSpec("", "", None, 0, None), NewTenantStatus))

  // ----- desired children -----------------------------------------------------------------------------------

  function SetLabel(labels: Labels, key: string, value: string): Labels {
    if LabelOf(labels, key) != value then labels[key := value] else labels
  }

  /** The three labels a tenant's namespace must carry, over whatever it carries already. */
  function MergedLabels(labels: Labels, name: string): Labels {
    SetLabel(SetLabel(SetLabel(labels, LABEL_MANAGED_BY, MANAGED_BY_VALUE), LABEL_TENANT, name), LABEL_CAPSULE, name)
  }

  function NamespaceLabels(name: string): Labels {
    map[LABEL_MANAGED_BY := MANAGED_BY_VALUE, LABEL_TENANT := name, LABEL_CAPSULE := name]
  }

  function ChildLabels(name: string): Labels {
    map[LABEL_MANAGED_BY := MANAGED_BY_VALUE, LABEL_TENANT := name]
  }

  /** The sum is an int32 in the source and wraps. */
  function DesiredCapsule(name: string, spec: TenantSpec): Capsule {
    Capsule(0, ChildLabels(name), spec.ownerEmail, ToInt32(spec.maxApps + 1))
  }

  const ISOLATION := "isolation"

  function PolicyKey(name: string): Key {
    Key(TenantNamespace(name), name + "-isolation")
  }

  function QuotaKey(name: string): Key {
    Key(TenantNamespace(name), name + "-quota")
  }

  function DesiredPolicy(name: string): Policy {
    Policy(0, ChildLabels(name), ISOLATION)
  }

  predicate Isolated(spec: TenantSpec) {
    spec.networkIsolation == None || spec.networkIsolation.value
  }

  datatype Amounts = Amounts(cpu: string, memory: string)

  /** An unknown plan has empty defaults. */
  function PlanDefaults(plan: string): Amounts {
    if plan == "free" then Amounts("1", "2Gi")
    else if plan == "starter" then Amounts("4", "8Gi")
    else if plan == "pro" then Amounts("16", "32Gi")
    else if plan == "enterprise" then Amounts("64", "128Gi")
    else Amounts("", "")
  }

  function LimitsOf(spec: TenantSpec): Amounts {
    var defaults := PlanDefaults(if spec.plan == "" then "free" else spec.plan);
    if spec.limits == None then defaults
    else
      Amounts(if spec.limits.value.maxCpu != "" then spec.limits.value.maxCpu else defaults.cpu,
              if spec.limits.value.maxMemory != "" then spec.limits.value.maxMemory else defaults.memory)
  }

  function DesiredQuota(name: string, spec: TenantSpec): Quota {
    var a := LimitsOf(spec);
    Quota(0, ChildLabels(name), Hard(a.cpu, a.cpu, a.memory, a.memory))
  }

  // ----- what the children must be, entry by entry ------------------------------------------------------------

  /** The labels name the operator and the tenant, and nothing else. */
  predicate OwnLabels(labels: Labels, name: string) {
    && labels.Keys == {LABEL_MANAGED_BY, LABEL_TENANT}
    && labels[LABEL_MANAGED_BY] == "kuberless" && labels[LABEL_TENANT] == name
  }

  lemma OwnLabelsExactly(labels: Labels, name: string)
    ensures labels == ChildLabels(name) <==> OwnLabels(labels, name)
  {
    assert LABEL_MANAGED_BY[0] == 'a' && LABEL_TENANT[0] == 'k';
  }

  /** The tenant's owner owns it, and its quota of namespaces is one more than its apps, as an int32. */
  predicate CapsuleFor(c: Capsule, name: string, spec: TenantSpec) {
    && OwnLabels(c.labels, name) && c.owner == spec.ownerEmail
    && IsInt32(c.quota) && (c.quota - spec.maxApps - 1) % 0x1_0000_0000 == 0
  }

  lemma CapsuleForExactly(c: Capsule, name: string, spec: TenantSpec)
    ensures c == DesiredCapsule(name, spec).(rv := c.rv) <==> CapsuleFor(c, name, spec)
  {
    OwnLabelsExactly(c.labels, name);
    hide OwnLabels, ChildLabels;
  }

  predicate PolicyFor(p: Policy, name: string) {
    OwnLabels(p.labels, name) && p.body == "isolation"
  }

  lemma PolicyForExactly(p: Policy, name: string)
    ensures p == DesiredPolicy(name).(rv := p.rv) <==> PolicyFor(p, name)
  {
    OwnLabelsExactly(p.labels, name);
    hide OwnLabels, ChildLabels;
  }

  /** The amount is the limit where one is set, and otherwise what the plan gives; no plan counts as the free one, and
      an unknown one gives nothing. */
  predicate Grants(amount: string, limit: string, plan: string, free: string, starter: string, pro: string, enterprise: string) {
    if limit != "" then amount == limit
    else if plan == "" || plan == "free" then amount == free
    else if plan == "starter" then amount == starter
    else if plan == "pro" then amount == pro
    else if plan == "enterprise" then amount == enterprise
    else amount == ""
  }

  predicate GrantsCpu(amount: string, spec: TenantSpec) {
    Grants(amount, if spec.limits.Some? then spec.limits.value.maxCpu else "", spec.plan, "1", "4", "16", "64")
  }

  predicate GrantsMemory(amount: string, spec: TenantSpec) {
    Grants(amount, if spec.limits.Some? then spec.limits.value.maxMemory else "", spec.plan, "2Gi", "8Gi", "32Gi", "128Gi")
  }

  lemma GrantsExactly(a: Amounts, spec: TenantSpec)
    ensures a == LimitsOf(spec) <==> GrantsCpu(a.cpu, spec) && GrantsMemory(a.memory, spec)
  {
  }

  /** What is requested and what is used at most are bounded by the same amounts. */
  predicate QuotaFor(q: Quota, name: string, spec: TenantSpec) {
    && OwnLabels(q.labels, name)
    && GrantsCpu(q.hard.requestsCpu, spec) && GrantsCpu(q.hard.limitsCpu, spec)
    && GrantsMemory(q.hard.requestsMemory, spec) && GrantsMemory(q.hard.limitsMemory, spec)
  }

  lemma QuotaForExactly(q: Quota, name: string, spec: TenantSpec)
    ensures q == DesiredQuota(name, spec).(rv := q.rv) <==> QuotaFor(q, name, spec)
  {
    OwnLabelsExactly(q.labels, name);
    GrantsExactly(LimitsOf(spec), spec);
    GrantsExactly(Amounts(q.hard.requestsCpu, q.hard.requestsMemory), spec);
    GrantsExactly(Amounts(q.hard.limitsCpu, q.hard.limitsMemory), spec);
    hide OwnLabels, ChildLabels, LimitsOf, GrantsCpu, GrantsMemory;
  }

  // ----- the pass -----------------------------------------------------------------------------------------

  function NextCall(n: string, p: Pass): Call
    requires !p.pc.Finished?
  {
    var ns := TenantNamespace(n);
    match p.pc
    case Get => GetTenant(n)
    case AddFinalizer => UpdateTenant(n, p.tenant)
    case MarkPending => UpdateTenantStatus(n, p.tenant)
    case NamespaceGet => GetNamespace(ns)
    case NamespaceCreate => CreateNamespace(ns, Namespace(0, NamespaceLabels(n)))
    case NamespaceUpdate(x) => UpdateNamespace(ns, x)
    case CapsuleGet => GetCapsule(n)
    case CapsuleCreate => CreateCapsule(n, DesiredCapsule(n, p.tenant.spec))
    case CapsuleUpdate(rv) => UpdateCapsule(n, DesiredCapsule(n, p.tenant.spec).(rv := rv))
    case PolicyGet => GetPolicy(PolicyKey(n))
    case PolicyCreate => CreatePolicy(PolicyKey(n), DesiredPolicy(n))
    case PolicyUpdate(rv) => UpdatePolicy(PolicyKey(n), DesiredPolicy(n).(rv := rv))
    case QuotaGet => GetQuota(QuotaKey(n))
    case QuotaCreate => CreateQuota(QuotaKey(n), DesiredQuota(n, p.tenant.spec))
    case QuotaUpdate(existing) => UpdateQuota(QuotaKey(n), DesiredQuota(n, p.tenant.spec).(rv := existing.rv))
    case CountApps => ListApps(ns)
    case ActiveWrite => UpdateTenantStatus(n, p.tenant)
    case FailureWrite => UpdateTenantStatus(n, p.tenant)
    case MarkDeleting => UpdateTenantStatus(n, p.tenant)
    case DrainList => ListApps(ns)
    case DrainApp(app, _) => DeleteApp(Key(ns, app))
    case PolicyFind => GetPolicy(PolicyKey(n))
    case PolicyRemove => DeletePolicy(PolicyKey(n))
    case CapsuleFind => GetCapsule(n)
    case CapsuleRemove => DeleteCapsule(n)
    case NamespaceFind => GetNamespace(ns)
    case NamespaceRemove => DeleteNamespace(ns)
    case DropFinalizer => UpdateTenant(n, p.tenant)
  }

  function Phased(t: Tenant, phase: TenantPhase): Tenant {
    t.(status := t.status.(phase := phase))
  }

  function Fail(t: Tenant, reason: string): Pass {
    Pass(FailureWrite, t.(status := t.status.(phase := TenantFailed, ready := Some(Condition(false, reason)))))
  }

  function AfterGet(t: Tenant): Pass {
    if t.deleting then Pass(MarkDeleting, Phased(t, Deleting))
    else if FINALIZER_TENANT !in t.finalizers then
      Pass(AddFinalizer, t.(finalizers := t.finalizers + {FINALIZER_TENANT}))
    else AfterFinalizer(t)
  }

  function AfterFinalizer(t: Tenant): Pass {
    if t.status.phase == NoPhase then Pass(MarkPending, Phased(t, TenantPending)) else Pass(NamespaceGet, t)
  }

  function AfterCapsule(p: Pass, quantities: set<string>): Pass {
    if Isolated(p.tenant.spec) then Pass(PolicyGet, p.tenant) else AfterPolicy(p, quantities)
  }

  /** A limit that does not parse panics, which ends the pass without a status write. */
  function AfterPolicy(p: Pass, quantities: set<string>): Pass {
    var a := LimitsOf(p.tenant.spec);
    Pass(if a.cpu in quantities && a.memory in quantities then QuotaGet else Finished, p.tenant)
  }

  function AfterCount(n: string, t: Tenant, r: Response): Pass {
    var apps := if r.Listed? then ToInt32(|r.names|) else t.status.activeApps;
    Pass(ActiveWrite, t.(status := TenantStatus(Active, TenantNamespace(n), apps, Some(Condition(true, "Reconciled")))))
  }

  function AfterDrainList(t: Tenant, names: seq<string>): Pass {
    Pass(if names == [] then PolicyFind else DrainApp(names[0], names[1..]), t)
  }

  function ToDrop(t: Tenant): Pass {
    Pass(DropFinalizer, t.(finalizers := t.finalizers - {FINALIZER_TENANT}))
  }

  /** `quantities` are the texts the quantity parser accepts. */
  function Resume(n: string, p: Pass, r: Response, quantities: set<string>): Pass
    requires !p.pc.Finished?
  {
    var done := Pass(Finished, p.tenant);
    match p.pc
    case Get => if r.GotTenant? then AfterGet(r.tenant) else done
    case AddFinalizer => if r.GotTenant? then AfterFinalizer(r.tenant) else done
    case MarkPending => if r.GotTenant? then Pass(NamespaceGet, r.tenant) else done
    case NamespaceGet =>
      if r.GotNamespace? then
        var merged := MergedLabels(r.namespace.labels, n);
        Pass(if merged == r.namespace.labels then CapsuleGet else NamespaceUpdate(r.namespace.(labels := merged)), p.tenant)
      else if r.NotFound? then Pass(NamespaceCreate, p.tenant)
      else Fail(p.tenant, "NamespaceFailed")
    case NamespaceCreate => if r.Ok? then Pass(CapsuleGet, p.tenant) else Fail(p.tenant, "NamespaceFailed")
    case NamespaceUpdate(_) => if r.Ok? then Pass(CapsuleGet, p.tenant) else Fail(p.tenant, "NamespaceFailed")
    case CapsuleGet =>
      if r.GotCapsule? then Pass(CapsuleUpdate(r.capsule.rv), p.tenant)
      else if r.NotFound? then Pass(CapsuleCreate, p.tenant)
      else Fail(p.tenant, "CapsuleFailed")
    case CapsuleCreate => if r.Ok? then AfterCapsule(p, quantities) else Fail(p.tenant, "CapsuleFailed")
    case CapsuleUpdate(_) => if r.Ok? then AfterCapsule(p, quantities) else Fail(p.tenant, "CapsuleFailed")
    case PolicyGet =>
      if r.GotPolicy? then Pass(PolicyUpdate(r.policy.rv), p.tenant)
      else if r.NotFound? then Pass(PolicyCreate, p.tenant)
      else Fail(p.tenant, "CiliumPolicyFailed")
    case PolicyCreate => if r.Ok? then AfterPolicy(p, quantities) else Fail(p.tenant, "CiliumPolicyFailed")
    case PolicyUpdate(_) => if r.Ok? then AfterPolicy(p, quantities) else Fail(p.tenant, "CiliumPolicyFailed")
    case QuotaGet =>
      if r.GotQuota? then Pass(QuotaUpdate(r.quota), p.tenant)
      else if r.NotFound? then Pass(QuotaCreate, p.tenant)
      else Fail(p.tenant, "ResourceQuotaFailed")
    case QuotaCreate => if r.Ok? then Pass(CountApps, p.tenant) else Fail(p.tenant, "ResourceQuotaFailed")
    case QuotaUpdate(_) => if r.Ok? then Pass(CountApps, p.tenant) else Fail(p.tenant, "ResourceQuotaFailed")
    case CountApps => AfterCount(n, p.tenant, r)
    case ActiveWrite => done
    case FailureWrite => done
    case MarkDeleting => if r.GotTenant? then Pass(DrainList, r.tenant) else done
    case DrainList => if r.Listed? then AfterDrainList(p.tenant, r.names) else Pass(PolicyFind, p.tenant)
    case DrainApp(_, left) =>
      if (r.Ok? || r.NotFound?) && left != [] then Pass(DrainApp(left[0], left[1..]), p.tenant) else done
    case PolicyFind => Pass(if r.GotPolicy? then PolicyRemove else CapsuleFind, p.tenant)
    case PolicyRemove => Pass(CapsuleFind, p.tenant)
    case CapsuleFind => Pass(if r.GotCapsule? then CapsuleRemove else NamespaceFind, p.tenant)
    case CapsuleRemove => Pass(NamespaceFind, p.tenant)
    case NamespaceFind => if r.GotNamespace? then Pass(NamespaceRemove, p.tenant) else ToDrop(p.tenant)
    case NamespaceRemove => ToDrop(p.tenant)
    case DropFinalizer => done
  }

  // ----- calls and answers ---------------------------------------------------------------------------------

  lemma GetHead(n: string, quantities: set<string>)
    ensures !NewPass.pc.Finished? && NextCall(n, NewPass) == GetTenant(n)
    ensures forall r: Response :: Resume(n, NewPass, r, quantities) ==
              if r.GotTenant? then AfterGet(r.tenant) else Pass(Finished, NewPass.tenant)
  {
  }

  lemma MarkHead(n: string, read: Tenant, quantities: set<string>)
    requires read.deleting
    ensures var p := Pass(MarkDeleting, read.(status := read.status.(phase := Deleting)));
            && AfterGet(read) == p
            && NextCall(n, p) == UpdateTenantStatus(n, p.tenant)
            && (forall r: Response :: Resume(n, p, r, quantities) ==
                  if r.GotTenant? then Pass(DrainList, r.tenant) else Pass(Finished, p.tenant))
  {
  }

  lemma DrainListHead(n: string, t: Tenant, quantities: set<string>)
    ensures var p := Pass(DrainList, t);
            && NextCall(n, p) == ListApps(TenantNamespace(n))
            && (forall r: Response :: Resume(n, p, r, quantities) ==
                  if r.Listed? then AfterDrainList(t, r.names) else Pass(PolicyFind, t))
            && AfterDrainList(t, []) == Pass(PolicyFind, t)
  {
  }

  lemma DrainHead(n: string, t: Tenant, names: seq<string>, i: nat, quantities: set<string>)
    requires i < |names|
    ensures var p := Pass(DrainApp(names[i], names[i + 1..]), t);
            && AfterDrainList(t, names[i..]) == p
            && NextCall(n, p) == Call.DeleteApp(Key(TenantNamespace(n), names[i]))
            && (forall r: Response :: Resume(n, p, r, quantities) ==
                  if (r.Ok? || r.NotFound?) && i + 1 < |names| then AfterDrainList(t, names[i + 1..]) else Pass(Finished, t))
  {
    assert names[i..][1..] == names[i + 1..];
  }

  /** The calls of the teardown and where their answers lead. */
  lemma RemovePolicyHeads(n: string, t: Tenant, quantities: set<string>)
    ensures NextCall(n, Pass(PolicyFind, t)) == GetPolicy(PolicyKey(n))
    ensures NextCall(n, Pass(PolicyRemove, t)) == DeletePolicy(PolicyKey(n))
    ensures forall r: Response ::
              && Resume(n, Pass(PolicyFind, t), r, quantities) == Pass(if r.GotPolicy? then PolicyRemove else CapsuleFind, t)
              && Resume(n, Pass(PolicyRemove, t), r, quantities) == Pass(CapsuleFind, t)
  {
    hide PolicyKey;
  }

  lemma RemoveCapsuleHeads(n: string, t: Tenant, quantities: set<string>)
    ensures NextCall(n, Pass(CapsuleFind, t)) == GetCapsule(n)
    ensures NextCall(n, Pass(CapsuleRemove, t)) == DeleteCapsule(n)
    ensures forall r: Response ::
              && Resume(n, Pass(CapsuleFind, t), r, quantities) == Pass(if r.GotCapsule? then CapsuleRemove else NamespaceFind, t)
              && Resume(n, Pass(CapsuleRemove, t), r, quantities) == Pass(NamespaceFind, t)
  {
  }

  lemma RemoveNamespaceHeads(n: string, t: Tenant, quantities: set<string>)
    ensures NextCall(n, Pass(NamespaceFind, t)) == GetNamespace(TenantNamespace(n))
    ensures NextCall(n, Pass(NamespaceRemove, t)) == DeleteNamespace(TenantNamespace(n))
    ensures forall r: Response ::
              && Resume(n, Pass(NamespaceFind, t), r, quantities)
                 == (if r.GotNamespace? then Pass(NamespaceRemove, t) else ToDrop(t))
              && Resume(n, Pass(NamespaceRemove, t), r, quantities) == ToDrop(t)
  {
  }

  // ----- progress -------------------------------------------------------------------------------------------

  function Stage(pc: Pc): nat {
    match pc
    case Get => 20
    case AddFinalizer => 19
    case MarkPending => 18
    case NamespaceGet => 17
    case NamespaceCreate => 16
    case NamespaceUpdate(_) => 16
    case CapsuleGet => 15
    case CapsuleCreate => 14
    case CapsuleUpdate(_) => 14
    case PolicyGet => 13
    case PolicyCreate => 12
    case PolicyUpdate(_) => 12
    case QuotaGet => 11
    case QuotaCreate => 10
    case QuotaUpdate(_) => 10
    case CountApps => 9
    case ActiveWrite => 8
    case FailureWrite => 7
    case MarkDeleting => 11
    case DrainList => 10
    case DrainApp(_, _) => 9
    case PolicyFind => 8
    case PolicyRemove => 7
    case CapsuleFind => 6
    case CapsuleRemove => 5
    case NamespaceFind => 4
    case NamespaceRemove => 3
    case DropFinalizer => 2
    case Finished => 0
  }

  function Remaining(pc: Pc): nat {
    if pc.DrainApp? then |pc.left| else 0
  }

  ghost predicate Later(q: Pc, p: Pc) {
    Stage(q) < Stage(p) || (Stage(q) == Stage(p) && Remaining(q) < Remaining(p))
  }

  /** Every answer moves a pass forward, so every pass ends. */
  lemma ResumeAdvances(n: string, p: Pass, r: Response, quantities: set<string>)
    requires !p.pc.Finished?
    ensures Later(Resume(n, p, r, quantities).pc, p.pc)
  {
  }

  /** The half of the deletion pass that follows an empty, or failed, listing of apps. */
  predicate TearingDown(pc: Pc) {
    pc.PolicyFind? || pc.PolicyRemove? || pc.CapsuleFind? || pc.CapsuleRemove? || pc.NamespaceFind?
    || pc.NamespaceRemove? || pc.DropFinalizer?
  }
}
