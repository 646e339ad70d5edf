/** The Tenant controller's code, call by call (operator/controller/tenant_controller.go,
    operator/reconciler/namespace.go, capsule.go, cilium.go and resourcequota.go).  Each method is proved to take
    the pass of the machine from where it is called to where it returns, whatever happens around its calls. */
module TenantReconcilers {
  import opened Options
  import opened Kube
  import opened ApiServer
  import opened Operator
  import opened Client
  import TV = TenantConvergence
  import TC = TenantController

  // ----- namespace.go -----------------------------------------------------------------------------------------------

  /** The labels while the loop has seen the keys in `seen`. */
  ghost predicate PartlyMerged(original: Labels, labels: Labels, n: string, seen: set<string>) {
    forall key :: Find(labels, key) == Find(if key in seen then TC.MergedLabels(original, n) else original, key)
  }

  lemma MergedAt(labels: Labels, n: string, key: string)
    ensures var wanted := TC.NamespaceLabels(n);
            if key in wanted && LabelOf(labels, key) != wanted[key] then Find(TC.MergedLabels(labels, n), key) == Some(wanted[key])
            else Find(TC.MergedLabels(labels, n), key) == Find(labels, key)
  {
    assert LABEL_MANAGED_BY[0] == 'a' && LABEL_TENANT[0] == 'k' && LABEL_CAPSULE[0] == 'c';
  }

  lemma MergedAll(original: Labels, labels: Labels, n: string, seen: set<string>)
    requires PartlyMerged(original, labels, n, seen) && seen == TC.NamespaceLabels(n).Keys
    ensures labels == TC.MergedLabels(original, n)
  {
    forall key
      ensures Find(labels, key) == Find(TC.MergedLabels(original, n), key)
    {
      MergedAt(original, n, key);
    }
    hide TC.MergedLabels, TC.NamespaceLabels;
    SameEverywhere(labels, TC.MergedLabels(original, n));
  }

  /** One turn of the loop. */
  lemma MergeNext(original: Labels, before: Labels, n: string, seen: set<string>, key: string)
    requires PartlyMerged(original, before, n, seen) && key !in seen && key in TC.NamespaceLabels(n)
    ensures var value := TC.NamespaceLabels(n)[key];
            var after := if LabelOf(before, key) != value then before[key := value] else before;
            && PartlyMerged(original, after, n, seen + {key})
            && (after != original <==> before != original || LabelOf(before, key) != value)
  {
    MergedAt(original, n, key);
    hide TC.MergedLabels, TC.NamespaceLabels;
    assert Find(before, key) == Find(original, key);
    var value := TC.NamespaceLabels(n)[key];
    var after := if LabelOf(before, key) != value then before[key := value] else before;
    forall other
      ensures Find(after, other) == Find(if other in seen + {key} then TC.MergedLabels(original, n) else original, other)
    {
      assert Find(before, other) == Find(if other in seen then TC.MergedLabels(original, n) else original, other);
    }
  }

  lemma SameEverywhere(a: Labels, b: Labels)
    requires forall key :: Find(a, key) == Find(b, key)
    ensures a == b
  {
    forall key
      ensures key in a <==> key in b
      ensures key in a ==> a[key] == b[key]
    {
      assert Find(a, key) == Find(b, key);
    }
  }

  lemma NamespaceHeads(n: string, t: Tenant, quantities: set<string>)
    ensures TC.NextCall(n, TC.Pass(TC.NamespaceGet, t)) == GetNamespace(TenantNamespace(n))
    ensures TC.NextCall(n, TC.Pass(TC.NamespaceCreate, t)) == CreateNamespace(TenantNamespace(n), Namespace(0, TC.NamespaceLabels(n)))
    ensures forall r: Response :: TC.Resume(n, TC.Pass(TC.NamespaceGet, t), r, quantities) ==
              if r.GotNamespace? then
                var merged := TC.MergedLabels(r.namespace.labels, n);
                TC.Pass(if merged == r.namespace.labels then TC.CapsuleGet else TC.NamespaceUpdate(r.namespace.(labels := merged)), t)
              else if r.NotFound? then TC.Pass(TC.NamespaceCreate, t) else TC.Fail(t, "NamespaceFailed")
    ensures forall r: Response :: TC.Resume(n, TC.Pass(TC.NamespaceCreate, t), r, quantities) ==
              if r.Ok? then TC.Pass(TC.CapsuleGet, t) else TC.Fail(t, "NamespaceFailed")
  {
    hide TC.MergedLabels, TC.NamespaceLabels;
  }

  lemma NamespaceUpdateHead(n: string, t: Tenant, x: Namespace, quantities: set<string>)
    ensures var p := TC.Pass(TC.NamespaceUpdate(x), t);
            && TC.NextCall(n, p) == UpdateNamespace(TenantNamespace(n), x)
            && (forall r: Response :: TC.Resume(n, p, r, quantities) ==
                  if r.Ok? then TC.Pass(TC.CapsuleGet, t) else TC.Fail(t, "NamespaceFailed"))
  {
  }

  class NamespaceReconciler {
    const client: Client

    constructor (client: Client)
      ensures this.client == client
    {
      this.client := client;
    }

    /** Makes the namespace exist and carry the operator's labels. */
    method Reconcile(n: string, t: Tenant) returns (failed: bool)
      requires client.TenantAt(n, TC.Pass(TC.NamespaceGet, t)) && client.ExclusiveTenant(n)
      modifies client
      ensures client.TenantAt(n, if failed then TC.Fail(t, "NamespaceFailed") else TC.Pass(TC.CapsuleGet, t))
      ensures old(client.labels) <= client.labels && client.goal == old(client.goal) && client.begun == old(client.begun)
      ensures client.state.quantities == old(client.state.quantities)
    {
      NamespaceHeads(n, t, client.state.quantities);
      hide Client.TenantAt, TC.Resume, TC.NextCall, TC.Fail, TC.MergedLabels;
      var ns := TenantNamespace(n);
      var got := client.TenantCall(n, TC.Pass(TC.NamespaceGet, t), GetNamespace(ns));
      if !got.GotNamespace? {
        if !got.NotFound? {
          return true;
        }
        var labels := map[LABEL_MANAGED_BY := MANAGED_BY_VALUE, LABEL_TENANT := n, LABEL_CAPSULE := n];
        var created := client.TenantCall(n, TC.Pass(TC.NamespaceCreate, t), CreateNamespace(ns, Namespace(0, labels)));
        return !created.Ok?;
      }
      var labels, updated := MergeLabels(n, got.namespace.labels);
      if updated {
        var x := got.namespace.(labels := labels);
        NamespaceUpdateHead(n, t, x, client.state.quantities);
        var r := client.TenantCall(n, TC.Pass(TC.NamespaceUpdate(x), t), UpdateNamespace(ns, x));
        return !r.Ok?;
      }
      return false;
    }

    /** Sets the labels that differ, in whatever order the map is gone through. */
    method MergeLabels(n: string, original: Labels) returns (labels: Labels, updated: bool)
      ensures labels == TC.MergedLabels(original, n) && (updated <==> labels != original)
    {
      var wanted := TC.NamespaceLabels(n);
      hide TC.MergedLabels, TC.NamespaceLabels;
      labels, updated := original, false;
      var left := wanted.Keys;
      while left != {}
        invariant left <= wanted.Keys
        invariant PartlyMerged(original, labels, n, wanted.Keys - left)
        invariant updated <==> labels != original
        decreases |left|
      {
        var key :| key in left;
        MergeNext(original, labels, n, wanted.Keys - left, key);
        assert wanted.Keys - left + {key} == wanted.Keys - (left - {key});
        if LabelOf(labels, key) != wanted[key] {
          labels := labels[key := wanted[key]];
          updated := true;
        }
        left := left - {key};
      }
      assert wanted.Keys - left == wanted.Keys;
      MergedAll(original, labels, n, wanted.Keys);
    }

    /** Removes the namespace; the pass goes on whatever went wrong. */
    method Delete(n: string, t: Tenant)
      requires client.TenantAt(n, TC.Pass(TC.NamespaceFind, t)) && client.ExclusiveTenant(n)
      modifies client
      ensures client.TenantAt(n, TC.ToDrop(t))
      ensures old(client.labels) <= client.labels && client.goal == old(client.goal) && client.begun == old(client.begun)
      ensures client.state.quantities == old(client.state.quantities)
    {
      TC.RemoveNamespaceHeads(n, t, client.state.quantities);
      hide Client.TenantAt, TC.Resume, TC.NextCall, TC.ToDrop;
      var ns := TenantNamespace(n);
      var got := client.TenantCall(n, TC.Pass(TC.NamespaceFind, t), GetNamespace(ns));
      if got.GotNamespace? {
        var r := client.TenantCall(n, TC.Pass(TC.NamespaceRemove, t), DeleteNamespace(ns));
      }
    }
  }

  // ----- capsule.go -------------------------------------------------------------------------------------------------

  lemma CapsuleHeads(n: string, t: Tenant, quantities: set<string>)
    ensures TC.NextCall(n, TC.Pass(TC.CapsuleGet, t)) == GetCapsule(n)
    ensures TC.NextCall(n, TC.Pass(TC.CapsuleCreate, t)) == CreateCapsule(n, TC.DesiredCapsule(n, t.spec))
    ensures forall r: Response :: TC.Resume(n, TC.Pass(TC.CapsuleGet, t), r, quantities) ==
              if r.GotCapsule? then TC.Pass(TC.CapsuleUpdate(r.capsule.rv), t)
              else if r.NotFound? then TC.Pass(TC.CapsuleCreate, t) else TC.Fail(t, "CapsuleFailed")
    ensures forall r: Response :: TC.Resume(n, TC.Pass(TC.CapsuleCreate, t), r, quantities) ==
              if r.Ok? then TV.AfterCapsule(t, quantities) else TC.Fail(t, "CapsuleFailed")
  {
    hide TC.DesiredCapsule, TC.LimitsOf, TC.Isolated;
  }

  lemma CapsuleUpdateHeads(n: string, t: Tenant, rv: nat, quantities: set<string>)
    ensures TC.NextCall(n, TC.Pass(TC.CapsuleUpdate(rv), t)) == UpdateCapsule(n, TC.DesiredCapsule(n, t.spec).(rv := rv))
    ensures forall r: Response :: TC.Resume(n, TC.Pass(TC.CapsuleUpdate(rv), t), r, quantities) ==
              if r.Ok? then TV.AfterCapsule(t, quantities) else TC.Fail(t, "CapsuleFailed")
  {
    hide TC.DesiredCapsule, TC.LimitsOf, TC.Isolated;
  }

  class CapsuleReconciler {
    const client: Client

    constructor (client: Client)
      ensures this.client == client
    {
      this.client := client;
    }

    method Reconcile(n: string, t: Tenant) returns (failed: bool)
      requires client.TenantAt(n, TC.Pass(TC.CapsuleGet, t)) && client.ExclusiveTenant(n)
      modifies client
      ensures client.TenantAt(n, if failed then TC.Fail(t, "CapsuleFailed") else TV.AfterCapsule(t, client.state.quantities))
      ensures old(client.labels) <= client.labels && client.goal == old(client.goal) && client.begun == old(client.begun)
      ensures client.state.quantities == old(client.state.quantities)
    {
      CapsuleHeads(n, t, client.state.quantities);
      hide Client.TenantAt, TC.Resume, TC.NextCall, TC.Fail, TV.AfterCapsule, TC.DesiredCapsule;
      var desired := BuildCapsuleTenant(n, t);
      var got := client.TenantCall(n, TC.Pass(TC.CapsuleGet, t), GetCapsule(n));
      if !got.GotCapsule? {
        if !got.NotFound? {
          return true;
        }
        var created := client.TenantCall(n, TC.Pass(TC.CapsuleCreate, t), CreateCapsule(n, desired));
        return !created.Ok?;
      }
      desired := desired.(rv := got.capsule.rv);
      CapsuleUpdateHeads(n, t, got.capsule.rv, client.state.quantities);
      var updated := client.TenantCall(n, TC.Pass(TC.CapsuleUpdate(got.capsule.rv), t), UpdateCapsule(n, desired));
      return !updated.Ok?;
    }

    method BuildCapsuleTenant(n: string, t: Tenant) returns (capsule: Capsule)
      ensures capsule == TC.DesiredCapsule(n, t.spec) && TC.CapsuleFor(capsule, n, t.spec)
    {
      TC.CapsuleForExactly(TC.DesiredCapsule(n, t.spec), n, t.spec);
      capsule := Capsule(0, map[LABEL_MANAGED_BY := MANAGED_BY_VALUE, LABEL_TENANT := n], t.spec.ownerEmail,
                         ToInt32(t.spec.maxApps + 1));
    }

    method Delete(n: string, t: Tenant)
      requires client.TenantAt(n, TC.Pass(TC.CapsuleFind, t)) && client.ExclusiveTenant(n)
      modifies client
      ensures client.TenantAt(n, TC.Pass(TC.NamespaceFind, t))
      ensures old(client.labels) <= client.labels && client.goal == old(client.goal) && client.begun == old(client.begun)
      ensures client.state.quantities == old(client.state.quantities)
    {
      TC.RemoveCapsuleHeads(n, t, client.state.quantities);
      hide Client.TenantAt, TC.Resume, TC.NextCall, TC.ToDrop;
      var got := client.TenantCall(n, TC.Pass(TC.CapsuleFind, t), GetCapsule(n));
      if got.GotCapsule? {
        var r := client.TenantCall(n, TC.Pass(TC.CapsuleRemove, t), DeleteCapsule(n));
      }
    }
  }

  // ----- cilium.go --------------------------------------------------------------------------------------------------

  lemma PolicyHeads(n: string, t: Tenant, quantities: set<string>)
    ensures TV.AfterCapsule(t, quantities) == if TC.Isolated(t.spec) then TC.Pass(TC.PolicyGet, t) else TV.AfterPolicy(t, quantities)
    ensures TC.NextCall(n, TC.Pass(TC.PolicyGet, t)) == GetPolicy(TC.PolicyKey(n))
    ensures TC.NextCall(n, TC.Pass(TC.PolicyCreate, t)) == CreatePolicy(TC.PolicyKey(n), TC.DesiredPolicy(n))
    ensures forall r: Response :: TC.Resume(n, TC.Pass(TC.PolicyGet, t), r, quantities) ==
              if r.GotPolicy? then TC.Pass(TC.PolicyUpdate(r.policy.rv), t)
              else if r.NotFound? then TC.Pass(TC.PolicyCreate, t) else TC.Fail(t, "CiliumPolicyFailed")
    ensures forall r: Response :: TC.Resume(n, TC.Pass(TC.PolicyCreate, t), r, quantities) ==
              if r.Ok? then TV.AfterPolicy(t, quantities) else TC.Fail(t, "CiliumPolicyFailed")
  {
    hide TC.DesiredPolicy, TC.LimitsOf, TC.Isolated, TC.PolicyKey;
  }

  lemma PolicyUpdateHeads(n: string, t: Tenant, rv: nat, quantities: set<string>)
    ensures TC.NextCall(n, TC.Pass(TC.PolicyUpdate(rv), t)) == UpdatePolicy(TC.PolicyKey(n), TC.DesiredPolicy(n).(rv := rv))
    ensures forall r: Response :: TC.Resume(n, TC.Pass(TC.PolicyUpdate(rv), t), r, quantities) ==
              if r.Ok? then TV.AfterPolicy(t, quantities) else TC.Fail(t, "CiliumPolicyFailed")
  {
    hide TC.DesiredPolicy, TC.LimitsOf, TC.Isolated, TC.PolicyKey;
  }

  class CiliumReconciler {
    const client: Client

    constructor (client: Client)
      ensures this.client == client
    {
      this.client := client;
    }

    /** Without isolation it makes no call, so a policy that exists stays. */
    method Reconcile(n: string, t: Tenant) returns (failed: bool)
      requires client.TenantAt(n, TV.AfterCapsule(t, client.state.quantities)) && client.ExclusiveTenant(n)
      modifies client
      ensures client.TenantAt(n, if failed then TC.Fail(t, "CiliumPolicyFailed") else TV.AfterPolicy(t, client.state.quantities))
      ensures old(client.labels) <= client.labels && client.goal == old(client.goal) && client.begun == old(client.begun)
      ensures client.state.quantities == old(client.state.quantities)
    {
      PolicyHeads(n, t, client.state.quantities);
      hide Client.TenantAt, TC.Resume, TC.NextCall, TC.Fail, TV.AfterCapsule, TV.AfterPolicy, TC.DesiredPolicy;
      if !(t.spec.networkIsolation == None || t.spec.networkIsolation.value) {
        return false;
      }
      var k := TC.PolicyKey(n);
      var desired := TC.DesiredPolicy(n);
      var got := client.TenantCall(n, TC.Pass(TC.PolicyGet, t), GetPolicy(k));
      if !got.GotPolicy? {
        if !got.NotFound? {
          return true;
        }
        var created := client.TenantCall(n, TC.Pass(TC.PolicyCreate, t), CreatePolicy(k, desired));
        return !created.Ok?;
      }
      desired := desired.(rv := got.policy.rv);
      PolicyUpdateHeads(n, t, got.policy.rv, client.state.quantities);
      var updated := client.TenantCall(n, TC.Pass(TC.PolicyUpdate(got.policy.rv), t), UpdatePolicy(k, desired));
      return !updated.Ok?;
    }

    method Delete(n: string, t: Tenant)
      requires client.TenantAt(n, TC.Pass(TC.PolicyFind, t)) && client.ExclusiveTenant(n)
      modifies client
      ensures client.TenantAt(n, TC.Pass(TC.CapsuleFind, t))
      ensures old(client.labels) <= client.labels && client.goal == old(client.goal) && client.begun == old(client.begun)
      ensures client.state.quantities == old(client.state.quantities)
    {
      TC.RemovePolicyHeads(n, t, client.state.quantities);
      hide Client.TenantAt, TC.Resume, TC.NextCall, TC.ToDrop;
      var got := client.TenantCall(n, TC.Pass(TC.PolicyFind, t), GetPolicy(TC.PolicyKey(n)));
      if got.GotPolicy? {
        var r := client.TenantCall(n, TC.Pass(TC.PolicyRemove, t), DeletePolicy(TC.PolicyKey(n)));
      }
    }
  }

  // ----- resourcequota.go -------------------------------------------------------------------------------------------

  lemma QuotaHeads(n: string, t: Tenant, quantities: set<string>)
    ensures TC.NextCall(n, TC.Pass(TC.QuotaGet, t)) == GetQuota(TC.QuotaKey(n))
    ensures TC.NextCall(n, TC.Pass(TC.QuotaCreate, t)) == CreateQuota(TC.QuotaKey(n), TC.DesiredQuota(n, t.spec))
    ensures forall r: Response :: TC.Resume(n, TC.Pass(TC.QuotaGet, t), r, quantities) ==
              if r.GotQuota? then TC.Pass(TC.QuotaUpdate(r.quota), t)
              else if r.NotFound? then TC.Pass(TC.QuotaCreate, t) else TC.Fail(t, "ResourceQuotaFailed")
    ensures forall r: Response :: TC.Resume(n, TC.Pass(TC.QuotaCreate, t), r, quantities) ==
              if r.Ok? then TC.Pass(TC.CountApps, t) else TC.Fail(t, "ResourceQuotaFailed")
  {
    hide TC.DesiredQuota, TC.QuotaKey;
  }

  lemma QuotaUpdateHead(n: string, t: Tenant, existing: Quota, quantities: set<string>)
    ensures var p := TC.Pass(TC.QuotaUpdate(existing), t);
            && TC.NextCall(n, p) == UpdateQuota(TC.QuotaKey(n), TC.DesiredQuota(n, t.spec).(rv := existing.rv))
            && (forall r: Response :: TC.Resume(n, p, r, quantities) ==
                  if r.Ok? then TC.Pass(TC.CountApps, t) else TC.Fail(t, "ResourceQuotaFailed"))
  {
    hide TC.DesiredQuota, TC.QuotaKey;
  }

  class ResourceQuotaReconciler {
    const client: Client

    constructor (client: Client)
      ensures this.client == client
    {
      this.client := client;
    }

    /** Panics, which ends the pass, when a limit does not parse. */
    method Reconcile(n: string, t: Tenant) returns (failed: bool, panicked: bool)
      requires client.TenantAt(n, TV.AfterPolicy(t, client.state.quantities)) && client.ExclusiveTenant(n)
      modifies client
      ensures client.TenantAt(n, if panicked then TC.Pass(TC.Finished, t)
                                 else if failed then TC.Fail(t, "ResourceQuotaFailed") else TC.Pass(TC.CountApps, t))
      ensures panicked <==> !TV.Parses(t.spec, old(client.state.quantities))
      ensures old(client.labels) <= client.labels && client.goal == old(client.goal) && client.begun == old(client.begun)
      ensures client.state.quantities == old(client.state.quantities)
    {
      QuotaHeads(n, t, client.state.quantities);
      hide Client.TenantAt, TC.Resume, TC.NextCall, TC.Fail, TC.LimitsOf;
      var limits := GetResourceLimits(t);
      failed, panicked := false, false;
      if limits.cpu !in client.state.quantities || limits.memory !in client.state.quantities {
        return false, true;
      }
      var k := TC.QuotaKey(n);
      var labels := map[LABEL_MANAGED_BY := MANAGED_BY_VALUE, LABEL_TENANT := n];
      var desired := Quota(0, labels, Hard(limits.cpu, limits.cpu, limits.memory, limits.memory));
      var got := client.TenantCall(n, TC.Pass(TC.QuotaGet, t), GetQuota(k));
      if !got.GotQuota? {
        if !got.NotFound? {
          return true, false;
        }
        var created := client.TenantCall(n, TC.Pass(TC.QuotaCreate, t), CreateQuota(k, desired));
        return !created.Ok?, false;
      }
      var existing := got.quota;
      existing := existing.(hard := desired.hard, labels := desired.labels);
      QuotaUpdateHead(n, t, got.quota, client.state.quantities);
      var updated := client.TenantCall(n, TC.Pass(TC.QuotaUpdate(got.quota), t), UpdateQuota(k, existing));
      return !updated.Ok?, false;
    }

    /** The plan's defaults, each overridden by what the spec sets. */
    method GetResourceLimits(t: Tenant) returns (limits: TC.Amounts)
      ensures limits == TC.LimitsOf(t.spec) && TC.GrantsCpu(limits.cpu, t.spec) && TC.GrantsMemory(limits.memory, t.spec)
    {
      TC.GrantsExactly(TC.LimitsOf(t.spec), t.spec);
      var plan := t.spec.plan;
      if plan == "" {
        plan := "free";
      }
      var cpu, memory := TC.PlanDefaults(plan).cpu, TC.PlanDefaults(plan).memory;
      if t.spec.limits.Some? {
        if t.spec.limits.value.maxCpu != "" {
          cpu := t.spec.limits.value.maxCpu;
        }
        if t.spec.limits.value.maxMemory != "" {
          memory := t.spec.limits.value.maxMemory;
        }
      }
      limits := TC.Amounts(cpu, memory);
    }
  }

  // ----- tenant_controller.go ---------------------------------------------------------------------------------------

  lemma ActivateHeads(n: string, t: Tenant, quantities: set<string>)
    ensures TC.NextCall(n, TC.Pass(TC.CountApps, t)) == ListApps(TenantNamespace(n))
    ensures TC.NextCall(n, TC.Pass(TC.ActiveWrite, t)) == UpdateTenantStatus(n, t)
    ensures forall r: Response :: TC.Resume(n, TC.Pass(TC.CountApps, t), r, quantities) == TC.AfterCount(n, t, r)
    ensures forall r: Response :: TC.Resume(n, TC.Pass(TC.ActiveWrite, t), r, quantities) == TC.Pass(TC.Finished, t)
  {
    hide TC.AfterCount;
  }

  lemma RefreshHeads(n: string, t: Tenant, quantities: set<string>)
    ensures TC.NextCall(n, TC.Pass(TC.AddFinalizer, t)) == UpdateTenant(n, t)
    ensures TC.NextCall(n, TC.Pass(TC.MarkPending, t)) == UpdateTenantStatus(n, t)
    ensures forall r: Response ::
              && TC.Resume(n, TC.Pass(TC.AddFinalizer, t), r, quantities)
                 == (if r.GotTenant? then TC.AfterFinalizer(r.tenant) else TC.Pass(TC.Finished, t))
              && TC.Resume(n, TC.Pass(TC.MarkPending, t), r, quantities)
                 == TC.Pass(if r.GotTenant? then TC.NamespaceGet else TC.Finished, if r.GotTenant? then r.tenant else t)
  {
    hide TC.AfterFinalizer;
  }

  class TenantReconciler {
    const client: Client
    const namespaces: NamespaceReconciler
    const capsules: CapsuleReconciler
    const policies: CiliumReconciler
    const quotas: ResourceQuotaReconciler

    constructor (client: Client)
      ensures this.client == client && Wired()
      ensures fresh(namespaces) && fresh(capsules) && fresh(policies) && fresh(quotas)
    {
      this.client := client;
      namespaces := new NamespaceReconciler(client);
      capsules := new CapsuleReconciler(client);
      policies := new CiliumReconciler(client);
      quotas := new ResourceQuotaReconciler(client);
    }

    ghost predicate Wired() {
      namespaces.client == client && capsules.client == client && policies.client == client && quotas.client == client
    }

    /** The pass has made its last call. */
    ghost method PassOver(n: string, t: Tenant)
      requires client.TenantAt(n, TC.Pass(TC.Finished, t))
      ensures client.TenantDone(n)
    {
      TV.FinishEnds(client.state.store, n, TC.Pass(TC.Finished, t), client.order, client.state.quantities);
      hide TV.Finish, Run;
    }

    /** One pass, from reading the tenant to its last write.  Whatever others do in between and whichever calls
        fail, what happened is a run of the machine in which this tenant's controller made exactly one whole pass,
        started here, carried through call by call and never abandoned; and if nobody else moved and every
        call was answered, the cluster is as a solo pass leaves it. */
    method Reconcile(n: string)
      requires Wired() && client.Valid() && Idle(client.state, n) && client.ExclusiveTenant(n)
      modifies client
      ensures client.Valid() && Idle(client.state, n) && old(client.labels) <= client.labels
      ensures OneTenantPass(client.origin, client.labels, |old(client.labels)|, n)
      ensures client.Alone() ==>
                client.state.store == TV.OnePass(old(client.state.store), n, client.order, old(client.state.quantities))
      ensures var was := old(client.state.store);
              client.Alone() && n in was.tenants && !was.tenants[n].deleting
              && Enumerates(client.order, AppNames(was.apps, TenantNamespace(n))) ==>
                TV.Provisioned(was, client.state.store, n, TV.Parses(was.tenants[n].spec, old(client.state.quantities)), |client.order|)
    {
      if n in client.state.store.tenants && !client.state.store.tenants[n].deleting
        && Enumerates(client.order, AppNames(client.state.store.apps, TenantNamespace(n))) {
        TV.PassProvisions(client.state.store, n, client.order, client.state.quantities);
      }
      hide TV.OnePass, TV.Provisioned, TV.Parses, AppNames, Enumerates, TenantNamespace, Run, Idle, Client.TenantAt;
      client.BeginTenant(n);
      Handle(n);
    }

    /** Reads the tenant and does what its state asks for. */
    method Handle(n: string)
      requires Wired() && client.TenantAt(n, TC.NewPass) && client.ExclusiveTenant(n)
      modifies client
      ensures client.TenantDone(n)
      ensures old(client.labels) <= client.labels && client.goal == old(client.goal) && client.begun == old(client.begun)
    {
      hide Client.TenantAt, Client.TenantDone, Run, Idle, TC.Resume, TC.NextCall, TC.AfterGet;
      TC.GetHead(n, client.state.quantities);
      var got := client.TenantCall(n, TC.NewPass, GetTenant(n));
      if !got.GotTenant? {
        PassOver(n, TC.NewPass.tenant);
        return;
      }
      var t := got.tenant;
      if t.deleting {
        ReconcileDelete(n, t);
        return;
      }
      var gone: bool;
      t, gone := Prepare(n, t);
      if !gone {
        Provision(n, t);
      }
    }

    /** Adds the finalizer and the first phase where they are absent. */
    method Prepare(n: string, read: Tenant) returns (t: Tenant, gone: bool)
      requires Wired() && client.TenantAt(n, TC.AfterGet(read)) && !read.deleting && client.ExclusiveTenant(n)
      modifies client
      ensures client.Valid() && old(client.labels) <= client.labels && client.goal == old(client.goal) && client.begun == old(client.begun)
      ensures !gone ==> client.TenantAt(n, TC.Pass(TC.NamespaceGet, t))
      ensures gone ==> client.TenantDone(n)
    {
      hide Client.TenantAt, Run, Idle, TC.Resume, TC.NextCall, TC.AfterFinalizer;
      t, gone := read, false;
      if FINALIZER_TENANT !in t.finalizers {
        t := t.(finalizers := t.finalizers + {FINALIZER_TENANT});
        RefreshHeads(n, t, client.state.quantities);
        var r := client.TenantCall(n, TC.Pass(TC.AddFinalizer, t), UpdateTenant(n, t));
        if !r.GotTenant? {
          PassOver(n, t);
          return t, true;
        }
        t := r.tenant;
      }
      t, gone := FirstPhase(n, t);
    }

    method FirstPhase(n: string, read: Tenant) returns (t: Tenant, gone: bool)
      requires Wired() && client.TenantAt(n, TC.AfterFinalizer(read)) && client.ExclusiveTenant(n)
      modifies client
      ensures client.Valid() && old(client.labels) <= client.labels && client.goal == old(client.goal) && client.begun == old(client.begun)
      ensures !gone ==> client.TenantAt(n, TC.Pass(TC.NamespaceGet, t))
      ensures gone ==> client.TenantDone(n)
    {
      assert client.Valid();
      hide Client.TenantAt, Run, Idle, TC.Resume, TC.NextCall;
      t, gone := read, false;
      if t.status.phase == NoPhase {
        t := t.(status := t.status.(phase := TenantPending));
        RefreshHeads(n, t, client.state.quantities);
        var r := client.TenantCall(n, TC.Pass(TC.MarkPending, t), UpdateTenantStatus(n, t));
        if !r.GotTenant? {
          PassOver(n, t);
          return t, true;
        }
        t := r.tenant;
        StillValid(n, TC.Pass(TC.NamespaceGet, t));
      }
    }

    ghost method StillValid(n: string, p: TC.Pass)
      requires client.TenantAt(n, p)
      ensures client.Valid()
    {
    }

    /** The four stages in order; the first failure ends the pipeline. */
    method Provision(n: string, t: Tenant)
      requires Wired() && client.TenantAt(n, TC.Pass(TC.NamespaceGet, t)) && client.ExclusiveTenant(n)
      modifies client
      ensures client.TenantDone(n)
      ensures old(client.labels) <= client.labels && client.goal == old(client.goal) && client.begun == old(client.begun)
    {
      hide Client.TenantAt, Run, Idle, TC.Fail, TV.Parses, TV.AfterPolicy, TV.AfterCapsule;
      var failed := namespaces.Reconcile(n, t);
      if failed {
        SetFailed(n, t, "NamespaceFailed");
        return;
      }
      failed := capsules.Reconcile(n, t);
      if failed {
        SetFailed(n, t, "CapsuleFailed");
        return;
      }
      failed := policies.Reconcile(n, t);
      if failed {
        SetFailed(n, t, "CiliumPolicyFailed");
        return;
      }
      var panicked: bool;
      failed, panicked := quotas.Reconcile(n, t);
      if panicked {
        PassOver(n, t);
      } else if failed {
        SetFailed(n, t, "ResourceQuotaFailed");
      } else {
        Activate(n, t);
      }
    }

    method Activate(n: string, read: Tenant)
      requires Wired() && client.TenantAt(n, TC.Pass(TC.CountApps, read)) && client.ExclusiveTenant(n)
      modifies client
      ensures client.TenantDone(n)
      ensures old(client.labels) <= client.labels && client.goal == old(client.goal) && client.begun == old(client.begun)
    {
      ActivateHeads(n, read, client.state.quantities);
      hide Client.TenantAt, Run, Idle, TC.Resume, TC.NextCall, ToInt32, TenantNamespace;
      var t := read;
      var listed := client.TenantCall(n, TC.Pass(TC.CountApps, t), ListApps(TenantNamespace(n)));
      if listed.Listed? {
        t := t.(status := t.status.(activeApps := ToInt32(|listed.names|)));
      }
      t := t.(status := t.status.(phase := Active, namespace := TenantNamespace(n), ready := Some(Condition(true, "Reconciled"))));
      ActivateHeads(n, t, client.state.quantities);
      var r := client.TenantCall(n, TC.Pass(TC.ActiveWrite, t), UpdateTenantStatus(n, t));
      PassOver(n, t);
    }

    /** Deletes the apps and waits if there were any; tears down if there were none, or if listing failed. */
    method ReconcileDelete(n: string, read: Tenant)
      requires Wired() && client.TenantAt(n, TC.AfterGet(read)) && read.deleting && client.ExclusiveTenant(n)
      modifies client
      ensures client.TenantDone(n)
      ensures old(client.labels) <= client.labels && client.goal == old(client.goal) && client.begun == old(client.begun)
    {
      TC.MarkHead(n, read, client.state.quantities);
      hide Client.TenantAt, Run, Idle, TC.Resume, TC.NextCall, TC.AfterGet;
      var t := read.(status := read.status.(phase := Deleting));
      var marked := client.TenantCall(n, TC.Pass(TC.MarkDeleting, t), UpdateTenantStatus(n, t));
      if !marked.GotTenant? {
        PassOver(n, t);
        return;
      }
      Drain(n, marked.tenant);
    }

    /** Deletes the listed apps, or tears down when there are none or the listing failed. */
    method Drain(n: string, t: Tenant)
      requires Wired() && client.TenantAt(n, TC.Pass(TC.DrainList, t)) && client.ExclusiveTenant(n)
      modifies client
      ensures client.TenantDone(n)
      ensures old(client.labels) <= client.labels && client.goal == old(client.goal) && client.begun == old(client.begun)
    {
      TC.DrainListHead(n, t, client.state.quantities);
      hide Client.TenantAt, Run, Idle, TC.Resume, TC.NextCall, TC.AfterDrainList;
      var listed := client.TenantCall(n, TC.Pass(TC.DrainList, t), ListApps(TenantNamespace(n)));
      if listed.Listed? && |listed.names| > 0 {
        DeleteApps(n, t, listed.names);
        return;
      }
      assert listed.Listed? ==> listed.names == [];
      TearDown(n, t);
    }

    /** Policy, Capsule tenant, namespace, then the finalizer, whatever of it fails. */
    method TearDown(n: string, t: Tenant)
      requires Wired() && client.TenantAt(n, TC.Pass(TC.PolicyFind, t)) && client.ExclusiveTenant(n)
      modifies client
      ensures client.TenantDone(n)
      ensures old(client.labels) <= client.labels && client.goal == old(client.goal) && client.begun == old(client.begun)
    {
      hide Client.TenantAt, Run, Idle;
      policies.Delete(n, t);
      capsules.Delete(n, t);
      namespaces.Delete(n, t);
      DropFinalizer(n, t);
    }

    method DeleteApps(n: string, t: Tenant, names: seq<string>)
      requires client.TenantAt(n, TC.AfterDrainList(t, names)) && names != [] && client.ExclusiveTenant(n)
      modifies client
      ensures client.TenantDone(n)
      ensures old(client.labels) <= client.labels && client.goal == old(client.goal) && client.begun == old(client.begun)
    {
      hide TV.Finish, Run, TC.Resume, TC.NextCall, TC.AfterDrainList;
      var i := 0;
      assert names[0..] == names;
      while i < |names|
        invariant 0 <= i <= |names|
        invariant client.TenantAt(n, if i < |names| then TC.AfterDrainList(t, names[i..]) else TC.Pass(TC.Finished, t))
        invariant old(client.labels) <= client.labels && client.goal == old(client.goal) && client.begun == old(client.begun)
      {
        TC.DrainHead(n, t, names, i, client.state.quantities);
        var r := client.TenantCall(n, TC.Pass(TC.DrainApp(names[i], names[i + 1..]), t),
                                   Call.DeleteApp(Key(TenantNamespace(n), names[i])));
        if !r.Ok? && !r.NotFound? {
          break;
        }
        i := i + 1;
      }
      PassOver(n, t);
    }

    method DropFinalizer(n: string, read: Tenant)
      requires client.TenantAt(n, TC.ToDrop(read)) && client.ExclusiveTenant(n)
      modifies client
      ensures client.TenantDone(n)
      ensures old(client.labels) <= client.labels && client.goal == old(client.goal) && client.begun == old(client.begun)
    {
      hide TV.Finish, Run;
      var t := read.(finalizers := read.finalizers - {FINALIZER_TENANT});
      var r := client.TenantCall(n, TC.ToDrop(read), UpdateTenant(n, t));
      PassOver(n, t);
    }

    method SetFailed(n: string, read: Tenant, reason: string)
      requires Wired() && client.TenantAt(n, TC.Fail(read, reason)) && client.ExclusiveTenant(n)
      modifies client
      ensures client.TenantDone(n)
      ensures old(client.labels) <= client.labels && client.goal == old(client.goal) && client.begun == old(client.begun)
    {
      hide TV.Finish, Run;
      var t := read.(status := read.status.(phase := TenantFailed, ready := Some(Condition(false, reason))));
      var r := client.TenantCall(n, TC.Pass(TC.FailureWrite, t), UpdateTenantStatus(n, t));
      PassOver(n, t);
    }
  }
}
