/** The objects the platform keeps in the Kubernetes API server (api/v1alpha1/app_types.go,
    api/v1alpha1/tenant_types.go, and the Knative, Capsule, Cilium and core objects the operator writes),
    reduced to what the controllers read and write. */
module Kube {
  import opened Options

  /** Namespace and name of a namespaced object. */
  datatype Key = Key(ns: string, name: string)

  type Labels = map<string, string>

  const LABEL_MANAGED_BY := "app.kubernetes.io/managed-by"
  const MANAGED_BY_VALUE := "kuberless"
  const LABEL_TENANT := "kuberless.io/tenant"
  const LABEL_APP := "kuberless.io/app"
  const LABEL_CAPSULE := "capsule.clastix.io/tenant"
  const FINALIZER_APP := "kuberless.io/app-finalizer"
  const FINALIZER_TENANT := "kuberless.io/tenant-finalizer"
  const CREATOR := "serving.knative.dev/creator"
  const LAST_MODIFIER := "serving.knative.dev/lastModifier"

  function TenantNamespace(tenant: string): string {
    "tenant-" + tenant
  }

  lemma NamespaceInjective(s: string, t: string)
    requires TenantNamespace(s) == TenantNamespace(t)
    ensures s == t
  {
    assert s == TenantNamespace(s)[7..];
    assert t == TenantNamespace(t)[7..];
  }

  /** Go's conversion to int32 keeps the low 32 bits. */
  function ToInt32(x: int): int {
    (x + 0x8000_0000) % 0x1_0000_0000 - 0x8000_0000
  }

  predicate IsInt32(x: int) {
    -0x8000_0000 <= x < 0x8000_0000
  }

  /** A missing label reads as the empty string. */
  function LabelOf(labels: Labels, key: string): string {
    if key in labels then labels[key] else ""
  }

  // ----- App ------------------------------------------------------------------------------------------

  datatype SecretRef = SecretRef(name: string, key: string)

  datatype EnvVar = EnvVar(name: string, value: string, secret: Option<SecretRef>)

  datatype AppSpec = AppSpec(
    tenantRef: string, image: string, port: int, env: seq<EnvVar>,
    minInstances: int, maxInstances: int, targetConcurrency: int,
    cpuRequest: string, memoryLimit: string, customDomains: seq<string>, paused: bool)

  datatype AppPhase = Unset | Pending | Deploying | Ready | Failed | Paused

  /** The "Ready" condition. */
  datatype Condition = Condition(holds: bool, reason: string)

  datatype AppStatus = AppStatus(phase: AppPhase, url: string, latestRevision: string, ready: Option<Condition>)

  datatype App = App(rv: nat, deleting: bool, finalizers: set<string>, spec: AppSpec, status: AppStatus)

  const NewAppStatus := AppStatus(Unset, "", "", None)

  // ----- Tenant ---------------------------------------------------------------------------------------

  /** Empty strings mean "not set", as in the source. */
  datatype ResourceLimits = ResourceLimits(maxCpu: string, maxMemory: string)

  datatype TenantSpec = TenantSpec(
    ownerEmail: string, plan: string, limits: Option<ResourceLimits>, maxApps: int, networkIsolation: Option<bool>)

  datatype TenantPhase = NoPhase | TenantPending | Active | Deleting | TenantFailed

  datatype TenantStatus = TenantStatus(phase: TenantPhase, namespace: string, activeApps: int, ready: Option<Condition>)

  datatype Tenant = Tenant(rv: nat, deleting: bool, finalizers: set<string>, spec: TenantSpec, status: TenantStatus)

  const NewTenantStatus := TenantStatus(NoPhase, "", 0, None)

  // ----- children of an App ---------------------------------------------------------------------------

  datatype EnvEntry = Literal(name: string, value: string) | FromSecret(name: string, secret: string, key: string)

  datatype ServiceSpec = ServiceSpec(
    minScale: int, maxScale: int, target: int, image: string, port: int, cpu: string, memory: string, env: seq<EnvEntry>)

  /** What Knative reports: each condition is a type and a status. */
  datatype ServiceStatus = ServiceStatus(url: string, latestRevision: string, conditions: seq<(string, string)>)

  /** `made` records whether the operator wrote the object; no program reads it. */
  datatype Service = Service(
    rv: nat, made: bool, labels: Labels, annotations: Labels, spec: ServiceSpec, status: Option<ServiceStatus>)

  datatype Mapping = Mapping(rv: nat, made: bool, labels: Labels, ref: string)

  // ----- children of a Tenant -------------------------------------------------------------------------

  datatype Namespace = Namespace(rv: nat, labels: Labels)

  datatype Capsule = Capsule(rv: nat, labels: Labels, owner: string, quota: int)

  /** The policy body is the same for every tenant and is left opaque. */
  datatype Policy = Policy(rv: nat, labels: Labels, body: string)

  datatype Hard = Hard(requestsCpu: string, limitsCpu: string, requestsMemory: string, limitsMemory: string)

  datatype Quota = Quota(rv: nat, labels: Labels, hard: Hard)
}
