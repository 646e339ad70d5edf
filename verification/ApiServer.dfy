/** The API server as its clients see it: one call at a time, optimistic concurrency through resource
    versions, deletion that waits for finalizers.  Specs are stored verbatim. */
module ApiServer {
  import opened Options
  import opened Kube

  datatype Store = Store(
    apps: map<Key, App>, services: map<Key, Service>, mappings: map<Key, Mapping>,
    tenants: map<string, Tenant>, namespaces: map<string, Namespace>, capsules: map<string, Capsule>,
    policies: map<Key, Policy>, quotas: map<Key, Quota>, clock: nat)

  datatype Call =
    | GetApp(key: Key) | UpdateApp(key: Key, app: App) | UpdateAppStatus(key: Key, app: App) | DeleteApp(key: Key)
    | ListApps(ns: string)
    | GetTenant(name: string) | UpdateTenant(name: string, tenant: Tenant) | UpdateTenantStatus(name: string, tenant: Tenant)
    | GetService(key: Key) | CreateService(key: Key, service: Service) | UpdateService(key: Key, service: Service)
    | DeleteService(key: Key)
    | ListMappings(ns: string, appName: string) | CreateMapping(key: Key, mapping: Mapping) | DeleteMapping(key: Key)
    | GetNamespace(name: string) | CreateNamespace(name: string, namespace: Namespace)
    | UpdateNamespace(name: string, namespace: Namespace) | DeleteNamespace(name: string)
    | GetCapsule(name: string) | CreateCapsule(name: string, capsule: Capsule)
    | UpdateCapsule(name: string, capsule: Capsule) | DeleteCapsule(name: string)
    | GetPolicy(key: Key) | CreatePolicy(key: Key, policy: Policy) | UpdatePolicy(key: Key, policy: Policy)
    | DeletePolicy(key: Key)
    | GetQuota(key: Key) | CreateQuota(key: Key, quota: Quota) | UpdateQuota(key: Key, quota: Quota)

  datatype Response =
    | Error | NotFound | Conflict | AlreadyExists | Ok
    | GotApp(app: App) | GotTenant(tenant: Tenant) | GotService(service: Service) | GotNamespace(namespace: Namespace)
    | GotCapsule(capsule: Capsule) | GotPolicy(policy: Policy) | GotQuota(quota: Quota) | Listed(names: seq<string>)

  // ----- listing ------------------------------------------------------------------------------------------

  function AppNames(apps: map<Key, App>, ns: string): set<string> {
    set k | k in apps && k.ns == ns :: k.name
  }

  /** MatchingLabels on the app label. */
  predicate LabelledFor(m: Mapping, app: string) {
    LABEL_APP in m.labels && m.labels[LABEL_APP] == app
  }

  function MappingNames(mappings: map<Key, Mapping>, ns: string, app: string): set<string> {
    set k | k in mappings && k.ns == ns && LabelledFor(mappings[k], app) :: k.name
  }

  /** A list comes back in any order; an order that does not fit the objects stands for a failed call. */
  function Listing(order: seq<string>, names: set<string>): Response {
    if Enumerates(order, names) then Listed(order) else Error
  }

  // ----- Apps and Tenants -----------------------------------------------------------------------------------

  function ServeApp(apps: map<Key, App>, rv: nat, call: Call): (map<Key, App>, Response) {
    match call
    case GetApp(k) => (apps, if k in apps then GotApp(apps[k]) else NotFound)
    case UpdateApp(k, app) =>
      if k !in apps then (apps, NotFound)
      else if apps[k].rv != app.rv then (apps, Conflict)
      else
        var stored := apps[k].(rv := rv, finalizers := app.finalizers, spec := app.spec);
        (if stored.deleting && stored.finalizers == {} then apps - {k} else apps[k := stored], GotApp(stored))
    case UpdateAppStatus(k, app) =>
      if k !in apps then (apps, NotFound)
      else if apps[k].rv != app.rv then (apps, Conflict)
      else
        var stored := apps[k].(rv := rv, status := app.status);
        (apps[k := stored], GotApp(stored))
    case DeleteApp(k) =>
      if k !in apps then (apps, NotFound) else (Unlinked(apps, k, rv), Ok)
    case _ => (apps, Error)
  }

  /** Deleting marks an object that has finalizers and removes one that has none. */
  function Unlinked(apps: map<Key, App>, k: Key, rv: nat): map<Key, App>
    requires k in apps
  {
    if apps[k].finalizers == {} then apps - {k}
    else if apps[k].deleting then apps
    else apps[k := apps[k].(rv := rv, deleting := true)]
  }

  function ServeTenant(tenants: map<string, Tenant>, rv: nat, call: Call): (map<string, Tenant>, Response) {
    match call
    case GetTenant(n) => (tenants, if n in tenants then GotTenant(tenants[n]) else NotFound)
    case UpdateTenant(n, tenant) =>
      if n !in tenants then (tenants, NotFound)
      else if tenants[n].rv != tenant.rv then (tenants, Conflict)
      else
        var stored := tenants[n].(rv := rv, finalizers := tenant.finalizers, spec := tenant.spec);
        (if stored.deleting && stored.finalizers == {} then tenants - {n} else tenants[n := stored], GotTenant(stored))
    case UpdateTenantStatus(n, tenant) =>
      if n !in tenants then (tenants, NotFound)
      else if tenants[n].rv != tenant.rv then (tenants, Conflict)
      else
        var stored := tenants[n].(rv := rv, status := tenant.status);
        (tenants[n := stored], GotTenant(stored))
    case _ => (tenants, Error)
  }

  // ----- children of an App -----------------------------------------------------------------------------------

  /** An update of the whole object leaves the status, which Knative owns. */
  function ServeService(services: map<Key, Service>, rv: nat, call: Call): (map<Key, Service>, Response) {
    match call
    case GetService(k) => (services, if k in services then GotService(services[k]) else NotFound)
    case CreateService(k, s) =>
      if k in services then (services, AlreadyExists) else (services[k := s.(rv := rv, status := None)], Ok)
    case UpdateService(k, s) =>
      if k !in services then (services, NotFound)
      else if services[k].rv != s.rv then (services, Conflict)
      else (services[k := s.(rv := rv, status := services[k].status)], Ok)
    case DeleteService(k) => if k in services then (services - {k}, Ok) else (services, NotFound)
    case _ => (services, Error)
  }

  function ServeMapping(mappings: map<Key, Mapping>, rv: nat, call: Call): (map<Key, Mapping>, Response) {
    match call
    case CreateMapping(k, m) =>
      if k in mappings then (mappings, AlreadyExists) else (mappings[k := m.(rv := rv)], Ok)
    case DeleteMapping(k) => if k in mappings then (mappings - {k}, Ok) else (mappings, NotFound)
    case _ => (mappings, Error)
  }

  // ----- children of a Tenant -----------------------------------------------------------------------------------

  function ServeNamespace(m: map<string, Namespace>, rv: nat, call: Call): (map<string, Namespace>, Response) {
    match call
    case GetNamespace(n) => (m, if n in m then GotNamespace(m[n]) else NotFound)
    case CreateNamespace(n, x) => if n in m then (m, AlreadyExists) else (m[n := x.(rv := rv)], Ok)
    case UpdateNamespace(n, x) =>
      if n !in m then (m, NotFound) else if m[n].rv != x.rv then (m, Conflict) else (m[n := x.(rv := rv)], Ok)
    case DeleteNamespace(n) => if n in m then (m - {n}, Ok) else (m, NotFound)
    case _ => (m, Error)
  }

  function ServeCapsule(m: map<string, Capsule>, rv: nat, call: Call): (map<string, Capsule>, Response) {
    match call
    case GetCapsule(n) => (m, if n in m then GotCapsule(m[n]) else NotFound)
    case CreateCapsule(n, x) => if n in m then (m, AlreadyExists) else (m[n := x.(rv := rv)], Ok)
    case UpdateCapsule(n, x) =>
      if n !in m then (m, NotFound) else if m[n].rv != x.rv then (m, Conflict) else (m[n := x.(rv := rv)], Ok)
    case DeleteCapsule(n) => if n in m then (m - {n}, Ok) else (m, NotFound)
    case _ => (m, Error)
  }

  function ServePolicy(m: map<Key, Policy>, rv: nat, call: Call): (map<Key, Policy>, Response) {
    match call
    case GetPolicy(k) => (m, if k in m then GotPolicy(m[k]) else NotFound)
    case CreatePolicy(k, x) => if k in m then (m, AlreadyExists) else (m[k := x.(rv := rv)], Ok)
    case UpdatePolicy(k, x) =>
      if k !in m then (m, NotFound) else if m[k].rv != x.rv then (m, Conflict) else (m[k := x.(rv := rv)], Ok)
    case DeletePolicy(k) => if k in m then (m - {k}, Ok) else (m, NotFound)
    case _ => (m, Error)
  }

  function ServeQuota(m: map<Key, Quota>, rv: nat, call: Call): (map<Key, Quota>, Response) {
    match call
    case GetQuota(k) => (m, if k in m then GotQuota(m[k]) else NotFound)
    case CreateQuota(k, x) => if k in m then (m, AlreadyExists) else (m[k := x.(rv := rv)], Ok)
    case UpdateQuota(k, x) =>
      if k !in m then (m, NotFound) else if m[k].rv != x.rv then (m, Conflict) else (m[k := x.(rv := rv)], Ok)
    case _ => (m, Error)
  }

  // ----- one call ---------------------------------------------------------------------------------------------

  function Serve(s: Store, call: Call, order: seq<string>): (Store, Response) {
    var t := s.(clock := s.clock + 1);
    match call
    case GetApp(_) => (t, ServeApp(s.apps, s.clock, call).1)
    case UpdateApp(_, _) => var (m, r) := ServeApp(s.apps, s.clock, call); (t.(apps := m), r)
    case UpdateAppStatus(_, _) => var (m, r) := ServeApp(s.apps, s.clock, call); (t.(apps := m), r)
    case DeleteApp(_) => var (m, r) := ServeApp(s.apps, s.clock, call); (t.(apps := m), r)
    case ListApps(ns) => (t, Listing(order, AppNames(s.apps, ns)))
    case GetTenant(_) => (t, ServeTenant(s.tenants, s.clock, call).1)
    case UpdateTenant(_, _) => var (m, r) := ServeTenant(s.tenants, s.clock, call); (t.(tenants := m), r)
    case UpdateTenantStatus(_, _) => var (m, r) := ServeTenant(s.tenants, s.clock, call); (t.(tenants := m), r)
    case GetService(_) => (t, ServeService(s.services, s.clock, call).1)
    case CreateService(_, _) => var (m, r) := ServeService(s.services, s.clock, call); (t.(services := m), r)
    case UpdateService(_, _) => var (m, r) := ServeService(s.services, s.clock, call); (t.(services := m), r)
    case DeleteService(_) => var (m, r) := ServeService(s.services, s.clock, call); (t.(services := m), r)
    case ListMappings(ns, app) => (t, Listing(order, MappingNames(s.mappings, ns, app)))
    case CreateMapping(_, _) => var (m, r) := ServeMapping(s.mappings, s.clock, call); (t.(mappings := m), r)
    case DeleteMapping(_) => var (m, r) := ServeMapping(s.mappings, s.clock, call); (t.(mappings := m), r)
    case _ => ServeTenantChild(s, call)
  }

  function ServeTenantChild(s: Store, call: Call): (Store, Response) {
    var t := s.(clock := s.clock + 1);
    var (namespaces, r1) := ServeNamespace(s.namespaces, s.clock, call);
    var (capsules, r2) := ServeCapsule(s.capsules, s.clock, call);
    var (policies, r3) := ServePolicy(s.policies, s.clock, call);
    var (quotas, r4) := ServeQuota(s.quotas, s.clock, call);
    (t.(namespaces := namespaces, capsules := capsules, policies := policies, quotas := quotas),
     if !r1.Error? then r1 else if !r2.Error? then r2 else if !r3.Error? then r3 else r4)
  }

  /** A call may be served, fail without effect, or take effect while its answer is lost. */
  datatype Fault = NoFault | Lost | Unacknowledged

  /** How one call turns out: its fault, and the order of a list. */
  datatype Chance = Chance(fault: Fault, order: seq<string>)

  function Deliver(s: Store, call: Call, chance: Chance): (Store, Response) {
    match chance.fault
    case NoFault => Serve(s, call, chance.order)
    case Lost => (s, Error)
    case Unacknowledged => (Serve(s, call, chance.order).0, Error)
  }

  // ----- what a call can touch --------------------------------------------------------------------------------

  predicate WritesApp(call: Call) {
    call.UpdateApp? || call.UpdateAppStatus? || call.DeleteApp?
  }

  predicate WritesTenant(call: Call) {
    call.UpdateTenant? || call.UpdateTenantStatus?
  }

  predicate WritesService(call: Call) {
    call.CreateService? || call.UpdateService? || call.DeleteService?
  }

  predicate WritesMapping(call: Call) {
    call.CreateMapping? || call.DeleteMapping?
  }

  predicate ForTenantChild(call: Call) {
    || call.GetNamespace? || call.CreateNamespace? || call.UpdateNamespace? || call.DeleteNamespace?
    || call.GetCapsule? || call.CreateCapsule? || call.UpdateCapsule? || call.DeleteCapsule?
    || call.GetPolicy? || call.CreatePolicy? || call.UpdatePolicy? || call.DeletePolicy?
    || call.GetQuota? || call.CreateQuota? || call.UpdateQuota?
  }

  lemma ServeTouches(s: Store, call: Call, order: seq<string>)
    ensures var t := Serve(s, call, order).0;
            && t.apps == (if WritesApp(call) then ServeApp(s.apps, s.clock, call).0 else s.apps)
            && t.tenants == (if WritesTenant(call) then ServeTenant(s.tenants, s.clock, call).0 else s.tenants)
            && t.services == (if WritesService(call) then ServeService(s.services, s.clock, call).0 else s.services)
            && t.mappings == (if WritesMapping(call) then ServeMapping(s.mappings, s.clock, call).0 else s.mappings)
            && t.clock == s.clock + 1
  {
    hide ServeApp, ServeTenant, ServeService, ServeMapping, ServeTenantChild, Listing;
    if ForTenantChild(call) {
      TenantChildTouches(s, call);
    }
  }

  predicate SameTenantChildren(s: Store, t: Store) {
    t.namespaces == s.namespaces && t.capsules == s.capsules && t.policies == s.policies && t.quotas == s.quotas
  }

  predicate ForApp(call: Call) {
    call.GetApp? || WritesApp(call) || call.ListApps?
  }

  predicate ForTenant(call: Call) {
    call.GetTenant? || WritesTenant(call)
  }

  predicate ForService(call: Call) {
    call.GetService? || WritesService(call)
  }

  lemma AppVerbsKeepTenantChildren(s: Store, call: Call, order: seq<string>)
    requires ForApp(call)
    ensures SameTenantChildren(s, Serve(s, call, order).0)
  {
    hide ServeApp, ServeTenant, ServeService, ServeMapping, ServeTenantChild, Listing, AppNames, MappingNames;
  }

  lemma TenantVerbsKeepTenantChildren(s: Store, call: Call, order: seq<string>)
    requires ForTenant(call)
    ensures SameTenantChildren(s, Serve(s, call, order).0)
  {
    hide ServeApp, ServeTenant, ServeService, ServeMapping, ServeTenantChild, Listing, AppNames, MappingNames;
  }

  lemma ServiceVerbsKeepTenantChildren(s: Store, call: Call, order: seq<string>)
    requires ForService(call)
    ensures SameTenantChildren(s, Serve(s, call, order).0)
  {
    hide ServeApp, ServeTenant, ServeService, ServeMapping, ServeTenantChild, Listing, AppNames, MappingNames;
  }

  lemma MappingVerbsKeepTenantChildren(s: Store, call: Call, order: seq<string>)
    requires call.ListMappings? || WritesMapping(call)
    ensures SameTenantChildren(s, Serve(s, call, order).0)
  {
    hide ServeApp, ServeTenant, ServeService, ServeMapping, ServeTenantChild, Listing, AppNames, MappingNames;
  }

  lemma OthersKeepTenantChildren(s: Store, call: Call, order: seq<string>)
    requires !ForTenantChild(call)
    ensures SameTenantChildren(s, Serve(s, call, order).0)
  {
    hide Serve;
    if ForApp(call) {
      AppVerbsKeepTenantChildren(s, call, order);
    } else if ForTenant(call) {
      TenantVerbsKeepTenantChildren(s, call, order);
    } else if ForService(call) {
      ServiceVerbsKeepTenantChildren(s, call, order);
    } else {
      MappingVerbsKeepTenantChildren(s, call, order);
    }
  }

  lemma TenantChildTouches(s: Store, call: Call)
    ensures var t := ServeTenantChild(s, call).0;
            && t.apps == s.apps && t.tenants == s.tenants && t.services == s.services && t.mappings == s.mappings
            && t.clock == s.clock + 1
  {
    hide ServeNamespace, ServeCapsule, ServePolicy, ServeQuota;
  }

  /** A delivered call has its effect on the objects of its own kind, or none at all. */
  lemma DeliverTouches(s: Store, call: Call, chance: Chance)
    ensures var t := Deliver(s, call, chance).0;
            && (t.apps == s.apps || (WritesApp(call) && t.apps == ServeApp(s.apps, s.clock, call).0))
            && (t.tenants == s.tenants || (WritesTenant(call) && t.tenants == ServeTenant(s.tenants, s.clock, call).0))
            && (t.services == s.services || (WritesService(call) && t.services == ServeService(s.services, s.clock, call).0))
            && (t.mappings == s.mappings || (WritesMapping(call) && t.mappings == ServeMapping(s.mappings, s.clock, call).0))
  {
    hide Serve, ServeApp, ServeTenant, ServeService, ServeMapping;
    ServeTouches(s, call, chance.order);
  }

  // ----- single verbs, served -----------------------------------------------------------------------------------

  lemma AppServed(s: Store, call: Call, order: seq<string>)
    requires WritesApp(call)
    ensures Serve(s, call, order)
         == (s.(clock := s.clock + 1, apps := ServeApp(s.apps, s.clock, call).0), ServeApp(s.apps, s.clock, call).1)
  {
    hide ServeApp;
  }

  lemma TenantServed(s: Store, call: Call, order: seq<string>)
    requires WritesTenant(call)
    ensures Serve(s, call, order)
         == (s.(clock := s.clock + 1, tenants := ServeTenant(s.tenants, s.clock, call).0), ServeTenant(s.tenants, s.clock, call).1)
  {
    hide ServeTenant;
  }

  lemma DeleteMappingServed(s: Store, at: Key, order: seq<string>)
    ensures Serve(s, DeleteMapping(at), order)
         == (s.(clock := s.clock + 1, mappings := s.mappings - {at}), if at in s.mappings then Ok else NotFound)
  {
    assert at !in s.mappings ==> s.mappings - {at} == s.mappings;
  }

  lemma GetServiceServed(s: Store, k: Key, order: seq<string>)
    ensures Serve(s, GetService(k), order)
         == (s.(clock := s.clock + 1), if k in s.services then GotService(s.services[k]) else NotFound)
  {
  }

  lemma DeleteServiceServed(s: Store, k: Key, order: seq<string>)
    ensures Serve(s, DeleteService(k), order)
         == (s.(clock := s.clock + 1, services := s.services - {k}), if k in s.services then Ok else NotFound)
  {
    assert k !in s.services ==> s.services - {k} == s.services;
  }
}
