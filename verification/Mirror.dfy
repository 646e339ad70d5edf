/** The services' tables and the resources they mirror them into, with the operator at work on the resources, as
    values (apiserver/service/app.go, apiserver/service/tenant.go, apiserver/adapter/adapter.go and the
    constraints of apiserver/store/migrations.go).  Timestamps are left out. */
module Mirror {
  import opened Options
  import opened Kube
  import opened DomainCodec
  import opened Rows
  import TM = TenantMirror

  datatype AppRow = AppRow(
    tenantId: string, name: string, image: string, port: int,
    minInstances: int, maxInstances: int, targetConcurrency: int,
    cpuRequest: string, memoryLimit: string, env: Env, paused: bool)

  /** An App resource as the API server sees it: two identifying labels, the spec, whether the operator's
      finalizer holds it, and whether it is being deleted. */
  datatype Resource = Resource(appId: string, tenantId: string, spec: AppSpec, held: bool, deleting: bool)

  /** App and tenant rows, App resources, and Tenant resources by name. */
  datatype World = World(
    apps: map<string, AppRow>, tenants: map<string, TenantRow>, crs: map<Key, Resource>, trs: map<string, TM.TenantResource>)

  // ----- rows ---------------------------------------------------------------------------------------------

  /** The INTEGER columns refuse anything wider. */
  predicate Storable(row: AppRow) {
    IsInt32(row.port) && IsInt32(row.minInstances) && IsInt32(row.maxInstances) && IsInt32(row.targetConcurrency)
  }

  // ----- building the resource ----------------------------------------------------------------------------

  /** Variables in one iteration order of the map. */
  function EnvList(env: Env, order: seq<string>): (list: seq<EnvVar>)
    requires forall k | k in order :: k in env
    ensures |list| == |order|
    ensures forall i | 0 <= i < |order| :: list[i] == EnvVar(order[i], env[order[i]], None)
  {
    if order == [] then []
    else
      var n := |order| - 1;
      EnvList(env, order[..n]) + [EnvVar(order[n], env[order[n]], None)]
  }

  function BuildSpec(row: AppRow, tenantName: string, env: seq<EnvVar>): AppSpec {
    AppSpec(tenantName, row.image, ToInt32(row.port), env,
            ToInt32(row.minInstances), ToInt32(row.maxInstances), ToInt32(row.targetConcurrency),
            row.cpuRequest, row.memoryLimit, [], row.paused)
  }

  /** Map iteration follows `order` if that is an order of the keys at all. */
  ghost function IterationOrder(env: Env, order: seq<string>): (r: seq<string>)
    ensures Enumerates(r, env.Keys)
  {
    if Enumerates(order, env.Keys) then order else SomeOrder(env.Keys)
  }

  ghost function DesiredSpec(row: AppRow, tenantName: string, order: seq<string>): AppSpec {
    BuildSpec(row, tenantName, EnvList(row.env, IterationOrder(row.env, order)))
  }

  // ----- operations -----------------------------------------------------------------------------------------

  datatype CreateRequest = CreateRequest(
    name: string, image: string, port: int, minInstances: int, maxInstances: int, targetConcurrency: int,
    cpuRequest: string, memoryLimit: string, env: Env)

  /** Empty strings, a zero port and None mean "leave as it is". */
  datatype UpdateRequest = UpdateRequest(
    image: string, port: int, minInstances: Option<int>, maxInstances: Option<int>, targetConcurrency: Option<int>,
    cpuRequest: string, memoryLimit: string, paused: Option<bool>)

  datatype Op =
    | Create(id: string, tenantId: string, creq: CreateRequest)
    | Update(id: string, ureq: UpdateRequest)
    | Delete(id: string)
    | Redeploy(id: string)
    | UpdateEnv(id: string, env: Env)
    | PatchEnv(id: string, patch: Env)
    | EditDomain(id: string, dop: DomainOp)
    | OfTenant(top: TM.Op)

  /** The row Create inserts, or None when the request is refused. */
  function NewRow(tenantId: string, req: CreateRequest): Option<AppRow> {
    if req.name == "" || req.image == "" then None
    else
      Some(AppRow(tenantId, req.name, req.image, OrElse(req.port, 0, 8080),
                  req.minInstances, OrElse(req.maxInstances, 0, 10), OrElse(req.targetConcurrency, 0, 100),
                  OrElse(req.cpuRequest, "", "100m"), OrElse(req.memoryLimit, "", "128Mi"), req.env, false))
  }

  function UpdatedRow(row: AppRow, req: UpdateRequest): AppRow {
    row.(image := OrElse(req.image, "", row.image),
         port := OrElse(req.port, 0, row.port),
         minInstances := if req.minInstances.Some? then req.minInstances.value else row.minInstances,
         maxInstances := if req.maxInstances.Some? then req.maxInstances.value else row.maxInstances,
         targetConcurrency := if req.targetConcurrency.Some? then req.targetConcurrency.value else row.targetConcurrency,
         cpuRequest := OrElse(req.cpuRequest, "", row.cpuRequest),
         memoryLimit := OrElse(req.memoryLimit, "", row.memoryLimit),
         paused := if req.paused.Some? then req.paused.value else row.paused)
  }

  /** The row an operation on an existing app stores, or None when it stores nothing. */
  function Edited(row: AppRow, op: Op): Option<AppRow> {
    match op
    case Update(_, req) => Some(UpdatedRow(row, req))
    case Redeploy(_) => Some(row)
    case UpdateEnv(_, env) => Some(row.(env := env))
    case PatchEnv(_, patch) => Some(row.(env := Patched(row.env, patch)))
    case EditDomain(_, dop) =>
      var env := DomainEdit(row.env, dop);
      if env.Some? then Some(row.(env := env.value)) else None
    case _ => None
  }

  predicate NameTaken(w: World, tenantId: string, name: string) {
    exists id | id in w.apps :: w.apps[id].tenantId == tenantId && w.apps[id].name == name
  }

  function KeyOf(w: World, row: AppRow): Key
    requires row.tenantId in w.tenants
  {
    Key(TenantNamespace(w.tenants[row.tenantId].name), row.name)
  }

  // ----- the cluster's part ---------------------------------------------------------------------------------

  /** A delete call marks a resource that is held and removes one that is not. */
  function Removed(crs: map<Key, Resource>, key: Key): map<Key, Resource> {
    if key !in crs then crs
    else if crs[key].held then crs[key := crs[key].(deleting := true)]
    else crs - {key}
  }

  /** The operator's pass adds its finalizer. */
  function Adopted(crs: map<Key, Resource>, key: Key): map<Key, Resource> {
    if key in crs && !crs[key].deleting then crs[key := crs[key].(held := true)] else crs
  }

  /** The operator's deletion pass drops its finalizer, and the resource is gone. */
  function Finalised(crs: map<Key, Resource>, key: Key): map<Key, Resource> {
    if key in crs && crs[key].deleting then crs - {key} else crs
  }

  // ----- one operation --------------------------------------------------------------------------------------

  /** syncAppToK8s: look up the tenant, then create the resource or replace its spec.  A Get that fails
      for any reason is followed by a Create, which fails when the resource exists after all. */
  ghost function Synced(w: World, id: string, row: AppRow, order: seq<string>, fault: Fault): World {
    if fault.NoClient? || fault.TenantLookupFails? || fault.WriteFails? || row.tenantId !in w.tenants then w
    else
      var key := KeyOf(w, row);
      var spec := DesiredSpec(row, w.tenants[row.tenantId].name, order);
      if key !in w.crs then w.(crs := w.crs[key := Resource(id, row.tenantId, spec, false, false)])
      else if fault.GetFails? then w
      else w.(crs := w.crs[key := w.crs[key].(spec := spec)])
  }

  ghost function Stored(w: World, id: string, row: AppRow, order: seq<string>, fault: Fault): World {
    if fault.StoreFails? || !Storable(row) then w
    else Synced(w.(apps := w.apps[id := row]), id, row, order, fault)
  }

  /** Tenant operations write tenant rows and Tenant resources; a tenant's app rows go with it, their resources
      do not. */
  function TenantApplied(w: World, top: TM.Op, fault: Fault): World {
    var t := TM.Apply(TM.Tables(w.tenants, w.trs), top, fault);
    var cascades := top.Delete? && top.id in w.tenants && top.id !in t.rows;
    w.(tenants := t.rows, trs := t.crs,
       apps := if cascades then map a | a in w.apps && w.apps[a].tenantId != top.id :: w.apps[a] else w.apps)
  }

  ghost function Apply(w: World, op: Op, order: seq<string>, fault: Fault): World {
    match op
    case Create(id, tenantId, req) =>
      var row := NewRow(tenantId, req);
      if row.None? || id in w.apps || tenantId !in w.tenants || NameTaken(w, tenantId, req.name) then w
      else Stored(w, id, row.value, order, fault)
    case Delete(id) =>
      if id !in w.apps || fault.StoreFails? then w
      else Unmirrored(w.(apps := w.apps - {id}), w.apps[id], fault)
    case OfTenant(top) => TenantApplied(w, top, fault)
    case _ =>
      if op.id !in w.apps || Edited(w.apps[op.id], op).None? then w
      else Stored(w, op.id, Edited(w.apps[op.id], op).value, order, fault)
  }

  /** DeleteAppCRD after the row is gone. */
  ghost function Unmirrored(w: World, row: AppRow, fault: Fault): World {
    if fault.NoClient? || fault.TenantLookupFails? || fault.WriteFails? || row.tenantId !in w.tenants then w
    else w.(crs := Removed(w.crs, KeyOf(w, row)))
  }

  /** The Tenant resource is being deleted. */
  predicate TenantDeleting(w: World, name: string) {
    name in w.trs && w.trs[name].deleting
  }

  /** Only a pass of a Tenant that is being deleted deletes the Apps of its namespace. */
  ghost predicate Draining(w: World, ns: string) {
    exists name :: TenantDeleting(w, name) && TenantNamespace(name) == ns
  }

  /** One turn of a run: an operation of a service, with the map iteration order and what goes wrong; or the
      operator adding its finalizer to an App, deleting it while its tenant drains, or finishing its deletion; or
      the same for a Tenant, whose deletion ends once no App is listed or the listing fails. */
  datatype Turn =
    | Service(op: Op, order: seq<string>, fault: Fault)
    | Adopt(key: Key)
    | Drain(key: Key)
    | Finalise(key: Key)
    | AdoptTenant(name: string)
    | FinaliseTenant(name: string, listingFails: bool)

  ghost function Take(w: World, t: Turn): World {
    match t
    case Service(op, order, fault) => Apply(w, op, order, fault)
    case Adopt(key) => w.(crs := Adopted(w.crs, key))
    case Drain(key) => if Draining(w, key.ns) then w.(crs := Removed(w.crs, key)) else w
    case Finalise(key) => w.(crs := Finalised(w.crs, key))
    case AdoptTenant(name) => w.(trs := TM.Take(TM.Tables(w.tenants, w.trs), TM.Adopt(name)).crs)
    case FinaliseTenant(name, listingFails) =>
      if listingFails || forall k | k in w.crs :: k.ns != TenantNamespace(name)
      then w.(trs := TM.Take(TM.Tables(w.tenants, w.trs), TM.Finalise(name)).crs)
      else w
  }

  const EmptyWorld := World(map[], map[], map[], map[])

  ghost function Run(w: World, turns: seq<Turn>): World {
    if turns == [] then w
    else Take(Run(w, turns[..|turns| - 1]), turns[|turns| - 1])
  }

  /** Turns of the operator alone. */
  predicate OperatorOnly(turns: seq<Turn>) {
    forall i | 0 <= i < |turns| :: !turns[i].Service?
  }

  // ----- what an operation stores, column by column -------------------------------------------------------------

  /** A new app as asked for, with the defaults where the request has nothing. */
  predicate FilledIn(row: AppRow, tenantId: string, req: CreateRequest) {
    && row.tenantId == tenantId && row.name == req.name && row.image == req.image && row.env == req.env && !row.paused
    && row.minInstances == req.minInstances
    && row.port == (if req.port == 0 then 8080 else req.port)
    && row.maxInstances == (if req.maxInstances == 0 then 10 else req.maxInstances)
    && row.targetConcurrency == (if req.targetConcurrency == 0 then 100 else req.targetConcurrency)
    && row.cpuRequest == (if req.cpuRequest == "" then "100m" else req.cpuRequest)
    && row.memoryLimit == (if req.memoryLimit == "" then "128Mi" else req.memoryLimit)
  }

  /** Each column is what the request sets, or else what it was. */
  predicate ChangedBy(before: AppRow, after: AppRow, req: UpdateRequest) {
    && after.image == (if req.image != "" then req.image else before.image)
    && after.port == (if req.port != 0 then req.port else before.port)
    && after.minInstances == (if req.minInstances.Some? then req.minInstances.value else before.minInstances)
    && after.maxInstances == (if req.maxInstances.Some? then req.maxInstances.value else before.maxInstances)
    && after.targetConcurrency
       == (if req.targetConcurrency.Some? then req.targetConcurrency.value else before.targetConcurrency)
    && after.cpuRequest == (if req.cpuRequest != "" then req.cpuRequest else before.cpuRequest)
    && after.memoryLimit == (if req.memoryLimit != "" then req.memoryLimit else before.memoryLimit)
    && after.paused == (if req.paused.Some? then req.paused.value else before.paused)
    && after.env == before.env && after.tenantId == before.tenantId && after.name == before.name
  }

  /** What the operations on an environment leave in it. */
  ghost predicate EnvChangedBy(before: Env, after: Env, op: Op) {
    match op
    case UpdateEnv(_, env) => after == env
    case PatchEnv(_, patch) => PatchedBy(before, patch, after)
    case EditDomain(_, AddHost(h)) => after == before[DOMAINS_KEY := Encoded(DomainsOf(before) + [h])]
    case EditDomain(_, RemoveHost(h)) =>
      exists left :: LeftAfter(DomainsOf(before), h, left) && after == before[DOMAINS_KEY := Encoded(left)]
    case _ => after == before
  }

  ghost predicate RowChangedBy(before: AppRow, after: AppRow, op: Op) {
    match op
    case Update(_, req) => ChangedBy(before, after, req)
    case _ => after == before.(env := after.env) && EnvChangedBy(before.env, after.env, op)
  }

  /** The operation is one that stores something, unless the database fails. */
  ghost predicate Accepted(w: World, op: Op) {
    match op
    case Create(id, tenantId, req) =>
      && req.name != "" && req.image != "" && id !in w.apps && tenantId in w.tenants
      && forall i | i in w.apps :: w.apps[i].tenantId != tenantId || w.apps[i].name != req.name
    case EditDomain(id, AddHost(h)) => id in w.apps && h != "" && h !in DomainsOf(w.apps[id].env)
    case EditDomain(id, RemoveHost(h)) => id in w.apps && h != "" && h in DomainsOf(w.apps[id].env)
    case OfTenant(_) => false
    case _ => op.id in w.apps
  }

  /** Converting to int32 loses nothing exactly on what the columns store. */
  lemma CastIsLossless(x: int)
    ensures ToInt32(x) == x <==> IsInt32(x)
  {
  }

  lemma EnvListMatches(env: Env, order: seq<string>)
    requires Enumerates(order, env.Keys)
    ensures EnvMatches(EnvList(env, order), env)
  {
    var list := EnvList(env, order);
    forall k | k in env
      ensures exists i :: 0 <= i < |list| && list[i].name == k
    {
      var i :| 0 <= i < |order| && order[i] == k;
      assert list[i].name == k;
    }
  }

  lemma DesiredMatches(row: AppRow, tenantName: string, order: seq<string>)
    requires Storable(row)
    ensures SpecMatches(DesiredSpec(row, tenantName, order), row, tenantName)
  {
    hide EnvMatches;
    CastIsLossless(row.port);
    CastIsLossless(row.minInstances);
    CastIsLossless(row.maxInstances);
    CastIsLossless(row.targetConcurrency);
    EnvListMatches(row.env, IterationOrder(row.env, order));
  }

  /** The resources after the row was pushed: nothing changes when a call fails; otherwise the one at the row's key says
      what the row says, new and free of marks, or as it was but for its spec. */
  ghost predicate ResourceSynced(w: World, a: World, id: string, row: AppRow, fault: Fault) {
    if fault.NoClient? || fault.TenantLookupFails? || fault.WriteFails? || row.tenantId !in w.tenants then a.crs == w.crs
    else
      var name := w.tenants[row.tenantId].name;
      var key := Key("tenant-" + name, row.name);
      if key in w.crs && fault.GetFails? then a.crs == w.crs
      else
        && key in a.crs && a.crs - {key} == w.crs - {key} && SpecMatches(a.crs[key].spec, row, name)
        && if key in w.crs then a.crs[key] == w.crs[key].(spec := a.crs[key].spec)
           else a.crs[key].appId == id && a.crs[key].tenantId == row.tenantId && !a.crs[key].held && !a.crs[key].deleting
  }

  /** The resources after the row is gone: the one at its key is marked if it is held, and gone if not. */
  ghost predicate ResourceMarked(w: World, a: World, row: AppRow, fault: Fault) {
    if fault.NoClient? || fault.TenantLookupFails? || fault.WriteFails? || row.tenantId !in w.tenants then a.crs == w.crs
    else
      var key := Key("tenant-" + w.tenants[row.tenantId].name, row.name);
      if key !in w.crs then a.crs == w.crs
      else if w.crs[key].held then a.crs == w.crs[key := w.crs[key].(deleting := true)]
      else a.crs == w.crs - {key}
  }

  /** The world after an operation of the app service: nothing happens when it is refused, when the database fails, or
      when a number does not fit its column. */
  ghost predicate WorldStored(w: World, a: World, op: Op, fault: Fault) {
    && a.tenants == w.tenants && a.trs == w.trs
    && if !Accepted(w, op) || fault.StoreFails? then a == w
       else
         match op
         case Create(id, tenantId, req) => exists row :: FilledIn(row, tenantId, req) && RowStored(w, a, id, row, fault)
         case Delete(id) => a.apps == w.apps - {id} && ResourceMarked(w, a, w.apps[id], fault)
         case _ => exists row :: RowChangedBy(w.apps[op.id], row, op) && RowStored(w, a, op.id, row, fault)
  }

  ghost predicate RowStored(w: World, a: World, id: string, row: AppRow, fault: Fault) {
    if Storable(row) then a.apps == w.apps[id := row] && ResourceSynced(w, a, id, row, fault) else a == w
  }

  lemma EditChangesRow(row: AppRow, op: Op)
    requires Edited(row, op).Some?
    ensures RowChangedBy(row, Edited(row, op).value, op)
  {
    hide DomainsOf, Encoded, Patched, Without;
    match op {
      case PatchEnv(_, patch) =>
        PatchedExactly(row.env, patch, Patched(row.env, patch));
      case EditDomain(_, RemoveHost(h)) =>
        RemovalLeaves(DomainsOf(row.env), h);
      case _ =>
    }
  }

  lemma EditAccepted(w: World, op: Op)
    requires !op.Create? && !op.Delete? && !op.OfTenant?
    ensures Accepted(w, op) <==> op.id in w.apps && Edited(w.apps[op.id], op).Some?
  {
    hide DomainsOf, Encoded, Patched, Without;
  }

  lemma CreateAccepted(w: World, id: string, tenantId: string, req: CreateRequest)
    ensures Accepted(w, Op.Create(id, tenantId, req))
            <==> req.name != "" && req.image != "" && id !in w.apps && tenantId in w.tenants && !NameTaken(w, tenantId, req.name)
  {
  }

  lemma NamesOfRows(v: World, w: World, tenantId: string, name: string)
    requires v.apps == w.apps
    ensures NameTaken(v, tenantId, name) == NameTaken(w, tenantId, name)
  {
  }

  /** Creating an app stores the new row, if it is accepted at all. */
  lemma CreateApplies(w: World, id: string, tenantId: string, req: CreateRequest, fault: Fault)
    ensures forall order ::
              Apply(w, Op.Create(id, tenantId, req), order, fault)
              == if !Accepted(w, Op.Create(id, tenantId, req)) then w
                 else Stored(w, id, NewRow(tenantId, req).value, order, fault)
  {
    hide Stored;
  }

  /** Every row with the defaults filled in has the same numbers. */
  lemma FilledInOnce(row: AppRow, tenantId: string, req: CreateRequest)
    requires FilledIn(row, tenantId, req)
    ensures (forall r | FilledIn(r, tenantId, req) :: Storable(r)) <==> Storable(row)
  {
    assert forall r | FilledIn(r, tenantId, req) :: r == row;
  }

  lemma ChangedByOnce(before: AppRow, after: AppRow, req: UpdateRequest)
    requires ChangedBy(before, after, req)
    ensures (forall r | ChangedBy(before, r, req) :: Storable(r)) <==> Storable(after)
  {
    assert forall r | ChangedBy(before, r, req) :: r == after;
  }

  lemma SyncSyncs(w: World, before: World, id: string, row: AppRow, order: seq<string>, fault: Fault)
    requires Storable(row) && before.tenants == w.tenants && before.crs == w.crs
    ensures var a := Synced(w, id, row, order, fault); a == w.(crs := a.crs) && ResourceSynced(before, a, id, row, fault)
  {
    hide SpecMatches, DesiredSpec, Storable;
    if row.tenantId in w.tenants {
      DesiredMatches(row, w.tenants[row.tenantId].name, order);
    }
  }

  lemma StoringStores(w: World, id: string, row: AppRow, order: seq<string>, fault: Fault)
    ensures var a := Stored(w, id, row, order, fault);
            && a.tenants == w.tenants && a.trs == w.trs
            && if fault.StoreFails? then a == w else RowStored(w, a, id, row, fault)
  {
    hide Synced, ResourceSynced, Storable;
    if Storable(row) {
      SyncSyncs(w.(apps := w.apps[id := row]), w, id, row, order, fault);
    }
  }

  lemma DeletionMarks(w: World, row: AppRow, fault: Fault, before: World)
    requires before.tenants == w.tenants && before.crs == w.crs
    ensures var a := Unmirrored(w, row, fault); a == w.(crs := a.crs) && ResourceMarked(before, a, row, fault)
  {
  }

  /** What every operation of the app service leaves in rows and resources, whatever goes wrong. */
  lemma WorldChangesExactly(w: World, op: Op, order: seq<string>, fault: Fault)
    requires !op.OfTenant?
    ensures WorldStored(w, Apply(w, op, order, fault), op, fault)
  {
    hide Stored, RowStored, RowChangedBy, Edited, Unmirrored, ResourceMarked;
    if op.Create? {
      var row := NewRow(op.tenantId, op.creq);
      if Accepted(w, op) {
        assert FilledIn(row.value, op.tenantId, op.creq);
        StoringStores(w, op.id, row.value, order, fault);
      }
    } else if op.Delete? {
      if Accepted(w, op) {
        DeletionMarks(w.(apps := w.apps - {op.id}), w.apps[op.id], fault, w);
      }
    } else {
      EditAccepted(w, op);
      if Accepted(w, op) {
        var row := Edited(w.apps[op.id], op).value;
        EditChangesRow(w.apps[op.id], op);
        StoringStores(w, op.id, row, order, fault);
      }
    }
  }

  lemma WorldChanges(w: World, op: Op, fault: Fault)
    requires !op.OfTenant?
    ensures forall order :: WorldStored(w, Apply(w, op, order, fault), op, fault)
  {
    forall order
      ensures WorldStored(w, Apply(w, op, order, fault), op, fault)
    {
      WorldChangesExactly(w, op, order, fault);
    }
  }

  /** An operation on an existing app stores the edited row, if it edits it at all. */
  lemma EditApplies(w: World, op: Op, fault: Fault)
    requires !op.Create? && !op.Delete? && !op.OfTenant?
    ensures forall order ::
              Apply(w, op, order, fault)
              == if op.id !in w.apps || Edited(w.apps[op.id], op).None? then w
                 else Stored(w, op.id, Edited(w.apps[op.id], op).value, order, fault)
  {
    hide Stored, Edited;
  }

  // ----- what should hold -------------------------------------------------------------------------------------

  /** What the schema's keys, references and column types guarantee. */
  ghost predicate Integrity(w: World) {
    && (forall id | id in w.apps :: w.apps[id].tenantId in w.tenants && Storable(w.apps[id]))
    && (forall i, j | i in w.apps && j in w.apps && i != j ::
          w.apps[i].tenantId != w.apps[j].tenantId || w.apps[i].name != w.apps[j].name)
    && (forall s, t | s in w.tenants && t in w.tenants && s != t :: w.tenants[s].name != w.tenants[t].name)
  }

  /** The list holds the map's entries, each once, in some order. */
  ghost predicate EnvMatches(list: seq<EnvVar>, env: Env) {
    && (forall i, j | 0 <= i < j < |list| :: list[i].name != list[j].name)
    && (forall i | 0 <= i < |list| :: list[i].secret == None && Find(env, list[i].name) == Some(list[i].value))
    && (forall k | k in env :: exists i :: 0 <= i < |list| && list[i].name == k)
  }

  ghost predicate SpecMatches(spec: AppSpec, row: AppRow, tenantName: string) {
    && spec.tenantRef == tenantName && spec.image == row.image && spec.port == row.port
    && spec.minInstances == row.minInstances && spec.maxInstances == row.maxInstances
    && spec.targetConcurrency == row.targetConcurrency
    && spec.cpuRequest == row.cpuRequest && spec.memoryLimit == row.memoryLimit
    && spec.customDomains == [] && spec.paused == row.paused
    && EnvMatches(spec.env, row.env)
  }

  /** A resource that will stay: one that is being deleted is as good as gone. */
  predicate Live(w: World, key: Key) {
    key in w.crs && !w.crs[key].deleting
  }

  predicate Terminating(w: World, key: Key) {
    key in w.crs && w.crs[key].deleting
  }

  ghost predicate MirroredAt(w: World, id: string)
    requires id in w.apps && w.apps[id].tenantId in w.tenants
  {
    var row := w.apps[id];
    var key := KeyOf(w, row);
    && Live(w, key)
    && w.crs[key].appId == id && w.crs[key].tenantId == row.tenantId
    && SpecMatches(w.crs[key].spec, row, w.tenants[row.tenantId].name)
  }

  ghost predicate Covered(w: World, key: Key)
    requires Integrity(w)
  {
    exists id :: id in w.apps && KeyOf(w, w.apps[id]) == key
  }

  /** Every row has its live resource and every live resource its row. */
  ghost predicate Mirrored(w: World)
    requires Integrity(w)
  {
    && (forall id | id in w.apps :: MirroredAt(w, id))
    && (forall key | Live(w, key) :: Covered(w, key))
  }
}
