/** The app service and its database in the source's own form: objects that fetch a row, change it, store it
    and push it to Kubernetes.  Every method is tied to `Mirror.Apply`.  What goes wrong is the parameter
    `fault`; the order in which a map is walked is returned as the ghost `order`. */
module AppService {
  import opened Options
  import opened Kube
  import opened DomainCodec
  import opened Rows
  import opened Mirror
  import TM = TenantMirror

  datatype Result<+T> = Ok(value: T) | Err(message: string)

  /** The tables, with the constraints their schema declares (apiserver/store/migrations.go). */
  class Database {
    var apps: map<string, AppRow>
    var tenants: map<string, TenantRow>

    constructor ()
      ensures apps == map[] && tenants == map[]
    {
      apps, tenants := map[], map[];
    }

    method GetAppByID(id: string) returns (r: Result<AppRow>)
      ensures r.Ok? <==> id in apps
      ensures r.Ok? ==> r.value == apps[id]
    {
      r := if id in apps then Ok(apps[id]) else Err("store: app not found");
    }

    method GetTenantByID(id: string, fault: Fault) returns (r: Result<TenantRow>)
      ensures r.Ok? <==> id in tenants && !fault.TenantLookupFails?
      ensures r.Ok? ==> r.value == tenants[id]
    {
      r := if id in tenants && !fault.TenantLookupFails? then Ok(tenants[id]) else Err("store: tenant not found");
    }

    method CreateApp(id: string, row: AppRow, fault: Fault) returns (ok: bool)
      modifies this`apps
      ensures ok <==> !fault.StoreFails? && Storable(row) && id !in old(apps) && row.tenantId in tenants
                      && !NameTaken(World(old(apps), tenants, map[], map[]), row.tenantId, row.name)
      ensures apps == if ok then old(apps)[id := row] else old(apps)
    {
      ok := !fault.StoreFails? && Storable(row) && id !in apps && row.tenantId in tenants
            && !NameTaken(World(apps, tenants, map[], map[]), row.tenantId, row.name);
      if ok {
        apps := apps[id := row];
      }
    }

    /** The tenant and the name of a row are not among the columns an update sets. */
    method UpdateApp(id: string, row: AppRow, fault: Fault) returns (ok: bool)
      requires id in apps
      modifies this`apps
      ensures ok <==> !fault.StoreFails? && Storable(row)
      ensures apps == if ok then old(apps)[id := row.(tenantId := old(apps)[id].tenantId, name := old(apps)[id].name)] else old(apps)
    {
      ok := !fault.StoreFails? && Storable(row);
      if ok {
        apps := apps[id := row.(tenantId := apps[id].tenantId, name := apps[id].name)];
      }
    }

    method DeleteApp(id: string, fault: Fault) returns (ok: bool)
      modifies this`apps
      ensures ok <==> !fault.StoreFails? && id in old(apps)
      ensures apps == if ok then old(apps) - {id} else old(apps)
    {
      ok := !fault.StoreFails? && id in apps;
      if ok {
        apps := apps - {id};
      }
    }

    method CreateTenant(id: string, row: TenantRow, fault: Fault) returns (ok: bool)
      modifies this`tenants
      ensures ok <==> !fault.StoreFails? && id !in old(tenants)
                      && !(exists t | t in old(tenants) :: old(tenants)[t].name == row.name)
      ensures tenants == if ok then old(tenants)[id := row] else old(tenants)
    {
      ok := !fault.StoreFails? && id !in tenants && !(exists t | t in tenants :: tenants[t].name == row.name);
      if ok {
        tenants := tenants[id := row];
      }
    }

    method UpdateTenant(id: string, displayName: string, plan: string, fault: Fault) returns (ok: bool)
      requires id in tenants
      modifies this`tenants
      ensures ok <==> !fault.StoreFails?
      ensures tenants == if ok then old(tenants)[id := old(tenants)[id].(displayName := displayName, plan := plan)] else old(tenants)
    {
      ok := !fault.StoreFails?;
      if ok {
        tenants := tenants[id := tenants[id].(displayName := displayName, plan := plan)];
      }
    }

    /** Rows of the tenant go with it. */
    method DeleteTenant(id: string, fault: Fault) returns (ok: bool)
      modifies this
      ensures ok <==> !fault.StoreFails? && id in old(tenants)
      ensures ok ==> tenants == old(tenants) - {id}
                     && apps == map a | a in old(apps) && old(apps)[a].tenantId != id :: old(apps)[a]
      ensures !ok ==> unchanged(this)
    {
      ok := !fault.StoreFails? && id in tenants;
      if ok {
        tenants := tenants - {id};
        apps := map a | a in apps && apps[a].tenantId != id :: apps[a];
      }
    }
  }

  /** The App and Tenant resources, behind the adapter's calls. */
  class K8sClientAdapter {
    var crs: map<Key, Resource>
    var trs: map<string, TM.TenantResource>

    constructor ()
      ensures crs == map[] && trs == map[]
    {
      crs, trs := map[], map[];
    }

    /** Appends one variable per map entry, in whatever order the map yields them. */
    method BuildAppSpec(row: AppRow, tenantName: string) returns (spec: AppSpec, ghost order: seq<string>)
      ensures Enumerates(order, row.env.Keys)
      ensures spec == BuildSpec(row, tenantName, EnvList(row.env, order))
    {
      var env: seq<EnvVar> := [];
      order := [];
      var todo := row.env.Keys;
      while todo != {}
        invariant todo <= row.env.Keys && Enumerates(order, row.env.Keys - todo)
        invariant env == EnvList(row.env, order)
      {
        var k :| k in todo;
        env := env + [EnvVar(k, row.env[k], None)];
        assert (order + [k])[..|order|] == order;
        order := order + [k];
        todo := todo - {k};
      }
      assert row.env.Keys - todo == row.env.Keys;
      spec := BuildSpec(row, tenantName, env);
    }

    method UpdateAppCRD(id: string, row: AppRow, tenantName: string, fault: Fault) returns (ok: bool, ghost order: seq<string>)
      modifies this`crs
      ensures forall w: World | w.crs == old(crs) && row.tenantId in w.tenants
                && w.tenants[row.tenantId].name == tenantName
                && !fault.NoClient? && !fault.TenantLookupFails? ::
                Synced(w, id, row, order, fault) == w.(crs := crs)
    {
      var key := Key(TenantNamespace(tenantName), row.name);
      var spec;
      spec, order := BuildAppSpec(row, tenantName);
      assert spec == DesiredSpec(row, tenantName, order);
      var found := key in crs && !fault.GetFails?;
      if !found {
        ok := !fault.WriteFails? && key !in crs;
        if ok {
          crs := crs[key := Resource(id, row.tenantId, spec, false, false)];
        }
        return;
      }
      var obj := crs[key];
      obj := obj.(spec := spec);
      ok := !fault.WriteFails?;
      if ok {
        crs := crs[key := obj];
      }
    }

    /** A resource that the operator's finalizer holds is only marked. */
    method DeleteAppCRD(name: string, tenantName: string, fault: Fault)
      modifies this`crs
      ensures crs == if fault.WriteFails? then old(crs) else Removed(old(crs), Key(TenantNamespace(tenantName), name))
    {
      var key := Key(TenantNamespace(tenantName), name);
      if fault.WriteFails? || key !in crs {
        return;
      }
      if crs[key].held {
        crs := crs[key := crs[key].(deleting := true)];
      } else {
        crs := crs - {key};
      }
    }

    method CreateTenantCRD(id: string, row: TenantRow, fault: Fault)
      modifies this`trs
      ensures forall rows :: TM.Tables(rows, trs) == TM.Created(TM.Tables(rows, old(trs)), id, row, fault)
    {
      if !TM.Unreached(fault) && row.name !in trs {
        trs := trs[row.name := TM.BuildTenantCR(id, row)];
      }
    }

    method UpdateTenantCRD(id: string, row: TenantRow, fault: Fault)
      modifies this`trs
      ensures forall rows :: TM.Tables(rows, trs) == TM.Pushed(TM.Tables(rows, old(trs)), id, row, fault)
    {
      if row.name !in trs || fault.GetFails? {
        if !TM.Unreached(fault) && row.name !in trs {
          trs := trs[row.name := TM.BuildTenantCR(id, row)];
        }
        return;
      }
      var obj := trs[row.name];
      obj := obj.(displayName := row.displayName, plan := row.plan);
      if !TM.Unreached(fault) {
        trs := trs[row.name := obj];
      }
    }

    /** A resource that the operator's finalizer holds is only marked. */
    method DeleteTenantCRD(name: string, fault: Fault)
      modifies this`trs
      ensures trs == if TM.Unreached(fault) then old(trs) else TM.Removed(old(trs), name)
    {
      if TM.Unreached(fault) || name !in trs {
        return;
      }
      if trs[name].held {
        trs := trs[name := trs[name].(deleting := true)];
      } else {
        trs := trs - {name};
      }
    }
  }

  class AppService {
    const db: Database
    const k8sClient: K8sClientAdapter?

    ghost function State(): World
      reads db, k8sClient
    {
      if k8sClient == null then World(db.apps, db.tenants, map[], map[])
      else World(db.apps, db.tenants, k8sClient.crs, k8sClient.trs)
    }

    /** A missing client is a fault of every operation, and of none when there is a client. */
    ghost predicate Fits(fault: Fault) {
      fault.NoClient? <==> k8sClient == null
    }

    constructor (db: Database, k8sClient: K8sClientAdapter?)
      ensures this.db == db && this.k8sClient == k8sClient
    {
      this.db := db;
      this.k8sClient := k8sClient;
    }

    method SyncAppToK8s(id: string, row: AppRow, fault: Fault) returns (ghost order: seq<string>)
      requires Fits(fault)
      modifies k8sClient
      ensures State() == Synced(old(State()), id, row, order, fault)
    {
      order := [];
      if k8sClient == null {
        return;
      }
      var tenant := db.GetTenantByID(row.tenantId, fault);
      if tenant.Err? {
        return;
      }
      ghost var before := State();
      var ok;
      ok, order := k8sClient.UpdateAppCRD(id, row, tenant.value.name, fault);
      assert Synced(before, id, row, order, fault) == before.(crs := k8sClient.crs);
    }

    /** Stores an edited row and pushes it. */
    method Save(id: string, row: AppRow, fault: Fault) returns (ok: bool, ghost order: seq<string>)
      requires Fits(fault) && id in db.apps && row.tenantId == db.apps[id].tenantId && row.name == db.apps[id].name
      modifies db`apps, k8sClient
      ensures State() == Stored(old(State()), id, row, order, fault)
      ensures ok <==> !fault.StoreFails? && Storable(row)
    {
      order := [];
      ok := db.UpdateApp(id, row, fault);
      if ok {
        order := SyncAppToK8s(id, row, fault);
      }
    }

    method RowWithDefaults(tenantId: string, req0: CreateRequest) returns (app: AppRow)
      requires req0.name != "" && req0.image != ""
      ensures NewRow(tenantId, req0) == Some(app) && FilledIn(app, tenantId, req0)
    {
      var req := req0;
      if req.port == 0 {
        req := req.(port := 8080);
      }
      if req.maxInstances == 0 {
        req := req.(maxInstances := 10);
      }
      if req.targetConcurrency == 0 {
        req := req.(targetConcurrency := 100);
      }
      if req.cpuRequest == "" {
        req := req.(cpuRequest := "100m");
      }
      if req.memoryLimit == "" {
        req := req.(memoryLimit := "128Mi");
      }
      app := AppRow(tenantId, req.name, req.image, req.port, req.minInstances, req.maxInstances,
                    req.targetConcurrency, req.cpuRequest, req.memoryLimit, req.env, false);
    }

    method Create(id: string, tenantId: string, req: CreateRequest, fault: Fault) returns (r: Result<AppRow>, ghost order: seq<string>)
      requires Fits(fault)
      modifies db`apps, k8sClient
      ensures State() == Apply(old(State()), Op.Create(id, tenantId, req), order, fault)
      ensures WorldStored(old(State()), State(), Op.Create(id, tenantId, req), fault)
      ensures r.Ok? ==> id in db.apps && r.value == db.apps[id] && FilledIn(r.value, tenantId, req)
      ensures r.Ok? <==> Accepted(old(State()), Op.Create(id, tenantId, req)) && !fault.StoreFails?
                         && forall row | FilledIn(row, tenantId, req) :: Storable(row)
      ensures r.Err? ==> State() == old(State())
    {
      WorldChanges(State(), Op.Create(id, tenantId, req), fault);
      CreateAccepted(State(), id, tenantId, req);
      CreateApplies(State(), id, tenantId, req, fault);
      hide Accepted, Apply, WorldStored, Storable, NewRow, FilledIn, Synced, NameTaken;
      order := [];
      if req.name == "" {
        return Err("app name is required"), order;
      }
      if req.image == "" {
        return Err("image is required"), order;
      }
      var app := RowWithDefaults(tenantId, req);
      FilledInOnce(app, tenantId, req);
      NamesOfRows(World(db.apps, db.tenants, map[], map[]), State(), tenantId, req.name);
      var ok := db.CreateApp(id, app, fault);
      if !ok {
        return Err("adapter: create app"), order;
      }
      order := SyncAppToK8s(id, app, fault);
      r := Ok(app);
    }

    /** The three scaling fields, where the request sets them. */
    method ChangeScaling(row: AppRow, req: UpdateRequest) returns (app: AppRow)
      ensures app == row.(minInstances := UpdatedRow(row, req).minInstances, maxInstances := UpdatedRow(row, req).maxInstances,
                          targetConcurrency := UpdatedRow(row, req).targetConcurrency)
    {
      app := row;
      if req.minInstances.Some? {
        app := app.(minInstances := req.minInstances.value);
      }
      if req.maxInstances.Some? {
        app := app.(maxInstances := req.maxInstances.value);
      }
      if req.targetConcurrency.Some? {
        app := app.(targetConcurrency := req.targetConcurrency.value);
      }
    }

    method ChangeFields(row: AppRow, req: UpdateRequest) returns (app: AppRow)
      ensures app == UpdatedRow(row, req) && ChangedBy(row, app, req)
    {
      app := row;
      if req.image != "" {
        app := app.(image := req.image);
      }
      if req.port != 0 {
        app := app.(port := req.port);
      }
      app := ChangeScaling(app, req);
      if req.cpuRequest != "" {
        app := app.(cpuRequest := req.cpuRequest);
      }
      if req.memoryLimit != "" {
        app := app.(memoryLimit := req.memoryLimit);
      }
      if req.paused.Some? {
        app := app.(paused := req.paused.value);
      }
    }

    method Update(id: string, req: UpdateRequest, fault: Fault) returns (r: Result<AppRow>, ghost order: seq<string>)
      requires Fits(fault)
      modifies db`apps, k8sClient
      ensures State() == Apply(old(State()), Op.Update(id, req), order, fault)
      ensures WorldStored(old(State()), State(), Op.Update(id, req), fault)
      ensures r.Ok? ==> id in db.apps && r.value == db.apps[id]
      ensures r.Ok? ==> id in old(db.apps) && ChangedBy(old(db.apps)[id], r.value, req)
      ensures r.Ok? <==> id in old(db.apps) && !fault.StoreFails?
                         && forall row | ChangedBy(old(db.apps)[id], row, req) :: Storable(row)
      ensures r.Err? ==> State() == old(State())
    {
      WorldChanges(State(), Op.Update(id, req), fault);
      EditApplies(State(), Op.Update(id, req), fault);
      hide Apply, WorldStored, Stored;
      order := [];
      var found := db.GetAppByID(id);
      if found.Err? {
        return Err(found.message), order;
      }
      var app := ChangeFields(found.value, req);
      ChangedByOnce(found.value, app, req);
      hide UpdatedRow, ChangedBy, Synced, Storable;
      var ok;
      ok, order := Save(id, app, fault);
      r := if ok then Ok(app) else Err("store: update app");
    }

    method Delete(id: string, fault: Fault) returns (ok: bool)
      requires Fits(fault)
      modifies db`apps, k8sClient
      ensures State() == Apply(old(State()), Op.Delete(id), [], fault)
      ensures WorldStored(old(State()), State(), Op.Delete(id), fault)
      ensures ok <==> id in old(db.apps) && !fault.StoreFails?
    {
      WorldChanges(State(), Op.Delete(id), fault);
      hide WorldStored;
      var found := db.GetAppByID(id);
      if found.Err? {
        return false;
      }
      ok := db.DeleteApp(id, fault);
      if !ok {
        return;
      }
      if k8sClient != null {
        var tenant := db.GetTenantByID(found.value.tenantId, fault);
        if tenant.Ok? {
          k8sClient.DeleteAppCRD(found.value.name, tenant.value.name, fault);
        }
      }
    }

    method Redeploy(id: string, fault: Fault) returns (r: Result<AppRow>, ghost order: seq<string>)
      requires Fits(fault)
      modifies db`apps, k8sClient
      ensures State() == Apply(old(State()), Op.Redeploy(id), order, fault)
      ensures WorldStored(old(State()), State(), Op.Redeploy(id), fault)
      ensures r.Ok? ==> id in db.apps && r.value == db.apps[id] && db.apps == old(db.apps)
      ensures r.Ok? <==> id in old(db.apps) && !fault.StoreFails? && Storable(old(db.apps)[id])
      ensures r.Err? ==> State() == old(State())
    {
      WorldChanges(State(), Op.Redeploy(id), fault);
      EditApplies(State(), Op.Redeploy(id), fault);
      hide Apply, WorldStored, Stored;
      order := [];
      var found := db.GetAppByID(id);
      if found.Err? {
        return Err(found.message), order;
      }
      var ok;
      ok, order := Save(id, found.value, fault);
      r := if ok then Ok(found.value) else Err("store: update app");
    }

    method UpdateEnv(id: string, envVars: Env, fault: Fault) returns (r: Result<Env>, ghost order: seq<string>)
      requires Fits(fault)
      modifies db`apps, k8sClient
      ensures State() == Apply(old(State()), Op.UpdateEnv(id, envVars), order, fault)
      ensures WorldStored(old(State()), State(), Op.UpdateEnv(id, envVars), fault)
      ensures r.Ok? ==> id in db.apps && r.value == db.apps[id].env == envVars
      ensures r.Ok? <==> id in old(db.apps) && !fault.StoreFails? && Storable(old(db.apps)[id])
      ensures r.Err? ==> State() == old(State())
    {
      WorldChanges(State(), Op.UpdateEnv(id, envVars), fault);
      EditApplies(State(), Op.UpdateEnv(id, envVars), fault);
      hide Apply, WorldStored, Stored;
      order := [];
      var found := db.GetAppByID(id);
      if found.Err? {
        return Err(found.message), order;
      }
      var app := found.value.(env := envVars);
      var ok;
      ok, order := Save(id, app, fault);
      r := if ok then Ok(envVars) else Err("store: update app");
    }

    method PatchEnv(id: string, patch: Env, fault: Fault) returns (r: Result<Env>, ghost order: seq<string>)
      requires Fits(fault)
      modifies db`apps, k8sClient
      ensures State() == Apply(old(State()), Op.PatchEnv(id, patch), order, fault)
      ensures WorldStored(old(State()), State(), Op.PatchEnv(id, patch), fault)
      ensures r.Ok? ==> id in db.apps && r.value == db.apps[id].env
      ensures r.Ok? ==> id in old(db.apps) && PatchedBy(old(db.apps)[id].env, patch, r.value)
      ensures r.Ok? <==> id in old(db.apps) && !fault.StoreFails? && Storable(old(db.apps)[id])
      ensures r.Err? ==> State() == old(State())
    {
      WorldChanges(State(), Op.PatchEnv(id, patch), fault);
      EditApplies(State(), Op.PatchEnv(id, patch), fault);
      hide Apply, WorldStored, Stored;
      order := [];
      hide Patched, PatchedBy, Synced;
      var found := db.GetAppByID(id);
      if found.Err? {
        return Err(found.message), order;
      }
      var env := MergePatch(found.value.env, patch);
      var ok;
      ok, order := Save(id, found.value.(env := env), fault);
      r := if ok then Ok(env) else Err("store: update app");
    }

    /** The merge loop; the map may be walked in any order. */
    method MergePatch(base: Env, patch: Env) returns (env: Env)
      ensures env == Patched(base, patch) && PatchedBy(base, patch, env)
    {
      env := base;
      ghost var order: seq<string> := [];
      var todo := patch.Keys;
      while todo != {}
        invariant todo <= patch.Keys && Enumerates(order, patch.Keys - todo)
        invariant forall k | k in order :: k in patch
        invariant env == PatchInOrder(base, patch, order)
      {
        var k :| k in todo;
        if patch[k] == "" {
          env := env - {k};
        } else {
          env := env[k := patch[k]];
        }
        assert (order + [k])[..|order|] == order;
        order := order + [k];
        todo := todo - {k};
      }
      assert patch.Keys - todo == patch.Keys;
      PatchOrderIrrelevant(base, patch, order);
      PatchMeaning(base, patch, order);
    }

    method ListDomains(id: string) returns (r: Result<seq<string>>)
      ensures r.Ok? <==> id in db.apps
      ensures r.Ok? ==> r.value == DomainsOf(db.apps[id].env)
    {
      var found := db.GetAppByID(id);
      if found.Err? {
        return Err(found.message);
      }
      var env := found.value.env;
      var domains := ParseDomains(if DOMAINS_KEY in env then env[DOMAINS_KEY] else "");
      r := Ok(domains);
    }

    /** The edit AddDomain makes to the fetched environment. */
    method AppendDomain(env: Env, hostname: string) returns (domains: seq<string>, edited: Option<Env>)
      requires hostname != ""
      ensures edited == DomainEdit(env, AddHost(hostname))
      ensures edited.Some? ==> domains == DomainsOf(env) + [hostname]
    {
      domains := ParseDomains(if DOMAINS_KEY in env then env[DOMAINS_KEY] else "");
      for i := 0 to |domains|
        invariant hostname !in domains[..i]
      {
        if domains[i] == hostname {
          return domains, None;
        }
      }
      domains := domains + [hostname];
      var encoded := EncodeDomains(domains);
      edited := Some(env[DOMAINS_KEY := encoded]);
    }

    method AddDomain(id: string, hostname: string, fault: Fault) returns (r: Result<seq<string>>, ghost order: seq<string>)
      requires Fits(fault)
      modifies db`apps, k8sClient
      ensures State() == Apply(old(State()), EditDomain(id, AddHost(hostname)), order, fault)
      ensures WorldStored(old(State()), State(), EditDomain(id, AddHost(hostname)), fault)
      ensures r.Ok? ==> id in old(db.apps) && r.value == DomainsOf(old(db.apps[id].env)) + [hostname]
      ensures r.Ok? <==> Accepted(old(State()), EditDomain(id, AddHost(hostname)))
                         && !fault.StoreFails? && Storable(old(db.apps)[id])
      ensures r.Err? ==> State() == old(State())
    {
      WorldChanges(State(), EditDomain(id, AddHost(hostname)), fault);
      EditApplies(State(), EditDomain(id, AddHost(hostname)), fault);
      EditAccepted(State(), EditDomain(id, AddHost(hostname)));
      hide Accepted, Apply, WorldStored, Stored, Storable, Synced, DomainsOf, Encoded;
      order := [];
      if hostname == "" {
        return Err("hostname is required"), order;
      }
      var found := db.GetAppByID(id);
      if found.Err? {
        return Err(found.message), order;
      }
      var domains, edited := AppendDomain(found.value.env, hostname);
      if edited.None? {
        return Err("domain already exists"), order;
      }
      hide DomainEdit;
      var ok;
      ok, order := Save(id, found.value.(env := edited.value), fault);
      r := if ok then Ok(domains) else Err("store: update app");
    }

    /** The edit RemoveDomain makes to the fetched environment. */
    method DropDomain(env: Env, hostname: string) returns (edited: Option<Env>)
      requires hostname != ""
      ensures edited == DomainEdit(env, RemoveHost(hostname))
    {
      var domains := ParseDomains(if DOMAINS_KEY in env then env[DOMAINS_KEY] else "");
      var filtered: seq<string> := [];
      var found := false;
      for i := 0 to |domains|
        invariant filtered == Without(domains[..i], hostname)
        invariant found <==> hostname in domains[..i]
      {
        assert domains[..i + 1][..i] == domains[..i];
        if domains[i] == hostname {
          found := true;
        } else {
          filtered := filtered + [domains[i]];
        }
      }
      assert domains[..|domains|] == domains;
      if !found {
        return None;
      }
      var encoded := EncodeDomains(filtered);
      edited := Some(env[DOMAINS_KEY := encoded]);
    }

    method RemoveDomain(id: string, hostname: string, fault: Fault) returns (ok: bool, ghost order: seq<string>)
      requires Fits(fault)
      modifies db`apps, k8sClient
      ensures State() == Apply(old(State()), EditDomain(id, RemoveHost(hostname)), order, fault)
      ensures WorldStored(old(State()), State(), EditDomain(id, RemoveHost(hostname)), fault)
      ensures !ok ==> State() == old(State())
      ensures ok <==> Accepted(old(State()), EditDomain(id, RemoveHost(hostname)))
                      && !fault.StoreFails? && Storable(old(db.apps)[id])
    {
      WorldChanges(State(), EditDomain(id, RemoveHost(hostname)), fault);
      EditApplies(State(), EditDomain(id, RemoveHost(hostname)), fault);
      EditAccepted(State(), EditDomain(id, RemoveHost(hostname)));
      hide Accepted, Apply, WorldStored, Stored, Synced, DomainsOf, Encoded;
      order := [];
      ok := false;
      if hostname == "" {
        return;
      }
      var found := db.GetAppByID(id);
      if found.Err? {
        return;
      }
      var edited := DropDomain(found.value.env, hostname);
      if edited.None? {
        return;
      }
      hide DomainEdit;
      ok, order := Save(id, found.value.(env := edited.value), fault);
    }
  }
}
