/** The tenant service in the source's own form (apiserver/service/tenant.go), over the database and the adapter it
    shares with the app service.  Every method is tied to `Mirror.Apply`. */
module TenantService {
  import opened Options
  import opened Kube
  import opened Rows
  import opened TenantMirror
  import opened AppService
  import Mirror

  function TablesOf(w: Mirror.World): Tables {
    Tables(w.tenants, w.trs)
  }

  /** What every operation of the service leaves behind, whatever goes wrong: tenant rows and resources as asked, no App
      resource touched, and of the app rows all but those of a tenant that is deleted. */
  lemma TenantsChangeExactly(w: Mirror.World, op: Op, fault: Fault)
    ensures var a := Mirror.Apply(w, Mirror.OfTenant(op), [], fault);
            && TablesStored(TablesOf(w), TablesOf(a), op, fault) && a.crs == w.crs
            && (forall i :: i in a.apps <==>
                  i in w.apps && !(op.Delete? && w.apps[i].tenantId == op.id && op.id in w.tenants && op.id !in a.tenants))
            && (forall i | i in a.apps :: a.apps[i] == w.apps[i])
  {
    hide TablesStored, Apply;
    TablesChangeExactly(TablesOf(w), op, fault);
  }

  class TenantService {
    const db: Database
    const k8sClient: K8sClientAdapter?

    constructor (db: Database, k8sClient: K8sClientAdapter?)
      ensures this.db == db && this.k8sClient == k8sClient
    {
      this.db := db;
      this.k8sClient := k8sClient;
    }

    ghost function State(): Mirror.World
      reads db, k8sClient
    {
      if k8sClient == null then Mirror.World(db.apps, db.tenants, map[], map[])
      else Mirror.World(db.apps, db.tenants, k8sClient.crs, k8sClient.trs)
    }

    /** A missing client is a fault of every operation, and of none when there is a client. */
    ghost predicate Fits(fault: Fault) {
      fault.NoClient? <==> k8sClient == null
    }

    /** Validates, fills in defaults and inserts the row. */
    method Insert(id: string, name: string, displayName0: string, plan0: string, fault: Fault)
      returns (ok: bool, tenant: TenantRow)
      modifies db`tenants
      ensures var op := Op.Create(id, name, displayName0, plan0, false);
              && (ok <==> !Refused(Tables(old(db.tenants), map[]), op) && !fault.StoreFails?)
              && tenant == NewRow(op)
              && db.tenants == (if ok then old(db.tenants)[id := tenant] else old(db.tenants))
    {
      var displayName, plan := displayName0, plan0;
      if displayName == "" {
        displayName := name;
      }
      if plan == "" {
        plan := "free";
      }
      tenant := TenantRow(name, displayName, plan);
      if name == "" || !ValidPlan(plan) {
        return false, tenant;
      }
      ok := db.CreateTenant(id, tenant, fault);
    }

    method Create(id: string, name: string, displayName: string, plan: string, memberFails: bool, fault: Fault)
      returns (ok: bool)
      requires Fits(fault)
      modifies db`tenants, k8sClient
      ensures State() == Mirror.Apply(old(State()), Mirror.OfTenant(Op.Create(id, name, displayName, plan, memberFails)), [], fault)
      ensures ok <==> !Refused(Tables(old(db.tenants), map[]), Op.Create(id, name, displayName, plan, memberFails))
                      && !fault.StoreFails? && !memberFails
    {
      var tenant;
      ok, tenant := Insert(id, name, displayName, plan, fault);
      if !ok || memberFails {
        return false;
      }
      if k8sClient != null {
        k8sClient.CreateTenantCRD(id, tenant, fault);
        assert Tables(db.tenants, k8sClient.trs) == Created(Tables(db.tenants, old(State()).trs), id, tenant, fault);
      }
    }

    method Update(id: string, displayName: string, plan: string, fault: Fault) returns (ok: bool)
      requires Fits(fault)
      modifies db`tenants, k8sClient
      ensures State() == Mirror.Apply(old(State()), Mirror.OfTenant(Op.Update(id, displayName, plan)), [], fault)
      ensures ok <==> !Refused(Tables(old(db.tenants), map[]), Op.Update(id, displayName, plan))
                      && !fault.StoreFails? && !fault.TenantLookupFails?
    {
      var found := db.GetTenantByID(id, fault);
      if found.Err? {
        return false;
      }
      var tenant := found.value;
      if displayName != "" {
        tenant := tenant.(displayName := displayName);
      }
      if plan != "" {
        if !ValidPlan(plan) {
          return false;
        }
        tenant := tenant.(plan := plan);
      }
      ok := db.UpdateTenant(id, tenant.displayName, tenant.plan, fault);
      if ok && k8sClient != null {
        k8sClient.UpdateTenantCRD(id, tenant, fault);
        assert Tables(db.tenants, k8sClient.trs) == Pushed(Tables(db.tenants, old(State()).trs), id, tenant, fault);
      }
    }

    method Delete(id: string, fault: Fault) returns (ok: bool)
      requires Fits(fault)
      modifies db, k8sClient
      ensures State() == Mirror.Apply(old(State()), Mirror.OfTenant(Op.Delete(id)), [], fault)
      ensures ok <==> id in old(db.tenants) && !fault.StoreFails? && !fault.TenantLookupFails?
    {
      var found := db.GetTenantByID(id, fault);
      if found.Err? {
        return false;
      }
      ok := db.DeleteTenant(id, fault);
      if ok && k8sClient != null {
        k8sClient.DeleteTenantCRD(found.value.name, fault);
      }
    }
  }
}
