/** The cluster that the mirror runs against is the operator's: every run of the mirror is a run of one API server, in
    which the services are users and the operator's turns are calls of its passes. */
module MirrorCluster {
  import opened Options
  import opened Kube
  import opened ApiServer
  import Operator
  import Mirror
  import TM = TenantMirror
  import Rows

  predicate SameApp(app: App, r: Mirror.Resource) {
    app.finalizers == (if r.held then {FINALIZER_APP} else {}) && app.deleting == r.deleting && app.spec == r.spec
  }

  predicate SameTenant(t: Tenant, r: TM.TenantResource) {
    && t.finalizers == (if r.held then {FINALIZER_TENANT} else {}) && t.deleting == r.deleting
    && t.spec.plan == r.plan && t.spec.ownerEmail == r.ownerEmail
  }

  /** What the mirror writes, and nothing else that could be written to. */
  datatype Objects = Objects(crs: map<Key, Mirror.Resource>, trs: map<string, TM.TenantResource>)

  function ObjectsOf(w: Mirror.World): Objects {
    Objects(w.crs, w.trs)
  }

  /** Store and mirror hold the same Apps and Tenants, and only what a finalizer holds waits to be deleted. */
  ghost predicate Same(s: Store, o: Objects) {
    && s.apps.Keys == o.crs.Keys && s.tenants.Keys == o.trs.Keys
    && (forall k | k in o.crs :: SameApp(s.apps[k], o.crs[k]) && (o.crs[k].deleting ==> o.crs[k].held))
    && (forall n | n in o.trs :: SameTenant(s.tenants[n], o.trs[n]) && (o.trs[n].deleting ==> o.trs[n].held))
  }

  // ----- what one turn writes -----------------------------------------------------------------------------------

  datatype Effect =
    | Nothing
    | AppCreated(key: Key, appId: string, tenantId: string, spec: AppSpec)
    | AppChanged(key: Key, spec: AppSpec)
    | AppDeleted(key: Key)
    | TenantCreated(name: string, id: string, row: Rows.TenantRow)
    | TenantChanged(name: string, row: Rows.TenantRow)
    | TenantDeleted(name: string)

  predicate Enabled(o: Objects, e: Effect) {
    match e
    case Nothing => true
    case AppCreated(key, _, _, _) => key !in o.crs
    case AppChanged(key, _) => key in o.crs
    case AppDeleted(key) => key in o.crs
    case TenantCreated(name, _, _) => name !in o.trs
    case TenantChanged(name, _) => name in o.trs
    case TenantDeleted(name) => name in o.trs
  }

  function Affected(o: Objects, e: Effect): Objects
    requires Enabled(o, e)
  {
    match e
    case Nothing => o
    case AppCreated(key, appId, tenantId, spec) =>
      o.(crs := o.crs[key := Mirror.Resource(appId, tenantId, spec, false, false)])
    case AppChanged(key, spec) => o.(crs := o.crs[key := o.crs[key].(spec := spec)])
    case AppDeleted(key) => o.(crs := Mirror.Removed(o.crs, key))
    case TenantCreated(name, id, row) => o.(trs := o.trs[name := TM.BuildTenantCR(id, row)])
    case TenantChanged(name, row) =>
      o.(trs := o.trs[name := o.trs[name].(displayName := row.displayName, plan := row.plan)])
    case TenantDeleted(name) => o.(trs := TM.Removed(o.trs, name))
  }

  ghost predicate Writes(w: Mirror.World, after: Mirror.World, e: Effect) {
    Enabled(ObjectsOf(w), e) && ObjectsOf(after) == Affected(ObjectsOf(w), e)
  }

  lemma SyncWrites(w: Mirror.World, id: string, row: Mirror.AppRow, order: seq<string>, fault: Rows.Fault) returns (e: Effect)
    ensures Writes(w, Mirror.Stored(w, id, row, order, fault), e)
  {
    hide Mirror.DesiredSpec, Mirror.Storable;
    e := Nothing;
    if row.tenantId in w.tenants {
      var key := Mirror.KeyOf(w, row);
      var after := Mirror.Stored(w, id, row, order, fault);
      if after.crs != w.crs {
        var spec := Mirror.DesiredSpec(row, w.tenants[row.tenantId].name, order);
        e := if key in w.crs then AppChanged(key, spec) else AppCreated(key, id, row.tenantId, spec);
      }
    }
  }

  lemma TenantOpWrites(w: Mirror.World, top: TM.Op, fault: Rows.Fault) returns (e: Effect)
    ensures Writes(w, Mirror.TenantApplied(w, top, fault), e)
  {
    hide Rows.ValidPlan, Rows.OrElse;
    var after := Mirror.TenantApplied(w, top, fault);
    e := Nothing;
    if after.trs != w.trs {
      match top {
        case Create(id, name, _, _, _) => e := TenantCreated(name, id, TM.NewRow(top));
        case Update(id, _, _) =>
          var row := TM.UpdatedRow(w.tenants[id], top);
          e := if row.name in w.trs then TenantChanged(row.name, row) else TenantCreated(row.name, id, row);
        case Delete(id) => e := TenantDeleted(w.tenants[id].name);
      }
    }
  }

  /** Each call of a service writes at most one object. */
  lemma CallWrites(w: Mirror.World, op: Mirror.Op, order: seq<string>, fault: Rows.Fault) returns (e: Effect)
    ensures Writes(w, Mirror.Apply(w, op, order, fault), e)
  {
    hide Mirror.Stored, Mirror.NewRow, Mirror.Edited, Mirror.TenantApplied, Mirror.Removed;
    e := Nothing;
    if op.OfTenant? {
      e := TenantOpWrites(w, op.top, fault);
    } else if op.Create? {
      if Mirror.NewRow(op.tenantId, op.creq).Some? {
        e := SyncWrites(w, op.id, Mirror.NewRow(op.tenantId, op.creq).value, order, fault);
      }
      if Mirror.Apply(w, op, order, fault) == w {
        e := Nothing;
      }
    } else if op.Delete? {
      if op.id in w.apps && w.apps[op.id].tenantId in w.tenants {
        var key := Mirror.KeyOf(w, w.apps[op.id]);
        if Mirror.Apply(w, op, order, fault).crs != w.crs {
          RemovedNothing(w.crs, key);
          e := AppDeleted(key);
        }
      }
    } else if op.id in w.apps && Mirror.Edited(w.apps[op.id], op).Some? {
      e := SyncWrites(w, op.id, Mirror.Edited(w.apps[op.id], op).value, order, fault);
    }
  }

  lemma RemovedNothing(crs: map<Key, Mirror.Resource>, key: Key)
    ensures key !in crs ==> Mirror.Removed(crs, key) == crs
  {
  }

  // ----- the same at the API server -----------------------------------------------------------------------------

  /** A store with nothing going on around it. */
  function Bare(s: Store): Operator.State {
    Operator.State(s, map[], map[], {}, {}, {}, {})
  }

  /** One step of a user: creating, editing or deleting an App or a Tenant. */
  predicate ByUser(l: Operator.Label) {
    l.CreateApp? || l.EditApp? || l.DeleteApp? || l.CreateTenant? || l.EditTenant? || l.DeleteTenant?
  }

  /** A call that a pass makes of an App or a Tenant. */
  predicate ByPass(call: Call) {
    call.UpdateApp? || call.DeleteApp? || call.UpdateTenant?
  }

  ghost predicate Moved(a: Store, b: Store, user: bool) {
    || b == a
    || (user && exists l :: ByUser(l) && Operator.Step(Bare(a), l).store == b)
    || (!user && exists call, order :: ByPass(call) && Serve(a, call, order).0 == b)
  }

  /** The user's step that has this effect. */
  function LabelFor(s: Store, e: Effect): Operator.Label
    requires !e.Nothing? && (e.TenantChanged? ==> e.name in s.tenants)
    ensures ByUser(LabelFor(s, e))
  {
    match e
    case AppCreated(key, _, _, spec) => Operator.CreateApp(key, spec, {})
    case AppChanged(key, spec) => Operator.EditApp(key, spec, {})
    case AppDeleted(key) => Operator.DeleteApp(key)
    case TenantCreated(name, _, row) => Operator.CreateTenant(name, TenantSpec("", row.plan, None, 0, None), {})
    case TenantChanged(name, row) => Operator.EditTenant(name, s.tenants[name].spec.(plan := row.plan), {})
    case TenantDeleted(name) => Operator.DeleteTenant(name)
  }

  lemma AppPut(s: Store, o: Objects, after: Store, k: Key, app: App, r: Mirror.Resource)
    requires Same(s, o) && after == s.(apps := s.apps[k := app], clock := after.clock)
    requires SameApp(app, r) && (r.deleting ==> r.held)
    ensures Same(after, o.(crs := o.crs[k := r]))
  {
    hide SameApp, SameTenant;
  }

  lemma AppDropped(s: Store, o: Objects, after: Store, k: Key)
    requires Same(s, o) && after == s.(apps := s.apps - {k}, clock := after.clock)
    ensures Same(after, o.(crs := o.crs - {k}))
  {
    hide SameApp, SameTenant;
  }

  /** A pass adding the finalizer of an App. */
  lemma AdoptionSeen(s: Store, o: Objects, k: Key) returns (after: Store)
    requires Same(s, o)
    ensures Moved(s, after, false) && Same(after, o.(crs := Mirror.Adopted(o.crs, k)))
  {
    after := s;
    if k in s.apps && !s.apps[k].deleting {
      var app := s.apps[k].(finalizers := s.apps[k].finalizers + {FINALIZER_APP});
      hide Moved, Same, SameTenant;
      SameAt(s, o, k);
      after := AppCallMoves(s, UpdateApp(k, app));
      AppPut(s, o, after, k, app.(rv := s.clock), o.crs[k].(held := true));
    } else {
      SameAt(s, o, k);
      hide Same, SameApp, SameTenant;
    }
  }

  lemma SameAt(s: Store, o: Objects, k: Key)
    requires Same(s, o)
    ensures k in s.apps <==> k in o.crs
    ensures k in s.apps ==> SameApp(s.apps[k], o.crs[k]) && (o.crs[k].deleting ==> o.crs[k].held)
  {
    hide SameApp;
  }

  /** A pass deleting an App. */
  lemma RemovalSeen(s: Store, o: Objects, k: Key) returns (after: Store)
    requires Same(s, o)
    ensures Moved(s, after, false) && Same(after, o.(crs := Mirror.Removed(o.crs, k)))
  {
    SameAt(s, o, k);
    after := s;
    if k in s.apps {
      hide Moved, Same, SameTenant;
      after := AppCallMoves(s, Call.DeleteApp(k));
      if o.crs[k].held {
        assert after.apps == s.apps[k := after.apps[k]];
        AppPut(s, o, after, k, after.apps[k], o.crs[k].(deleting := true));
      } else {
        AppDropped(s, o, after, k);
      }
    } else {
      hide Same;
    }
  }

  /** A pass dropping the finalizer of an App. */
  lemma FinalisationSeen(s: Store, o: Objects, k: Key) returns (after: Store)
    requires Same(s, o)
    ensures Moved(s, after, false) && Same(after, o.(crs := Mirror.Finalised(o.crs, k)))
  {
    SameAt(s, o, k);
    after := s;
    if k in s.apps && s.apps[k].deleting {
      hide Moved, Same, SameTenant;
      after := AppCallMoves(s, UpdateApp(k, s.apps[k].(finalizers := s.apps[k].finalizers - {FINALIZER_APP})));
      AppDropped(s, o, after, k);
    } else {
      hide Same;
    }
  }

  lemma AppCallMoves(s: Store, call: Call) returns (after: Store)
    requires call.UpdateApp? || call.DeleteApp?
    ensures Moved(s, after, false)
    ensures after == s.(clock := s.clock + 1, apps := ServeApp(s.apps, s.clock, call).0)
  {
    AppServed(s, call, []);
    after := Serve(s, call, []).0;
    hide Serve, ServeApp;
    assert ByPass(call);
  }

  lemma SameTenantAt(s: Store, o: Objects, n: string)
    requires Same(s, o)
    ensures n in s.tenants <==> n in o.trs
    ensures n in s.tenants ==> SameTenant(s.tenants[n], o.trs[n]) && (o.trs[n].deleting ==> o.trs[n].held)
  {
    hide SameTenant;
  }

  lemma TenantPut(s: Store, o: Objects, after: Store, n: string, t: Tenant, r: TM.TenantResource)
    requires Same(s, o) && after == s.(tenants := s.tenants[n := t], clock := after.clock)
    requires SameTenant(t, r) && (r.deleting ==> r.held)
    ensures Same(after, o.(trs := o.trs[n := r]))
  {
    hide SameApp, SameTenant;
  }

  lemma TenantDropped(s: Store, o: Objects, after: Store, n: string)
    requires Same(s, o) && after == s.(tenants := s.tenants - {n}, clock := after.clock)
    ensures Same(after, o.(trs := o.trs - {n}))
  {
    hide SameApp, SameTenant;
  }

  /** A pass adding the finalizer of a Tenant. */
  lemma TenantAdoptionSeen(s: Store, o: Objects, rows: map<string, Rows.TenantRow>, n: string) returns (after: Store)
    requires Same(s, o)
    ensures Moved(s, after, false) && Same(after, o.(trs := TM.Take(TM.Tables(rows, o.trs), TM.Adopt(n)).crs))
  {
    SameTenantAt(s, o, n);
    after := s;
    if n in s.tenants && !s.tenants[n].deleting {
      var t := s.tenants[n].(finalizers := s.tenants[n].finalizers + {FINALIZER_TENANT});
      hide Moved, Same, SameApp;
      after := TenantCallMoves(s, UpdateTenant(n, t));
      TenantPut(s, o, after, n, t.(rv := s.clock), o.trs[n].(held := true));
    } else {
      hide Same;
    }
  }

  /** A pass dropping the finalizer of a Tenant. */
  lemma TenantFinalisationSeen(s: Store, o: Objects, rows: map<string, Rows.TenantRow>, n: string) returns (after: Store)
    requires Same(s, o)
    ensures Moved(s, after, false) && Same(after, o.(trs := TM.Take(TM.Tables(rows, o.trs), TM.Finalise(n)).crs))
  {
    SameTenantAt(s, o, n);
    after := s;
    if n in s.tenants && s.tenants[n].deleting {
      hide Moved, Same, SameApp;
      after := TenantCallMoves(s, UpdateTenant(n, s.tenants[n].(finalizers := s.tenants[n].finalizers - {FINALIZER_TENANT})));
      TenantDropped(s, o, after, n);
    } else {
      hide Same;
    }
  }

  lemma TenantCallMoves(s: Store, call: Call) returns (after: Store)
    requires call.UpdateTenant?
    ensures Moved(s, after, false)
    ensures after == s.(clock := s.clock + 1, tenants := ServeTenant(s.tenants, s.clock, call).0)
  {
    TenantServed(s, call, []);
    after := Serve(s, call, []).0;
    hide Serve, ServeTenant;
    assert ByPass(call);
  }

  lemma AppEffectSeen(s: Store, o: Objects, e: Effect)
    requires Same(s, o) && Enabled(o, e) && (e.AppCreated? || e.AppChanged? || e.AppDeleted?)
    ensures Same(Operator.Step(Bare(s), LabelFor(s, e)).store, Affected(o, e))
  {
    hide Same, SameTenant;
    SameAt(s, o, e.key);
    var after := Operator.Step(Bare(s), LabelFor(s, e)).store;
    if e.AppDeleted? && !o.crs[e.key].held {
      AppDropped(s, o, after, e.key);
    } else {
      assert after.apps == s.apps[e.key := after.apps[e.key]];
      AppPut(s, o, after, e.key, after.apps[e.key], Affected(o, e).crs[e.key]);
    }
  }

  lemma TenantEffectSeen(s: Store, o: Objects, e: Effect)
    requires Same(s, o) && Enabled(o, e) && (e.TenantCreated? || e.TenantChanged? || e.TenantDeleted?)
    ensures Same(Operator.Step(Bare(s), LabelFor(s, e)).store, Affected(o, e))
  {
    hide Same, SameApp;
    SameTenantAt(s, o, e.name);
    var after := Operator.Step(Bare(s), LabelFor(s, e)).store;
    if e.TenantDeleted? && !o.trs[e.name].held {
      TenantDropped(s, o, after, e.name);
    } else {
      assert after.tenants == s.tenants[e.name := after.tenants[e.name]];
      TenantPut(s, o, after, e.name, after.tenants[e.name], Affected(o, e).trs[e.name]);
    }
  }

  lemma EffectMoves(s: Store, o: Objects, e: Effect) returns (after: Store)
    requires Same(s, o) && Enabled(o, e)
    ensures Moved(s, after, true) && Same(after, Affected(o, e))
  {
    after := s;
    if !e.Nothing? {
      after := Operator.Step(Bare(s), LabelFor(s, e)).store;
      if e.AppCreated? || e.AppChanged? || e.AppDeleted? {
        AppEffectSeen(s, o, e);
      } else {
        TenantEffectSeen(s, o, e);
      }
    }
    hide Operator.Step, Affected, SameApp, SameTenant;
  }

  /** One turn of the mirror is at most one step of a user or one call of a pass. */
  lemma TurnIsSeen(s: Store, w: Mirror.World, t: Mirror.Turn) returns (after: Store)
    requires Same(s, ObjectsOf(w))
    ensures Moved(s, after, t.Service?) && Same(after, ObjectsOf(Mirror.Take(w, t)))
  {
    hide Moved, Same, Mirror.Apply, Mirror.Draining, Mirror.Adopted, Mirror.Removed, Mirror.Finalised, TM.Take, Affected;
    after := s;
    if t.Service? {
      var e := CallWrites(w, t.op, t.order, t.fault);
      after := EffectMoves(s, ObjectsOf(w), e);
    } else if t.AdoptTenant? {
      after := TenantAdoptionSeen(s, ObjectsOf(w), w.tenants, t.name);
    } else if t.FinaliseTenant? {
      if Mirror.Take(w, t).trs != w.trs {
        after := TenantFinalisationSeen(s, ObjectsOf(w), w.tenants, t.name);
      }
    } else if t.Adopt? {
      after := AdoptionSeen(s, ObjectsOf(w), t.key);
    } else if t.Finalise? {
      after := FinalisationSeen(s, ObjectsOf(w), t.key);
    } else if Mirror.Draining(w, t.key.ns) {
      after := RemovalSeen(s, ObjectsOf(w), t.key);
    }
    StillMoved(s);
  }

  lemma StillMoved(s: Store)
    ensures Moved(s, s, true) && Moved(s, s, false)
  {
  }

  ghost predicate StepSeen(stores: seq<Store>, turns: seq<Mirror.Turn>, i: nat)
    requires |stores| == |turns| + 1 && i < |turns|
  {
    Moved(stores[i], stores[i + 1], turns[i].Service?)
  }

  ghost predicate StateSeen(stores: seq<Store>, turns: seq<Mirror.Turn>, i: nat)
    requires |stores| == |turns| + 1 && i <= |turns|
  {
    Same(stores[i], ObjectsOf(Mirror.Run(Mirror.EmptyWorld, turns[..i])))
  }

  const EmptyStore := Store(map[], map[], map[], map[], map[], map[], map[], map[], 0)

  /** Every run of the mirror is a run of one API server, state by state: a turn of a service is a step of a user,
      one of the operator a call of a pass. */
  lemma {:induction false} RunIsSeen(turns: seq<Mirror.Turn>) returns (stores: seq<Store>)
    ensures |stores| == |turns| + 1 && stores[0] == EmptyStore
    ensures forall i | 0 <= i < |turns| :: StepSeen(stores, turns, i)
    ensures forall i | 0 <= i <= |turns| :: StateSeen(stores, turns, i)
  {
    if turns == [] {
      stores := [EmptyStore];
      assert turns[..0] == [];
    } else {
      hide Moved, Same, Mirror.Take;
      var n := |turns| - 1;
      var before := RunIsSeen(turns[..n]);
      assert StateSeen(before, turns[..n], n);
      assert turns[..n][..n] == turns[..n];
      var next := TurnIsSeen(before[n], Mirror.Run(Mirror.EmptyWorld, turns[..n]), turns[n]);
      stores := before + [next];
      forall i | 0 <= i < |turns|
        ensures StepSeen(stores, turns, i)
      {
        assert i < n ==> StepSeen(before, turns[..n], i);
      }
      forall i | 0 <= i <= |turns|
        ensures StateSeen(stores, turns, i)
      {
        if i <= n {
          assert StateSeen(before, turns[..n], i);
          assert turns[..n][..i] == turns[..i];
        } else {
          assert turns[..i] == turns;
        }
      }
    }
  }
}
