/** What repairs an app whose resource went wrong, exactly when the repair lasts whatever the operator does next, and
    the runs without any failure in which a resource is lost. */
module MirrorRepair {
  import opened Options
  import opened Kube
  import opened DomainCodec
  import opened Rows
  import opened Mirror
  import opened MirrorTheorems
  import TM = TenantMirror

  // ----- repair -----------------------------------------------------------------------------------------------

  /** The app has a live resource that says what its row says. */
  ghost predicate Kept(w: World, id: string) {
    && id in w.apps && w.apps[id].tenantId in w.tenants && Live(w, KeyOf(w, w.apps[id]))
    && SpecMatches(w.crs[KeyOf(w, w.apps[id])].spec, w.apps[id], w.tenants[w.apps[id].tenantId].name)
  }

  /** And keeps it whatever the operator does next. */
  ghost predicate Outlasts(w: World, id: string) {
    forall turns | OperatorOnly(turns) :: Kept(Run(w, turns), id)
  }

  /** The tenant of the app is not being deleted. */
  predicate TenantStays(w: World, id: string)
    requires id in w.apps && w.apps[id].tenantId in w.tenants
  {
    !TenantDeleting(w, w.tenants[w.apps[id].tenantId].name)
  }

  lemma KeptGoesOn(w: World, t: Turn, id: string)
    requires Kept(w, id) && TenantStays(w, id) && !t.Service?
    ensures Kept(Take(w, t), id) && TenantStays(Take(w, t), id)
  {
    OperatorTurnShape(w, t);
    OperatorTouches(w, t);
    hide Take, TenantDeleting, SpecMatches;
    var key := KeyOf(w, w.apps[id]);
    if t.Drain? && t.key == key && Draining(w, key.ns) {
      var name :| TenantDeleting(w, name) && TenantNamespace(name) == key.ns;
      NamespaceInjective(name, w.tenants[w.apps[id].tenantId].name);
    }
  }

  lemma {:induction false} KeptOn(w: World, turns: seq<Turn>, id: string)
    requires Kept(w, id) && TenantStays(w, id) && OperatorOnly(turns)
    ensures Kept(Run(w, turns), id) && TenantStays(Run(w, turns), id)
  {
    hide Kept, TenantStays, Take;
    if turns != [] {
      KeptOn(w, turns[..|turns| - 1], id);
      KeptGoesOn(Run(w, turns[..|turns| - 1]), turns[|turns| - 1], id);
    }
  }

  lemma DrainUnkeeps(w: World, id: string)
    requires Kept(w, id) && !TenantStays(w, id)
    ensures !Kept(Take(w, Drain(KeyOf(w, w.apps[id]))), id)
  {
    hide SpecMatches;
    var key := KeyOf(w, w.apps[id]);
    assert Draining(w, key.ns);
  }

  /** An app keeps its resource through everything the operator may do exactly when it has it now and its tenant
      is not being deleted. */
  lemma OutlastsIsExact(w: World, id: string)
    ensures Outlasts(w, id) <==> Kept(w, id) && TenantStays(w, id)
  {
    hide Take, TenantStays, SpecMatches, Live;
    if Kept(w, id) && TenantStays(w, id) {
      forall turns | OperatorOnly(turns)
        ensures Kept(Run(w, turns), id)
      {
        KeptOn(w, turns, id);
      }
    } else if Kept(w, id) {
      var t := Drain(KeyOf(w, w.apps[id]));
      DrainUnkeeps(w, id);
      RunOfOne(w, t);
      assert OperatorOnly([t]);
    } else {
      RunOfOne(w, Drain(Key("", "")));
      assert OperatorOnly([]);
    }
  }

  /** Nothing that is being deleted stands in the way of the row's resource. */
  predicate Clear(w: World, row: AppRow)
    requires row.tenantId in w.tenants
  {
    !Terminating(w, KeyOf(w, row)) && !TenantDeleting(w, w.tenants[row.tenantId].name)
  }

  /** Storing and syncing a row gives it a live resource exactly when no resource at its key was being deleted,
      and one that lasts exactly when its tenant's resource was not being deleted either. */
  lemma SyncLastsExactly(w: World, id: string, row: AppRow, order: seq<string>)
    requires row.tenantId in w.tenants && Storable(row)
    ensures var after := Stored(w, id, row, order, NoFault);
            && (Kept(after, id) <==> !Terminating(w, KeyOf(w, row)))
            && (Outlasts(after, id) <==> Clear(w, row))
            && (Terminating(w, KeyOf(w, row)) ==> KeyOf(w, row) !in Take(after, Finalise(KeyOf(w, row))).crs)
  {
    StoredShape(w, id, row, order);
    var after := Stored(w, id, row, order, NoFault);
    OutlastsIsExact(after, id);
    TablesDecide(w, after);
    hide Stored, Outlasts, SpecMatches, TenantDeleting;
  }

  /** From any world whose agreement lasts, creating an app keeps it so exactly when nothing that is being deleted
      stands in its way. */
  lemma CreateLastsExactly(w: World, op: Op, order: seq<string>)
    requires Integrity(w) && Lasting(w) && Inserts(w, op)
    ensures Lasting(Apply(w, op, order, NoFault)) <==> Clear(w, NewRow(op.tenantId, op.creq).value)
  {
    hide Apply, Lasting, Terminating, TenantDeleting;
    CallIsExact(w, op, order);
  }

  /** Whatever the resources are like, a fault-free Redeploy touches no other app's resource and leaves this one
      as the row says; that lasts exactly when nothing that is being deleted stands in the way. */
  lemma RedeployHeals(w: World, id: string, order: seq<string>)
    requires Integrity(w) && id in w.apps
    ensures var healed := Apply(w, Redeploy(id), order, NoFault);
            var key := KeyOf(w, w.apps[id]);
            && healed == w.(crs := healed.crs) && OthersSame(w, healed, key)
            && key in healed.crs
            && SpecMatches(healed.crs[key].spec, w.apps[id], w.tenants[w.apps[id].tenantId].name)
            && (Outlasts(healed, id) <==> Clear(w, w.apps[id]))
  {
    var row := w.apps[id];
    StoredShape(w, id, row, order);
    SyncLastsExactly(w, id, row, order);
    assert w.apps[id := row] == w.apps;
    hide Stored, Outlasts, SpecMatches, Terminating, TenantDeleting, Storable;
  }

  /** In particular after any history of operations, failures and operator turns. */
  lemma HistoryHeals(turns: seq<Turn>, id: string, order: seq<string>)
    requires id in Run(EmptyWorld, turns).apps
    ensures var w := Run(EmptyWorld, turns);
            && w.apps[id].tenantId in w.tenants
            && (Outlasts(Apply(w, Redeploy(id), order, NoFault), id) <==> Clear(w, w.apps[id]))
  {
    hide Outlasts, Apply, Clear, Mirrored;
    RunKeepsIntegrity(turns);
    RedeployHeals(Run(EmptyWorld, turns), id, order);
  }

  // ----- the operator can always clear the way ------------------------------------------------------------------

  lemma RunNext(w: World, turns: seq<Turn>, t: Turn)
    ensures Run(w, turns + [t]) == Take(Run(w, turns), t)
  {
    assert (turns + [t])[..|turns|] == turns;
  }

  function Sweep(keys: seq<Key>): (turns: seq<Turn>)
    ensures OperatorOnly(turns)
  {
    if keys == [] then []
    else Sweep(keys[..|keys| - 1]) + [Drain(keys[|keys| - 1])] + [Finalise(keys[|keys| - 1])]
  }

  /** Nothing at `key` is being deleted any more, and nothing is left there if its tenant drains. */
  predicate Swept(w: World, key: Key, draining: bool) {
    if draining then key !in w.crs else !Terminating(w, key)
  }

  lemma KeySwept(w: World, key: Key)
    ensures var u := Take(Take(w, Drain(key)), Finalise(key));
            && u == w.(crs := u.crs)
            && (forall k | k != key :: Find(u.crs, k) == Find(w.crs, k))
            && Swept(u, key, Draining(w, key.ns))
            && (key in u.crs ==> key in w.crs)
  {
    hide Draining;
  }

  lemma SameDrain(w: World, u: World, ns: string)
    requires u.trs == w.trs
    ensures Draining(u, ns) <==> Draining(w, ns)
  {
    TablesDecide(w, u);
    hide TenantDeleting, TenantNamespace;
  }

  lemma {:induction false} SweepRuns(w: World, keys: seq<Key>)
    ensures var u := Run(w, Sweep(keys));
            && u == w.(crs := u.crs)
            && (forall k | k in u.crs :: k in w.crs)
            && (forall k | k in keys :: Swept(u, k, Draining(w, k.ns)))
  {
    hide Take, Draining, Swept;
    if keys != [] {
      var n := |keys| - 1;
      var mid := Run(w, Sweep(keys[..n]));
      SweepRuns(w, keys[..n]);
      RunNext(w, Sweep(keys[..n]), Drain(keys[n]));
      RunNext(w, Sweep(keys[..n]) + [Drain(keys[n])], Finalise(keys[n]));
      KeySwept(mid, keys[n]);
      var u := Take(Take(mid, Drain(keys[n])), Finalise(keys[n]));
      forall k | k in u.crs
        ensures k in w.crs
      {
        assert k != keys[n] ==> Find(u.crs, k) == Find(mid.crs, k);
      }
      forall k | k in keys
        ensures Swept(u, k, Draining(w, k.ns))
      {
        SameDrain(w, mid, k.ns);
        if k != keys[n] {
          assert k in keys[..n];
          SweptElsewhere(mid, u, k, Draining(w, k.ns));
        }
      }
    }
  }

  lemma SweptElsewhere(a: World, b: World, k: Key, draining: bool)
    requires Swept(a, k, draining) && Find(b.crs, k) == Find(a.crs, k)
    ensures Swept(b, k, draining)
  {
  }

  /** From every world the operator has turns, no listing failing, that end every deletion in the tenant's way. */
  lemma WayIsCleared(w: World, id: string) returns (rest: seq<Turn>)
    requires id in w.apps && w.apps[id].tenantId in w.tenants
    ensures OperatorOnly(rest) && forall i | 0 <= i < |rest| :: rest[i].FinaliseTenant? ==> !rest[i].listingFails
    ensures var u := Run(w, rest); u.apps == w.apps && u.tenants == w.tenants && Clear(u, w.apps[id])
  {
    hide Take, Draining, Swept, Run, Sweep, Terminating, TenantDeleting, TenantNamespace;
    var name := w.tenants[w.apps[id].tenantId].name;
    var keys := SomeOrder(set k | k in w.crs && k.ns == TenantNamespace(name));
    SweepRuns(w, keys);
    var u := Run(w, Sweep(keys));
    NoTenantTurns(keys);
    RunNext(w, Sweep(keys), FinaliseTenant(name, false));
    rest := Sweep(keys) + [FinaliseTenant(name, false)];
    forall k | k in u.crs && k.ns == TenantNamespace(name)
      ensures Swept(u, k, Draining(w, k.ns))
    {
      assert k in keys;
    }
    SweptIsClear(w, u, name, KeyOf(w, w.apps[id]));
  }

  lemma {:induction false} NoTenantTurns(keys: seq<Key>)
    ensures forall i | 0 <= i < |Sweep(keys)| :: !Sweep(keys)[i].FinaliseTenant?
  {
    if keys != [] {
      NoTenantTurns(keys[..|keys| - 1]);
    }
  }

  lemma SweptIsClear(w: World, u: World, name: string, key: Key)
    requires u == w.(crs := u.crs) && key.ns == TenantNamespace(name)
    requires forall k: Key | k in u.crs && k.ns == TenantNamespace(name) :: Swept(u, k, Draining(w, k.ns))
    ensures var t := Take(u, FinaliseTenant(name, false));
            && t == u.(trs := t.trs) && !Terminating(t, key) && !TenantDeleting(t, name)
  {
    hide TenantNamespace;
    if TenantDeleting(w, name) {
      assert Draining(w, key.ns);
    }
    assert key in u.crs ==> Swept(u, key, Draining(w, key.ns));
  }

  /** So after any history at all the operator can clear the way, and a Redeploy then heals for good. */
  lemma HealsOnceClear(turns: seq<Turn>, id: string, order: seq<string>) returns (rest: seq<Turn>)
    requires id in Run(EmptyWorld, turns).apps
    ensures OperatorOnly(rest)
    ensures var u := Run(Run(EmptyWorld, turns), rest);
            && u.apps == Run(EmptyWorld, turns).apps && u.tenants == Run(EmptyWorld, turns).tenants
            && Outlasts(Apply(u, Redeploy(id), order, NoFault), id)
  {
    hide Outlasts, Apply, Clear, Mirrored, Run, Storable;
    RunKeepsIntegrity(turns);
    var w := Run(EmptyWorld, turns);
    rest := WayIsCleared(w, id);
    RedeployHeals(Run(w, rest), id, order);
  }

  /** The identifying labels are written only on creation: after a Redeploy they name this app exactly
      when they did before or the resource was missing. */
  lemma RedeployKeepsLabels(w: World, id: string, order: seq<string>)
    requires Integrity(w) && id in w.apps
    ensures var healed := Apply(w, Redeploy(id), order, NoFault);
            var key := KeyOf(w, w.apps[id]);
            && key in healed.crs
            && (healed.crs[key].appId == id <==> key !in w.crs || w.crs[key].appId == id)
  {
    hide DesiredSpec;
  }

  // ----- an app created again too soon ------------------------------------------------------------------------

  /** A row without a resource. */
  predicate Lost(w: World, id: string) {
    id in w.apps && w.apps[id].tenantId in w.tenants && KeyOf(w, w.apps[id]) !in w.crs
  }

  /** The run that loses a resource although every call succeeds: the operator holds the resource, the app is
      deleted, and it is created again under its name before the operator has finished.  The new row finds the
      old resource, writes its spec into it, and loses it when the deletion ends. */
  lemma RecreatedTooSoon(w: World, id: string, newId: string, req: CreateRequest, order: seq<string>)
    requires Integrity(w) && Mirrored(w) && id in w.apps && newId !in w.apps
    requires var row := NewRow(w.apps[id].tenantId, req);
             row.Some? && row.value.name == w.apps[id].name && Storable(row.value)
    ensures var row := NewRow(w.apps[id].tenantId, req).value;
            var key := KeyOf(w, row);
            var deleted := Take(Take(w, Adopt(key)), Turn.Service(Delete(id), [], NoFault));
            var created := Take(deleted, Turn.Service(Create(newId, row.tenantId, req), order, NoFault));
            var lost := Take(created, Finalise(key));
            && Integrity(deleted) && Mirrored(deleted) && Terminating(deleted, key)
            && key in created.crs && SpecMatches(created.crs[key].spec, row, w.tenants[row.tenantId].name)
            && newId in lost.apps && lost.apps[newId] == row && Lost(lost, newId)
  {
    hide Mirrored, SpecMatches, Storable, Adopted, Stored, Unmirrored;
    var row := NewRow(w.apps[id].tenantId, req).value;
    RowOf(w.apps[id].tenantId, req);
    HeldAppMarked(w, id);
    var deleted := Take(Take(w, Adopt(KeyOf(w, row))), Turn.Service(Delete(id), [], NoFault));
    NameIsFree(w, deleted, id);
    hide NameTaken, NewRow, Take;
    CreatedIsLost(deleted, newId, row.tenantId, req, order);
  }

  lemma RowOf(tenantId: string, req: CreateRequest)
    ensures NewRow(tenantId, req).Some? ==> NewRow(tenantId, req).value.tenantId == tenantId
  {
  }

  /** A row created over a resource that is being deleted. */
  lemma CreatedIsLost(w: World, id: string, tenantId: string, req: CreateRequest, order: seq<string>)
    requires Integrity(w) && Inserts(w, Create(id, tenantId, req))
    requires Terminating(w, KeyOf(w, NewRow(tenantId, req).value))
    ensures var row := NewRow(tenantId, req).value;
            var key := KeyOf(w, row);
            var created := Take(w, Turn.Service(Create(id, tenantId, req), order, NoFault));
            var lost := Take(created, Finalise(key));
            && key in created.crs && SpecMatches(created.crs[key].spec, row, w.tenants[tenantId].name)
            && id in lost.apps && lost.apps[id] == row && Lost(lost, id)
  {
    hide SpecMatches, Storable, NameTaken, Stored;
    StoredShape(w, id, NewRow(tenantId, req).value, order);
  }

  lemma AdoptionKeepsMirror(w: World, key: Key)
    requires Agrees(w)
    ensures Agrees(Take(w, Adopt(key)))
  {
    hide SpecMatches, Storable;
    var after := Take(w, Adopt(key));
    assert Integrity(after);
    forall i | i in after.apps
      ensures MirroredAt(after, i)
    {
      assert MirroredAt(w, i);
    }
    forall k | Live(after, k)
      ensures Covered(after, k)
    {
      assert Live(w, k) && Covered(w, k);
      var i :| i in w.apps && KeyOf(w, w.apps[i]) == k;
      assert i in after.apps && KeyOf(after, after.apps[i]) == k;
    }
  }

  /** Deleting an app whose resource is held takes the row and marks the resource. */
  lemma HeldAppMarked(w: World, id: string)
    requires Integrity(w) && Mirrored(w) && id in w.apps
    ensures var key := KeyOf(w, w.apps[id]);
            var deleted := Take(Take(w, Adopt(key)), Turn.Service(Delete(id), [], NoFault));
            && deleted.apps == w.apps - {id} && deleted.tenants == w.tenants && Terminating(deleted, key)
            && Integrity(deleted) && Mirrored(deleted)
  {
    hide Mirrored, Adopted, Apply, Terminating;
    var key := KeyOf(w, w.apps[id]);
    assert MirroredAt(w, id) by { RowIsMirrored(w, id); }
    MarkShape(w, id);
    AdoptionKeepsMirror(w, key);
    NotInserting(Take(w, Adopt(key)), Delete(id));
    CallKeepsMirror(Take(w, Adopt(key)), Delete(id), []);
  }

  lemma RowIsMirrored(w: World, id: string)
    requires Agrees(w) && id in w.apps
    ensures MirroredAt(w, id)
  {
    hide MirroredAt;
  }

  lemma MarkShape(w: World, id: string)
    requires Integrity(w) && id in w.apps && MirroredAt(w, id)
    ensures var key := KeyOf(w, w.apps[id]);
            var deleted := Take(Take(w, Adopt(key)), Turn.Service(Delete(id), [], NoFault));
            deleted.apps == w.apps - {id} && deleted.tenants == w.tenants && Terminating(deleted, key)
  {
    hide SpecMatches, Storable;
  }

  lemma NameIsFree(w: World, deleted: World, id: string)
    requires Integrity(w) && id in w.apps && deleted.apps == w.apps - {id}
    ensures !NameTaken(deleted, w.apps[id].tenantId, w.apps[id].name)
  {
    hide Storable;
  }

  // ----- and from nothing ---------------------------------------------------------------------------------------

  const Hello := CreateRequest("hello", "hello:1", 0, 0, 0, 0, "", "", map[])
  const Acme := TenantRow("acme", "acme", "free")
  const HelloKey := Key(TenantNamespace("acme"), "hello")

  function Call(op: Op): Turn {
    Turn.Service(op, [], NoFault)
  }

  function NewTenant(id: string): Turn {
    Call(OfTenant(TM.Create(id, "acme", "", "", false)))
  }

  function NewApp(id: string, tenantId: string): Turn {
    Call(Create(id, tenantId, Hello))
  }

  lemma RunOfFive(a: Turn, b: Turn, c: Turn, d: Turn, e: Turn)
    ensures Run(EmptyWorld, [a, b, c, d, e]) == Take(Take(Take(Take(Take(EmptyWorld, a), b), c), d), e)
  {
    hide Take;
    RunOfOne(EmptyWorld, a);
    RunNext(EmptyWorld, [a], b);
    RunNext(EmptyWorld, [a, b], c);
    RunNext(EmptyWorld, [a, b, c], d);
    RunNext(EmptyWorld, [a, b, c, d], e);
    assert [a] + [b] == [a, b];
    assert [a, b] + [c] == [a, b, c];
    assert [a, b, c] + [d] == [a, b, c, d];
    assert [a, b, c, d] + [e] == [a, b, c, d, e];
  }

  lemma RunOfSix(a: Turn, b: Turn, c: Turn, d: Turn, e: Turn, f: Turn)
    ensures Run(EmptyWorld, [a, b, c, d, e, f]) == Take(Take(Take(Take(Take(Take(EmptyWorld, a), b), c), d), e), f)
  {
    hide Take;
    RunOfFive(a, b, c, d, e);
    RunNext(EmptyWorld, [a, b, c, d, e], f);
    assert [a, b, c, d, e] + [f] == [a, b, c, d, e, f];
  }

  lemma HelloRow(tenantId: string)
    ensures var row := NewRow(tenantId, Hello);
            row.Some? && row.value.tenantId == tenantId && row.value.name == "hello" && Storable(row.value)
  {
  }

  /** Creating the app in a tenant without apps, where it has no resource. */
  lemma FirstApp(w: World, id: string, tenantId: string)
    requires w.apps == map[] && tenantId in w.tenants && w.tenants[tenantId] == Acme && HelloKey !in w.crs
    ensures var after := Take(w, NewApp(id, tenantId));
            && after == w.(apps := map[id := NewRow(tenantId, Hello).value], crs := after.crs)
            && HelloKey in after.crs && !after.crs[HelloKey].held && !after.crs[HelloKey].deleting
            && after.crs[HelloKey].appId == id && after.crs[HelloKey].tenantId == tenantId
            && SpecMatches(after.crs[HelloKey].spec, NewRow(tenantId, Hello).value, "acme")
            && (forall k | k != HelloKey :: Find(after.crs, k) == Find(w.crs, k))
  {
    hide SpecMatches, DesiredSpec, Storable, NewRow, TenantNamespace;
    HelloRow(tenantId);
    var row := NewRow(tenantId, Hello).value;
    DesiredMatches(row, "acme", []);
    assert w.apps[id := row] == map[id := row];
  }

  lemma SoleAppAgrees(w: World, id: string, tenantId: string)
    requires w.apps == map[id := NewRow(tenantId, Hello).value] && w.tenants == map[tenantId := Acme]
    requires Live(w, HelloKey) && w.crs[HelloKey].appId == id && w.crs[HelloKey].tenantId == tenantId
    requires SpecMatches(w.crs[HelloKey].spec, NewRow(tenantId, Hello).value, "acme")
    requires forall k | k != HelloKey :: k !in w.crs
    ensures Agrees(w) && KeyOf(w, w.apps[id]) == HelloKey
  {
    hide SpecMatches, TenantNamespace, NewRow, Storable;
    HelloRow(tenantId);
    assert Integrity(w);
    assert MirroredAt(w, id);
    forall k | Live(w, k)
      ensures Covered(w, k)
    {
      assert k == HelloKey && KeyOf(w, w.apps[id]) == HelloKey;
    }
  }

  /** One tenant with one app. */
  lemma OneApp() returns (w: World)
    ensures w == Take(Take(EmptyWorld, NewTenant("t")), NewApp("a", "t"))
    ensures Agrees(w) && w.apps == map["a" := NewRow("t", Hello).value] && w.tenants == map["t" := Acme]
    ensures KeyOf(w, w.apps["a"]) == HelloKey
  {
    var t := Take(EmptyWorld, NewTenant("t"));
    assert t.apps == map[] && t.tenants == map["t" := Acme] && t.crs == map[];
    FirstApp(t, "a", "t");
    hide Take, SpecMatches, TenantNamespace, NewRow, Storable, Agrees;
    w := Take(t, NewApp("a", "t"));
    OnlyOne(t.crs, w.crs);
    SoleAppAgrees(w, "a", "t");
  }

  lemma OnlyOne(before: map<Key, Resource>, after: map<Key, Resource>)
    requires before == map[] && forall k | k != HelloKey :: Find(after, k) == Find(before, k)
    ensures forall k | k != HelloKey :: k !in after
  {
    forall k | k != HelloKey
      ensures k !in after
    {
      assert Find(after, k) == Find(before, k);
    }
  }

  lemma SecondAppLost(w: World)
    requires Agrees(w) && w.apps == map["a" := NewRow("t", Hello).value] && w.tenants == map["t" := Acme]
    requires KeyOf(w, w.apps["a"]) == HelloKey
    ensures Lost(Take(Take(Take(Take(w, Adopt(HelloKey)), Call(Delete("a"))), NewApp("b", "t")), Finalise(HelloKey)), "b")
  {
    hide Take, NewRow, Mirrored, Integrity, SpecMatches, TenantNamespace, Lost;
    HelloRow("t");
    RecreatedTooSoon(w, "a", "b", Hello, []);
  }

  /** An app lost by creating it again too soon, from nothing: four calls of the services and two turns of the
      operator. */
  lemma LossFromNothing() returns (turns: seq<Turn>)
    ensures FaultFree(turns) && Lost(Run(EmptyWorld, turns), "b")
  {
    hide Take, NewRow, Agrees, Lost, KeyOf, TenantNamespace;
    var w := OneApp();
    SecondAppLost(w);
    turns := [NewTenant("t"), NewApp("a", "t"), Adopt(HelloKey), Call(Delete("a")), NewApp("b", "t"), Finalise(HelloKey)];
    hide Run;
    RunOfSix(NewTenant("t"), NewApp("a", "t"), Adopt(HelloKey), Call(Delete("a")), NewApp("b", "t"), Finalise(HelloKey));
  }

  // ----- an app created in a tenant that is going away ----------------------------------------------------------

  lemma HeldTenant() returns (w: World)
    ensures w == Take(Take(EmptyWorld, NewTenant("t")), AdoptTenant("acme"))
    ensures w == World(map[], map["t" := Acme], map[], map["acme" := TM.BuildTenantCR("t", Acme).(held := true)])
  {
    var s := Take(EmptyWorld, NewTenant("t"));
    assert s == World(map[], map["t" := Acme], map[], map["acme" := TM.BuildTenantCR("t", Acme)]);
    w := Take(s, AdoptTenant("acme"));
  }

  /** A tenant that is deleted and created again while the operator still holds its resource keeps the old one. */
  lemma TenantAgain() returns (w: World)
    ensures w == Take(Take(Take(Take(EmptyWorld, NewTenant("t")), AdoptTenant("acme")), Call(OfTenant(TM.Delete("t")))), NewTenant("u"))
    ensures w.apps == map[] && w.tenants == map["u" := Acme] && w.crs == map[] && TenantDeleting(w, "acme")
  {
    var s := HeldTenant();
    var marked := TM.BuildTenantCR("t", Acme).(held := true, deleting := true);
    var deleted := Take(s, Call(OfTenant(TM.Delete("t"))));
    assert deleted == World(map[], map[], map[], map["acme" := marked]);
    w := Take(deleted, NewTenant("u"));
    assert w == World(map[], map["u" := Acme], map[], map["acme" := marked]);
  }

  /** An app of a tenant that is going away loses its resource to the drain. */
  lemma DrainLoses(w: World, id: string)
    requires Agrees(w) && id in w.apps && KeyOf(w, w.apps[id]) == HelloKey && !TenantStays(w, id)
    requires HelloKey in w.crs && !w.crs[HelloKey].held
    ensures !Lasting(w) && Lost(Take(w, Drain(HelloKey)), id)
  {
    LastingIsExact(w);
    assert TenantDeleting(w, w.tenants[w.apps[id].tenantId].name);
    assert Draining(w, HelloKey.ns);
    hide Mirrored, Integrity, Lasting, TenantNamespace, TenantDeleting;
  }

  /** An app created in the tenant that is going away agrees for now. */
  lemma AppInOldTenant(w: World)
    requires w.apps == map[] && w.tenants == map["u" := Acme] && w.crs == map[] && TenantDeleting(w, "acme")
    ensures var after := Take(w, NewApp("b", "u"));
            Agrees(after) && !Lasting(after) && Lost(Take(after, Drain(HelloKey)), "b")
  {
    FirstApp(w, "b", "u");
    var after := Take(w, NewApp("b", "u"));
    TablesDecide(w, after);
    hide Take, NewRow, SpecMatches, Lasting, TenantDeleting, TenantNamespace, Lost, Agrees;
    OnlyOne(w.crs, after.crs);
    SoleAppAgrees(after, "b", "u");
    HelloRow("u");
    DrainLoses(after, "b");
  }

  /** The run that loses a resource although every call succeeds and none meets an App that is being deleted: a
      tenant is deleted and created again, an app is created in it, rows and resources agree, and the drain of the
      old Tenant takes the new app's resource. */
  lemma LossInRecreatedTenant() returns (turns: seq<Turn>)
    ensures FaultFree(turns) && |turns| == 6 && turns[5] == Drain(HelloKey)
    ensures Agrees(Run(EmptyWorld, turns[..5])) && !Lasting(Run(EmptyWorld, turns[..5]))
    ensures Lost(Run(EmptyWorld, turns), "b")
  {
    hide Take, Lasting, TenantDeleting, Lost, Agrees, TenantNamespace;
    var w := TenantAgain();
    AppInOldTenant(w);
    var delete := Call(OfTenant(TM.Delete("t")));
    turns := [NewTenant("t"), AdoptTenant("acme"), delete, NewTenant("u"), NewApp("b", "u"), Drain(HelloKey)];
    hide Run;
    assert turns[..5] == [NewTenant("t"), AdoptTenant("acme"), delete, NewTenant("u"), NewApp("b", "u")];
    RunOfFive(NewTenant("t"), AdoptTenant("acme"), delete, NewTenant("u"), NewApp("b", "u"));
    RunOfSix(NewTenant("t"), AdoptTenant("acme"), delete, NewTenant("u"), NewApp("b", "u"), Drain(HelloKey));
  }
}
