/** When the database rows and the App resources agree, whatever the operator does next: exactly when a call of a
    service keeps it so, when a run does throughout, and when one Redeploy repairs an app for good. */
module MirrorTheorems {
  import opened Options
  import opened Kube
  import opened DomainCodec
  import opened Rows
  import opened Mirror
  import TM = TenantMirror

  // ----- the resource says what the row says -----------------------------------------------------------

  /** Unique names and references make the key of a resource determine its row. */
  lemma KeysAreDistinct(w: World, i: string, j: string)
    requires Integrity(w) && i in w.apps && j in w.apps && KeyOf(w, w.apps[i]) == KeyOf(w, w.apps[j])
    ensures i == j
  {
    var s, t := w.apps[i].tenantId, w.apps[j].tenantId;
    NamespaceInjective(w.tenants[s].name, w.tenants[t].name);
    assert s == t;
  }

  // ----- integrity is kept by everything ----------------------------------------------------------------

  lemma SyncKeepsTables(w: World, id: string, row: AppRow, order: seq<string>, fault: Fault)
    ensures var after := Synced(w, id, row, order, fault); after == w.(crs := after.crs)
  {
  }

  lemma EditKeepsKeys(row: AppRow, op: Op)
    requires Edited(row, op).Some?
    ensures Edited(row, op).value.tenantId == row.tenantId && Edited(row, op).value.name == row.name
  {
  }

  lemma ApplyKeepsIntegrity(w: World, op: Op, order: seq<string>, fault: Fault)
    requires Integrity(w)
    ensures Integrity(Apply(w, op, order, fault))
  {
    if op.OfTenant? {
      TenantOpKeepsIntegrity(w, op.top, fault);
      hide TenantApplied, Integrity;
    } else if op.Create? {
      CreateKeepsIntegrity(w, op, order, fault);
      hide Apply, Integrity;
    } else if op.Delete? {
      hide Storable, Unmirrored;
      if op.id in w.apps {
        UnmirrorKeepsTables(w.(apps := w.apps - {op.id}), w.apps[op.id], fault);
      }
    } else {
      EditKeepsIntegrity(w, op, order, fault);
      hide Integrity, Stored, Edited;
    }
  }

  /** Everything a tenant operation does: nothing, a row at a free name, a row changed under its name, or a row
      gone with its apps; and at most one Tenant resource, which is marked only if the row is gone. */
  ghost predicate TenantEffect(w: World, after: World, top: TM.Op) {
    && after.crs == w.crs
    && (if top.Delete? && top.id in w.tenants && top.id !in after.tenants then
          && after.tenants == w.tenants - {top.id}
          && after.apps == (map a | a in w.apps && w.apps[a].tenantId != top.id :: w.apps[a])
          && forall n | n != w.tenants[top.id].name :: TenantDeleting(after, n) <==> TenantDeleting(w, n)
        else
          && after.apps == w.apps
          && (|| after.tenants == w.tenants
              || (&& top.id in after.tenants && after.tenants == w.tenants[top.id := after.tenants[top.id]]
                  && if top.id in w.tenants then after.tenants[top.id].name == w.tenants[top.id].name
                     else forall t | t in w.tenants :: w.tenants[t].name != after.tenants[top.id].name))
          && forall n :: TenantDeleting(after, n) <==> TenantDeleting(w, n))
  }

  lemma TenantOpEffect(w: World, top: TM.Op, fault: Fault)
    ensures TenantEffect(w, TenantApplied(w, top, fault), top)
  {
    hide OrElse, ValidPlan;
  }

  lemma TenantOpKeepsIntegrity(w: World, top: TM.Op, fault: Fault)
    requires Integrity(w)
    ensures Integrity(TenantApplied(w, top, fault))
  {
    TenantOpEffect(w, top, fault);
    hide Storable, TenantApplied, TenantDeleting;
  }

  lemma CreateKeepsIntegrity(w: World, op: Op, order: seq<string>, fault: Fault)
    requires Integrity(w) && op.Create?
    ensures Integrity(Apply(w, op, order, fault))
  {
    hide Synced, Storable;
    var row := NewRow(op.tenantId, op.creq);
    if row.Some? {
      SyncKeepsTables(w.(apps := w.apps[op.id := row.value]), op.id, row.value, order, fault);
    }
  }

  lemma EditKeepsIntegrity(w: World, op: Op, order: seq<string>, fault: Fault)
    requires Integrity(w) && !op.OfTenant?
    ensures op.id in w.apps && Edited(w.apps[op.id], op).Some? ==>
              Integrity(Stored(w, op.id, Edited(w.apps[op.id], op).value, order, fault))
  {
    hide Synced, Storable, Edited;
    if op.id in w.apps && Edited(w.apps[op.id], op).Some? {
      var row := Edited(w.apps[op.id], op).value;
      EditKeepsKeys(w.apps[op.id], op);
      SyncKeepsTables(w.(apps := w.apps[op.id := row]), op.id, row, order, fault);
    }
  }

  lemma UnmirrorKeepsTables(w: World, row: AppRow, fault: Fault)
    ensures var after := Unmirrored(w, row, fault); after == w.(crs := after.crs)
  {
  }

  lemma TurnKeepsIntegrity(w: World, t: Turn)
    requires Integrity(w)
    ensures Integrity(Take(w, t))
  {
    hide Apply, Storable, Adopted, Removed, Finalised, TM.Take;
    if t.Service? {
      ApplyKeepsIntegrity(w, t.op, t.order, t.fault);
    }
  }

  lemma {:induction false} RunKeepsIntegrity(turns: seq<Turn>)
    ensures Integrity(Run(EmptyWorld, turns))
  {
    if turns != [] {
      hide Integrity, Take;
      RunKeepsIntegrity(turns[..|turns| - 1]);
      TurnKeepsIntegrity(Run(EmptyWorld, turns[..|turns| - 1]), turns[|turns| - 1]);
    }
  }

  // ----- what keeps agreement -----------------------------------------------------------------------------

  /** The operation gets to insert a row. */
  ghost predicate Inserts(w: World, op: Op) {
    && op.Create? && NewRow(op.tenantId, op.creq).Some? && op.id !in w.apps && op.tenantId in w.tenants
    && !NameTaken(w, op.tenantId, op.creq.name) && Storable(NewRow(op.tenantId, op.creq).value)
  }

  /** What keeps rows and resources together for now: no row is inserted where a resource is still being deleted,
      and no tenant goes with its rows while their resources stay. */
  ghost predicate SafeNow(w: World, op: Op)
    requires Integrity(w)
  {
    && (Inserts(w, op) ==> !Terminating(w, KeyOf(w, NewRow(op.tenantId, op.creq).value)))
    && (op.OfTenant? && op.top.Delete? && op.top.id in w.tenants ==> forall a | a in w.apps :: w.apps[a].tenantId != op.top.id)
  }

  /** And for good: no row is inserted either in a tenant whose own resource is still being deleted. */
  ghost predicate Safe(w: World, op: Op)
    requires Integrity(w)
  {
    SafeNow(w, op) && (Inserts(w, op) ==> !TenantDeleting(w, w.tenants[op.tenantId].name))
  }

  /** A key of a new row holds no live resource when its name is free. */
  lemma NewKeyIsFree(w: World, tenantId: string, name: string)
    requires Integrity(w) && Mirrored(w) && tenantId in w.tenants && !NameTaken(w, tenantId, name)
    ensures !Live(w, Key(TenantNamespace(w.tenants[tenantId].name), name))
  {
    hide SpecMatches;
    var key := Key(TenantNamespace(w.tenants[tenantId].name), name);
    if Live(w, key) {
      assert Covered(w, key);
      var id :| id in w.apps && KeyOf(w, w.apps[id]) == key;
      NamespaceInjective(w.tenants[w.apps[id].tenantId].name, w.tenants[tenantId].name);
      assert false;
    }
  }

  /** What a fault-free store and sync leaves behind: a resource that says what the row says, and that is being
      deleted exactly if it was before. */
  lemma StoredShape(w: World, id: string, row: AppRow, order: seq<string>)
    requires row.tenantId in w.tenants && Storable(row)
    ensures var after := Stored(w, id, row, order, NoFault);
            var key := KeyOf(w, row);
            && after == w.(apps := w.apps[id := row], crs := after.crs)
            && key in after.crs && SpecMatches(after.crs[key].spec, row, w.tenants[row.tenantId].name)
            && (Terminating(after, key) <==> Terminating(w, key))
            && (if key in w.crs then after.crs[key].appId == w.crs[key].appId && after.crs[key].tenantId == w.crs[key].tenantId
                else after.crs[key].appId == id && after.crs[key].tenantId == row.tenantId)
            && (forall k | k != key :: Find(after.crs, k) == Find(w.crs, k))
  {
    hide SpecMatches, DesiredSpec, Storable;
    DesiredMatches(row, w.tenants[row.tenantId].name, order);
  }

  /** Two worlds with the same rows that differ in resources at `key` only. */
  ghost predicate OthersSame(a: World, b: World, key: Key) {
    forall k | k != key :: Find(b.crs, k) == Find(a.crs, k)
  }

  lemma MirroredElsewhere(a: World, b: World, key: Key, i: string)
    requires Integrity(a) && Integrity(b) && b.tenants == a.tenants && OthersSame(a, b, key)
    requires i in a.apps && i in b.apps && b.apps[i] == a.apps[i] && KeyOf(a, a.apps[i]) != key && MirroredAt(a, i)
    ensures MirroredAt(b, i)
  {
    hide SpecMatches, Storable;
    assert Find(b.crs, KeyOf(a, a.apps[i])) == Find(a.crs, KeyOf(a, a.apps[i]));
  }

  lemma CoveredElsewhere(a: World, b: World, key: Key, k: Key)
    requires Integrity(a) && Integrity(b) && b.tenants == a.tenants && OthersSame(a, b, key) && Mirrored(a)
    requires forall i | i in a.apps && KeyOf(a, a.apps[i]) != key :: i in b.apps && b.apps[i] == a.apps[i]
    requires k != key && Live(b, k)
    ensures Covered(b, k)
  {
    hide Storable, MirroredAt;
    assert Find(b.crs, k) == Find(a.crs, k);
    assert Covered(a, k);
    var i :| i in a.apps && KeyOf(a, a.apps[i]) == k;
    assert i in b.apps && KeyOf(b, b.apps[i]) == k;
  }

  /** Storing and syncing one row, at a free name or at its own, keeps agreement exactly when no resource at its
      key is being deleted. */
  lemma StoreKeepsMirror(w: World, id: string, row: AppRow, order: seq<string>)
    requires Integrity(w) && Mirrored(w) && row.tenantId in w.tenants && Storable(row)
    requires id in w.apps ==> w.apps[id].tenantId == row.tenantId && w.apps[id].name == row.name
    requires id !in w.apps ==> !NameTaken(w, row.tenantId, row.name)
    requires Integrity(w.(apps := w.apps[id := row])) && Integrity(Stored(w, id, row, order, NoFault))
    ensures Mirrored(Stored(w, id, row, order, NoFault)) <==> !Terminating(w, KeyOf(w, row))
  {
    hide SpecMatches, NameTaken, Storable, Stored, MirroredAt;
    var after := Stored(w, id, row, order, NoFault);
    var key := KeyOf(w, row);
    StoredShape(w, id, row, order);
    StoredRowMirrored(w, id, row, order);
    if !Terminating(w, key) {
      forall i | i in after.apps
        ensures MirroredAt(after, i)
      {
        if i != id {
          OtherKeyDiffers(w, id, row, i);
          MirroredElsewhere(w, after, key, i);
        }
      }
      forall k | Live(after, k)
        ensures Covered(after, k)
      {
        if k == key {
          assert id in after.apps && KeyOf(after, after.apps[id]) == k;
        } else {
          RowsElsewhere(w, after, id);
          CoveredElsewhere(w, after, key, k);
        }
      }
    }
  }

  lemma RowsElsewhere(w: World, after: World, id: string)
    requires Integrity(w) && id in after.apps && after.apps == w.apps[id := after.apps[id]]
    requires after.apps[id].tenantId in w.tenants
    requires id in w.apps ==> w.apps[id].tenantId == after.apps[id].tenantId && w.apps[id].name == after.apps[id].name
    ensures forall i | i in w.apps && KeyOf(w, w.apps[i]) != KeyOf(w, after.apps[id]) :: i in after.apps && after.apps[i] == w.apps[i]
  {
  }

  lemma StoredRowMirrored(w: World, id: string, row: AppRow, order: seq<string>)
    requires Integrity(w) && Mirrored(w) && row.tenantId in w.tenants && Storable(row)
    requires id in w.apps ==> w.apps[id].tenantId == row.tenantId && w.apps[id].name == row.name
    requires id !in w.apps ==> !NameTaken(w, row.tenantId, row.name)
    ensures var after := Stored(w, id, row, order, NoFault);
            && after.apps == w.apps[id := row] && after.tenants == w.tenants
            && (MirroredAt(after, id) <==> !Terminating(w, KeyOf(w, row)))
  {
    hide SpecMatches, Storable, NameTaken, Stored;
    StoredShape(w, id, row, order);
    if id in w.apps {
      assert MirroredAt(w, id);
    } else {
      NewKeyIsFree(w, row.tenantId, row.name);
    }
  }

  lemma OtherKeyDiffers(w: World, id: string, row: AppRow, i: string)
    requires Integrity(w) && row.tenantId in w.tenants && Integrity(w.(apps := w.apps[id := row])) && i in w.apps && i != id
    ensures KeyOf(w, w.apps[i]) != KeyOf(w, row)
  {
    hide Storable;
    var before := w.(apps := w.apps[id := row]);
    if KeyOf(w, w.apps[i]) == KeyOf(w, row) {
      KeysAreDistinct(before, i, id);
    }
  }

  lemma DeleteKeepsMirror(w: World, id: string)
    requires Integrity(w) && Mirrored(w) && id in w.apps
    ensures var after := Unmirrored(w.(apps := w.apps - {id}), w.apps[id], NoFault);
            Integrity(after) && Mirrored(after)
  {
    hide SpecMatches, Storable, MirroredAt;
    var after := Unmirrored(w.(apps := w.apps - {id}), w.apps[id], NoFault);
    var key := KeyOf(w, w.apps[id]);
    assert Integrity(after) && OthersSame(w, after, key) && !Live(after, key);
    forall i | i in after.apps
      ensures MirroredAt(after, i)
    {
      if KeyOf(w, w.apps[i]) == key {
        KeysAreDistinct(w, i, id);
      }
      MirroredElsewhere(w, after, key, i);
    }
    forall k | Live(after, k)
      ensures Covered(after, k)
    {
      CoveredElsewhere(w, after, key, k);
    }
  }

  /** Changing tenant rows, but for their names, and Tenant resources. */
  lemma TenantsKeepMirror(w: World, after: World)
    requires Integrity(w) && Mirrored(w) && Integrity(after) && after.apps == w.apps && after.crs == w.crs
    requires forall a | a in w.apps :: after.tenants[w.apps[a].tenantId].name == w.tenants[w.apps[a].tenantId].name
    ensures Mirrored(after)
  {
    hide SpecMatches, Storable;
    forall i | i in after.apps
      ensures MirroredAt(after, i)
    {
      assert MirroredAt(w, i);
    }
    forall k | Live(after, k)
      ensures Covered(after, k)
    {
      assert Live(w, k);
      var i :| i in w.apps && KeyOf(w, w.apps[i]) == k;
      assert i in after.apps && KeyOf(after, after.apps[i]) == k;
    }
  }

  lemma CreateKeepsMirror(w: World, op: Op, order: seq<string>)
    requires Integrity(w) && Mirrored(w) && op.Create? && Integrity(Apply(w, op, order, NoFault))
    ensures Mirrored(Apply(w, op, order, NoFault)) <==> SafeNow(w, op)
  {
    hide Synced, Storable, Mirrored, Terminating;
    if Inserts(w, op) {
      var row := NewRow(op.tenantId, op.creq).value;
      RowKeepsIntegrity(w, op.id, row);
      StoreKeepsMirror(w, op.id, row, order);
    }
  }

  lemma RowKeepsIntegrity(w: World, id: string, row: AppRow)
    requires Integrity(w) && row.tenantId in w.tenants && Storable(row)
    requires if id in w.apps then w.apps[id].tenantId == row.tenantId && w.apps[id].name == row.name
             else !NameTaken(w, row.tenantId, row.name)
    ensures Integrity(w.(apps := w.apps[id := row]))
  {
    hide Storable;
  }

  lemma EditKeepsMirror(w: World, op: Op, order: seq<string>)
    requires Integrity(w) && Mirrored(w) && Integrity(Apply(w, op, order, NoFault))
    requires !op.Create? && !op.Delete? && !op.OfTenant?
    ensures Mirrored(Apply(w, op, order, NoFault))
  {
    hide Synced, Storable, Edited, MirroredAt;
    if op.id in w.apps && Edited(w.apps[op.id], op).Some? {
      var row := Edited(w.apps[op.id], op).value;
      EditKeepsKeys(w.apps[op.id], op);
      if Storable(row) {
        RowKeepsIntegrity(w, op.id, row);
        StoreKeepsMirror(w, op.id, row, order);
        OwnKeyIsLive(w, op.id);
      }
    }
    hide Mirrored, Integrity;
  }

  lemma OwnKeyIsLive(w: World, id: string)
    requires Integrity(w) && Mirrored(w) && id in w.apps
    ensures !Terminating(w, KeyOf(w, w.apps[id]))
  {
    hide SpecMatches;
    assert MirroredAt(w, id);
  }

  lemma TenantOpKeepsMirror(w: World, top: TM.Op)
    requires Integrity(w) && Mirrored(w) && Integrity(TenantApplied(w, top, NoFault))
    requires !(top.Delete? && top.id in w.tenants)
    ensures Mirrored(TenantApplied(w, top, NoFault))
  {
    TenantOpEffect(w, top, NoFault);
    hide Mirrored, Storable, TenantApplied, TenantDeleting;
    TenantsKeepMirror(w, TenantApplied(w, top, NoFault));
  }

  /** Deleting a tenant cascades over its rows but not over their resources, so agreement survives exactly
      when the tenant had no apps. */
  lemma TenantDeletionIsExact(w: World, id: string)
    requires Integrity(w) && Mirrored(w) && id in w.tenants
    ensures Integrity(TenantApplied(w, TM.Delete(id), NoFault))
    ensures Mirrored(TenantApplied(w, TM.Delete(id), NoFault)) <==> (forall a | a in w.apps :: w.apps[a].tenantId != id)
  {
    TenantOpKeepsIntegrity(w, TM.Delete(id), NoFault);
    var after := TenantApplied(w, TM.Delete(id), NoFault);
    TenantGone(w, id);
    hide SpecMatches, Storable, TenantApplied;
    if a :| a in w.apps && w.apps[a].tenantId == id {
      OrphanedResource(w, id, after, a);
    } else {
      assert after.apps == w.apps;
      TenantsKeepMirror(w, after);
    }
  }

  lemma TenantGone(w: World, id: string)
    requires id in w.tenants
    ensures var after := TenantApplied(w, TM.Delete(id), NoFault);
            && after.tenants == w.tenants - {id} && after.crs == w.crs
            && after.apps == map a | a in w.apps && w.apps[a].tenantId != id :: w.apps[a]
  {
  }

  lemma OrphanedResource(w: World, id: string, after: World, a: string)
    requires Integrity(w) && Mirrored(w) && id in w.tenants && a in w.apps && w.apps[a].tenantId == id
    requires Integrity(after) && after.tenants == w.tenants - {id} && after.crs == w.crs
    requires after.apps == map a | a in w.apps && w.apps[a].tenantId != id :: w.apps[a]
    ensures !Mirrored(after)
  {
    hide SpecMatches, Storable;
    assert MirroredAt(w, a);
    var key := KeyOf(w, w.apps[a]);
    assert Live(after, key);
    forall i | i in after.apps
      ensures KeyOf(after, after.apps[i]) != key
    {
      assert KeyOf(after, after.apps[i]) == KeyOf(w, w.apps[i]);
      if KeyOf(w, w.apps[i]) == key {
        KeysAreDistinct(w, i, a);
      }
    }
  }

  lemma AppDeletionKeepsMirror(w: World, id: string, order: seq<string>)
    requires Integrity(w) && Mirrored(w) && Integrity(Apply(w, Delete(id), order, NoFault))
    ensures Mirrored(Apply(w, Delete(id), order, NoFault))
  {
    hide Mirrored, Storable, Unmirrored;
    if id in w.apps {
      DeleteKeepsMirror(w, id);
    }
  }

  lemma NotInserting(w: World, op: Op)
    requires !op.Create?
    ensures !Inserts(w, op)
  {
  }

  /** One call of a service without faults keeps agreement, for now, exactly when it is safe for now. */
  lemma CallKeepsMirror(w: World, op: Op, order: seq<string>)
    requires Integrity(w) && Mirrored(w)
    ensures Integrity(Apply(w, op, order, NoFault))
    ensures Mirrored(Apply(w, op, order, NoFault)) <==> SafeNow(w, op)
  {
    ApplyKeepsIntegrity(w, op, order, NoFault);
    hide Mirrored, Integrity, NewRow, Inserts, TenantApplied, Terminating;
    if op.Create? {
      hide Apply;
      CreateKeepsMirror(w, op, order);
    } else {
      NotInserting(w, op);
      if op.Delete? {
        hide Apply;
        AppDeletionKeepsMirror(w, op.id, order);
      } else if !op.OfTenant? {
        hide Apply;
        EditKeepsMirror(w, op, order);
      } else if op.top.Delete? && op.top.id in w.tenants {
        TenantDeletionIsExact(w, op.top.id);
      } else {
        TenantOpKeepsMirror(w, op.top);
      }
    }
  }

  // ----- for good ---------------------------------------------------------------------------------------------

  /** Rows and live resources agree. */
  ghost predicate Agrees(w: World) {
    Integrity(w) && Mirrored(w)
  }

  /** They agree and go on agreeing, whatever the operator does next. */
  ghost predicate Lasting(w: World) {
    forall turns | OperatorOnly(turns) :: Agrees(Run(w, turns))
  }

  /** No row belongs to a tenant whose resource is being deleted. */
  ghost predicate Undrained(w: World)
    requires Integrity(w)
  {
    forall id | id in w.apps :: !TenantDeleting(w, w.tenants[w.apps[id].tenantId].name)
  }

  /** The operator's turns neither change a row nor begin the deletion of a Tenant. */
  lemma OperatorTurnShape(w: World, t: Turn)
    requires !t.Service?
    ensures var after := Take(w, t);
            && after.apps == w.apps && after.tenants == w.tenants
            && (forall name | TenantDeleting(after, name) :: TenantDeleting(w, name))
  {
    hide Removed, Adopted, Finalised;
  }

  /** What an operator's turn does to App resources: adopting, finishing, and draining where a Tenant is being
      deleted, one at a time. */
  lemma OperatorTouches(w: World, t: Turn)
    requires !t.Service?
    ensures var after := Take(w, t);
            || after.crs == w.crs
            || (t.Adopt? && after.crs == Adopted(w.crs, t.key))
            || (t.Finalise? && after.crs == Finalised(w.crs, t.key))
            || (t.Drain? && Draining(w, t.key.ns) && after.crs == Removed(w.crs, t.key))
  {
    hide Removed, Adopted, Finalised, TM.Take;
  }

  lemma DrainedHasNoRow(w: World, key: Key)
    requires Integrity(w) && Undrained(w) && Draining(w, key.ns)
    ensures !Covered(w, key)
  {
    hide Storable;
    if Covered(w, key) {
      var id :| id in w.apps && KeyOf(w, w.apps[id]) == key;
      var name :| TenantDeleting(w, name) && TenantNamespace(name) == key.ns;
      NamespaceInjective(name, w.tenants[w.apps[id].tenantId].name);
    }
  }

  lemma OperatorKeepsRow(w: World, t: Turn, i: string)
    requires Integrity(w) && Undrained(w) && !t.Service? && Integrity(Take(w, t))
    requires i in w.apps && MirroredAt(w, i) && i in Take(w, t).apps
    ensures MirroredAt(Take(w, t), i)
  {
    hide SpecMatches, Storable, Take, Draining, Undrained, TenantDeleting;
    OperatorTurnShape(w, t);
    OperatorTouches(w, t);
    if t.Drain? && Draining(w, t.key.ns) {
      DrainedHasNoRow(w, t.key);
    }
  }

  lemma OperatorAddsNone(w: World, t: Turn, k: Key)
    requires !t.Service? && Live(Take(w, t), k)
    ensures Live(w, k)
  {
    hide Take, Draining;
    OperatorTouches(w, t);
  }

  lemma OperatorKeeps(w: World, t: Turn)
    requires Agrees(w) && Undrained(w) && !t.Service?
    ensures Agrees(Take(w, t)) && Undrained(Take(w, t))
  {
    TurnKeepsIntegrity(w, t);
    OperatorTurnShape(w, t);
    hide MirroredAt, Take, TenantDeleting, Live, Storable;
    var after := Take(w, t);
    forall i | i in after.apps
      ensures MirroredAt(after, i)
    {
      OperatorKeepsRow(w, t, i);
    }
    forall k | Live(after, k)
      ensures Covered(after, k)
    {
      OperatorAddsNone(w, t, k);
      assert Covered(w, k);
      var i :| i in w.apps && KeyOf(w, w.apps[i]) == k;
      assert i in after.apps && KeyOf(after, after.apps[i]) == k;
    }
  }

  lemma {:induction false} OperatorKeepsOn(w: World, turns: seq<Turn>)
    requires Agrees(w) && Undrained(w) && OperatorOnly(turns)
    ensures Agrees(Run(w, turns)) && Undrained(Run(w, turns))
  {
    hide Agrees, Undrained, Take;
    if turns != [] {
      OperatorKeepsOn(w, turns[..|turns| - 1]);
      OperatorKeeps(Run(w, turns[..|turns| - 1]), turns[|turns| - 1]);
    }
  }

  lemma RunOfOne(w: World, t: Turn)
    ensures Run(w, []) == w && Run(w, [t]) == Take(w, t)
  {
    assert [t][..0] == [];
  }

  /** A row of a tenant that is being deleted loses its resource to the drain. */
  lemma DrainTakes(w: World, id: string)
    requires Integrity(w) && id in w.apps && TenantDeleting(w, w.tenants[w.apps[id].tenantId].name)
    ensures !Agrees(Take(w, Drain(KeyOf(w, w.apps[id]))))
  {
    hide SpecMatches, Storable;
    var key := KeyOf(w, w.apps[id]);
    assert Draining(w, key.ns);
    var after := Take(w, Drain(key));
    assert !Live(after, key) && after.apps == w.apps && after.tenants == w.tenants;
    assert !MirroredAt(after, id);
  }

  lemma SomeDrained(w: World) returns (id: string)
    requires Integrity(w) && !Undrained(w)
    ensures id in w.apps && w.apps[id].tenantId in w.tenants
    ensures TenantDeleting(w, w.tenants[w.apps[id].tenantId].name)
  {
    hide TenantDeleting, Storable;
    id :| id in w.apps && TenantDeleting(w, w.tenants[w.apps[id].tenantId].name);
  }

  /** Agreement lasts through everything the operator may do exactly when no row belongs to a tenant whose
      resource is being deleted. */
  lemma LastingIsExact(w: World)
    requires Integrity(w)
    ensures Lasting(w) <==> Mirrored(w) && Undrained(w)
  {
    hide Mirrored, Take, Integrity, TenantDeleting;
    if Mirrored(w) && Undrained(w) {
      forall turns | OperatorOnly(turns)
        ensures Agrees(Run(w, turns))
      {
        OperatorKeepsOn(w, turns);
      }
    } else if Mirrored(w) {
      var id := SomeDrained(w);
      var t := Drain(KeyOf(w, w.apps[id]));
      DrainTakes(w, id);
      RunOfOne(w, t);
      assert OperatorOnly([t]);
    } else {
      assert OperatorOnly([]);
      RunOfOne(w, Drain(Key("", "")));
    }
  }

  lemma CallKeepsUndrained(w: World, op: Op, order: seq<string>)
    requires Integrity(w) && Undrained(w) && SafeNow(w, op) && Integrity(Apply(w, op, order, NoFault))
    ensures Undrained(Apply(w, op, order, NoFault)) <==> Safe(w, op)
  {
    hide Storable, SafeNow;
    if op.Create? {
      InsertKeepsUndrained(w, op, order);
      hide Apply, Inserts;
    } else {
      NotInserting(w, op);
      if op.OfTenant? {
        TenantOpEffect(w, op.top, NoFault);
        TenantOpKeepsUndrained(w, op.top);
      } else if op.Delete? {
        hide Removed;
      } else {
        EditKeepsUndrained(w, op, order);
      }
      hide Apply, Inserts;
    }
  }

  lemma InsertKeepsUndrained(w: World, op: Op, order: seq<string>)
    requires Integrity(w) && Undrained(w) && op.Create? && Integrity(Apply(w, op, order, NoFault))
    ensures Undrained(Apply(w, op, order, NoFault)) <==> (Inserts(w, op) ==> !TenantDeleting(w, w.tenants[op.tenantId].name))
  {
    hide Storable, Synced, TenantDeleting, NameTaken;
    var after := Apply(w, op, order, NoFault);
    if Inserts(w, op) {
      var row := NewRow(op.tenantId, op.creq).value;
      SyncKeepsTables(w.(apps := w.apps[op.id := row]), op.id, row, order, NoFault);
      TablesDecide(w, after);
      assert row.tenantId == op.tenantId;
      assert after.apps == w.apps[op.id := row] && after.tenants == w.tenants;
      hide Apply, NewRow;
      assert op.id in after.apps && after.tenants[after.apps[op.id].tenantId] == w.tenants[op.tenantId];
    } else {
      assert after == w;
    }
  }

  /** The deletion marks of Tenants are a matter of the Tenant resources alone. */
  lemma TablesDecide(a: World, b: World)
    requires a.trs == b.trs
    ensures forall name :: TenantDeleting(a, name) <==> TenantDeleting(b, name)
  {
  }

  lemma EditKeepsUndrained(w: World, op: Op, order: seq<string>)
    requires Integrity(w) && Undrained(w) && !op.Create? && !op.Delete? && !op.OfTenant?
    requires Integrity(Apply(w, op, order, NoFault))
    ensures Undrained(Apply(w, op, order, NoFault))
  {
    hide Storable, Synced, Edited, TenantDeleting;
    if op.id in w.apps && Edited(w.apps[op.id], op).Some? {
      var row := Edited(w.apps[op.id], op).value;
      EditKeepsKeys(w.apps[op.id], op);
      SyncKeepsTables(w.(apps := w.apps[op.id := row]), op.id, row, order, NoFault);
      TablesDecide(w, Apply(w, op, order, NoFault));
    }
  }

  lemma TenantOpKeepsUndrained(w: World, top: TM.Op)
    requires Integrity(w) && Undrained(w) && Integrity(TenantApplied(w, top, NoFault))
    ensures Undrained(TenantApplied(w, top, NoFault))
  {
    TenantOpEffect(w, top, NoFault);
    hide Storable, TenantApplied, TenantDeleting;
  }

  /** From a world whose agreement lasts, one call of a service without faults leaves a world whose agreement
      lasts exactly when the call is safe. */
  lemma CallIsExact(w: World, op: Op, order: seq<string>)
    requires Integrity(w) && Lasting(w)
    ensures Lasting(Apply(w, op, order, NoFault)) <==> Safe(w, op)
  {
    var after := Apply(w, op, order, NoFault);
    LastingIsExact(w);
    CallKeepsMirror(w, op, order);
    LastingIsExact(after);
    hide Apply, Lasting, Mirrored, Integrity, Undrained, Inserts, SafeNow;
    if SafeNow(w, op) {
      CallKeepsUndrained(w, op, order);
    }
  }

  /** The operator's drain closes the gap: once no resource in the deleted tenant's namespace is live any more,
      rows and live resources agree again. */
  lemma DrainRestores(w: World, id: string, u: World)
    requires Integrity(w) && Mirrored(w) && id in w.tenants
    requires u == TenantApplied(w, TM.Delete(id), NoFault).(crs := u.crs, trs := u.trs)
    requires forall k: Key ::
               if k.ns == TenantNamespace(w.tenants[id].name) then !Live(u, k) else Find(u.crs, k) == Find(w.crs, k)
    ensures Integrity(u) && Mirrored(u)
  {
    hide SpecMatches, Storable, TenantNamespace, MirroredAt, Covered, TenantApplied;
    TenantOpKeepsIntegrity(w, TM.Delete(id), NoFault);
    TenantGone(w, id);
    assert Integrity(u);
    forall i | i in u.apps
      ensures MirroredAt(u, i)
    {
      RowRestored(w, id, u, i);
    }
    forall k | Live(u, k)
      ensures Covered(u, k)
    {
      CoverRestored(w, id, u, k);
    }
  }

  lemma RowRestored(w: World, id: string, u: World, i: string)
    requires Integrity(w) && Integrity(u) && id in w.tenants && u.tenants == w.tenants - {id}
    requires i in w.apps && MirroredAt(w, i) && w.apps[i].tenantId != id && i in u.apps && u.apps[i] == w.apps[i]
    requires forall k: Key :: k.ns == TenantNamespace(w.tenants[id].name) || Find(u.crs, k) == Find(w.crs, k)
    ensures MirroredAt(u, i)
  {
    hide SpecMatches, Storable, TenantNamespace;
    if KeyOf(w, w.apps[i]).ns == TenantNamespace(w.tenants[id].name) {
      NamespaceInjective(w.tenants[w.apps[i].tenantId].name, w.tenants[id].name);
    }
    assert Find(u.crs, KeyOf(w, w.apps[i])) == Find(w.crs, KeyOf(w, w.apps[i]));
  }

  lemma CoverRestored(w: World, id: string, u: World, k: Key)
    requires Integrity(w) && Mirrored(w) && Integrity(u) && id in w.tenants && u.tenants == w.tenants - {id}
    requires forall a | a in w.apps :: w.apps[a].tenantId != id ==> a in u.apps && u.apps[a] == w.apps[a]
    requires Live(u, k) && k.ns != TenantNamespace(w.tenants[id].name) && Find(u.crs, k) == Find(w.crs, k)
    ensures Covered(u, k)
  {
    hide SpecMatches, Storable, TenantNamespace, MirroredAt;
    assert Live(w, k) && Covered(w, k);
    var i :| i in w.apps && KeyOf(w, w.apps[i]) == k;
    assert i in u.apps && KeyOf(u, u.apps[i]) == k;
  }

  // ----- whole runs -----------------------------------------------------------------------------------------

  ghost predicate FaultFree(turns: seq<Turn>) {
    forall i | 0 <= i < |turns| :: turns[i].Service? ==> turns[i].fault.NoFault?
  }

  /** After the first `i` turns rows and resources agree, and would whatever the operator did next. */
  ghost predicate LastsAt(turns: seq<Turn>, i: nat)
    requires i <= |turns|
  {
    Integrity(Run(EmptyWorld, turns[..i])) && Lasting(Run(EmptyWorld, turns[..i]))
  }

  /** The `i`th turn is the operator's, or a call that is safe when it is made. */
  ghost predicate SafeAt(turns: seq<Turn>, i: nat)
    requires i < |turns|
  {
    turns[i].Service? ==> Integrity(Run(EmptyWorld, turns[..i])) && Safe(Run(EmptyWorld, turns[..i]), turns[i].op)
  }

  lemma OperatorLasts(w: World, t: Turn)
    requires Integrity(w) && Lasting(w) && !t.Service?
    ensures Integrity(Take(w, t)) && Lasting(Take(w, t))
  {
    TurnKeepsIntegrity(w, t);
    LastingIsExact(w);
    OperatorKeeps(w, t);
    LastingIsExact(Take(w, t));
    hide Take, Lasting, Mirrored, Integrity, Undrained;
  }

  lemma AgreementGoesOn(turns: seq<Turn>, i: nat)
    requires FaultFree(turns) && i < |turns| && LastsAt(turns, i)
    ensures LastsAt(turns, i + 1) <==> SafeAt(turns, i)
  {
    assert turns[..i + 1][..i] == turns[..i];
    var w, t := Run(EmptyWorld, turns[..i]), turns[i];
    TurnKeepsIntegrity(w, t);
    hide Lasting, Mirrored, Safe, Integrity, Apply, Removed, Adopted, Finalised, Draining, TM.Take;
    if t.Service? {
      CallIsExact(w, t.op, t.order);
    } else {
      hide Take;
      OperatorLasts(w, t);
    }
  }

  lemma EmptyAgrees(turns: seq<Turn>)
    ensures LastsAt(turns, 0)
  {
    assert turns[..0] == [];
    LastingIsExact(EmptyWorld);
    hide Lasting;
  }

  lemma {:induction false} AgreesThroughout(turns: seq<Turn>, n: nat)
    requires FaultFree(turns) && n <= |turns| && forall i | 0 <= i < n :: SafeAt(turns, i)
    ensures forall i | 0 <= i <= n :: LastsAt(turns, i)
  {
    hide LastsAt, SafeAt;
    if n == 0 {
      EmptyAgrees(turns);
    } else {
      AgreesThroughout(turns, n - 1);
      AgreementGoesOn(turns, n - 1);
    }
  }

  /** Over every run without faults, of the services and the operator together: at every point each row has its
      live resource and each live resource its row, and this stays so whatever the operator does next, if and only
      if every call of a service was safe when it was made. */
  lemma AgreementIsExact(turns: seq<Turn>)
    requires FaultFree(turns)
    ensures (forall i | 0 <= i <= |turns| :: LastsAt(turns, i)) <==> (forall i | 0 <= i < |turns| :: SafeAt(turns, i))
  {
    hide LastsAt, SafeAt;
    if forall i | 0 <= i < |turns| :: SafeAt(turns, i) {
      AgreesThroughout(turns, |turns|);
    }
    if forall i | 0 <= i <= |turns| :: LastsAt(turns, i) {
      forall i | 0 <= i < |turns|
        ensures SafeAt(turns, i)
      {
        assert LastsAt(turns, i + 1);
        AgreementGoesOn(turns, i);
      }
    }
  }

  function LiveKeys(w: World): set<Key> {
    set key | key in w.crs && !w.crs[key].deleting
  }

  /** Agreement is a bijection between the rows and the live resources. */
  lemma MirrorIsBijection(w: World)
    requires Integrity(w) && Mirrored(w)
    ensures forall i, j | i in w.apps && j in w.apps && i != j :: KeyOf(w, w.apps[i]) != KeyOf(w, w.apps[j])
    ensures (set id | id in w.apps :: KeyOf(w, w.apps[id])) == LiveKeys(w)
    ensures |w.apps| == |LiveKeys(w)|
  {
    hide SpecMatches, Storable;
    forall i, j | i in w.apps && j in w.apps && i != j
      ensures KeyOf(w, w.apps[i]) != KeyOf(w, w.apps[j])
    {
      if KeyOf(w, w.apps[i]) == KeyOf(w, w.apps[j]) {
        KeysAreDistinct(w, i, j);
      }
    }
    forall id | id in w.apps
      ensures KeyOf(w, w.apps[id]) in LiveKeys(w)
    {
      assert MirroredAt(w, id);
    }
    forall key | key in LiveKeys(w)
      ensures exists id :: id in w.apps && KeyOf(w, w.apps[id]) == key
    {
      assert Live(w, key) && Covered(w, key);
    }
    KeyCount(w, w.apps.Keys);
  }

  lemma {:induction false} KeyCount(w: World, ids: set<string>)
    requires Integrity(w) && ids <= w.apps.Keys
    ensures |set id | id in ids :: KeyOf(w, w.apps[id])| == |ids|
  {
    hide Storable;
    if ids != {} {
      var x :| x in ids;
      KeyCount(w, ids - {x});
      var rest := set id | id in ids - {x} :: KeyOf(w, w.apps[id]);
      assert KeyOf(w, w.apps[x]) !in rest by {
        forall id | id in ids - {x}
          ensures KeyOf(w, w.apps[id]) != KeyOf(w, w.apps[x])
        {
          if KeyOf(w, w.apps[id]) == KeyOf(w, w.apps[x]) {
            KeysAreDistinct(w, id, x);
          }
        }
      }
      assert (set id | id in ids :: KeyOf(w, w.apps[id])) == rest + {KeyOf(w, w.apps[x])};
    }
  }
}
