/** Tenant rows and the Tenant resources they are mirrored into, as values (apiserver/service/tenant.go,
    apiserver/adapter/adapter.go). */
module TenantMirror {
  import opened Options
  import opened Kube
  import opened Rows

  /** A Tenant resource: its identifying label, the fields of its spec that the service writes, whether the
      operator's finalizer holds it, and whether it is being deleted. */
  datatype TenantResource = TenantResource(
    tenantId: string, displayName: string, ownerEmail: string, plan: string, held: bool, deleting: bool)

  datatype Tables = Tables(rows: map<string, TenantRow>, crs: map<string, TenantResource>)

  datatype Op =
    | Create(id: string, name: string, displayName: string, plan: string, memberFails: bool)
    | Update(id: string, displayName: string, plan: string)
    | Delete(id: string)

  const EmptyTables := Tables(map[], map[])

  /** The owner's address is not known to the service. */
  function BuildTenantCR(id: string, row: TenantRow): TenantResource {
    TenantResource(id, row.displayName, "", row.plan, false, false)
  }

  /** A delete call marks a resource that is held and removes one that is not. */
  function Removed(crs: map<string, TenantResource>, name: string): map<string, TenantResource> {
    if name !in crs then crs
    else if crs[name].held then crs[name := crs[name].(deleting := true)]
    else crs - {name}
  }

  predicate Unreached(fault: Fault) {
    fault.NoClient? || fault.WriteFails?
  }

  function Created(t: Tables, id: string, row: TenantRow, fault: Fault): Tables {
    if Unreached(fault) || row.name in t.crs then t else t.(crs := t.crs[row.name := BuildTenantCR(id, row)])
  }

  /** A Get that fails for any reason is followed by a Create; the owner's address is never touched. */
  function Pushed(t: Tables, id: string, row: TenantRow, fault: Fault): Tables {
    if Unreached(fault) then t
    else if row.name !in t.crs then t.(crs := t.crs[row.name := BuildTenantCR(id, row)])
    else if fault.GetFails? then t
    else t.(crs := t.crs[row.name := t.crs[row.name].(displayName := row.displayName, plan := row.plan)])
  }

  function NewRow(op: Op): TenantRow
    requires op.Create?
  {
    TenantRow(op.name, OrElse(op.displayName, "", op.name), OrElse(op.plan, "", "free"))
  }

  predicate Refused(t: Tables, op: Op) {
    match op
    case Create(id, name, _, plan, _) =>
      name == "" || id in t.rows || (exists i | i in t.rows :: t.rows[i].name == name)
      || !ValidPlan(OrElse(plan, "", "free"))
    case Update(id, _, plan) => id !in t.rows || (plan != "" && !ValidPlan(plan))
    case Delete(id) => id !in t.rows
  }

  function UpdatedRow(row: TenantRow, op: Op): TenantRow
    requires op.Update?
  {
    row.(displayName := OrElse(op.displayName, "", row.displayName), plan := OrElse(op.plan, "", row.plan))
  }

  /** Update and Delete look the row up first. */
  predicate Missed(op: Op, fault: Fault) {
    fault.TenantLookupFails? && !op.Create?
  }

  function Apply(t: Tables, op: Op, fault: Fault): Tables {
    if Refused(t, op) || fault.StoreFails? || Missed(op, fault) then t
    else
      match op
      case Create(id, _, _, _, memberFails) =>
        var stored := t.(rows := t.rows[id := NewRow(op)]);
        if memberFails then stored else Created(stored, id, NewRow(op), fault)
      case Update(id, _, _) =>
        var row := UpdatedRow(t.rows[id], op);
        Pushed(t.(rows := t.rows[id := row]), id, row, fault)
      case Delete(id) =>
        var rest := t.(rows := t.rows - {id});
        if Unreached(fault) then rest else rest.(crs := Removed(t.crs, t.rows[id].name))
  }

  // ----- what an operation stores, column by column -----------------------------------------------------------------

  predicate KnownPlan(plan: string) {
    plan == "free" || plan == "starter" || plan == "pro" || plan == "enterprise"
  }

  /** A new tenant is displayed under its name and is on the free plan unless the request says otherwise. */
  predicate FilledIn(row: TenantRow, name: string, displayName: string, plan: string) {
    && row.name == name
    && row.displayName == (if displayName == "" then name else displayName)
    && row.plan == (if plan == "" then "free" else plan)
  }

  predicate ChangedBy(before: TenantRow, after: TenantRow, displayName: string, plan: string) {
    && after.name == before.name
    && after.displayName == (if displayName == "" then before.displayName else displayName)
    && after.plan == (if plan == "" then before.plan else plan)
  }

  /** A new resource shows the row, names no owner, and nothing holds it. */
  predicate MadeFor(cr: TenantResource, id: string, row: TenantRow) {
    && cr.tenantId == id && cr.displayName == row.displayName && cr.plan == row.plan && cr.ownerEmail == ""
    && !cr.held && !cr.deleting
  }

  /** An existing resource takes the two fields and keeps all others. */
  predicate BroughtInLine(before: TenantResource, after: TenantResource, row: TenantRow) {
    && after.displayName == row.displayName && after.plan == row.plan
    && after.tenantId == before.tenantId && after.ownerEmail == before.ownerEmail
    && after.held == before.held && after.deleting == before.deleting
  }

  /** The resources after a call that reaches the cluster: at most the one of that name changes. */
  predicate OneWritten(before: map<string, TenantResource>, after: map<string, TenantResource>, name: string) {
    name in after && after - {name} == before - {name}
  }

  ghost predicate Accepted(t: Tables, op: Op) {
    match op
    case Create(id, name, _, plan, _) =>
      && name != "" && id !in t.rows && (plan == "" || KnownPlan(plan))
      && forall i | i in t.rows :: t.rows[i].name != name
    case Update(id, _, plan) => id in t.rows && (plan == "" || KnownPlan(plan))
    case Delete(id) => id in t.rows
  }

  /** The database fails, or does not find the row an update or a deletion looks up first. */
  predicate Unstored(op: Op, fault: Fault) {
    fault.StoreFails? || (fault.TenantLookupFails? && !op.Create?)
  }

  ghost predicate TablesStored(t: Tables, a: Tables, op: Op, fault: Fault) {
    if !Accepted(t, op) || Unstored(op, fault) then a == t
    else
      match op
      case Create(id, name, displayName, plan, memberFails) =>
        && id in a.rows && a.rows == t.rows[id := a.rows[id]] && FilledIn(a.rows[id], name, displayName, plan)
        && if memberFails || fault.NoClient? || fault.WriteFails? || name in t.crs then a.crs == t.crs
           else OneWritten(t.crs, a.crs, name) && MadeFor(a.crs[name], id, a.rows[id])
      case Update(id, displayName, plan) =>
        var name := t.rows[id].name;
        && id in a.rows && a.rows == t.rows[id := a.rows[id]] && ChangedBy(t.rows[id], a.rows[id], displayName, plan)
        && if fault.NoClient? || fault.WriteFails? || (fault.GetFails? && name in t.crs) then a.crs == t.crs
           else OneWritten(t.crs, a.crs, name)
                && if name in t.crs then BroughtInLine(t.crs[name], a.crs[name], a.rows[id])
                   else MadeFor(a.crs[name], id, a.rows[id])
      case Delete(id) =>
        var name := t.rows[id].name;
        && a.rows == t.rows - {id}
        && if fault.NoClient? || fault.WriteFails? || name !in t.crs then a.crs == t.crs
           else if t.crs[name].held then a.crs == t.crs[name := t.crs[name].(deleting := true)]
           else a.crs == t.crs - {name}
  }

  lemma AcceptedExactly(t: Tables, op: Op)
    ensures Refused(t, op) <==> !Accepted(t, op)
  {
  }

  lemma CreateStores(t: Tables, op: Op, fault: Fault)
    requires op.Create?
    ensures TablesStored(t, Apply(t, op, fault), op, fault)
  {
    hide Refused, Accepted;
    AcceptedExactly(t, op);
  }

  lemma UpdateStores(t: Tables, op: Op, fault: Fault)
    requires op.Update?
    ensures TablesStored(t, Apply(t, op, fault), op, fault)
  {
  }

  lemma DeleteStores(t: Tables, op: Op, fault: Fault)
    requires op.Delete?
    ensures TablesStored(t, Apply(t, op, fault), op, fault)
  {
  }

  /** What every operation of the tenant service leaves in rows and resources, whatever goes wrong. */
  lemma TablesChangeExactly(t: Tables, op: Op, fault: Fault)
    ensures TablesStored(t, Apply(t, op, fault), op, fault)
  {
    hide TablesStored, Apply;
    match op {
      case Create(_, _, _, _, _) => CreateStores(t, op, fault);
      case Update(_, _, _) => UpdateStores(t, op, fault);
      case Delete(_) => DeleteStores(t, op, fault);
    }
  }

  /** One turn of a run: an operation of the service, or the operator adding its finalizer to a resource or
      finishing its deletion. */
  datatype Turn = Service(op: Op, fault: Fault) | Adopt(name: string) | Finalise(name: string)

  function Take(t: Tables, turn: Turn): Tables {
    match turn
    case Service(op, fault) => Apply(t, op, fault)
    case Adopt(name) => if Live(t, name) then t.(crs := t.crs[name := t.crs[name].(held := true)]) else t
    case Finalise(name) => if Terminating(t, name) then t.(crs := t.crs - {name}) else t
  }

  function Run(t: Tables, turns: seq<Turn>): Tables {
    if turns == [] then t
    else Take(Run(t, turns[..|turns| - 1]), turns[|turns| - 1])
  }

  // ----- agreement ------------------------------------------------------------------------------------------------

  predicate Live(t: Tables, name: string) {
    name in t.crs && !t.crs[name].deleting
  }

  predicate Terminating(t: Tables, name: string) {
    name in t.crs && t.crs[name].deleting
  }

  ghost predicate DistinctNames(t: Tables) {
    forall i, j | i in t.rows && j in t.rows && i != j :: t.rows[i].name != t.rows[j].name
  }

  predicate Matches(cr: TenantResource, row: TenantRow) {
    cr.displayName == row.displayName && cr.plan == row.plan
  }

  predicate MirroredAt(t: Tables, id: string)
    requires id in t.rows
  {
    Live(t, t.rows[id].name) && t.crs[t.rows[id].name].tenantId == id && Matches(t.crs[t.rows[id].name], t.rows[id])
  }

  ghost predicate Covered(t: Tables, name: string) {
    exists id :: id in t.rows && t.rows[id].name == name
  }

  /** Every row has its live resource and every live resource its row. */
  ghost predicate Mirrored(t: Tables) {
    && (forall id | id in t.rows :: MirroredAt(t, id))
    && (forall name | Live(t, name) :: Covered(t, name))
  }

  /** The exact condition, turn by turn: a tenant that is created finds no resource under its name, and its
      owner is added. */
  predicate Safe(t: Tables, turn: Turn) {
    turn.Service? && turn.op.Create? && !Refused(t, turn.op) ==> turn.op.name !in t.crs && !turn.op.memberFails
  }

  lemma TurnKeepsNames(t: Tables, turn: Turn)
    requires DistinctNames(t)
    ensures DistinctNames(Take(t, turn))
  {
  }

  /** Writing one row and its resource, new or under its own name, leaves the other pairs alone. */
  lemma PairKeepsMirror(t: Tables, id: string, row: TenantRow, cr: TenantResource)
    requires DistinctNames(t) && Mirrored(t) && cr.tenantId == id && Matches(cr, row) && !cr.deleting
    requires if id in t.rows then t.rows[id].name == row.name else forall i | i in t.rows :: t.rows[i].name != row.name
    ensures Mirrored(Tables(t.rows[id := row], t.crs[row.name := cr]))
  {
    hide Matches;
    var after := Tables(t.rows[id := row], t.crs[row.name := cr]);
    forall i | i in after.rows
      ensures MirroredAt(after, i)
    {
      if i != id {
        assert MirroredAt(t, i);
      }
    }
    forall name | Live(after, name)
      ensures Covered(after, name)
    {
      if name != row.name {
        assert Live(t, name) && Covered(t, name);
        var i :| i in t.rows && t.rows[i].name == name;
        assert i in after.rows && after.rows[i].name == name;
      } else {
        assert id in after.rows && after.rows[id].name == name;
      }
    }
  }

  /** Taking one row, and its resource out of the live ones, leaves the other pairs alone. */
  lemma DropKeepsMirror(t: Tables, id: string)
    requires DistinctNames(t) && Mirrored(t) && id in t.rows
    ensures Mirrored(Tables(t.rows - {id}, Removed(t.crs, t.rows[id].name)))
  {
    hide Matches;
    var after := Tables(t.rows - {id}, Removed(t.crs, t.rows[id].name));
    forall i | i in after.rows
      ensures MirroredAt(after, i)
    {
      assert MirroredAt(t, i);
    }
    forall name | Live(after, name)
      ensures Covered(after, name)
    {
      assert Live(t, name) && Covered(t, name);
      var i :| i in t.rows && t.rows[i].name == name;
      assert i in after.rows && after.rows[i].name == name;
    }
  }

  lemma CreateKeepsMirror(t: Tables, op: Op)
    requires DistinctNames(t) && Mirrored(t) && op.Create? && !Refused(t, op)
    ensures Mirrored(Apply(t, op, NoFault)) <==> op.name !in t.crs && !op.memberFails
  {
    var row := NewRow(op);
    var after := Apply(t, op, NoFault);
    if op.name !in t.crs && !op.memberFails {
      PairKeepsMirror(t, op.id, row, BuildTenantCR(op.id, row));
      hide Mirrored;
    } else {
      assert after.crs == t.crs && op.id in after.rows && after.rows[op.id].name == op.name;
      assert Live(t, op.name) ==> Covered(t, op.name);
      assert !MirroredAt(after, op.id);
    }
  }

  /** What the operator does to a resource leaves agreement alone. */
  lemma ClusterTurnKeepsMirror(t: Tables, turn: Turn)
    requires Mirrored(t) && !turn.Service?
    ensures Mirrored(Take(t, turn))
  {
    var after := Take(t, turn);
    forall i | i in after.rows
      ensures MirroredAt(after, i)
    {
      assert MirroredAt(t, i);
    }
    forall name | Live(after, name)
      ensures Covered(after, name)
    {
      assert Live(t, name) && Covered(t, name);
      var i :| i in t.rows && t.rows[i].name == name;
      assert i in after.rows && after.rows[i].name == name;
    }
  }

  /** One turn without faults, of the service or of the operator, keeps agreement exactly when it is safe. */
  lemma TurnKeepsMirror(t: Tables, turn: Turn)
    requires DistinctNames(t) && Mirrored(t) && (turn.Service? ==> turn.fault.NoFault?)
    ensures Mirrored(Take(t, turn)) <==> Safe(t, turn)
  {
    if !turn.Service? {
      ClusterTurnKeepsMirror(t, turn);
      hide Mirrored;
    } else if !Refused(t, turn.op) {
      var op := turn.op;
      match op {
        case Create(_, _, _, _, _) => CreateKeepsMirror(t, op);
        case Update(id, _, _) =>
          var row := UpdatedRow(t.rows[id], op);
          assert MirroredAt(t, id);
          PairKeepsMirror(t, id, row, t.crs[row.name].(displayName := row.displayName, plan := row.plan));
        case Delete(id) => DropKeepsMirror(t, id);
      }
      hide Mirrored, DistinctNames, Refused, NewRow;
    }
  }

  // ----- whole runs -------------------------------------------------------------------------------------------------

  ghost predicate FaultFree(turns: seq<Turn>) {
    forall i | 0 <= i < |turns| :: turns[i].Service? ==> turns[i].fault.NoFault?
  }

  ghost predicate AgreesAt(turns: seq<Turn>, i: nat)
    requires i <= |turns|
  {
    DistinctNames(Run(EmptyTables, turns[..i])) && Mirrored(Run(EmptyTables, turns[..i]))
  }

  ghost predicate SafeAt(turns: seq<Turn>, i: nat)
    requires i < |turns|
  {
    Safe(Run(EmptyTables, turns[..i]), turns[i])
  }

  lemma AgreementGoesOn(turns: seq<Turn>, i: nat)
    requires FaultFree(turns) && i < |turns| && AgreesAt(turns, i)
    ensures AgreesAt(turns, i + 1) <==> SafeAt(turns, i)
  {
    hide Take, Mirrored, Safe, DistinctNames;
    assert turns[..i + 1][..i] == turns[..i];
    TurnKeepsMirror(Run(EmptyTables, turns[..i]), turns[i]);
    TurnKeepsNames(Run(EmptyTables, turns[..i]), turns[i]);
  }

  lemma {:induction false} AgreesThroughout(turns: seq<Turn>, n: nat)
    requires FaultFree(turns) && n <= |turns| && forall i | 0 <= i < n :: SafeAt(turns, i)
    ensures forall i | 0 <= i <= n :: AgreesAt(turns, i)
  {
    if n == 0 {
      assert turns[..0] == [];
    } else {
      hide AgreesAt, SafeAt;
      AgreesThroughout(turns, n - 1);
      AgreementGoesOn(turns, n - 1);
    }
  }

  /** Over every run without faults, of the service and the operator together, the live Tenant resources are
      the tenant rows, name by name, at every point, if and only if every turn was safe when it was taken. */
  lemma AgreementIsExact(turns: seq<Turn>)
    requires FaultFree(turns)
    ensures (forall i | 0 <= i <= |turns| :: AgreesAt(turns, i)) <==> (forall i | 0 <= i < |turns| :: SafeAt(turns, i))
  {
    hide AgreesAt, SafeAt;
    if forall i | 0 <= i < |turns| :: SafeAt(turns, i) {
      AgreesThroughout(turns, |turns|);
    }
    if forall i | 0 <= i <= |turns| :: AgreesAt(turns, i) {
      forall i | 0 <= i < |turns|
        ensures SafeAt(turns, i)
      {
        assert AgreesAt(turns, i + 1);
        AgreementGoesOn(turns, i);
      }
    }
  }

  // ----- repair -----------------------------------------------------------------------------------------------------

  /** The tenant has a resource that will stay and says what its row says. */
  predicate Kept(t: Tables, id: string) {
    id in t.rows && Live(t, t.rows[id].name) && Matches(t.crs[t.rows[id].name], t.rows[id])
  }

  /** Whatever tables and resources there are, one fault-free Update of a tenant makes its resource say what its
      row says and leaves every other alone; the resource stays exactly when it was not being deleted. */
  lemma UpdateHeals(t: Tables, op: Op)
    requires op.Update? && !Refused(t, op)
    ensures var healed := Apply(t, op, NoFault);
            var name := t.rows[op.id].name;
            && op.id in healed.rows && healed.rows[op.id].name == name
            && name in healed.crs && Matches(healed.crs[name], healed.rows[op.id])
            && (forall other | other != name :: Find(healed.crs, other) == Find(t.crs, other))
            && (Kept(Take(healed, Finalise(name)), op.id) <==> !Terminating(t, name))
  {
  }

  /** Once the deletion under way has ended, an Update heals for good. */
  lemma UpdateHealsOnceGone(t: Tables, op: Op)
    requires op.Update? && !Refused(t, op)
    ensures var name := t.rows[op.id].name;
            var healed := Apply(Take(t, Finalise(name)), op, NoFault);
            Kept(healed, op.id) && Kept(Take(healed, Finalise(name)), op.id)
  {
    UpdateHeals(Take(t, Finalise(t.rows[op.id].name)), op);
  }

  /** Creation does not replace: with a resource already under the name, a created tenant's resource matches
      its row exactly when it happened to match before. */
  lemma CreateDoesNotReplace(t: Tables, op: Op)
    requires op.Create? && !Refused(t, op) && !op.memberFails && op.name in t.crs
    ensures var after := Apply(t, op, NoFault);
            && op.id in after.rows && after.crs == t.crs
            && (Matches(after.crs[op.name], after.rows[op.id]) <==> Matches(t.crs[op.name], NewRow(op)))
  {
  }

  /** The run that loses a resource although only the logged create call fails: the operator holds the
      resource, the tenant is deleted, and it is created again under its name before the operator has
      finished. */
  lemma RecreatedTooSoon(t: Tables, id: string, op: Op)
    requires DistinctNames(t) && Mirrored(t) && id in t.rows
    requires op.Create? && op.id !in t.rows && op.name == t.rows[id].name && op.name != "" && !op.memberFails
    requires ValidPlan(OrElse(op.plan, "", "free"))
    ensures var held := Take(t, Adopt(op.name));
            var deleted := Take(held, Turn.Service(Delete(id), NoFault));
            var created := Take(deleted, Turn.Service(op, NoFault));
            var lost := Take(created, Finalise(op.name));
            && Mirrored(deleted) && Terminating(deleted, op.name)
            && op.id in lost.rows && lost.rows[op.id] == NewRow(op) && op.name !in lost.crs
  {
    var held := Take(t, Adopt(op.name));
    TurnKeepsMirror(t, Adopt(op.name));
    TurnKeepsMirror(held, Turn.Service(Delete(id), NoFault));
    assert MirroredAt(t, id);
    hide Mirrored, Matches;
  }
}
