/** Every write of a Tenant's status accounted for, in every history: who makes it, what it makes of the status it finds,
    and that a Tenant becomes Failed only after a call of its pass had failed. */
module TenantStatuses {
  import opened Options
  import opened Kube
  import opened ApiServer
  import opened Operator
  import TS = TenantStages
  import TA = TenantActivation
  import TV = TenantConvergence
  import TC = TenantController

  // ----- what each write makes of the tenant it finds -----------------------------------------------------------

  /** A failure keeps the namespace and the number of apps. */
  predicate FailureOf(before: TenantStatus, after: TenantStatus) {
    && after.phase == TenantFailed && after.namespace == before.namespace && after.activeApps == before.activeApps
    && after.ready.Some? && !after.ready.value.holds
    && (|| after.ready.value.reason == "NamespaceFailed" || after.ready.value.reason == "CapsuleFailed"
        || after.ready.value.reason == "CiliumPolicyFailed" || after.ready.value.reason == "ResourceQuotaFailed")
  }

  predicate ActivationOf(n: string, after: TenantStatus) {
    after.phase == Active && after.namespace == "tenant-" + n && after.ready == Some(Condition(true, "Reconciled"))
  }

  /** The copy `after` with which a pass stands at `pc` when `before` is stored. */
  predicate Makes(n: string, pc: TC.Pc, before: Tenant, after: Tenant) {
    match pc
    case AddFinalizer =>
      && !before.deleting && FINALIZER_TENANT !in before.finalizers
      && after == before.(finalizers := before.finalizers + {FINALIZER_TENANT})
    case DropFinalizer => after == before.(finalizers := before.finalizers - {FINALIZER_TENANT})
    case MarkPending => before.status.phase == NoPhase && after == before.(status := before.status.(phase := TenantPending))
    case MarkDeleting => before.deleting && after == before.(status := before.status.(phase := Deleting))
    case ActiveWrite => after == before.(status := after.status) && ActivationOf(n, after.status)
    case FailureWrite => after == before.(status := after.status) && FailureOf(before.status, after.status)
    case Finished => true
    case _ => after == before
  }

  /** The copy is what the pass makes of the stored tenant, where it carries its version. */
  ghost predicate CopyMade(store: Store, n: string, p: TC.Pass) {
    n in store.tenants && p.tenant.rv == store.tenants[n].rv ==> Makes(n, p.pc, store.tenants[n], p.tenant)
  }

  ghost predicate Accounted(s: State, n: string) {
    TS.Current(s, n) && (!Idle(s, n) && !s.tenantPasses[n].pc.Get? ==> CopyMade(s.store, n, s.tenantPasses[n]))
  }

  predicate Last(pc: TC.Pc) {
    pc.ActiveWrite? || pc.FailureWrite? || pc.DropFinalizer?
  }

  predicate ReadsOn(pc: TC.Pc) {
    pc.Get? || TS.Refreshes(pc)
  }

  lemma ResumeMakes(n: string, p: TC.Pass, r: Response, quantities: set<string>)
    requires !p.pc.Finished?
    ensures var q := TC.Resume(n, p, r, quantities);
            && !q.pc.Get?
            && (Last(p.pc) ==> q.pc.Finished?)
            && (ReadsOn(p.pc) && !q.pc.Finished? ==> r.GotTenant? && q.tenant.rv == r.tenant.rv && Makes(n, q.pc, r.tenant, q.tenant))
            && (!ReadsOn(p.pc) && !Last(p.pc) ==> q.tenant.rv == p.tenant.rv && Makes(n, q.pc, p.tenant, q.tenant))
  {
    hide TC.MergedLabels, TC.LimitsOf, ToInt32;
  }

  lemma ReaderKeeps(n: string, p: TC.Pass, before: Tenant)
    requires !p.pc.Finished? && !ReadsOn(p.pc) && !Last(p.pc) && Makes(n, p.pc, before, p.tenant)
    ensures p.tenant == before
  {
  }

  lemma OwnCallMakes(store: Store, n: string, p: TC.Pass, chance: Chance, quantities: set<string>)
    requires !p.pc.Finished? && (!p.pc.Get? ==> CopyMade(store, n, p))
    ensures var (after, r) := Deliver(store, TC.NextCall(n, p), chance);
            var q := TC.Resume(n, p, r, quantities);
            !q.pc.Finished? ==> CopyMade(after, n, q)
  {
    var call := TC.NextCall(n, p);
    var (after, r) := Deliver(store, call, chance);
    ResumeMakes(n, p, r, quantities);
    if p.pc.Get? {
      TS.ReadCurrent(store, n, chance);
      assert call == GetTenant(n);
    } else if TS.Refreshes(p.pc) {
      assert WritesTenant(call) && call.name == n;
      TS.WriteCurrent(store, n, call, chance);
    } else if !Last(p.pc) {
      TS.KeepsTenants(store, n, p, chance);
      if n in store.tenants && p.tenant.rv == store.tenants[n].rv {
        ReaderKeeps(n, p, store.tenants[n]);
      }
    }
    hide Deliver, TC.NextCall, TC.Resume, Makes;
  }

  lemma StepAccounted(s: State, l: Label, n: string)
    requires Accounted(s, n)
    ensures Accounted(Step(s, l), n)
  {
    TS.StepCurrent(s, l, n);
    if l.TenantTurn? && l.name == n {
      if !Idle(s, n) {
        OwnCallMakes(s.store, n, s.tenantPasses[n], l.chance, s.quantities);
        TenantTurnTaken(s, n, l.chance);
        ResumeMakes(n, s.tenantPasses[n], Deliver(s.store, TC.NextCall(n, s.tenantPasses[n]), l.chance).1, s.quantities);
        hide Deliver, TC.NextCall, TC.Resume, TenantStep, CopyMade, Makes, TS.Current;
      }
    } else {
      TS.OtherStepTenant(s, l, n);
      hide Step, Makes, TS.PhaseFits;
    }
  }

  lemma {:induction false} HistoryAccounted(states: seq<State>, labels: seq<Label>, n: string, i: nat)
    requires History(states, labels) && TA.Begins(states[0], n) && i <= |labels|
    ensures Accounted(states[i], n)
  {
    hide Step;
    if i > 0 {
      hide Accounted, TA.Begins;
      HistoryAccounted(states, labels, n, i - 1);
      assert StepAt(states, labels, i - 1);
      StepAccounted(states[i - 1], labels[i - 1], n);
    } else {
      hide CopyMade;
    }
  }

  // ----- the stored tenant --------------------------------------------------------------------------------------

  predicate IsWrite(pc: TC.Pc) {
    Last(pc) || TS.Refreshes(pc)
  }

  lemma CallOfWrite(n: string, p: TC.Pass)
    requires !p.pc.Finished?
    ensures var call := TC.NextCall(n, p);
            && (WritesTenant(call) <==> IsWrite(p.pc))
            && (IsWrite(p.pc) ==>
                  call == if p.pc.AddFinalizer? || p.pc.DropFinalizer? then UpdateTenant(n, p.tenant) else UpdateTenantStatus(n, p.tenant))
  {
  }

  /** A write that takes effect stores the copy, if it is current. */
  lemma WriteStores(tenants: map<string, Tenant>, rv: nat, call: Call, n: string)
    requires WritesTenant(call) && call.name == n && n in tenants
    ensures var after := ServeTenant(tenants, rv, call).0;
            && (after != tenants ==> tenants[n].rv == call.tenant.rv)
            && (after != tenants && n in after ==>
                  after[n] == if call.UpdateTenant? then tenants[n].(rv := rv, finalizers := call.tenant.finalizers, spec := call.tenant.spec)
                              else tenants[n].(rv := rv, status := call.tenant.status))
  {
  }

  lemma MadeIsStored(n: string, pc: TC.Pc, before: Tenant, copy: Tenant, rv: nat)
    requires IsWrite(pc) && Makes(n, pc, before, copy)
    ensures var after := if pc.AddFinalizer? || pc.DropFinalizer? then before.(rv := rv, finalizers := copy.finalizers, spec := copy.spec)
                         else before.(rv := rv, status := copy.status);
            after.(rv := before.rv) == copy
  {
  }

  lemma OwnTurnWrites(s: State, n: string, chance: Chance)
    requires Accounted(s, n) && n in s.store.tenants
    ensures var t := TenantStep(s, n, chance);
            n in t.store.tenants && t.store.tenants[n] != s.store.tenants[n] ==>
              && !Idle(s, n) && IsWrite(s.tenantPasses[n].pc)
              && Makes(n, s.tenantPasses[n].pc, s.store.tenants[n], t.store.tenants[n].(rv := s.store.tenants[n].rv))
  {
    if !Idle(s, n) {
      var p := s.tenantPasses[n];
      var call := TC.NextCall(n, p);
      TenantTurnTaken(s, n, chance);
      DeliverTouches(s.store, call, chance);
      CallOfWrite(n, p);
      hide Deliver, TC.NextCall, TC.Resume, TenantStep, ServeTenant, Makes;
      if WritesTenant(call) {
        WriteStores(s.store.tenants, s.store.clock, call, n);
        if Makes(n, p.pc, s.store.tenants[n], p.tenant) {
          MadeIsStored(n, p.pc, s.store.tenants[n], p.tenant, s.store.clock);
        }
      }
    }
  }

  /** In every history, whoever interferes and whatever fails: a step that changes a Tenant's status is a call of its own
      pass, and makes of the stored status what that call is there to make. */
  lemma StatusChangesExactly(states: seq<State>, labels: seq<Label>, i: nat, n: string)
    requires History(states, labels) && TA.Begins(states[0], n) && i < |labels|
    requires n in states[i].store.tenants && n in states[i + 1].store.tenants
    requires states[i + 1].store.tenants[n].status != states[i].store.tenants[n].status
    ensures labels[i].TenantTurn? && labels[i].name == n && !Idle(states[i], n)
    ensures var before, after := states[i].store.tenants[n], states[i + 1].store.tenants[n];
            Makes(n, states[i].tenantPasses[n].pc, before, after.(rv := before.rv)) && after.spec == before.spec
  {
    HistoryAccounted(states, labels, n, i);
    assert StepAt(states, labels, i);
    if labels[i].TenantTurn? && labels[i].name == n {
      hide TenantStep, Accounted, Makes;
      OwnTurnWrites(states[i], n, labels[i].chance);
      StatusWriteKeepsSpec(n, states[i].tenantPasses[n].pc, states[i].store.tenants[n], states[i + 1].store.tenants[n]);
    } else {
      hide Step, Accounted, Makes;
      TS.OtherStepTenant(states[i], labels[i], n);
      assert false;
    }
  }

  lemma StatusWriteKeepsSpec(n: string, pc: TC.Pc, before: Tenant, after: Tenant)
    requires IsWrite(pc) && Makes(n, pc, before, after.(rv := before.rv))
    ensures after.spec == before.spec
  {
  }

  // ----- what the answers lead to -------------------------------------------------------------------------------

  /** The calls whose failure the status reports, with the reason it gives. */
  predicate Reported(pc: TC.Pc, r: Response, reason: string) {
    match pc
    case NamespaceGet => !r.GotNamespace? && !r.NotFound? && reason == "NamespaceFailed"
    case NamespaceCreate => !r.Ok? && reason == "NamespaceFailed"
    case NamespaceUpdate(_) => !r.Ok? && reason == "NamespaceFailed"
    case CapsuleGet => !r.GotCapsule? && !r.NotFound? && reason == "CapsuleFailed"
    case CapsuleCreate => !r.Ok? && reason == "CapsuleFailed"
    case CapsuleUpdate(_) => !r.Ok? && reason == "CapsuleFailed"
    case PolicyGet => !r.GotPolicy? && !r.NotFound? && reason == "CiliumPolicyFailed"
    case PolicyCreate => !r.Ok? && reason == "CiliumPolicyFailed"
    case PolicyUpdate(_) => !r.Ok? && reason == "CiliumPolicyFailed"
    case QuotaGet => !r.GotQuota? && !r.NotFound? && reason == "ResourceQuotaFailed"
    case QuotaCreate => !r.Ok? && reason == "ResourceQuotaFailed"
    case QuotaUpdate(_) => !r.Ok? && reason == "ResourceQuotaFailed"
    case _ => false
  }

  /** A pass goes on to report a failure exactly when a call of one of the four stages failed, and then with its
      reason. */
  lemma FailuresAreReported(s: State, n: string, chance: Chance, reason: string)
    requires !Idle(s, n)
    ensures var p := s.tenantPasses[n];
            var r := Deliver(s.store, TC.NextCall(n, p), chance).1;
            var t := TenantStep(s, n, chance);
            Reported(p.pc, r, reason) <==>
              && n in t.tenantPasses && t.tenantPasses[n].pc.FailureWrite?
              && t.tenantPasses[n].tenant.status.ready == Some(Condition(false, reason))
  {
    TenantTurnTaken(s, n, chance);
    FailureLeads(n, s.tenantPasses[n], Deliver(s.store, TC.NextCall(n, s.tenantPasses[n]), chance).1, s.quantities, reason);
    hide Deliver, TC.NextCall, TC.Resume, TenantStep, Reported;
  }

  lemma FailureLeads(n: string, p: TC.Pass, r: Response, quantities: set<string>, reason: string)
    requires !p.pc.Finished?
    ensures var q := TC.Resume(n, p, r, quantities);
            Reported(p.pc, r, reason) <==> q.pc.FailureWrite? && q.tenant.status.ready == Some(Condition(false, reason))
  {
    hide TC.MergedLabels, TC.LimitsOf, ToInt32;
  }

  /** Where no answer comes a pass ends or reports a failure, except that it becomes Active without a count and that its
      teardown goes on, also where the apps could not be listed. */
  lemma LostAnswersStop(s: State, n: string, chance: Chance)
    requires !Idle(s, n) && !chance.fault.NoFault?
    ensures var (pc, t) := (s.tenantPasses[n].pc, TenantStep(s, n, chance));
            Idle(t, n) || t.tenantPasses[n].pc.FailureWrite?
            <==> !(pc.CountApps? || pc.DrainList? || pc.PolicyFind? || pc.PolicyRemove? || pc.CapsuleFind? || pc.CapsuleRemove?
                   || pc.NamespaceFind? || pc.NamespaceRemove?)
  {
    TenantTurnTaken(s, n, chance);
    assert Deliver(s.store, TC.NextCall(n, s.tenantPasses[n]), chance).1 == Error;
    ErrorLeads(n, s.tenantPasses[n], s.quantities);
    hide Deliver, TC.NextCall, TC.Resume, TenantStep;
  }

  lemma ErrorLeads(n: string, p: TC.Pass, quantities: set<string>)
    requires !p.pc.Finished?
    ensures var (pc, q) := (p.pc, TC.Resume(n, p, Error, quantities));
            q.pc.Finished? || q.pc.FailureWrite?
            <==> !(pc.CountApps? || pc.DrainList? || pc.PolicyFind? || pc.PolicyRemove? || pc.CapsuleFind? || pc.CapsuleRemove?
                   || pc.NamespaceFind? || pc.NamespaceRemove?)
  {
    hide TC.MergedLabels, TC.LimitsOf, ToInt32;
  }

  /** The count that is reported is that of the apps in the namespace, as an int32, or the last one where the apps
      could not be listed. */
  lemma CountIsReported(s: State, n: string, chance: Chance)
    requires !Idle(s, n) && s.tenantPasses[n].pc.CountApps?
    ensures var before := s.tenantPasses[n].tenant.status;
            var t := TenantStep(s, n, chance);
            && n in t.tenantPasses && t.tenantPasses[n].pc.ActiveWrite? && ActivationOf(n, t.tenantPasses[n].tenant.status)
            && var apps := AppNames(s.store.apps, "tenant-" + n);
               t.tenantPasses[n].tenant.status.activeApps
               == if chance.fault.NoFault? && Enumerates(chance.order, apps) then ToInt32(|apps|) else before.activeApps
  {
    TenantTurnTaken(s, n, chance);
    AppsListed(s.store, "tenant-" + n, chance);
    if Enumerates(chance.order, AppNames(s.store.apps, "tenant-" + n)) {
      TV.EnumerationLength(chance.order, AppNames(s.store.apps, "tenant-" + n));
    }
    assert TC.NextCall(n, s.tenantPasses[n]) == ListApps("tenant-" + n);
    hide Deliver, TC.NextCall, TenantStep, Enumerates, AppNames, ToInt32;
  }

  // ----- failures -----------------------------------------------------------------------------------------------

  /** The pass stands before the write of a failure with this reason. */
  ghost predicate Failing(s: State, n: string, reason: string) {
    && n in s.tenantPasses && s.tenantPasses[n].pc.FailureWrite?
    && s.tenantPasses[n].tenant.status.ready == Some(Condition(false, reason))
  }

  /** The turn is a call of the tenant's pass that fails and is reported with this reason. */
  ghost predicate CallFails(s: State, l: Label, n: string, reason: string) {
    && l.TenantTurn? && l.name == n && !Idle(s, n)
    && Reported(s.tenantPasses[n].pc, Deliver(s.store, TC.NextCall(n, s.tenantPasses[n]), l.chance).1, reason)
  }

  /** The call of the step before `j` failed, and from the `j`th to the `m`th state the pass is about to say so. */
  ghost predicate FailedSince(states: seq<State>, labels: seq<Label>, n: string, reason: string, j: nat, m: nat)
    requires |states| == |labels| + 1 && m <= |labels|
  {
    && 0 < j <= m && CallFails(states[j - 1], labels[j - 1], n, reason)
    && forall x | j <= x <= m :: Failing(states[x], n, reason)
  }

  lemma OwnTurnFails(s: State, l: Label, n: string, reason: string)
    requires l.TenantTurn? && l.name == n && Failing(Step(s, l), n, reason)
    ensures CallFails(s, l, n, reason)
  {
    if !Idle(s, n) {
      FailuresAreReported(s, n, l.chance, reason);
    }
    hide TenantStep, Deliver, TC.NextCall, Reported;
  }

  lemma {:induction false} HistoryFails(states: seq<State>, labels: seq<Label>, n: string, reason: string, m: nat) returns (j: nat)
    requires History(states, labels) && n !in states[0].tenantPasses && m <= |labels| && Failing(states[m], n, reason)
    ensures FailedSince(states, labels, n, reason, j, m)
  {
    hide Step, Failing, CallFails;
    assert m > 0 by {
      StartsWithoutFailure(states[0], n, reason);
    }
    assert StepAt(states, labels, m - 1);
    if labels[m - 1].TenantTurn? && labels[m - 1].name == n {
      j := m;
      OwnTurnFails(states[m - 1], labels[m - 1], n, reason);
    } else {
      OthersLeaveFailing(states[m - 1], labels[m - 1], n, reason);
      j := HistoryFails(states, labels, n, reason, m - 1);
    }
  }

  lemma StartsWithoutFailure(s: State, n: string, reason: string)
    requires n !in s.tenantPasses
    ensures !Failing(s, n, reason)
  {
  }

  lemma OthersLeaveFailing(s: State, l: Label, n: string, reason: string)
    requires !(l.TenantTurn? && l.name == n) && Failing(Step(s, l), n, reason)
    ensures Failing(s, n, reason)
  {
    TA.OthersLeavePass(s, l, n);
    hide Step;
  }

  ghost predicate BecomesFailed(s: State, t: State, n: string, reason: string) {
    && n in s.store.tenants && n in t.store.tenants && t.store.tenants[n].status != s.store.tenants[n].status
    && t.store.tenants[n].status.phase == TenantFailed
    && t.store.tenants[n].status.ready == Some(Condition(false, reason))
  }

  lemma OnlyFailuresMakeFailed(n: string, pc: TC.Pc, before: Tenant, after: Tenant)
    requires IsWrite(pc) && Makes(n, pc, before, after.(rv := before.rv))
    requires after.status != before.status && after.status.phase == TenantFailed
    ensures pc.FailureWrite?
  {
  }

  lemma FailureIsStored(s: State, n: string, chance: Chance)
    requires Accounted(s, n) && n in s.store.tenants && !Idle(s, n) && s.tenantPasses[n].pc.FailureWrite?
    requires var t := TenantStep(s, n, chance); n in t.store.tenants && t.store.tenants[n] != s.store.tenants[n]
    ensures TenantStep(s, n, chance).store.tenants[n].status == s.tenantPasses[n].tenant.status
  {
    var p := s.tenantPasses[n];
    TenantTurnTaken(s, n, chance);
    DeliverTouches(s.store, TC.NextCall(n, p), chance);
    CallOfWrite(n, p);
    hide Deliver, TC.NextCall, TC.Resume, TenantStep, ServeTenant;
    WriteStores(s.store.tenants, s.store.clock, UpdateTenantStatus(n, p.tenant), n);
  }

  /** In every history: when a Tenant's status becomes Failed with a reason, an earlier call of the very pass that writes it
      had failed, it is one that is reported with that reason, and the pass did nothing in between. */
  lemma FailureIsEarned(states: seq<State>, labels: seq<Label>, i: nat, n: string, reason: string) returns (j: nat)
    requires History(states, labels) && TA.Begins(states[0], n) && i < |labels|
    requires BecomesFailed(states[i], states[i + 1], n, reason)
    ensures labels[i].TenantTurn? && labels[i].name == n && FailedSince(states, labels, n, reason, j, i)
  {
    hide Step, TenantStep, Makes, Accounted, TA.Begins;
    StatusChangesExactly(states, labels, i, n);
    HistoryAccounted(states, labels, n, i);
    var s := states[i];
    assert states[i + 1] == TenantStep(s, n, labels[i].chance) by {
      TA.StepIsTurn(states, labels, i, n);
    }
    OwnTurnWrites(s, n, labels[i].chance);
    OnlyFailuresMakeFailed(n, s.tenantPasses[n].pc, s.store.tenants[n], states[i + 1].store.tenants[n]);
    FailureIsStored(s, n, labels[i].chance);
    j := HistoryFails(states, labels, n, reason, i) by {
      BeginsIdle(states[0], n);
    }
  }

  lemma BeginsIdle(s: State, n: string)
    requires TA.Begins(s, n)
    ensures n !in s.tenantPasses
  {
  }
}
