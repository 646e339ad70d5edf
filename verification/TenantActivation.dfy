/** A tenant becomes Active only through a pass that has completed all four stages, in every history; and as long
    as outsiders do not undo them, all four are still in place at that moment. */
module TenantActivation {
  import opened Options
  import opened Kube
  import opened ApiServer
  import opened Operator
  import opened TenantStages
  import TC = TenantController

  /** No pass in flight, and versions that were handed out by this server. */
  ghost predicate Begins(s: State, n: string) {
    n !in s.tenantPasses && (n in s.store.tenants ==> s.store.tenants[n].rv < s.store.clock)
  }

  ghost predicate BecomesActive(t: State, u: State, n: string) {
    && n in u.store.tenants && u.store.tenants[n].status.phase == Active
    && !(n in t.store.tenants && t.store.tenants[n].status.phase == Active)
  }

  // ----- only the end of the pipeline -------------------------------------------------------------------------------

  lemma {:induction false} HistoryCurrent(states: seq<State>, labels: seq<Label>, n: string, i: nat)
    requires History(states, labels) && Begins(states[0], n) && i <= |labels|
    ensures Current(states[i], n)
  {
    if i > 0 {
      hide Current, Step, Begins;
      HistoryCurrent(states, labels, n, i - 1);
      assert StepAt(states, labels, i - 1);
      StepCurrent(states[i - 1], labels[i - 1], n);
    } else {
      hide Step;
    }
  }

  lemma StepActivates(s: State, l: Label, n: string)
    requires Current(s, n) && BecomesActive(s, Step(s, l), n)
    ensures l.TenantTurn? && l.name == n && !Idle(s, n) && s.tenantPasses[n].pc.ActiveWrite?
  {
    if l.TenantTurn? && l.name == n {
      TurnStore(s, n, l.chance);
      if !Idle(s, n) && !s.tenantPasses[n].pc.ActiveWrite? {
        OwnActivation(s.store, n, s.tenantPasses[n], l.chance);
      }
      hide Deliver, TC.NextCall, TenantStep;
    } else {
      OtherStepTenant(s, l, n);
      hide Step;
    }
  }

  lemma TurnStore(s: State, n: string, chance: Chance)
    ensures TenantStep(s, n, chance).store ==
              if Idle(s, n) then s.store else Deliver(s.store, TC.NextCall(n, s.tenantPasses[n]), chance).0
  {
    hide Deliver, TC.NextCall, TC.Resume;
  }

  lemma OwnActivation(s: Store, n: string, p: TC.Pass, chance: Chance)
    requires !p.pc.Finished? && PhaseFits(p) && !p.pc.ActiveWrite?
    ensures var t := Deliver(s, TC.NextCall(n, p), chance).0;
            n in t.tenants && t.tenants[n].status.phase == Active ==> n in s.tenants && s.tenants[n].status.phase == Active
  {
    if Refreshes(p.pc) || p.pc.FailureWrite? || p.pc.DropFinalizer? {
      StatusWritten(s, n, TC.NextCall(n, p), chance);
      hide Deliver;
    } else {
      KeepsTenants(s, n, p, chance);
      hide Deliver, TC.NextCall;
    }
  }

  lemma StatusWritten(s: Store, n: string, call: Call, chance: Chance)
    requires WritesTenant(call) && call.name == n
    ensures var t := Deliver(s, call, chance).0;
            n in t.tenants ==>
              && n in s.tenants
              && (t.tenants == s.tenants
                  || (s.tenants[n].rv == call.tenant.rv
                      && t.tenants[n].status == (if call.UpdateTenantStatus? then call.tenant.status else s.tenants[n].status)
                      && t.tenants[n].spec == (if call.UpdateTenant? then call.tenant.spec else s.tenants[n].spec)))
  {
    TenantServed(s, call, chance.order);
    hide Serve;
  }

  /** In every history, whoever interferes and whatever fails, only the status write at the end of the tenant's
      own pipeline makes it Active. */
  lemma OnlyPipelineActivates(states: seq<State>, labels: seq<Label>, i: nat, n: string)
    requires History(states, labels) && Begins(states[0], n) && i < |labels|
    requires BecomesActive(states[i], states[i + 1], n)
    ensures labels[i].TenantTurn? && labels[i].name == n && !Idle(states[i], n)
    ensures states[i].tenantPasses[n].pc.ActiveWrite?
  {
    hide Step, Begins, BecomesActive, Current;
    HistoryCurrent(states, labels, n, i);
    assert StepAt(states, labels, i);
    StepActivates(states[i], labels[i], n);
  }

  /** That write goes through a copy that is current: the spec it worked for is the spec stored. */
  lemma ActivatesStoredSpec(s: State, n: string, chance: Chance)
    requires Current(s, n) && !Idle(s, n) && s.tenantPasses[n].pc.ActiveWrite?
    requires BecomesActive(s, TenantStep(s, n, chance), n)
    ensures TenantStep(s, n, chance).store.tenants[n].spec == s.tenantPasses[n].tenant.spec
  {
    hide TenantStep, Deliver;
    var p := s.tenantPasses[n];
    TurnStore(s, n, chance);
    assert TC.NextCall(n, p) == UpdateTenantStatus(n, p.tenant);
    hide TC.NextCall;
    StatusWritten(s.store, n, UpdateTenantStatus(n, p.tenant), chance);
  }

  // ----- the steps that earned it -----------------------------------------------------------------------------------

  /** States of a history right after namespace, Capsule tenant, policy and quota were made right. */
  datatype Steps = Steps(namespace: nat, capsule: nat, policy: nat, quota: nat)

  /** The pass is in flight beyond its namespace stage, and works for `spec`.  A pass that starts anew, or
      another one, goes through the namespace stage first. */
  ghost predicate WorksFor(s: State, n: string, spec: TenantSpec) {
    n in s.tenantPasses && PastNamespace(s.tenantPasses[n].pc) && s.tenantPasses[n].tenant.spec == spec
  }

  /** From the `j`th to the `m`th state it is one and the same pass. */
  ghost predicate OnePassFrom(states: seq<State>, n: string, spec: TenantSpec, j: nat, m: nat)
    requires m < |states|
  {
    forall x | j <= x <= m :: WorksFor(states[x], n, spec)
  }

  /** Each stage that the pass has behind it was completed at its step, in order; without isolation the policy's
      takes no step of its own. */
  ghost predicate Earned(states: seq<State>, n: string, m: nat, w: Steps)
    requires m < |states|
  {
    n in states[m].tenantPasses ==>
      var p := states[m].tenantPasses[n];
      var spec := p.tenant.spec;
      && (p.pc.NamespaceUpdate? ==> WellLabelled(p.pc.namespace.labels, n))
      && (PastNamespace(p.pc) ==>
            w.namespace <= m && NamespaceDone(states[w.namespace].store, n) && OnePassFrom(states, n, spec, w.namespace, m))
      && (PastCapsule(p.pc) ==> w.namespace < w.capsule <= m && CapsuleDone(states[w.capsule].store, n, spec))
      && (PastPolicy(p.pc) ==>
            && w.capsule <= w.policy <= m && PolicyDone(states[w.policy].store, n, spec)
            && (TC.Isolated(spec) ==> w.capsule < w.policy))
      && (PastQuota(p.pc) ==> w.policy < w.quota <= m && QuotaDone(states[w.quota].store, n, spec))
  }

  lemma OnePassGoesOn(states: seq<State>, n: string, spec: TenantSpec, j: nat, m: nat)
    requires 0 < m < |states| && j <= m && WorksFor(states[m], n, spec)
    requires j < m ==> OnePassFrom(states, n, spec, j, m - 1)
    ensures OnePassFrom(states, n, spec, j, m)
  {
    hide WorksFor;
  }

  /** Others leave the pass as it is, or it is gone. */
  lemma OthersEarnNothing(states: seq<State>, n: string, m: nat, w: Steps)
    requires 0 < m < |states| && Earned(states, n, m - 1, w)
    requires n in states[m].tenantPasses ==>
               n in states[m - 1].tenantPasses && states[m].tenantPasses[n] == states[m - 1].tenantPasses[n]
    ensures Earned(states, n, m, w)
  {
    hide NamespaceDone, CapsuleDone, PolicyDone, QuotaDone, WellLabelled, TC.Isolated;
    if n in states[m].tenantPasses && PastNamespace(states[m].tenantPasses[n].pc) {
      OnePassGoesOn(states, n, states[m].tenantPasses[n].tenant.spec, w.namespace, m);
    }
    hide OnePassFrom;
  }

  function StepsAfter(p: TC.Pass, m: nat, w: Steps): Steps {
    Steps(if PastNamespace(p.pc) then w.namespace else m, if PastCapsule(p.pc) then w.capsule else m,
          if PastPolicy(p.pc) then w.policy else m, if PastQuota(p.pc) then w.quota else m)
  }

  lemma OwnCallEarns(states: seq<State>, n: string, m: nat, w: Steps, q: TC.Pass)
    requires 0 < m < |states| && Earned(states, n, m - 1, w)
    requires n in states[m - 1].tenantPasses && Completes(states[m].store, n, states[m - 1].tenantPasses[n], q)
    requires n in states[m].tenantPasses ==> states[m].tenantPasses[n] == q
    ensures Earned(states, n, m, StepsAfter(states[m - 1].tenantPasses[n], m, w))
  {
    hide NamespaceDone, CapsuleDone, PolicyDone, QuotaDone, WellLabelled, TC.Isolated;
    var w' := StepsAfter(states[m - 1].tenantPasses[n], m, w);
    if n in states[m].tenantPasses && PastNamespace(q.pc) {
      OnePassGoesOn(states, n, q.tenant.spec, w'.namespace, m);
    }
    hide OnePassFrom;
  }

  lemma OwnTurnEarns(states: seq<State>, labels: seq<Label>, n: string, m: nat, w: Steps) returns (w': Steps)
    requires History(states, labels) && 0 < m <= |labels| && Earned(states, n, m - 1, w)
    requires labels[m - 1].TenantTurn? && labels[m - 1].name == n
    ensures Earned(states, n, m, w')
  {
    var s := states[m - 1];
    assert StepAt(states, labels, m - 1);
    assert states[m] == TenantStep(s, n, labels[m - 1].chance);
    if Idle(s, n) {
      w' := w;
      assert states[m].tenantPasses[n] == TC.NewPass;
    } else {
      var p := s.tenantPasses[n];
      CallCompletes(s.store, n, p, labels[m - 1].chance, s.quantities);
      w' := StepsAfter(p, m, w);
      var (t, r) := Deliver(s.store, TC.NextCall(n, p), labels[m - 1].chance);
      OwnPassAfter(s, n, labels[m - 1].chance);
      hide TenantStep, Step, Deliver, TC.NextCall, TC.Resume, Completes, Earned, History, StepAt;
      OwnCallEarns(states, n, m, w, TC.Resume(n, p, r, s.quantities));
    }
  }

  lemma OwnPassAfter(s: State, n: string, chance: Chance)
    requires !Idle(s, n)
    ensures var p := s.tenantPasses[n];
            var (store, r) := Deliver(s.store, TC.NextCall(n, p), chance);
            var t := TenantStep(s, n, chance);
            t.store == store && (n in t.tenantPasses ==> t.tenantPasses[n] == TC.Resume(n, p, r, s.quantities))
  {
    hide Deliver, TC.NextCall, TC.Resume;
  }

  lemma OthersLeavePass(s: State, l: Label, n: string)
    requires l.TenantTurn? ==> l.name != n
    ensures n in Step(s, l).tenantPasses ==> n in s.tenantPasses && Step(s, l).tenantPasses[n] == s.tenantPasses[n]
  {
    if !l.WriteTenantChildren? {
      OtherStepLeavesFour(s, l, n);
      hide Step;
    }
  }

  lemma {:induction false} HistoryEarns(states: seq<State>, labels: seq<Label>, n: string, m: nat) returns (w: Steps)
    requires History(states, labels) && n !in states[0].tenantPasses && m <= |labels|
    ensures Earned(states, n, m, w)
  {
    hide Step;
    if m == 0 {
      w := Steps(0, 0, 0, 0);
    } else {
      hide Earned;
      w := HistoryEarns(states, labels, n, m - 1);
      assert StepAt(states, labels, m - 1);
      if labels[m - 1].TenantTurn? && labels[m - 1].name == n {
        w := OwnTurnEarns(states, labels, n, m, w);
      } else {
        OthersLeavePass(states[m - 1], labels[m - 1], n);
        OthersEarnNothing(states, n, m, w);
      }
    }
  }

  /** In every history, outside writes to any object included: when a tenant becomes Active, its pass had made
      the namespace, the Capsule tenant, the policy and the quota right, in this order and for the very spec
      that is stored, at four steps of one and the same pass. */
  lemma ActiveIsEarned(states: seq<State>, labels: seq<Label>, i: nat, n: string) returns (w: Steps)
    requires History(states, labels) && Begins(states[0], n) && i < |labels|
    requires BecomesActive(states[i], states[i + 1], n)
    ensures var spec := states[i + 1].store.tenants[n].spec;
            && w.namespace < w.capsule <= w.policy < w.quota <= i && (TC.Isolated(spec) ==> w.capsule < w.policy)
            && NamespaceDone(states[w.namespace].store, n) && CapsuleDone(states[w.capsule].store, n, spec)
            && PolicyDone(states[w.policy].store, n, spec) && QuotaDone(states[w.quota].store, n, spec)
            && OnePassFrom(states, n, spec, w.namespace, i)
  {
    hide Current, Step, TenantStep, NamespaceDone, CapsuleDone, PolicyDone, QuotaDone, WellLabelled, OnePassFrom, TC.Isolated;
    OnlyPipelineActivates(states, labels, i, n);
    HistoryCurrent(states, labels, n, i);
    w := HistoryEarns(states, labels, n, i);
    StepIsTurn(states, labels, i, n);
    ActivatesStoredSpec(states[i], n, labels[i].chance);
  }

  lemma StepIsTurn(states: seq<State>, labels: seq<Label>, i: nat, n: string)
    requires History(states, labels) && i < |labels| && labels[i].TenantTurn? && labels[i].name == n
    ensures states[i + 1] == TenantStep(states[i], n, labels[i].chance)
  {
    hide TenantStep;
    assert StepAt(states, labels, i);
  }

  // ----- and they are still in place --------------------------------------------------------------------------------

  /** Where outsiders write namespaces, Capsule tenants, policies or quotas, they undo nothing of this tenant's. */
  ghost predicate OutsidersLeave(states: seq<State>, labels: seq<Label>, n: string)
    requires |states| == |labels| + 1
  {
    forall i | 0 <= i < |labels| && labels[i].WriteTenantChildren? :: LeavesFour(states[i].store, states[i + 1].store, n)
  }

  lemma {:induction false} HistoryStaged(states: seq<State>, labels: seq<Label>, n: string, i: nat)
    requires History(states, labels) && Begins(states[0], n) && OutsidersLeave(states, labels, n) && i <= |labels|
    ensures Staged(states[i], n)
  {
    if i > 0 {
      hide Staged, Step, LeavesFour;
      HistoryStaged(states, labels, n, i - 1);
      assert StepAt(states, labels, i - 1);
      StepStaged(states[i - 1], labels[i - 1], n);
    } else {
      hide Step, StagesDone, LeavesFour;
    }
  }

  lemma ActiveWriteKeepsFour(s: Store, n: string, p: TC.Pass, chance: Chance)
    requires p.pc.ActiveWrite? && StagesDone(s, n, p)
    ensures AllFour(Deliver(s, TC.NextCall(n, p), chance).0, n, p.tenant.spec)
  {
    var call := TC.NextCall(n, p);
    OthersLeaveFour(s, call, chance);
    var t := Deliver(s, call, chance).0;
    SameFourKeeps(s, t, n, p);
    hide Deliver, NamespaceDone, CapsuleDone, PolicyDone, QuotaDone;
  }

  /** In every history in which outsiders undo nothing of this tenant's, whatever else happens and whatever
      fails: the step that makes a tenant Active leaves its namespace, Capsule tenant, policy and quota exactly as
      the spec stored at that moment says. */
  lemma ActiveMeansAllFour(states: seq<State>, labels: seq<Label>, i: nat, n: string)
    requires History(states, labels) && Begins(states[0], n) && OutsidersLeave(states, labels, n) && i < |labels|
    requires BecomesActive(states[i], states[i + 1], n)
    ensures AllFour(states[i + 1].store, n, states[i + 1].store.tenants[n].spec)
  {
    OnlyPipelineActivates(states, labels, i, n);
    HistoryCurrent(states, labels, n, i);
    HistoryStaged(states, labels, n, i);
    StepIsTurn(states, labels, i, n);
    var p := states[i].tenantPasses[n];
    TurnStore(states[i], n, labels[i].chance);
    ActivatesStoredSpec(states[i], n, labels[i].chance);
    hide Step, TenantStep, StagesDone, Deliver, TC.NextCall, AllFour, History, OutsidersLeave, Current;
    ActiveWriteKeepsFour(states[i].store, n, p, labels[i].chance);
  }
}
