/** An App becomes Ready only at the end of a pass that had found its tenant, had made its service match the stored spec
    and then read it as ready, and Failed only after a call of its pass had failed, in every history. */
module AppReadiness {
  import opened Options
  import opened Kube
  import opened ApiServer
  import opened Operator
  import opened AppStatuses
  import AV = AppVersions
  import AC = AppController

  predicate PastService(pc: AC.Pc) {
    pc.MappingList? || pc.MappingDelete? || pc.MappingCreate? || pc.StatusRead? || pc.StatusWrite?
  }

  predicate PastTenant(pc: AC.Pc) {
    pc.ServiceGet? || pc.ServiceCreate? || pc.ServiceUpdate? || PastService(pc)
  }

  ghost predicate ServiceShown(store: Store, k: Key, spec: AppSpec) {
    k in store.services && AC.Renders(store.services[k].spec, spec)
  }

  predicate ReportedReady(store: Store, k: Key, status: AppStatus) {
    && k in store.services && store.services[k].status.Some?
    && ("Ready", "True") in store.services[k].status.value.conditions
    && status.url == store.services[k].status.value.url
    && status.latestRevision == store.services[k].status.value.latestRevision
  }

  /** The pass is beyond its tenant check and works for `spec`.  Another pass goes through that check first. */
  ghost predicate WorksFor(s: State, k: Key, spec: AppSpec) {
    k in s.appPasses && PastTenant(s.appPasses[k].pc) && s.appPasses[k].app.spec == spec
  }

  /** From the `j`th to the `m`th state it is one and the same pass. */
  ghost predicate OnePassFrom(states: seq<State>, k: Key, spec: AppSpec, j: nat, m: nat)
    requires m < |states|
  {
    forall x | j <= x <= m :: WorksFor(states[x], k, spec)
  }

  /** States of a history in which the tenant existed, in which the service matched, and from which the pass read its
      status. */
  datatype Steps = Steps(tenant: nat, service: nat, read: nat)

  ghost predicate ReadAt(s: State, k: Key, status: AppStatus) {
    && k in s.appPasses && s.appPasses[k].pc.StatusRead?
    && (status.phase == Ready ==> ReportedReady(s.store, k, status))
  }

  ghost predicate Earned(states: seq<State>, k: Key, m: nat, w: Steps)
    requires m < |states|
  {
    k in states[m].appPasses && PastTenant(states[m].appPasses[k].pc) ==>
      var p := states[m].appPasses[k];
      && w.tenant <= m && p.app.spec.tenantRef in states[w.tenant].store.tenants
      && OnePassFrom(states, k, p.app.spec, w.tenant, m)
      && (PastService(p.pc) ==> w.tenant < w.service <= m && ServiceShown(states[w.service].store, k, p.app.spec))
      && (p.pc.StatusWrite? ==> w.service <= w.read < m && ReadAt(states[w.read], k, p.app.status))
  }

  // ----- one call of the pass -----------------------------------------------------------------------------------

  /** The answers that lead beyond the service stage. */
  lemma ServiceLeads(p: AC.Pass, r: Response)
    requires !p.pc.Finished?
    ensures var q := AC.Resume(p, r);
            && (PastTenant(q.pc) && PastTenant(p.pc) ==> q.app.spec == p.app.spec)
            && (PastTenant(q.pc) && !PastTenant(p.pc) ==> p.pc.CheckTenant? && r.GotTenant? && q.app == p.app && q.pc.ServiceGet?)
            && (PastService(q.pc) && !PastService(p.pc) ==>
                  || (p.pc.ServiceGet? && r.GotService? && r.service.spec == AC.DesiredServiceSpec(p.app.spec))
                  || ((p.pc.ServiceCreate? || p.pc.ServiceUpdate?) && r.Ok?))
            && (q.pc.StatusWrite? ==> p.pc.StatusRead?)
  {
    hide AC.Stale, AC.Missing, AC.DesiredServiceSpec, AC.Observed;
  }

  lemma ServiceGot(store: Store, k: Key, p: AC.Pass, chance: Chance)
    requires p.pc.ServiceGet?
    ensures var (after, r) := Deliver(store, AC.NextCall(k, p), chance);
            r.GotService? && r.service.spec == AC.DesiredServiceSpec(p.app.spec) ==> ServiceShown(after, k, p.app.spec)
  {
    ServiceRead(store, k, chance);
    AC.RendersExactly(AC.DesiredServiceSpec(p.app.spec), p.app.spec);
    assert AC.NextCall(k, p) == GetService(k);
    hide Deliver, AC.NextCall, AC.Renders, AC.DesiredServiceSpec;
  }

  lemma ServiceWritten(store: Store, k: Key, p: AC.Pass, chance: Chance)
    requires p.pc.ServiceCreate? || p.pc.ServiceUpdate?
    ensures var (after, r) := Deliver(store, AC.NextCall(k, p), chance);
            r.Ok? ==> ServiceShown(after, k, p.app.spec)
  {
    AC.RendersExactly(AC.DesiredServiceSpec(p.app.spec), p.app.spec);
    hide AC.Renders, AC.DesiredServiceSpec, AC.ChildLabels, AC.KeptAnnotations;
  }

  lemma TenantGot(store: Store, k: Key, p: AC.Pass, chance: Chance)
    requires p.pc.CheckTenant?
    ensures var (after, r) := Deliver(store, AC.NextCall(k, p), chance);
            r.GotTenant? ==> p.app.spec.tenantRef in after.tenants
  {
  }

  lemma OwnCall(store: Store, k: Key, p: AC.Pass, chance: Chance)
    requires !p.pc.Finished?
    ensures var (after, r) := Deliver(store, AC.NextCall(k, p), chance);
            var q := AC.Resume(p, r);
            && (PastTenant(q.pc) && PastTenant(p.pc) ==> q.app.spec == p.app.spec)
            && (PastTenant(q.pc) && !PastTenant(p.pc) ==> q.app.spec.tenantRef in after.tenants && q.pc.ServiceGet?)
            && (PastService(q.pc) && !PastService(p.pc) ==> ServiceShown(after, k, q.app.spec) && !q.pc.StatusWrite?)
            && (q.pc.StatusWrite? ==> p.pc.StatusRead?)
  {
    ServiceLeads(p, Deliver(store, AC.NextCall(k, p), chance).1);
    if p.pc.CheckTenant? {
      TenantGot(store, k, p, chance);
    } else if p.pc.ServiceGet? {
      ServiceGot(store, k, p, chance);
    } else if p.pc.ServiceCreate? || p.pc.ServiceUpdate? {
      ServiceWritten(store, k, p, chance);
    }
    hide Deliver, AC.NextCall, AC.Resume, ServiceShown, AC.DesiredServiceSpec;
  }

  lemma Reads(s: State, k: Key, chance: Chance)
    requires !AppIdle(s, k) && s.appPasses[k].pc.StatusRead?
    ensures var t := AppStep(s, k, chance); k in t.appPasses && ReadAt(s, k, t.appPasses[k].app.status)
  {
    ReadingIsReported(s, k, chance);
    hide AppStep;
  }

  // ----- histories ----------------------------------------------------------------------------------------------

  lemma OnePassGoesOn(states: seq<State>, k: Key, spec: AppSpec, j: nat, m: nat)
    requires 0 < m < |states| && j <= m && WorksFor(states[m], k, spec)
    requires j < m ==> OnePassFrom(states, k, spec, j, m - 1)
    ensures OnePassFrom(states, k, spec, j, m)
  {
    hide WorksFor;
  }

  lemma OthersEarnNothing(states: seq<State>, k: Key, m: nat, w: Steps)
    requires 0 < m < |states| && Earned(states, k, m - 1, w)
    requires k in states[m].appPasses ==>
               k in states[m - 1].appPasses && states[m].appPasses[k] == states[m - 1].appPasses[k]
    ensures Earned(states, k, m, w)
  {
    hide ServiceShown, ReadAt;
    if k in states[m].appPasses && PastTenant(states[m].appPasses[k].pc) {
      OnePassGoesOn(states, k, states[m].appPasses[k].app.spec, w.tenant, m);
    }
    hide OnePassFrom;
  }

  /** What a turn of the pass in flight leads to. */
  ghost predicate TurnFits(s: State, t: State, k: Key)
    requires k in s.appPasses
  {
    k in t.appPasses ==>
      var (p, q) := (s.appPasses[k], t.appPasses[k]);
      && (PastTenant(q.pc) && PastTenant(p.pc) ==> q.app.spec == p.app.spec)
      && (PastTenant(q.pc) && !PastTenant(p.pc) ==> q.app.spec.tenantRef in t.store.tenants && q.pc.ServiceGet?)
      && (PastService(q.pc) && !PastService(p.pc) ==> ServiceShown(t.store, k, q.app.spec) && !q.pc.StatusWrite?)
      && (q.pc.StatusWrite? ==> p.pc.StatusRead? && ReadAt(s, k, q.app.status))
  }

  lemma OwnTurn(s: State, k: Key, chance: Chance)
    requires !AppIdle(s, k)
    ensures TurnFits(s, AppStep(s, k, chance), k)
  {
    OwnCall(s.store, k, s.appPasses[k], chance);
    AppTurnTaken(s, k, chance);
    if s.appPasses[k].pc.StatusRead? {
      Reads(s, k, chance);
    }
    hide AppStep, Deliver, AC.NextCall, AC.Resume, ServiceShown, ReadAt;
  }

  function StepsAfter(pc: AC.Pc, m: nat, w: Steps): Steps
    requires 0 < m
  {
    Steps(if PastTenant(pc) then w.tenant else m, if PastService(pc) then w.service else m, m - 1)
  }

  lemma TurnEarns(states: seq<State>, k: Key, m: nat, w: Steps)
    requires 0 < m < |states| && Earned(states, k, m - 1, w)
    requires k in states[m - 1].appPasses && TurnFits(states[m - 1], states[m], k)
    ensures Earned(states, k, m, StepsAfter(states[m - 1].appPasses[k].pc, m, w))
  {
    hide ServiceShown, ReadAt;
    var w' := StepsAfter(states[m - 1].appPasses[k].pc, m, w);
    if k in states[m].appPasses && PastTenant(states[m].appPasses[k].pc) {
      OnePassGoesOn(states, k, states[m].appPasses[k].app.spec, w'.tenant, m);
    }
    hide OnePassFrom;
  }

  lemma OwnTurnEarns(states: seq<State>, labels: seq<Label>, k: Key, m: nat, w: Steps) returns (w': Steps)
    requires History(states, labels) && 0 < m <= |labels| && Earned(states, k, m - 1, w)
    requires labels[m - 1].AppTurn? && labels[m - 1].key == k
    ensures Earned(states, k, m, w')
  {
    var s := states[m - 1];
    StepIsTurn(states, labels, m - 1, k);
    if AppIdle(s, k) {
      w' := w;
      assert states[m].appPasses[k] == AC.NewPass;
    } else {
      w' := StepsAfter(s.appPasses[k].pc, m, w);
      OwnTurn(s, k, labels[m - 1].chance);
      hide AppStep, TurnFits, Earned, History, StepsAfter;
      TurnEarns(states, k, m, w);
    }
  }

  lemma {:induction false} HistoryEarns(states: seq<State>, labels: seq<Label>, k: Key, m: nat) returns (w: Steps)
    requires History(states, labels) && k !in states[0].appPasses && m <= |labels|
    ensures Earned(states, k, m, w)
  {
    hide Step;
    if m == 0 {
      w := Steps(0, 0, 0);
    } else {
      hide Earned;
      w := HistoryEarns(states, labels, k, m - 1);
      assert StepAt(states, labels, m - 1);
      if labels[m - 1].AppTurn? && labels[m - 1].key == k {
        w := OwnTurnEarns(states, labels, k, m, w);
      } else {
        AV.OtherStepLeavesPass(states[m - 1], labels[m - 1], k);
        OthersEarnNothing(states, k, m, w);
      }
    }
  }

  ghost predicate BecomesReady(s: State, t: State, k: Key) {
    && k in s.store.apps && s.store.apps[k].status.phase != Ready
    && k in t.store.apps && t.store.apps[k].status.phase == Ready
  }

  lemma OnlyReportsMakeReady(pc: AC.Pc, before: App, after: App)
    requires IsWrite(pc) && Makes(pc, before, after.(rv := before.rv)) && before.status.phase != Ready && after.status.phase == Ready
    ensures pc.StatusWrite?
  {
  }

  /** The status write goes through a copy that is current: its spec is the one stored, and its status is what is stored
      by it. */
  lemma ReportIsStored(s: State, k: Key, chance: Chance)
    requires Accounted(s, k) && k in s.store.apps && !AppIdle(s, k) && s.appPasses[k].pc.StatusWrite?
    requires var t := AppStep(s, k, chance); k in t.store.apps && t.store.apps[k] != s.store.apps[k]
    ensures var t := AppStep(s, k, chance);
            && t.store.apps[k].status == s.appPasses[k].app.status && t.store.apps[k].spec == s.appPasses[k].app.spec
  {
    var p := s.appPasses[k];
    AppTurnTaken(s, k, chance);
    DeliverTouches(s.store, AC.NextCall(k, p), chance);
    CallOfWrite(k, p);
    hide Deliver, AC.NextCall, AC.Resume, AppStep, ServeApp;
    WriteStores(s.store.apps, s.store.clock, UpdateAppStatus(k, p.app), k);
  }

  /** In every history: an App becomes Ready only by the status write of its own pass, and that pass had found the tenant,
      then found or made the service as the spec now stored says, and after that had read from Knative that it is ready,
      with the URL and revision now stored. */
  lemma ReadyIsEarned(states: seq<State>, labels: seq<Label>, i: nat, k: Key) returns (w: Steps)
    requires History(states, labels) && AV.Begins(states[0], k) && i < |labels|
    requires BecomesReady(states[i], states[i + 1], k)
    ensures labels[i].AppTurn? && labels[i].key == k
    ensures var app := states[i + 1].store.apps[k];
            && w.tenant < w.service <= w.read < i
            && app.spec.tenantRef in states[w.tenant].store.tenants
            && ServiceShown(states[w.service].store, k, app.spec)
            && ReportedReady(states[w.read].store, k, app.status)
            && OnePassFrom(states, k, app.spec, w.tenant, i)
  {
    hide Step, AppStep, Makes, Accounted, AV.Begins, ServiceShown, ReportedReady, OnePassFrom;
    w := HistoryEarns(states, labels, k, i) by {
      BeginsIdle(states[0], k);
    }
    StatusChangesExactly(states, labels, i, k);
    HistoryAccounted(states, labels, k, i);
    var s := states[i];
    assert states[i + 1] == AppStep(s, k, labels[i].chance) by {
      StepIsTurn(states, labels, i, k);
    }
    OwnTurnWrites(s, k, labels[i].chance);
    OnlyReportsMakeReady(s.appPasses[k].pc, s.store.apps[k], states[i + 1].store.apps[k]);
    ReportIsStored(s, k, labels[i].chance);
  }

  lemma BeginsIdle(s: State, k: Key)
    requires AV.Begins(s, k)
    ensures k !in s.appPasses
  {
  }

  lemma StepIsTurn(states: seq<State>, labels: seq<Label>, i: nat, k: Key)
    requires History(states, labels) && i < |labels| && labels[i].AppTurn? && labels[i].key == k
    ensures states[i + 1] == AppStep(states[i], k, labels[i].chance)
  {
    hide AppStep;
    assert StepAt(states, labels, i);
  }

  // ----- failures -----------------------------------------------------------------------------------------------

  /** The pass stands before the write of a failure with this reason. */
  ghost predicate Failing(s: State, k: Key, reason: string) {
    && k in s.appPasses && s.appPasses[k].pc.FailureWrite?
    && s.appPasses[k].app.status.ready == Some(Condition(false, reason))
  }

  /** The turn is a call of the app's pass that fails and is reported with this reason. */
  ghost predicate CallFails(s: State, l: Label, k: Key, reason: string) {
    && l.AppTurn? && l.key == k && !AppIdle(s, k)
    && Reported(s.appPasses[k].pc, Deliver(s.store, AC.NextCall(k, s.appPasses[k]), l.chance).1, reason)
  }

  /** The call of the step before `j` failed, and from the `j`th to the `m`th state the pass is about to say so. */
  ghost predicate FailedSince(states: seq<State>, labels: seq<Label>, k: Key, reason: string, j: nat, m: nat)
    requires |states| == |labels| + 1 && m <= |labels|
  {
    && 0 < j <= m && CallFails(states[j - 1], labels[j - 1], k, reason)
    && forall x | j <= x <= m :: Failing(states[x], k, reason)
  }

  lemma OwnTurnFails(s: State, l: Label, k: Key, reason: string)
    requires l.AppTurn? && l.key == k && Failing(Step(s, l), k, reason)
    ensures CallFails(s, l, k, reason)
  {
    if !AppIdle(s, k) {
      FailuresAreReported(s, k, l.chance, reason);
    }
    hide AppStep, Deliver, AC.NextCall, Reported;
  }

  lemma {:induction false} HistoryFails(states: seq<State>, labels: seq<Label>, k: Key, reason: string, m: nat) returns (j: nat)
    requires History(states, labels) && k !in states[0].appPasses && m <= |labels| && Failing(states[m], k, reason)
    ensures FailedSince(states, labels, k, reason, j, m)
  {
    hide Step, Failing, CallFails;
    assert m > 0 by {
      StartsWithoutFailure(states[0], k, reason);
    }
    assert StepAt(states, labels, m - 1);
    if labels[m - 1].AppTurn? && labels[m - 1].key == k {
      j := m;
      OwnTurnFails(states[m - 1], labels[m - 1], k, reason);
    } else {
      OthersLeaveFailing(states[m - 1], labels[m - 1], k, reason);
      j := HistoryFails(states, labels, k, reason, m - 1);
    }
  }

  lemma StartsWithoutFailure(s: State, k: Key, reason: string)
    requires k !in s.appPasses
    ensures !Failing(s, k, reason)
  {
  }

  lemma OthersLeaveFailing(s: State, l: Label, k: Key, reason: string)
    requires !(l.AppTurn? && l.key == k) && Failing(Step(s, l), k, reason)
    ensures Failing(s, k, reason)
  {
    AV.OtherStepLeavesPass(s, l, k);
    hide Step;
  }

  ghost predicate BecomesFailed(s: State, t: State, k: Key, reason: string) {
    && k in s.store.apps && k in t.store.apps && t.store.apps[k].status != s.store.apps[k].status
    && t.store.apps[k].status.phase == AppPhase.Failed
    && t.store.apps[k].status.ready == Some(Condition(false, reason))
  }

  lemma OnlyFailuresMakeFailed(pc: AC.Pc, before: App, after: App)
    requires IsWrite(pc) && Makes(pc, before, after.(rv := before.rv))
    requires after.status != before.status && after.status.phase == AppPhase.Failed
    ensures pc.FailureWrite?
  {
  }

  lemma FailureIsStored(s: State, k: Key, chance: Chance)
    requires Accounted(s, k) && k in s.store.apps && !AppIdle(s, k) && s.appPasses[k].pc.FailureWrite?
    requires var t := AppStep(s, k, chance); k in t.store.apps && t.store.apps[k] != s.store.apps[k]
    ensures AppStep(s, k, chance).store.apps[k].status == s.appPasses[k].app.status
  {
    var p := s.appPasses[k];
    AppTurnTaken(s, k, chance);
    DeliverTouches(s.store, AC.NextCall(k, p), chance);
    CallOfWrite(k, p);
    hide Deliver, AC.NextCall, AC.Resume, AppStep, ServeApp;
    WriteStores(s.store.apps, s.store.clock, UpdateAppStatus(k, p.app), k);
  }

  /** In every history: when an App's status becomes Failed with a reason, an earlier call of the very pass that writes it
      had failed, it is one that is reported with that reason, and the pass did nothing in between. */
  lemma FailureIsEarned(states: seq<State>, labels: seq<Label>, i: nat, k: Key, reason: string) returns (j: nat)
    requires History(states, labels) && AV.Begins(states[0], k) && i < |labels|
    requires BecomesFailed(states[i], states[i + 1], k, reason)
    ensures labels[i].AppTurn? && labels[i].key == k && FailedSince(states, labels, k, reason, j, i)
  {
    hide Step, AppStep, Makes, Accounted, AV.Begins;
    StatusChangesExactly(states, labels, i, k);
    HistoryAccounted(states, labels, k, i);
    var s := states[i];
    assert states[i + 1] == AppStep(s, k, labels[i].chance) by {
      StepIsTurn(states, labels, i, k);
    }
    OwnTurnWrites(s, k, labels[i].chance);
    OnlyFailuresMakeFailed(s.appPasses[k].pc, s.store.apps[k], states[i + 1].store.apps[k]);
    FailureIsStored(s, k, labels[i].chance);
    j := HistoryFails(states, labels, k, reason, i) by {
      BeginsIdle(states[0], k);
    }
  }
}
