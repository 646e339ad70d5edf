/** Every write of an App's status accounted for, in every history: who makes it, what it makes of the status it finds,
    and that an App becomes Ready only where the same pass made its service match and then read that it is ready. */
module AppStatuses {
  import opened Options
  import opened Kube
  import opened ApiServer
  import opened Operator
  import FS = FinalizerSafety
  import DL = DrainLiveness
  import PA = PhaseAgreement
  import AV = AppVersions
  import AC = AppController
  import TC = TenantController

  // ----- what each write makes of the app it finds --------------------------------------------------------------

  predicate ReportOf(status: AppStatus) {
    if status.phase == Ready then status.ready == Some(Condition(true, "KnativeServiceReady"))
    else status.phase == Deploying && status.ready == Some(Condition(false, "KnativeServiceNotReady"))
  }

  /** A failure keeps the URL and the revision. */
  predicate FailureOf(before: AppStatus, after: AppStatus) {
    && after.phase == AppPhase.Failed && after.url == before.url && after.latestRevision == before.latestRevision
    && after.ready.Some? && !after.ready.value.holds
    && (|| after.ready.value.reason == "TenantNotFound" || after.ready.value.reason == "KnativeServiceFailed"
        || after.ready.value.reason == "DomainMappingFailed")
  }

  /** The copy `after` with which a pass stands at `pc` when `before` is stored. */
  predicate Makes(pc: AC.Pc, before: App, after: App) {
    match pc
    case AddFinalizer =>
      !before.deleting && FINALIZER_APP !in before.finalizers && after == before.(finalizers := before.finalizers + {FINALIZER_APP})
    case DropFinalizer => after == before.(finalizers := before.finalizers - {FINALIZER_APP})
    case MarkPending => before.status.phase == Unset && after == before.(status := before.status.(phase := Pending))
    case MarkPaused => before.spec.paused && after == before.(status := before.status.(phase := Paused))
    case MarkDeploying =>
      before.status.phase == Pending && !before.spec.paused && after == before.(status := before.status.(phase := Deploying))
    case StatusWrite => after == before.(status := after.status) && ReportOf(after.status)
    case FailureWrite => after == before.(status := after.status) && FailureOf(before.status, after.status)
    case Finished => true
    case _ => after == before
  }

  /** The copy is what the pass makes of the stored app, where it carries its version. */
  ghost predicate CopyMade(store: Store, k: Key, p: AC.Pass) {
    k in store.apps && p.app.rv == store.apps[k].rv ==> Makes(p.pc, store.apps[k], p.app)
  }

  ghost predicate Accounted(s: State, k: Key) {
    AV.Current(s, k) && (!AppIdle(s, k) && !s.appPasses[k].pc.Get? ==> CopyMade(s.store, k, s.appPasses[k]))
  }

  lemma ResumeMakes(p: AC.Pass, r: Response)
    requires !p.pc.Finished?
    ensures var q := AC.Resume(p, r);
            && (AV.Refreshes(p.pc) && !q.pc.Finished? ==> r.GotApp? && Makes(q.pc, r.app, q.app))
            && (!AV.Refreshes(p.pc) && !AV.Last(p.pc) ==> Makes(q.pc, p.app, q.app))
  {
    hide AC.Stale, AC.Missing, AC.DesiredServiceSpec;
  }

  lemma ReaderKeeps(p: AC.Pass, before: App)
    requires !p.pc.Finished? && !AV.Refreshes(p.pc) && !AV.Last(p.pc) && Makes(p.pc, before, p.app)
    ensures p.app == before
  {
  }

  lemma OwnCallMakes(store: Store, k: Key, p: AC.Pass, chance: Chance)
    requires !p.pc.Finished? && (k in store.apps ==> store.apps[k].rv < store.clock)
    requires !p.pc.Get? ==> AV.CopyFits(store, k, p) && CopyMade(store, k, p)
    ensures var (after, r) := Deliver(store, AC.NextCall(k, p), chance);
            var q := AC.Resume(p, r);
            !q.pc.Finished? ==> CopyMade(after, k, q)
  {
    var call := AC.NextCall(k, p);
    var (after, r) := Deliver(store, call, chance);
    DeliverTouches(store, call, chance);
    AV.AnsweredMoves(store, call, chance);
    AV.CallOnApp(k, p);
    AV.ResumeKeepsCopy(k, p, r);
    ResumeMakes(p, r);
    PA.AnswerOf(store, call, chance);
    hide Deliver, AC.NextCall, AC.Resume, ServeApp, Makes;
    if WritesApp(call) {
      AV.WriteIsNew(store.apps, store.clock, call, k);
    } else if p.pc.Get? {
      AV.ReadIsStored(store.apps, store.clock, k);
    } else if !AV.Refreshes(p.pc) && !AV.Last(p.pc) && k in store.apps && p.app.rv == store.apps[k].rv {
      ReaderKeeps(p, store.apps[k]);
    }
  }

  lemma StepAccounted(s: State, l: Label, k: Key)
    requires Accounted(s, k)
    ensures Accounted(Step(s, l), k)
  {
    AV.StepCurrent(s, l, k);
    if l.AppTurn? && l.key == k {
      if !AppIdle(s, k) {
        OwnCallMakes(s.store, k, s.appPasses[k], l.chance);
        AppTurnTaken(s, k, l.chance);
        hide Deliver, AC.NextCall, AC.Resume, AppStep, CopyMade, AV.CopyFits;
      }
    } else {
      AV.OtherStepRenews(s, l, k);
      AV.OtherStepLeavesPass(s, l, k);
      hide Step, Makes;
    }
  }

  lemma {:induction false} HistoryAccounted(states: seq<State>, labels: seq<Label>, k: Key, i: nat)
    requires History(states, labels) && AV.Begins(states[0], k) && i <= |labels|
    ensures Accounted(states[i], k)
  {
    hide Step;
    if i > 0 {
      hide Accounted, AV.Begins;
      HistoryAccounted(states, labels, k, i - 1);
      assert StepAt(states, labels, i - 1);
      StepAccounted(states[i - 1], labels[i - 1], k);
    } else {
      hide CopyMade;
    }
  }

  // ----- the stored app -----------------------------------------------------------------------------------------

  /** A write that takes effect stores the copy, if it is current. */
  lemma WriteStores(apps: map<Key, App>, rv: nat, call: Call, k: Key)
    requires (call.UpdateApp? || call.UpdateAppStatus?) && call.key == k && k in apps
    ensures var after := ServeApp(apps, rv, call).0;
            && (after != apps ==> apps[k].rv == call.app.rv)
            && (after != apps && k in after ==>
                  after[k] == if call.UpdateApp? then apps[k].(rv := rv, finalizers := call.app.finalizers, spec := call.app.spec)
                              else apps[k].(rv := rv, status := call.app.status))
  {
  }

  predicate IsWrite(pc: AC.Pc) {
    pc.AddFinalizer? || pc.DropFinalizer? || pc.MarkPending? || pc.MarkPaused? || pc.MarkDeploying?
    || pc.StatusWrite? || pc.FailureWrite?
  }

  lemma CallOfWrite(k: Key, p: AC.Pass)
    requires !p.pc.Finished?
    ensures var call := AC.NextCall(k, p);
            && (WritesApp(call) <==> IsWrite(p.pc))
            && (IsWrite(p.pc) ==>
                  call == if p.pc.AddFinalizer? || p.pc.DropFinalizer? then UpdateApp(k, p.app) else UpdateAppStatus(k, p.app))
  {
  }

  /** Writing a copy that was made from the stored app makes just that of it. */
  lemma MadeIsStored(pc: AC.Pc, before: App, copy: App, rv: nat)
    requires IsWrite(pc) && Makes(pc, before, copy)
    ensures var after := if pc.AddFinalizer? || pc.DropFinalizer? then before.(rv := rv, finalizers := copy.finalizers, spec := copy.spec)
                         else before.(rv := rv, status := copy.status);
            after.(rv := before.rv) == copy
  {
  }

  lemma OwnTurnWrites(s: State, k: Key, chance: Chance)
    requires Accounted(s, k) && k in s.store.apps
    ensures var t := AppStep(s, k, chance);
            k in t.store.apps && t.store.apps[k] != s.store.apps[k] ==>
              && !AppIdle(s, k) && IsWrite(s.appPasses[k].pc)
              && Makes(s.appPasses[k].pc, s.store.apps[k], t.store.apps[k].(rv := s.store.apps[k].rv))
  {
    if !AppIdle(s, k) {
      var p := s.appPasses[k];
      var call := AC.NextCall(k, p);
      AppTurnTaken(s, k, chance);
      DeliverTouches(s.store, call, chance);
      CallOfWrite(k, p);
      hide Deliver, AC.NextCall, AC.Resume, AppStep, ServeApp, Makes;
      if WritesApp(call) {
        WriteStores(s.store.apps, s.store.clock, call, k);
        if Makes(p.pc, s.store.apps[k], p.app) {
          MadeIsStored(p.pc, s.store.apps[k], p.app, s.store.clock);
        }
      }
    }
  }

  lemma DeleteKeepsStatus(store: Store, at: Key, chance: Chance, k: Key)
    ensures var after := Deliver(store, Call.DeleteApp(at), chance).0;
            k in after.apps ==> k in store.apps && after.apps[k].status == store.apps[k].status
  {
    AppServed(store, Call.DeleteApp(at), chance.order);
    hide Serve;
  }

  lemma TenantCallKeepsStatus(store: Store, m: string, p: TC.Pass, chance: Chance, k: Key)
    requires !p.pc.Finished?
    ensures var after := Deliver(store, TC.NextCall(m, p), chance).0;
            k in after.apps ==> k in store.apps && after.apps[k].status == store.apps[k].status
  {
    var call := TC.NextCall(m, p);
    DL.TenantCallsOwn(m, p);
    hide TC.NextCall;
    if WritesApp(call) {
      DeleteKeepsStatus(store, call.key, chance, k);
    } else {
      DeliverTouches(store, call, chance);
    }
    hide Deliver;
  }

  lemma OtherStepKeepsStatus(s: State, l: Label, k: Key)
    requires !(l.AppTurn? && l.key == k) && k in s.store.apps
    ensures var t := Step(s, l);
            k in t.store.apps ==> t.store.apps[k].status == s.store.apps[k].status
  {
    match l {
      case AppTurn(j, chance) =>
        if !AppIdle(s, j) {
          AppTurnTaken(s, j, chance);
          FS.AppCallSeparate(s.store, j, s.appPasses[j], chance, k);
          var after := Deliver(s.store, AC.NextCall(j, s.appPasses[j]), chance).0;
          hide AppStep, Deliver, AC.NextCall, AC.Resume;
          assert Find(after.apps, k) == Find(s.store.apps, k);
        }
      case TenantTurn(m, chance) =>
        if !Idle(s, m) {
          TenantTurnTaken(s, m, chance);
          hide TenantStep, Deliver, TC.NextCall, TC.Resume;
          TenantCallKeepsStatus(s.store, m, s.tenantPasses[m], chance, k);
        }
      case _ =>
        hide AppStep, TenantStep;
        UserKeepsStatus(s, l, k);
    }
  }

  lemma UserKeepsStatus(s: State, l: Label, k: Key)
    requires !l.AppTurn? && !l.TenantTurn? && k in s.store.apps
    ensures var t := Step(s, l);
            k in t.store.apps ==> t.store.apps[k].status == s.store.apps[k].status
  {
    hide AppStep, TenantStep;
  }

  /** In every history, whoever interferes and whatever fails: a step that changes an App's status is a call of its own
      pass, and makes of the stored status what that call is there to make. */
  lemma StatusChangesExactly(states: seq<State>, labels: seq<Label>, i: nat, k: Key)
    requires History(states, labels) && AV.Begins(states[0], k) && i < |labels|
    requires k in states[i].store.apps && k in states[i + 1].store.apps
    requires states[i + 1].store.apps[k].status != states[i].store.apps[k].status
    ensures labels[i].AppTurn? && labels[i].key == k && !AppIdle(states[i], k)
    ensures var before, after := states[i].store.apps[k], states[i + 1].store.apps[k];
            Makes(states[i].appPasses[k].pc, before, after.(rv := before.rv)) && after.spec == before.spec
  {
    HistoryAccounted(states, labels, k, i);
    assert StepAt(states, labels, i);
    if labels[i].AppTurn? && labels[i].key == k {
      hide AppStep, Accounted, Makes;
      OwnTurnWrites(states[i], k, labels[i].chance);
      StatusWriteKeepsSpec(states[i].appPasses[k].pc, states[i].store.apps[k], states[i + 1].store.apps[k]);
    } else {
      hide Step, Accounted, Makes;
      OtherStepKeepsStatus(states[i], labels[i], k);
      assert false;
    }
  }

  lemma StatusWriteKeepsSpec(pc: AC.Pc, before: App, after: App)
    requires IsWrite(pc) && Makes(pc, before, after.(rv := before.rv))
    ensures after.spec == before.spec
  {
  }

  // ----- what the answers lead to -------------------------------------------------------------------------------

  /** The calls whose failure the status reports, with the reason it gives. */
  predicate Reported(pc: AC.Pc, r: Response, reason: string) {
    match pc
    case CheckTenant => r.NotFound? && reason == "TenantNotFound"
    case ServiceGet => !r.GotService? && !r.NotFound? && reason == "KnativeServiceFailed"
    case ServiceCreate => !r.Ok? && reason == "KnativeServiceFailed"
    case ServiceUpdate(_) => !r.Ok? && reason == "KnativeServiceFailed"
    case MappingList => !r.Listed? && reason == "DomainMappingFailed"
    case MappingDelete(_, _, _) => !r.Ok? && !r.NotFound? && reason == "DomainMappingFailed"
    case MappingCreate(_, _) => !r.Ok? && reason == "DomainMappingFailed"
    case _ => false
  }

  /** A pass goes on to report a failure exactly when a call failed that is reported, and then with its reason. */
  lemma FailuresAreReported(s: State, k: Key, chance: Chance, reason: string)
    requires !AppIdle(s, k)
    ensures var p := s.appPasses[k];
            var r := Deliver(s.store, AC.NextCall(k, p), chance).1;
            var t := AppStep(s, k, chance);
            Reported(p.pc, r, reason) <==>
              && k in t.appPasses && t.appPasses[k].pc.FailureWrite?
              && t.appPasses[k].app.status.ready == Some(Condition(false, reason))
  {
    AppTurnTaken(s, k, chance);
    hide Deliver, AC.NextCall, AppStep, AC.Stale, AC.Missing, AC.DesiredServiceSpec, AC.Observed;
  }

  /** Where no answer comes a pass ends or reports a failure, except that it reports what it could not read and that its
      cleanup goes on. */
  lemma LostAnswersStop(s: State, k: Key, chance: Chance)
    requires !AppIdle(s, k) && !chance.fault.NoFault?
    ensures var (pc, t) := (s.appPasses[k].pc, AppStep(s, k, chance));
            AppIdle(t, k) || t.appPasses[k].pc.FailureWrite?
            <==> !(pc.StatusRead? || pc.CleanList? || pc.CleanMapping? || pc.CleanGet? || pc.CleanDelete?)
  {
    AppTurnTaken(s, k, chance);
    assert Deliver(s.store, AC.NextCall(k, s.appPasses[k]), chance).1 == Error;
    hide Deliver, AC.NextCall, AppStep, AC.Stale, AC.Missing, AC.DesiredServiceSpec, AC.Observed;
  }

  /** What a pass reports once it has read its service: what Knative says, or nothing where there is no answer. */
  lemma ReadingIsReported(s: State, k: Key, chance: Chance)
    requires !AppIdle(s, k) && s.appPasses[k].pc.StatusRead?
    ensures var t := AppStep(s, k, chance);
            var known := chance.fault.NoFault? && k in s.store.services && s.store.services[k].status.Some?;
            && k in t.appPasses && t.appPasses[k].pc.StatusWrite? && ReportOf(t.appPasses[k].app.status)
            && var status := t.appPasses[k].app.status;
               && (status.phase == Ready <==> known && ("Ready", "True") in s.store.services[k].status.value.conditions)
               && status.url == (if known then s.store.services[k].status.value.url else "")
               && status.latestRevision == (if known then s.store.services[k].status.value.latestRevision else "")
  {
    AppTurnTaken(s, k, chance);
    ServiceRead(s.store, k, chance);
    assert AC.NextCall(k, s.appPasses[k]) == GetService(k);
    hide Deliver, AC.NextCall, AppStep;
  }

  lemma ServiceRead(store: Store, k: Key, chance: Chance)
    ensures Deliver(store, GetService(k), chance).1
            == if !chance.fault.NoFault? then Error else if k in store.services then GotService(store.services[k]) else NotFound
    ensures Deliver(store, GetService(k), chance).0.services == store.services
  {
  }
}
