/** Every fair run without failures removes a tenant that is being deleted, if only the operator's finalizer holds it: a
    teardown that works on a copy that is out of date fails at its last write, but the next one does not. */
module DrainCompletion {
  import opened Options
  import opened Kube
  import opened ApiServer
  import opened Operator
  import opened DrainLiveness
  import opened DrainProgress
  import TC = TenantController

  /** Nobody else's finalizer is on the tenant, stored or in the copy of the pass in flight. */
  ghost predicate OnlyOurs(s: State, n: string) {
    && n in s.store.tenants && s.store.tenants[n].finalizers == {FINALIZER_TENANT}
    && (n in s.tenantPasses ==> s.tenantPasses[n].tenant.finalizers <= {FINALIZER_TENANT})
  }

  ghost predicate Releasing(s: State, n: string) {
    Ongoing(s, n) && OnlyOurs(s, n)
  }

  predicate Gone(s: State, n: string) {
    n !in s.store.tenants
  }

  // ----- every turn keeps it so, or removes the tenant ----------------------------------------------------------

  lemma VerbReleases(tenants: map<string, Tenant>, rv: nat, call: Call, n: string)
    requires n in tenants && tenants[n].deleting && tenants[n].finalizers == {FINALIZER_TENANT}
    requires WritesTenant(call) && call.name == n && (call.UpdateTenant? ==> call.tenant.finalizers <= {FINALIZER_TENANT})
    ensures var (after, r) := ServeTenant(tenants, rv, call);
            && (n in after ==> after[n].deleting && after[n].finalizers == {FINALIZER_TENANT})
            && (r.GotTenant? ==> r.tenant.finalizers <= {FINALIZER_TENANT})
  {
    if call.UpdateTenant? && FINALIZER_TENANT !in call.tenant.finalizers {
      assert call.tenant.finalizers == {};
    } else if call.UpdateTenant? {
      assert call.tenant.finalizers == {FINALIZER_TENANT};
    }
  }

  lemma ResumeReleases(n: string, p: TC.Pass, r: Response, quantities: set<string>)
    requires !p.pc.Finished? && p.tenant.finalizers <= {FINALIZER_TENANT}
    requires r.GotTenant? ==> r.tenant.finalizers <= {FINALIZER_TENANT}
    ensures TC.Resume(n, p, r, quantities).tenant.finalizers <= {FINALIZER_TENANT}
  {
    hide TC.MergedLabels, TC.LimitsOf, TC.Isolated;
  }

  /** What a pass's call answers about the tenant comes from the tenant's own verbs. */
  lemma TenantAnswer(s: Store, call: Call, chance: Chance)
    ensures var r := Deliver(s, call, chance).1;
            r.GotTenant? ==> (call.GetTenant? || WritesTenant(call)) && r == ServeTenant(s.tenants, s.clock, call).1
  {
    hide ServeApp, ServeService, ServeMapping, ServeTenantChild, ServeTenant, Enumerates, AppNames, MappingNames;
    ChildAnswersNoTenant(s, call);
    AppAnswersNoTenant(s, call);
  }

  lemma ChildAnswersNoTenant(s: Store, call: Call)
    ensures !ServeTenantChild(s, call).1.GotTenant?
  {
    assert !ServeNamespace(s.namespaces, s.clock, call).1.GotTenant?;
    assert !ServeCapsule(s.capsules, s.clock, call).1.GotTenant?;
    assert !ServePolicy(s.policies, s.clock, call).1.GotTenant?;
    assert !ServeQuota(s.quotas, s.clock, call).1.GotTenant?;
    hide ServeNamespace, ServeCapsule, ServePolicy, ServeQuota;
  }

  lemma AppAnswersNoTenant(s: Store, call: Call)
    ensures !ServeApp(s.apps, s.clock, call).1.GotTenant? && !ServeService(s.services, s.clock, call).1.GotTenant?
    ensures !ServeMapping(s.mappings, s.clock, call).1.GotTenant?
  {
  }

  lemma OwnCallReleases(s: State, n: string, chance: Chance)
    requires OnlyOurs(s, n) && s.store.tenants[n].deleting && !Idle(s, n)
    ensures var p := s.tenantPasses[n];
            var (after, r) := Deliver(s.store, TC.NextCall(n, p), chance);
            && (n in after.tenants ==> after.tenants[n].deleting && after.tenants[n].finalizers == {FINALIZER_TENANT})
            && TC.Resume(n, p, r, s.quantities).tenant.finalizers <= {FINALIZER_TENANT}
  {
    var p := s.tenantPasses[n];
    var call := TC.NextCall(n, p);
    hide Deliver, TC.NextCall, TC.Resume, ServeTenant;
    DeliverTouches(s.store, call, chance);
    TenantCallsOwn(n, p);
    UpdateSendsCopy(n, p);
    TenantAnswer(s.store, call, chance);
    if WritesTenant(call) {
      VerbReleases(s.store.tenants, s.store.clock, call, n);
    } else {
      ReadAnswers(s.store.tenants, s.store.clock, call, n, p);
    }
    ResumeReleases(n, p, Deliver(s.store, call, chance).1, s.quantities);
  }

  lemma ReadAnswers(tenants: map<string, Tenant>, rv: nat, call: Call, n: string, p: TC.Pass)
    requires !p.pc.Finished? && call == TC.NextCall(n, p) && n in tenants
    ensures call.GetTenant? ==> ServeTenant(tenants, rv, call) == (tenants, GotTenant(tenants[n]))
  {
  }

  lemma StepReleases(s: State, l: Label, n: string)
    requires Releasing(s, n) && Calm(s, l, n)
    ensures Gone(Step(s, l), n) || Releasing(Step(s, l), n)
  {
    hide Sane, FewFinalizers;
    if TenantMoves(l, n) {
      if !Idle(s, n) {
        OwnCallReleases(s, n, l.chance);
        TenantTurnTaken(s, n, l.chance);
      }
      hide Deliver, TC.NextCall, TC.Resume, Calm;
      if !Gone(Step(s, l), n) {
        assert Step(s, l).store.tenants[n].deleting;
        StepDrains(s, l, n);
        StepSane(s, l);
      }
    } else {
      hide Step, Calm;
      TenantFrame(s, l, n);
      StepDrains(s, l, n);
      StepSane(s, l);
      assert Find(Step(s, l).tenantPasses, n) == Find(s.tenantPasses, n);
      assert Find(Step(s, l).store.tenants, n) == Find(s.store.tenants, n);
    }
  }

  // ----- along the run ------------------------------------------------------------------------------------------

  lemma ReleasesNext(s: State, trace: nat -> Label, n: string, i: nat)
    requires CalmRun(s, trace, n) && Releasing(At(s, trace, i), n)
    ensures Gone(At(s, trace, i + 1), n) || Releasing(At(s, trace, i + 1), n)
    ensures At(s, trace, i + 1) == Step(At(s, trace, i), trace(i)) && Calm(At(s, trace, i), trace(i), n)
  {
    hide At, Step, Calm, CalmRun, Releasing;
    AtNext(s, trace, i);
    CalmAt(s, trace, n, i);
    StepReleases(At(s, trace, i), trace(i), n);
  }

  lemma OthersLeaveTenant(s: State, l: Label, n: string)
    requires Releasing(s, n) && Calm(s, l, n) && !TenantMoves(l, n)
    ensures var t := Step(s, l);
            && Find(t.tenantPasses, n) == Find(s.tenantPasses, n)
            && Find(t.store.tenants, n) == Find(s.store.tenants, n)
            && Idle(t, n) == Idle(s, n) && TenantEffort(t, n) == TenantEffort(s, n) && TenantLeft(t, n) == TenantLeft(s, n)
  {
    hide Step, Calm;
    TenantUnmoved(s, l, n);
  }

  /** Whatever the pass in flight was doing, and on whatever copy, it ends, or the tenant goes. */
  lemma {:induction false} PassEnds(s: State, trace: nat -> Label, n: string, i: nat, m: nat) returns (j: nat)
    requires CalmRun(s, trace, n) && Releasing(At(s, trace, i), n) && i <= m && TenantMoves(trace(m), n)
    ensures i <= j && (Gone(At(s, trace, j), n) || (Releasing(At(s, trace, j), n) && Idle(At(s, trace, j), n)))
    decreases TenantEffort(At(s, trace, i), n), TenantLeft(At(s, trace, i), n), m - i
  {
    hide At, Step, TenantMoves, CalmRun, Releasing, Calm, Idle, TenantEffort, TenantLeft, Gone;
    var now, l := At(s, trace, i), trace(i);
    if Idle(now, n) {
      j := i;
    } else {
      ReleasesNext(s, trace, n, i);
      if Gone(At(s, trace, i + 1), n) {
        j := i + 1;
      } else if TenantMoves(l, n) {
        OwnTurnAdvances(now, l, n);
        var next := NextTenantTurn(s, trace, n, i + 1);
        j := PassEnds(s, trace, n, i + 1, next);
      } else {
        OthersLeaveTenant(now, l, n);
        j := PassEnds(s, trace, n, i + 1, m);
      }
    }
  }

  // ----- a pass on a current copy -------------------------------------------------------------------------------

  /** A deletion pass that began after the mark: its copy is the one stored. */
  ghost predicate FreshCopy(s: State, n: string) {
    !Idle(s, n) ==>
      var p := s.tenantPasses[n];
      && (p.pc.Get? || p.pc.MarkDeleting? || p.pc.DrainList? || p.pc.DrainApp? || TC.TearingDown(p.pc))
      && (!p.pc.Get? ==> n in s.store.tenants && p.tenant.rv == s.store.tenants[n].rv)
      && (p.pc.DropFinalizer? ==> FINALIZER_TENANT !in p.tenant.finalizers)
  }

  lemma ReadingIsFresh(s: State, l: Label, n: string)
    requires Releasing(s, n) && Calm(s, l, n) && TenantMoves(l, n) && FreshCopy(s, n)
    requires Idle(s, n) || s.tenantPasses[n].pc.Get? || s.tenantPasses[n].pc.MarkDeleting?
    ensures FreshCopy(Step(s, l), n)
  {
    hide Sane, FewFinalizers;
    if !Idle(s, n) {
      var p := s.tenantPasses[n];
      TenantTurnTaken(s, n, l.chance);
      hide TenantStep;
    }
  }

  /** The other calls before the last write leave the tenant alone and keep the copy. */
  lemma LaterCalls(n: string, p: TC.Pass, r: Response, quantities: set<string>)
    requires p.pc.DrainList? || p.pc.DrainApp? || (TC.TearingDown(p.pc) && !p.pc.DropFinalizer?)
    ensures !WritesTenant(TC.NextCall(n, p))
    ensures var q := TC.Resume(n, p, r, quantities);
            && q.tenant.rv == p.tenant.rv
            && (q.pc.Finished? || q.pc.DrainApp? || TC.TearingDown(q.pc))
            && (TC.TearingDown(p.pc) ==> TC.TearingDown(q.pc))
            && (q.pc.DropFinalizer? ==> FINALIZER_TENANT !in q.tenant.finalizers)
  {
  }

  lemma LaterIsFresh(s: State, l: Label, n: string)
    requires TenantMoves(l, n) && FreshCopy(s, n) && !Idle(s, n) && n in s.store.tenants
    requires s.tenantPasses[n].pc.DrainList? || s.tenantPasses[n].pc.DrainApp?
             || (TC.TearingDown(s.tenantPasses[n].pc) && !s.tenantPasses[n].pc.DropFinalizer?)
    ensures FreshCopy(Step(s, l), n) && (Reached(s, n) ==> Reached(Step(s, l), n))
  {
    var p := s.tenantPasses[n];
    TenantTurnTaken(s, n, l.chance);
    hide TenantStep, Deliver, TC.NextCall, TC.Resume;
    DeliverTouches(s.store, TC.NextCall(n, p), l.chance);
    LaterCalls(n, p, Deliver(s.store, TC.NextCall(n, p), l.chance).1, s.quantities);
  }

  /** On a current copy the last write removes the tenant. */
  lemma DropRemoves(s: State, l: Label, n: string)
    requires Releasing(s, n) && Calm(s, l, n) && TenantMoves(l, n) && FreshCopy(s, n)
    requires !Idle(s, n) && s.tenantPasses[n].pc.DropFinalizer?
    ensures Gone(Step(s, l), n)
  {
    var p := s.tenantPasses[n];
    assert p.tenant.finalizers == {};
    TenantTurnTaken(s, n, l.chance);
    assert TC.NextCall(n, p) == UpdateTenant(n, p.tenant);
    TenantServed(s.store, UpdateTenant(n, p.tenant), l.chance.order);
    hide TenantStep, TC.NextCall, TC.Resume, Serve;
  }

  /** Every turn of a run keeps the copy current until the tenant is gone. */
  lemma StepFresh(s: State, l: Label, n: string)
    requires Releasing(s, n) && Calm(s, l, n) && FreshCopy(s, n)
    ensures Gone(Step(s, l), n) || FreshCopy(Step(s, l), n)
    ensures Reached(s, n) ==> Gone(Step(s, l), n) || Reached(Step(s, l), n)
  {
    hide Step, Calm, Sane, FewFinalizers;
    if !TenantMoves(l, n) {
      OthersLeaveTenant(s, l, n);
      assert Find(Step(s, l).tenantPasses, n) == Find(s.tenantPasses, n);
      assert Find(Step(s, l).store.tenants, n) == Find(s.store.tenants, n);
    } else if Idle(s, n) || s.tenantPasses[n].pc.Get? || s.tenantPasses[n].pc.MarkDeleting? {
      ReadingIsFresh(s, l, n);
    } else if s.tenantPasses[n].pc.DropFinalizer? {
      DropRemoves(s, l, n);
    } else {
      LaterIsFresh(s, l, n);
    }
  }

  /** From a current copy to any later moment: it is current still, or the tenant went in between. */
  lemma {:induction false} StaysFresh(s: State, trace: nat -> Label, n: string, i: nat, j: nat) returns (m: nat)
    requires CalmRun(s, trace, n) && i <= j && Releasing(At(s, trace, i), n) && FreshCopy(At(s, trace, i), n)
    ensures i <= m <= j && (Gone(At(s, trace, m), n) || (m == j && Releasing(At(s, trace, j), n) && FreshCopy(At(s, trace, j), n)))
    decreases j - i
  {
    hide At, Step, CalmRun, Releasing, Calm, FreshCopy, Gone, Reached;
    if i == j {
      m := i;
    } else {
      m := StaysFresh(s, trace, n, i, j - 1);
      if !Gone(At(s, trace, m), n) {
        ReleasesNext(s, trace, n, j - 1);
        StepFresh(At(s, trace, j - 1), trace(j - 1), n);
        m := j;
      }
    }
  }

  /** A teardown on a current copy removes the tenant. */
  lemma {:induction false} TeardownRemoves(s: State, trace: nat -> Label, n: string, i: nat, m: nat) returns (j: nat)
    requires CalmRun(s, trace, n) && Releasing(At(s, trace, i), n) && FreshCopy(At(s, trace, i), n) && Reached(At(s, trace, i), n)
    requires i <= m && TenantMoves(trace(m), n)
    ensures i <= j && Gone(At(s, trace, j), n)
    decreases TenantEffort(At(s, trace, i), n), TenantLeft(At(s, trace, i), n), m - i
  {
    hide At, Step, TenantMoves, CalmRun, Releasing, Calm, TenantEffort, TenantLeft, Gone, FreshCopy, Reached, Idle;
    var now, l := At(s, trace, i), trace(i);
    ReleasesNext(s, trace, n, i);
    StepFresh(now, l, n);
    if Gone(At(s, trace, i + 1), n) {
      j := i + 1;
    } else if TenantMoves(l, n) {
      ReachedIsBusy(now, n);
      OwnTurnAdvances(now, l, n);
      var next := NextTenantTurn(s, trace, n, i + 1);
      j := TeardownRemoves(s, trace, n, i + 1, next);
    } else {
      OthersLeaveTenant(now, l, n);
      j := TeardownRemoves(s, trace, n, i + 1, m);
    }
  }

  lemma ReachedIsBusy(s: State, n: string)
    requires Reached(s, n)
    ensures !Idle(s, n)
  {
  }

  lemma IdleIsFresh(s: State, n: string)
    requires Idle(s, n)
    ensures FreshCopy(s, n)
  {
  }

  lemma ReleasingIsUnderway(s: State, trace: nat -> Label, n: string, i: nat)
    requires Releasing(At(s, trace, i), n)
    ensures Underway(s, trace, n, i)
  {
    hide At, Sane, Draining;
  }

  /** Every fair run without failures around it, from any point of its deletion and whatever the pass in flight is
      working on, removes the tenant itself. */
  lemma DrainRemovesTenant(s: State, trace: nat -> Label, n: string) returns (j: nat)
    requires Sane(s) && Draining(s, n) && OnlyOurs(s, n) && CalmRun(s, trace, n)
    ensures Gone(At(s, trace, j), n)
  {
    assert At(s, trace, 0) == s;
    assert Releasing(s, n);
    hide At, CalmRun, Releasing, Reached, Idle, FreshCopy, Gone, TenantMoves;
    var turn := NextTenantTurn(s, trace, n, 0);
    var i := PassEnds(s, trace, n, 0, turn);
    if Gone(At(s, trace, i), n) {
      j := i;
    } else {
      IdleIsFresh(At(s, trace, i), n);
      ReleasingIsUnderway(s, trace, n, i);
      var k := TeardownComes(s, trace, n, i);
      var m := StaysFresh(s, trace, n, i, k);
      if Gone(At(s, trace, m), n) {
        j := m;
      } else {
        turn := NextTenantTurn(s, trace, n, k);
        j := TeardownRemoves(s, trace, n, k, turn);
      }
    }
  }
}
