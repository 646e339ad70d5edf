/** The client a reconciler works through.  Before each of its calls the rest of the world takes any number of
    turns of its own, and the call itself may be served, lost, or served with its answer lost.  What happened so
    far is a run of the machine, whichever reconciler is at work. */
module Client {
  import opened Options
  import opened Kube
  import opened ApiServer
  import opened Operator
  import SP = SoloPass
  import TV = TenantConvergence
  import AC = AppController
  import TC = TenantController

  /** What goes on around one call. */
  datatype Turn = Turn(others: seq<Label>, chance: Chance)

  predicate LeavesApp(l: Label, k: Key) {
    (l.AppTurn? || l.AppCrash?) ==> l.key != k
  }

  predicate LeavesTenant(l: Label, n: string) {
    (l.TenantTurn? || l.TenantCrash?) ==> l.name != n
  }

  lemma OthersLeaveAppPass(s: State, l: Label, k: Key)
    requires LeavesApp(l, k)
    ensures Find(Step(s, l).appPasses, k) == Find(s.appPasses, k)
  {
    hide Deliver, AC.NextCall, AC.Resume, TC.NextCall, TC.Resume;
  }

  lemma OthersLeaveTenantPass(s: State, l: Label, n: string)
    requires LeavesTenant(l, n)
    ensures Find(Step(s, l).tenantPasses, n) == Find(s.tenantPasses, n)
  {
    hide Deliver, AC.NextCall, AC.Resume, TC.NextCall, TC.Resume;
  }

  lemma StepKeepsQuantities(s: State, l: Label)
    ensures Step(s, l).quantities == s.quantities
  {
    hide Deliver, AC.NextCall, AC.Resume, TC.NextCall, TC.Resume;
  }

  lemma {:induction false} RunLeavesAppPass(s: State, labels: seq<Label>, k: Key)
    requires forall l | l in labels :: LeavesApp(l, k)
    ensures Find(Run(s, labels).appPasses, k) == Find(s.appPasses, k)
  {
    if labels != [] {
      hide Step, LeavesApp;
      RunLeavesAppPass(s, labels[..|labels| - 1], k);
      OthersLeaveAppPass(Run(s, labels[..|labels| - 1]), labels[|labels| - 1], k);
    }
  }

  lemma {:induction false} RunLeavesTenantPass(s: State, labels: seq<Label>, n: string)
    requires forall l | l in labels :: LeavesTenant(l, n)
    ensures Find(Run(s, labels).tenantPasses, n) == Find(s.tenantPasses, n) && Run(s, labels).quantities == s.quantities
  {
    if labels != [] {
      hide Step, LeavesTenant;
      RunLeavesTenantPass(s, labels[..|labels| - 1], n);
      OthersLeaveTenantPass(Run(s, labels[..|labels| - 1]), labels[|labels| - 1], n);
      StepKeepsQuantities(Run(s, labels[..|labels| - 1]), labels[|labels| - 1]);
    }
  }

  lemma NothingRuns(s: State)
    ensures Run(s, []) == s
  {
  }

  lemma RunThenStep(origin: State, labels: seq<Label>, others: seq<Label>, l: Label)
    ensures Run(origin, labels + others + [l]) == Step(Run(Run(origin, labels), others), l)
  {
    hide Step;
    RunConcat(origin, labels, others);
    assert (labels + others + [l])[..|labels + others|] == labels + others;
  }

  // ----- one whole pass in a run --------------------------------------------------------------------------------

  /** The `i`th label neither abandons the pass for the app at `k` nor starts another. */
  ghost predicate AppPassGoesOn(origin: State, labels: seq<Label>, i: nat, k: Key)
    requires i < |labels|
  {
    && !(labels[i].AppCrash? && labels[i].key == k)
    && (labels[i].AppTurn? && labels[i].key == k ==> !AppIdle(Run(origin, labels[..i]), k))
  }

  /** A pass for the app at `k` starts with the label at `begun`, and every later turn of that app's controller is a
      call of this same pass, which nobody abandons. */
  ghost predicate OneAppPass(origin: State, labels: seq<Label>, begun: nat, k: Key) {
    && begun < |labels| && labels[begun].AppTurn? && labels[begun].key == k && AppIdle(Run(origin, labels[..begun]), k)
    && forall i | begun < i < |labels| :: AppPassGoesOn(origin, labels, i, k)
  }

  ghost predicate TenantPassGoesOn(origin: State, labels: seq<Label>, i: nat, n: string)
    requires i < |labels|
  {
    && !(labels[i].TenantCrash? && labels[i].name == n)
    && (labels[i].TenantTurn? && labels[i].name == n ==> !Idle(Run(origin, labels[..i]), n))
  }

  ghost predicate OneTenantPass(origin: State, labels: seq<Label>, begun: nat, n: string) {
    && begun < |labels| && labels[begun].TenantTurn? && labels[begun].name == n && Idle(Run(origin, labels[..begun]), n)
    && forall i | begun < i < |labels| :: TenantPassGoesOn(origin, labels, i, n)
  }

  lemma AppPassStarts(origin: State, labels: seq<Label>, k: Key, chance: Chance)
    requires AppIdle(Run(origin, labels), k)
    ensures OneAppPass(origin, labels + [AppTurn(k, chance)], |labels|, k)
  {
    hide Run, AppIdle;
    assert (labels + [AppTurn(k, chance)])[..|labels|] == labels;
  }

  lemma AppPassContinues(origin: State, labels: seq<Label>, begun: nat, others: seq<Label>, k: Key, chance: Chance)
    requires OneAppPass(origin, labels, begun, k) && (forall l | l in others :: LeavesApp(l, k))
    requires !AppIdle(Run(origin, labels + others), k)
    ensures OneAppPass(origin, labels + others + [AppTurn(k, chance)], begun, k)
  {
    hide Run, AppIdle;
    var more := labels + others + [AppTurn(k, chance)];
    assert more[..begun] == labels[..begun];
    forall i | begun < i < |more|
      ensures AppPassGoesOn(origin, more, i, k)
    {
      if i < |labels| {
        assert AppPassGoesOn(origin, labels, i, k) && more[..i] == labels[..i];
      } else if i < |labels| + |others| {
        assert more[i] == others[i - |labels|] && LeavesApp(others[i - |labels|], k);
      } else {
        assert more[..i] == labels + others;
      }
    }
  }

  lemma TenantPassStarts(origin: State, labels: seq<Label>, n: string, chance: Chance)
    requires Idle(Run(origin, labels), n)
    ensures OneTenantPass(origin, labels + [TenantTurn(n, chance)], |labels|, n)
  {
    hide Run, Idle;
    assert (labels + [TenantTurn(n, chance)])[..|labels|] == labels;
  }

  lemma TenantPassContinues(origin: State, labels: seq<Label>, begun: nat, others: seq<Label>, n: string, chance: Chance)
    requires OneTenantPass(origin, labels, begun, n) && (forall l | l in others :: LeavesTenant(l, n))
    requires !Idle(Run(origin, labels + others), n)
    ensures OneTenantPass(origin, labels + others + [TenantTurn(n, chance)], begun, n)
  {
    hide Run, Idle;
    var more := labels + others + [TenantTurn(n, chance)];
    assert more[..begun] == labels[..begun];
    forall i | begun < i < |more|
      ensures TenantPassGoesOn(origin, more, i, n)
    {
      if i < |labels| {
        assert TenantPassGoesOn(origin, labels, i, n) && more[..i] == labels[..i];
      } else if i < |labels| + |others| {
        assert more[i] == others[i - |labels|] && LeavesTenant(others[i - |labels|], n);
      } else {
        assert more[..i] == labels + others;
      }
    }
  }

  class Client {
    var state: State
    var calls: nat
    const world: nat -> Turn

    ghost const origin: State
    ghost var labels: seq<Label>

    /** Where the pass at work leads if it is left alone and every call is answered, its list in this order. */
    ghost const order: seq<string>
    ghost var goal: Store

    /** The label with which the pass at work started. */
    ghost var begun: nat

    ghost predicate Valid()
      reads this
    {
      state == Run(origin, labels)
    }

    ghost predicate Alone() {
      forall i: nat :: world(i) == Turn([], Chance(NoFault, order))
    }

    /** At most one pass for an object is in flight: nobody else moves this one's. */
    ghost predicate ExclusiveApp(k: Key) {
      forall i: nat :: forall l | l in world(i).others :: LeavesApp(l, k)
    }

    ghost predicate ExclusiveTenant(n: string) {
      forall i: nat :: forall l | l in world(i).others :: LeavesTenant(l, n)
    }

    /** The pass for the app at `k` stands at `p`. */
    ghost predicate AppAt(k: Key, p: AC.Pass)
      reads this
    {
      && Valid()
      && Find(state.appPasses, k) == (if p.pc.Finished? then None else Some(p))
      && OneAppPass(origin, labels, begun, k)
      && (Alone() ==> SP.Finish(state.store, k, p, order) == goal)
    }

    /** The pass for the app at `k` is over: it was one whole pass. */
    ghost predicate AppDone(k: Key)
      reads this
    {
      Valid() && AppIdle(state, k) && OneAppPass(origin, labels, begun, k) && (Alone() ==> state.store == goal)
    }

    ghost predicate TenantAt(n: string, p: TC.Pass)
      reads this
    {
      && Valid()
      && Find(state.tenantPasses, n) == (if p.pc.Finished? then None else Some(p))
      && OneTenantPass(origin, labels, begun, n)
      && (Alone() ==> TV.Finish(state.store, n, p, order, state.quantities) == goal)
    }

    ghost predicate TenantDone(n: string)
      reads this
    {
      Valid() && Idle(state, n) && OneTenantPass(origin, labels, begun, n) && (Alone() ==> state.store == goal)
    }

    constructor (s: State, world: nat -> Turn, ghost order: seq<string>)
      ensures Valid() && state == s && this.world == world && this.order == order && labels == []
    {
      state, calls, this.world, origin, labels, this.order, goal, begun := s, 0, world, s, [], order, s.store, 0;
    }

    method BeginApp(k: Key)
      requires Valid() && AppIdle(state, k)
      modifies this
      ensures AppAt(k, AC.NewPass) && old(labels) <= labels && begun == |old(labels)|
      ensures state.store == old(state.store) && goal == SP.OnePass(old(state.store), k, order)
    {
      RunThenStep(origin, labels, [], AppTurn(k, Chance(NoFault, order)));
      assert labels + [] == labels;
      assert Run(state, []) == state;
      AppPassStarts(origin, labels, k, Chance(NoFault, order));
      hide SP.Finish, Run, OneAppPass;
      goal, begun := SP.OnePass(state.store, k, order), |labels|;
      labels := labels + [AppTurn(k, Chance(NoFault, order))];
      state := Step(state, AppTurn(k, Chance(NoFault, [])));
    }

    method BeginTenant(n: string)
      requires Valid() && Idle(state, n)
      modifies this
      ensures TenantAt(n, TC.NewPass) && old(labels) <= labels && begun == |old(labels)|
      ensures state.store == old(state.store) && state.quantities == old(state.quantities)
      ensures goal == TV.OnePass(old(state.store), n, order, old(state.quantities))
    {
      RunThenStep(origin, labels, [], TenantTurn(n, Chance(NoFault, order)));
      assert labels + [] == labels;
      assert Run(state, []) == state;
      TenantPassStarts(origin, labels, n, Chance(NoFault, order));
      hide TV.Finish, Run, OneTenantPass;
      goal, begun := TV.OnePass(state.store, n, order, state.quantities), |labels|;
      labels := labels + [TenantTurn(n, Chance(NoFault, order))];
      state := Step(state, TenantTurn(n, Chance(NoFault, [])));
    }

    /** The next call of the app's pass: others move first, then the call is made, and the pass goes on with
        whatever answer there is. */
    method AppCall(k: Key, ghost p: AC.Pass, call: Call) returns (r: Response)
      requires AppAt(k, p) && !p.pc.Finished? && call == AC.NextCall(k, p) && ExclusiveApp(k)
      modifies this
      ensures AppAt(k, AC.Resume(p, r)) && old(labels) <= labels && goal == old(goal) && begun == old(begun)
    {
      hide Run, SP.Finish, AC.Resume, AC.NextCall, Serve, AppStep, OneAppPass;
      var turn := world(calls);
      calls := calls + 1;
      RunLeavesAppPass(state, turn.others, k);
      RunThenStep(origin, labels, turn.others, AppTurn(k, turn.chance));
      RunConcat(origin, labels, turn.others);
      AppPassContinues(origin, labels, begun, turn.others, k, turn.chance);
      SP.FinishStep(state.store, k, p, order);
      labels := labels + turn.others + [AppTurn(k, turn.chance)];
      state := Run(state, turn.others);
      r := Deliver(state.store, call, turn.chance).1;
      OwnAppTurn(state, k, p, turn.chance);
      NothingRuns(old(state));
      assert Alone() ==> turn.others == [] && turn.chance == Chance(NoFault, order);
      state := Step(state, AppTurn(k, turn.chance));
    }

    method TenantCall(n: string, ghost p: TC.Pass, call: Call) returns (r: Response)
      requires TenantAt(n, p) && !p.pc.Finished? && call == TC.NextCall(n, p) && ExclusiveTenant(n)
      modifies this
      ensures TenantAt(n, TC.Resume(n, p, r, state.quantities)) && old(labels) <= labels && goal == old(goal) && begun == old(begun)
      ensures state.quantities == old(state.quantities)
    {
      hide Run, TV.Finish, TC.Resume, TC.NextCall, Serve, TenantStep, OneTenantPass;
      var turn := world(calls);
      calls := calls + 1;
      RunLeavesTenantPass(state, turn.others, n);
      RunThenStep(origin, labels, turn.others, TenantTurn(n, turn.chance));
      RunConcat(origin, labels, turn.others);
      TenantPassContinues(origin, labels, begun, turn.others, n, turn.chance);
      TV.FinishStep(state.store, n, p, order, state.quantities);
      labels := labels + turn.others + [TenantTurn(n, turn.chance)];
      state := Run(state, turn.others);
      r := Deliver(state.store, call, turn.chance).1;
      OwnTenantTurn(state, n, p, turn.chance);
      NothingRuns(old(state));
      assert Alone() ==> turn.others == [] && turn.chance == Chance(NoFault, order);
      state := Step(state, TenantTurn(n, turn.chance));
    }
  }

  lemma OwnAppTurn(s: State, k: Key, p: AC.Pass, chance: Chance)
    requires !p.pc.Finished? && Find(s.appPasses, k) == Some(p)
    ensures var t := AppStep(s, k, chance);
            var (after, r) := Deliver(s.store, AC.NextCall(k, p), chance);
            var q := AC.Resume(p, r);
            t.store == after && Find(t.appPasses, k) == (if q.pc.Finished? then None else Some(q))
  {
    hide Deliver, AC.NextCall, AC.Resume;
  }

  lemma OwnTenantTurn(s: State, n: string, p: TC.Pass, chance: Chance)
    requires !p.pc.Finished? && Find(s.tenantPasses, n) == Some(p)
    ensures var t := TenantStep(s, n, chance);
            var (after, r) := Deliver(s.store, TC.NextCall(n, p), chance);
            var q := TC.Resume(n, p, r, s.quantities);
            t.store == after && t.quantities == s.quantities && Find(t.tenantPasses, n) == (if q.pc.Finished? then None else Some(q))
  {
    hide Deliver, TC.NextCall, TC.Resume;
  }
}
