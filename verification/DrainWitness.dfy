/** The fair runs without failures that the drain asks for exist, from every state: take turns round and round,
    and answer every call. */
module DrainWitness {
  import opened Options
  import opened Kube
  import opened ApiServer
  import opened Operator
  import opened DrainLiveness
  import AC = AppController
  import TC = TenantController

  // ----- every call can be answered ---------------------------------------------------------------------------------

  /** An order for the answer to a listing. */
  ghost function OrderFor(s: Store, call: Call): seq<string> {
    match call
    case ListApps(ns) => SomeOrder(AppNames(s.apps, ns))
    case ListMappings(ns, app) => SomeOrder(MappingNames(s.mappings, ns, app))
    case _ => []
  }

  lemma ChildAnswered(s: Store, call: Call)
    requires ForTenantChild(call)
    ensures !ServeTenantChild(s, call).1.Error?
  {
    FourAnswers(s, call);
    hide ServeTenantChild, ServeNamespace, ServeCapsule, ServePolicy, ServeQuota;
    OneAnswers(s, call);
  }

  lemma FourAnswers(s: Store, call: Call)
    ensures ServeTenantChild(s, call).1.Error? ==>
              && ServeNamespace(s.namespaces, s.clock, call).1.Error? && ServeCapsule(s.capsules, s.clock, call).1.Error?
              && ServePolicy(s.policies, s.clock, call).1.Error? && ServeQuota(s.quotas, s.clock, call).1.Error?
  {
    hide ServeNamespace, ServeCapsule, ServePolicy, ServeQuota;
  }

  lemma OneAnswers(s: Store, call: Call)
    requires ForTenantChild(call)
    ensures || !ServeNamespace(s.namespaces, s.clock, call).1.Error? || !ServeCapsule(s.capsules, s.clock, call).1.Error?
            || !ServePolicy(s.policies, s.clock, call).1.Error? || !ServeQuota(s.quotas, s.clock, call).1.Error?
  {
    if call.GetNamespace? || call.CreateNamespace? || call.UpdateNamespace? || call.DeleteNamespace? {
      hide ServeCapsule, ServePolicy, ServeQuota;
      assert !ServeNamespace(s.namespaces, s.clock, call).1.Error?;
    } else if call.GetCapsule? || call.CreateCapsule? || call.UpdateCapsule? || call.DeleteCapsule? {
      hide ServeNamespace, ServePolicy, ServeQuota;
      assert !ServeCapsule(s.capsules, s.clock, call).1.Error?;
    } else if call.GetPolicy? || call.CreatePolicy? || call.UpdatePolicy? || call.DeletePolicy? {
      hide ServeNamespace, ServeCapsule, ServeQuota;
      assert !ServePolicy(s.policies, s.clock, call).1.Error?;
    } else {
      hide ServeNamespace, ServeCapsule, ServePolicy;
      assert !ServeQuota(s.quotas, s.clock, call).1.Error?;
    }
    hide ServeNamespace, ServeCapsule, ServePolicy, ServeQuota;
  }

  lemma EveryCallAnswered(s: Store, call: Call)
    ensures !Serve(s, call, OrderFor(s, call)).1.Error?
  {
    if ForTenantChild(call) {
      ChildAnswered(s, call);
      hide ServeTenantChild, OrderFor;
    } else {
      hide Enumerates, AppNames, MappingNames;
    }
  }

  // ----- taking turns -----------------------------------------------------------------------------------------------

  /** Counts round and round below `m`. */
  function Slot(m: nat, i: nat): (slot: nat)
    requires m > 0
    ensures slot < m
  {
    if i == 0 then 0 else if Slot(m, i - 1) + 1 == m then 0 else Slot(m, i - 1) + 1
  }

  lemma SlotComes(m: nat, i: nat, t: nat) returns (j: nat)
    requires t < m
    ensures i <= j && Slot(m, j) == t
    decreases if Slot(m, i) <= t then t - Slot(m, i) else m - Slot(m, i) + t
  {
    if Slot(m, i) == t {
      j := i;
    } else {
      assert Slot(m, i + 1) == if Slot(m, i) + 1 == m then 0 else Slot(m, i) + 1;
      j := SlotComes(m, i + 1, t);
    }
  }

  /** The turn of the `i`th slot: one for each app in `ks`, and one for the tenant. */
  ghost function Pick(s: State, ks: seq<Key>, n: string, i: nat): Label {
    var slot := Slot(|ks| + 1, i);
    if slot < |ks| then
      var k := ks[slot];
      AppTurn(k, Chance(NoFault, if AppIdle(s, k) then [] else OrderFor(s.store, AC.NextCall(k, s.appPasses[k]))))
    else
      TenantTurn(n, Chance(NoFault, if Idle(s, n) then [] else OrderFor(s.store, TC.NextCall(n, s.tenantPasses[n]))))
  }

  ghost function Reach(s: State, ks: seq<Key>, n: string, i: nat): State {
    if i == 0 then s else Step(Reach(s, ks, n, i - 1), Pick(Reach(s, ks, n, i - 1), ks, n, i - 1))
  }

  ghost function RoundRobin(s: State, ks: seq<Key>, n: string): nat -> Label {
    (i: nat) => Pick(Reach(s, ks, n, i), ks, n, i)
  }

  lemma {:induction false} ReachIsAt(s: State, ks: seq<Key>, n: string, i: nat)
    ensures At(s, RoundRobin(s, ks, n), i) == Reach(s, ks, n, i)
  {
    hide Step, Pick;
    if i > 0 {
      ReachIsAt(s, ks, n, i - 1);
    }
  }

  lemma PickIsCalm(s: State, ks: seq<Key>, n: string, i: nat)
    ensures Calm(s, Pick(s, ks, n, i), n)
  {
    hide Serve, AC.NextCall, TC.NextCall, OrderFor;
    var slot := Slot(|ks| + 1, i);
    if slot < |ks| {
      if !AppIdle(s, ks[slot]) {
        EveryCallAnswered(s.store, AC.NextCall(ks[slot], s.appPasses[ks[slot]]));
      }
    } else if !Idle(s, n) {
      EveryCallAnswered(s.store, TC.NextCall(n, s.tenantPasses[n]));
    }
  }

  lemma {:induction false} NoneAppear(s: State, ks: seq<Key>, n: string, i: nat, ns: string)
    ensures Present(Reach(s, ks, n, i).store, ns) <= Present(s.store, ns)
  {
    hide Step, Present;
    if i > 0 {
      NoneAppear(s, ks, n, i - 1, ns);
      DrainNeverRises(Reach(s, ks, n, i - 1), Pick(Reach(s, ks, n, i - 1), ks, n, i - 1), ns);
    }
  }

  lemma PickMoves(s: State, ks: seq<Key>, n: string, i: nat)
    ensures var slot := Slot(|ks| + 1, i);
            if slot < |ks| then AppMoves(Pick(s, ks, n, i), ks[slot]) else TenantMoves(Pick(s, ks, n, i), n)
  {
    hide OrderFor, AC.NextCall, TC.NextCall;
  }

  lemma SlotMoves(s: State, ks: seq<Key>, n: string, i: nat)
    requires Slot(|ks| + 1, i) < |ks|
    ensures AppMoves(RoundRobin(s, ks, n)(i), ks[Slot(|ks| + 1, i)])
  {
    hide Slot, AppMoves, Reach, Pick;
    PickMoves(Reach(s, ks, n, i), ks, n, i);
  }

  lemma AppIsListed(s: State, ks: seq<Key>, n: string, k: Key, i: nat)
    requires Enumerates(ks, Present(s.store, TenantNamespace(n)))
    requires k.ns == TenantNamespace(n) && k in At(s, RoundRobin(s, ks, n), i).store.apps
    ensures k in ks
  {
    hide At, Reach, RoundRobin, NoDuplicates, TenantNamespace;
    ReachIsAt(s, ks, n, i);
    NoneAppear(s, ks, n, i, TenantNamespace(n));
    assert k in Present(Reach(s, ks, n, i).store, TenantNamespace(n));
  }

  lemma AppComesAgain(s: State, ks: seq<Key>, n: string, k: Key, i: nat)
    requires Enumerates(ks, Present(s.store, TenantNamespace(n)))
    requires k.ns == TenantNamespace(n) && k in At(s, RoundRobin(s, ks, n), i).store.apps
    ensures AppMovesAfter(RoundRobin(s, ks, n), k, i)
  {
    hide At, Step, RoundRobin, Slot, AppMoves, Present, Enumerates, TenantNamespace;
    AppIsListed(s, ks, n, k, i);
    var t :| 0 <= t < |ks| && ks[t] == k;
    var j := SlotComes(|ks| + 1, i, t);
    SlotMoves(s, ks, n, j);
  }

  lemma RoundRobinIsFair(s: State, ks: seq<Key>, n: string)
    requires Enumerates(ks, Present(s.store, TenantNamespace(n)))
    ensures Fair(s, RoundRobin(s, ks, n), n)
  {
    hide At, Reach, Pick, TenantMoves, Present, AppMovesAfter, Enumerates;
    var trace := RoundRobin(s, ks, n);
    forall i: nat
      ensures TenantMovesAfter(trace, n, i)
    {
      var j := SlotComes(|ks| + 1, i, |ks|);
      PickMoves(Reach(s, ks, n, j), ks, n, j);
      assert TenantMoves(trace(j), n);
    }
    forall k: Key, i: nat | k.ns == TenantNamespace(n) && k in At(s, trace, i).store.apps
      ensures AppMovesAfter(trace, k, i)
    {
      AppComesAgain(s, ks, n, k, i);
    }
  }

  /** From every state and for every tenant there is a fair run without failures around it. */
  lemma CalmRunExists(s: State, n: string) returns (trace: nat -> Label)
    ensures CalmRun(s, trace, n)
  {
    var ks := SomeOrder(Present(s.store, TenantNamespace(n)));
    trace := RoundRobin(s, ks, n);
    RoundRobinIsFair(s, ks, n);
    hide Fair, Pick, Calm, At, Reach;
    forall i: nat
      ensures Calm(At(s, trace, i), trace(i), n)
    {
      ReachIsAt(s, ks, n, i);
      PickIsCalm(Reach(s, ks, n, i), ks, n, i);
    }
  }
}
