/** What a deletion pass of the App controller leaves behind, whatever becomes of each of its calls
    (operator/controller/app_controller.go:169-191).  The finalizer goes even if cleaning up failed, so every
    child that survives the pass is left without its app. */
module DeletionPass {
  import opened Options
  import opened Kube
  import opened ApiServer
  import opened Operator
  import opened SoloPass
  import AC = AppController

  /** What becomes of each call of the pass.  A delete of a host that is not named here has no fault. */
  datatype Luck = Luck(list: Chance, deletes: map<string, Fault>, get: Fault, delete: Fault, drop: Fault)

  function FaultAt(luck: Luck, host: string): Fault {
    if host in luck.deletes then luck.deletes[host] else NoFault
  }

  function ChanceOf(luck: Luck, pc: AC.Pc): Chance {
    match pc
    case CleanList => luck.list
    case CleanMapping(host, _) => Chance(FaultAt(luck, host), [])
    case CleanGet => Chance(luck.get, [])
    case CleanDelete => Chance(luck.delete, [])
    case _ => Chance(luck.drop, [])
  }

  /** The rest of the pass `p` for the app at `k`, with nobody else moving. */
  function Attempt(store: Store, k: Key, p: AC.Pass, luck: Luck): Store
    decreases AC.Stage(p.pc), AC.Remaining(p.pc)
  {
    if p.pc.Finished? then store
    else
      var (after, r) := Deliver(store, AC.NextCall(k, p), ChanceOf(luck, p.pc));
      AC.ResumeAdvances(p, r);
      Attempt(after, k, AC.Resume(p, r), luck)
  }

  lemma AttemptStep(store: Store, k: Key, p: AC.Pass, luck: Luck)
    requires !p.pc.Finished?
    ensures var (after, r) := Deliver(store, AC.NextCall(k, p), ChanceOf(luck, p.pc));
            Attempt(store, k, p, luck) == Attempt(after, k, AC.Resume(p, r), luck)
  {
    hide Deliver, ChanceOf, AC.NextCall, AC.Resume, AC.Stage, AC.Remaining;
  }

  lemma AttemptEnds(store: Store, k: Key, p: AC.Pass, luck: Luck)
    requires p.pc.Finished?
    ensures Attempt(store, k, p, luck) == store
  {
  }

  /** The attempt is a run of the whole machine in which only the app's own controller takes turns. */
  lemma {:induction false} AttemptIsRun(s: State, k: Key, luck: Luck) returns (labels: seq<Label>)
    requires !AppIdle(s, k)
    ensures forall i | 0 <= i < |labels| :: labels[i].AppTurn? && labels[i].key == k
    ensures var t := Run(s, labels);
            && AppIdle(t, k)
            && t.store == Attempt(s.store, k, s.appPasses[k], luck)
    decreases AppEffort(s, k), AppLeft(s, k)
  {
    var p := s.appPasses[k];
    var l := AppTurn(k, ChanceOf(luck, p.pc));
    var t := Step(s, l);
    hide AC.NextCall, AC.Resume, Deliver, ChanceOf, AC.Stage, AC.Remaining;
    var (after, r) := Deliver(s.store, AC.NextCall(k, p), l.chance);
    assert t.store == after && (AppIdle(t, k) <==> AC.Resume(p, r).pc.Finished?);
    AppTurnAdvances(s, k, l.chance);
    assert Run(s, [l]) == t by {
      assert [l][..0] == [];
      assert Run(s, []) == s;
    }
    if AppIdle(t, k) {
      labels := [l];
    } else {
      hide Step, AppEffort, AppLeft;
      var rest := AttemptIsRun(t, k, luck);
      RunConcat(s, [l], rest);
      labels := [l] + rest;
    }
  }

  // ----- the mappings -----------------------------------------------------------------------------------------

  /** The `i`th listed host goes: no delete before it failed, and its own took effect. */
  ghost predicate RemovedAt(listed: seq<string>, luck: Luck, i: nat)
    requires i < |listed|
  {
    FaultAt(luck, listed[i]) != Lost && forall j | 0 <= j < i :: FaultAt(luck, listed[j]) == NoFault
  }

  ghost predicate Removed(listed: seq<string>, luck: Luck, host: string) {
    exists i | 0 <= i < |listed| :: listed[i] == host && RemovedAt(listed, luck, i)
  }

  function Gone(listed: seq<string>, luck: Luck): seq<string> {
    if listed == [] || FaultAt(luck, listed[0]) == Lost then []
    else [listed[0]] + if FaultAt(luck, listed[0]) == NoFault then Gone(listed[1..], luck) else []
  }

  lemma {:induction false} GoneIsRemoved(listed: seq<string>, luck: Luck, host: string)
    ensures host in Gone(listed, luck) <==> Removed(listed, luck, host)
  {
    if listed == [] {
    } else {
      var rest := listed[1..];
      GoneIsRemoved(rest, luck, host);
      if Removed(rest, luck, host) && FaultAt(luck, listed[0]) == NoFault {
        var i :| 0 <= i < |rest| && rest[i] == host && RemovedAt(rest, luck, i);
        assert RemovedAt(listed, luck, i + 1) by {
          forall j | 0 <= j < i + 1
            ensures FaultAt(luck, listed[j]) == NoFault
          {
            assert j > 0 ==> listed[j] == rest[j - 1];
          }
        }
      }
      if Removed(listed, luck, host) {
        var i :| 0 <= i < |listed| && listed[i] == host && RemovedAt(listed, luck, i);
        if i > 0 {
          assert FaultAt(luck, listed[0]) == NoFault;
          assert RemovedAt(rest, luck, i - 1) by {
            forall j | 0 <= j < i - 1
              ensures FaultAt(luck, rest[j]) == NoFault
            {
              assert rest[j] == listed[j + 1];
            }
          }
        }
      }
      assert host == listed[0] && FaultAt(luck, host) != Lost ==> RemovedAt(listed, luck, 0);
    }
  }

  lemma DeleteDelivered(store: Store, at: Key, fault: Fault)
    ensures var (mid, r) := Deliver(store, DeleteMapping(at), Chance(fault, []));
            && mid == store.(clock := mid.clock, mappings := if fault == Lost then store.mappings else store.mappings - {at})
            && (r.Ok? || r.NotFound? <==> fault == NoFault)
  {
    hide Serve;
    DeleteMappingServed(store, at, []);
  }

  lemma MappingChance(luck: Luck, host: string, rest: seq<string>)
    ensures ChanceOf(luck, AC.CleanMapping(host, rest)) == Chance(FaultAt(luck, host), [])
  {
  }

  lemma CleanTried(store: Store, k: Key, app: App, left: seq<string>, luck: Luck) returns (mid: Store)
    requires left != []
    ensures var fault := FaultAt(luck, left[0]);
            && mid == store.(clock := mid.clock, mappings :=
                 if fault == Lost then store.mappings else store.mappings - {Key(k.ns, left[0])})
            && Attempt(store, k, AC.ToClean(app, left), luck)
            == Attempt(mid, k, if fault == NoFault then AC.ToClean(app, left[1..]) else AC.Pass(AC.CleanGet, app), luck)
  {
    var p := AC.Pass(AC.CleanMapping(left[0], left[1..]), app);
    hide Attempt, Deliver, AC.ToClean, AC.NextCall, AC.Resume, FaultAt, ChanceOf;
    MappingChance(luck, left[0], left[1..]);
    AC.CleanHead(k, app, left, 0);
    assert left[0..] == left;
    AttemptStep(store, k, p, luck);
    DeleteDelivered(store, Key(k.ns, left[0]), FaultAt(luck, left[0]));
    mid := Deliver(store, DeleteMapping(Key(k.ns, left[0])), Chance(FaultAt(luck, left[0]), [])).0;
  }

  lemma GoneKeys(ns: string, left: seq<string>, luck: Luck)
    ensures left == [] ==> KeysOf(ns, Gone(left, luck)) == {}
    ensures left != [] ==>
              KeysOf(ns, Gone(left, luck))
              == match FaultAt(luck, left[0])
                 case NoFault => {Key(ns, left[0])} + KeysOf(ns, Gone(left[1..], luck))
                 case Lost => {}
                 case Unacknowledged => {Key(ns, left[0])}
  {
    hide FaultAt;
  }

  lemma {:induction false} CleansTried(store: Store, k: Key, app: App, left: seq<string>, luck: Luck) returns (st: Store)
    ensures st == store.(mappings := store.mappings - KeysOf(k.ns, Gone(left, luck)), clock := st.clock)
    ensures Attempt(store, k, AC.ToClean(app, left), luck) == Attempt(st, k, AC.Pass(AC.CleanGet, app), luck)
    decreases |left|
  {
    hide Attempt, FaultAt, Gone, KeysOf;
    GoneKeys(k.ns, left, luck);
    if left == [] {
      st := store;
    } else {
      hide AC.ToClean;
      var mid := CleanTried(store, k, app, left, luck);
      st := mid;
      if FaultAt(luck, left[0]) == NoFault {
        st := CleansTried(mid, k, app, left[1..], luck);
      }
    }
  }

  /** The hosts the pass gets to see: none if the listing fails. */
  function Seen(store: Store, k: Key, luck: Luck): seq<string> {
    if luck.list.fault == NoFault && Enumerates(luck.list.order, MappingNames(store.mappings, k.ns, k.name))
    then luck.list.order else []
  }

  lemma ListDelivered(store: Store, k: Key, luck: Luck)
    ensures var (mid, r) := Deliver(store, ListMappings(k.ns, k.name), luck.list);
            && mid == store.(clock := mid.clock)
            && (if r.Listed? then r.names == Seen(store, k, luck) else Seen(store, k, luck) == [])
  {
    hide MappingNames, Enumerates;
  }

  lemma ListTried(store: Store, k: Key, app: App, luck: Luck) returns (mid: Store)
    ensures mid == store.(clock := mid.clock)
    ensures Attempt(store, k, AC.Pass(AC.CleanList, app), luck) == Attempt(mid, k, AC.ToClean(app, Seen(store, k, luck)), luck)
  {
    var p := AC.Pass(AC.CleanList, app);
    AC.CleanListHead(k, app);
    assert AC.ToClean(app, []) == AC.Pass(AC.CleanGet, app);
    AttemptStep(store, k, p, luck);
    ListDelivered(store, k, luck);
    hide Attempt, AC.ToClean, AC.NextCall, AC.Resume, Seen, Deliver;
    mid := Deliver(store, ListMappings(k.ns, k.name), luck.list).0;
  }

  // ----- the service and the finalizer --------------------------------------------------------------------------

  lemma DeleteTried(store: Store, k: Key, app: App, luck: Luck) returns (st: Store)
    ensures st == store.(clock := st.clock, services := if luck.delete != Lost then store.services - {k} else store.services)
    ensures Attempt(store, k, AC.Pass(AC.CleanDelete, app), luck) == Attempt(st, k, AC.ToDrop(app), luck)
  {
    AC.DeleteHeads(k, AC.Pass(AC.CleanGet, app));
    assert AC.Removing(AC.Pass(AC.CleanGet, app)) == AC.Pass(AC.CleanDelete, app);
    assert AC.AfterDelete(AC.Pass(AC.CleanGet, app)) == AC.ToDrop(app);
    assert ChanceOf(luck, AC.CleanDelete) == Chance(luck.delete, []);
    hide Attempt, Serve, ChanceOf, AC.NextCall, AC.Resume, AC.ToDrop, AC.Removing, AC.AfterDelete;
    AttemptStep(store, k, AC.Pass(AC.CleanDelete, app), luck);
    DeleteServiceServed(store, k, []);
    st := Deliver(store, DeleteService(k), Chance(luck.delete, [])).0;
  }

  lemma GetDelivered(store: Store, k: Key, fault: Fault)
    ensures var (mid, r) := Deliver(store, GetService(k), Chance(fault, []));
            mid == store.(clock := mid.clock) && (r.GotService? <==> fault == NoFault && k in store.services)
  {
    hide Serve;
    GetServiceServed(store, k, []);
  }

  lemma GetHeads(k: Key, app: App, luck: Luck)
    ensures var p := AC.Pass(AC.CleanGet, app);
            && !p.pc.Finished? && AC.NextCall(k, p) == GetService(k) && ChanceOf(luck, p.pc) == Chance(luck.get, [])
            && (forall r: Response :: AC.Resume(p, r) == if r.GotService? then AC.Pass(AC.CleanDelete, app) else AC.ToDrop(app))
  {
    hide AC.ToDrop;
  }

  lemma GetTried(store: Store, k: Key, app: App, luck: Luck) returns (mid: Store)
    ensures mid == store.(clock := mid.clock)
    ensures Attempt(store, k, AC.Pass(AC.CleanGet, app), luck)
         == Attempt(mid, k, if luck.get == NoFault && k in store.services then AC.Pass(AC.CleanDelete, app) else AC.ToDrop(app), luck)
  {
    hide Attempt, Deliver, ChanceOf, AC.NextCall, AC.Resume, AC.ToDrop;
    GetHeads(k, app, luck);
    AttemptStep(store, k, AC.Pass(AC.CleanGet, app), luck);
    GetDelivered(store, k, luck.get);
    mid := Deliver(store, GetService(k), Chance(luck.get, [])).0;
  }

  lemma RemovalTried(store: Store, k: Key, app: App, luck: Luck) returns (st: Store)
    ensures st == store.(clock := st.clock, services :=
              if luck.get == NoFault && luck.delete != Lost then store.services - {k} else store.services)
    ensures Attempt(store, k, AC.Pass(AC.CleanGet, app), luck) == Attempt(st, k, AC.ToDrop(app), luck)
  {
    hide Attempt, AC.ToDrop;
    st := GetTried(store, k, app, luck);
    if luck.get == NoFault && k in store.services {
      st := DeleteTried(st, k, app, luck);
    } else {
      assert k !in store.services ==> store.services - {k} == store.services;
    }
  }

  lemma DropTried(store: Store, k: Key, luck: Luck)
    requires k in store.apps && store.apps[k].deleting
    ensures var st := Attempt(store, k, AC.ToDrop(store.apps[k]), luck);
            st == store.(clock := st.clock, apps :=
              if luck.drop == Lost then store.apps else Released(store.apps, k, store.clock))
  {
    var p := AC.ToDrop(store.apps[k]);
    AttemptStep(store, k, p, luck);
    AppServed(store, UpdateApp(k, p.app), []);
    var (after, r) := Deliver(store, UpdateApp(k, p.app), Chance(luck.drop, []));
    AttemptEnds(after, k, AC.Resume(p, r), luck);
    hide Attempt, Serve;
  }

  // ----- the whole pass -----------------------------------------------------------------------------------------

  /** The cluster after the pass, call by call. */
  lemma PassLeaves(store: Store, k: Key, luck: Luck) returns (rv: nat)
    requires k in store.apps && store.apps[k].deleting
    ensures var st := Attempt(store, k, AC.Pass(AC.CleanList, store.apps[k]), luck);
            st == store.(clock := st.clock,
              apps := if luck.drop == Lost then store.apps else Released(store.apps, k, rv),
              services := if luck.get == NoFault && luck.delete != Lost then store.services - {k} else store.services,
              mappings := store.mappings - KeysOf(k.ns, Gone(Seen(store, k, luck), luck)))
  {
    var app, seen := store.apps[k], Seen(store, k, luck);
    hide Attempt, AC.ToClean, AC.ToDrop, Released, Seen, Gone, KeysOf;
    var listed := ListTried(store, k, app, luck);
    var cleaned := CleansTried(listed, k, app, seen, luck);
    var removed := RemovalTried(cleaned, k, app, luck);
    DropTried(removed, k, luck);
    rv := removed.clock;
  }

  /** Exactly which children survive a deletion pass: the service unless it was looked up and its delete took
      effect, and a mapping unless it was listed, no delete before it failed and its own took effect.  Whatever
      failed, the finalizer goes unless the last write itself is lost. */
  lemma SurvivorsAreExact(store: Store, k: Key, luck: Luck)
    requires k in store.apps && store.apps[k].deleting
    ensures var st := Attempt(store, k, AC.Pass(AC.CleanList, store.apps[k]), luck);
            && st == store.(apps := st.apps, services := st.services, mappings := st.mappings, clock := st.clock)
            && (k in st.services <==> k in store.services && (luck.get != NoFault || luck.delete == Lost))
            && st.services - {k} == store.services - {k} && (k in st.services ==> st.services == store.services)
            && (forall at :: at in st.mappings <==>
                  at in store.mappings && !(at.ns == k.ns && Removed(Seen(store, k, luck), luck, at.name)))
            && (forall at | at in st.mappings :: st.mappings[at] == store.mappings[at])
            && (luck.drop == Lost ==> st.apps == store.apps)
            && (luck.drop != Lost ==> exists rv: nat :: st.apps == Released(store.apps, k, rv))
  {
    var seen := Seen(store, k, luck);
    hide Attempt, Released, Seen, Gone, Removed, KeysOf;
    var rv := PassLeaves(store, k, luck);
    forall at
      ensures at in KeysOf(k.ns, Gone(seen, luck)) <==> at.ns == k.ns && Removed(seen, luck, at.name)
    {
      GoneIsRemoved(seen, luck, at.name);
      KeysAt(k.ns, Gone(seen, luck), at);
    }
  }

  lemma KeysAt(ns: string, hosts: seq<string>, at: Key)
    ensures at in KeysOf(ns, hosts) <==> at.ns == ns && at.name in hosts
  {
    assert at == Key(at.ns, at.name);
  }

  /** So with the operator's finalizer the last one, the app is gone while something of its own is left exactly
      when one of its calls kept a child alive. */
  ghost predicate Spared(store: Store, k: Key, luck: Luck) {
    || (k in store.services && (luck.get != NoFault || luck.delete == Lost))
    || exists host :: host in MappingNames(store.mappings, k.ns, k.name) && !Removed(Seen(store, k, luck), luck, host)
  }

  lemma OrphansAreExact(store: Store, k: Key, luck: Luck)
    requires k in store.apps && store.apps[k].deleting && store.apps[k].finalizers == {FINALIZER_APP} && luck.drop != Lost
    ensures var st := Attempt(store, k, AC.Pass(AC.CleanList, store.apps[k]), luck);
            && k !in st.apps
            && (k in st.services || MappingNames(st.mappings, k.ns, k.name) != {} <==> Spared(store, k, luck))
  {
    hide Attempt, Seen, Removed;
    SurvivorsAreExact(store, k, luck);
    var st := Attempt(store, k, AC.Pass(AC.CleanList, store.apps[k]), luck);
    forall host
      ensures host in MappingNames(st.mappings, k.ns, k.name)
         <==> host in MappingNames(store.mappings, k.ns, k.name) && !Removed(Seen(store, k, luck), luck, host)
    {
      var at := Key(k.ns, host);
      assert host in MappingNames(st.mappings, k.ns, k.name) <==> at in st.mappings && LabelledFor(st.mappings[at], k.name);
      assert host in MappingNames(store.mappings, k.ns, k.name) <==> at in store.mappings && LabelledFor(store.mappings[at], k.name);
    }
    if MappingNames(st.mappings, k.ns, k.name) != {} {
      var host :| host in MappingNames(st.mappings, k.ns, k.name);
    }
  }
}
