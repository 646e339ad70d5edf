/** One pass of the App controller alone with an API server that answers every call. */
module SoloPass {
  import opened Options
  import opened Kube
  import opened ApiServer
  import opened Operator
  import AC = AppController

  /** The rest of the pass `p` for the app at `k`; `order` is the order its one listing comes back in. */
  function Finish(store: Store, k: Key, p: AC.Pass, order: seq<string>): Store
    decreases AC.Stage(p.pc), AC.Remaining(p.pc)
  {
    if p.pc.Finished? then store
    else
      var (after, r) := Serve(store, AC.NextCall(k, p), order);
      AC.ResumeAdvances(p, r);
      Finish(after, k, AC.Resume(p, r), order)
  }

  lemma FinishStep(store: Store, k: Key, p: AC.Pass, order: seq<string>)
    requires !p.pc.Finished?
    ensures var (after, r) := Serve(store, AC.NextCall(k, p), order);
            Finish(store, k, p, order) == Finish(after, k, AC.Resume(p, r), order)
  {
    hide Serve, AC.NextCall, AC.Resume, AC.Stage, AC.Remaining;
  }

  lemma FinishEnds(store: Store, k: Key, p: AC.Pass, order: seq<string>)
    requires p.pc.Finished?
    ensures Finish(store, k, p, order) == store
  {
  }

  function OnePass(store: Store, k: Key, order: seq<string>): Store {
    Finish(store, k, AC.NewPass, order)
  }

  function Turns(k: Key, order: seq<string>, count: nat): seq<Label> {
    if count == 0 then [] else Turns(k, order, count - 1) + [AppTurn(k, Chance(NoFault, order))]
  }

  lemma TurnsLast(k: Key, order: seq<string>, count: nat)
    ensures |Turns(k, order, count)| == count
    ensures count > 0 ==> Turns(k, order, count)[count - 1] == AppTurn(k, Chance(NoFault, order))
    ensures count > 0 ==> Turns(k, order, count)[..count - 1] == Turns(k, order, count - 1)
  {
    if count > 0 {
      TurnsLast(k, order, count - 1);
    }
  }

  lemma OneTurn(s: State, k: Key, order: seq<string>)
    ensures Run(s, Turns(k, order, 1)) == Step(s, AppTurn(k, Chance(NoFault, order)))
  {
    hide Step;
    assert Turns(k, order, 0) == [];
    assert Turns(k, order, 1) == [AppTurn(k, Chance(NoFault, order))];
    assert Run(s, []) == s;
  }

  lemma ServedTurn(s: State, k: Key, order: seq<string>)
    requires !AppIdle(s, k)
    ensures var p := s.appPasses[k];
            var (after, r) := Serve(s.store, AC.NextCall(k, p), order);
            var t := Step(s, AppTurn(k, Chance(NoFault, order)));
            && t.store == after && (AppIdle(t, k) <==> AC.Resume(p, r).pc.Finished?)
            && (!AppIdle(t, k) ==> t.appPasses[k] == AC.Resume(p, r))
  {
    hide AC.NextCall, AC.Resume, Serve;
  }

  /** A solo pass is a run of the whole machine in which only the app's own controller takes turns. */
  lemma {:induction false} FinishIsRun(s: State, k: Key, order: seq<string>) returns (count: nat)
    requires !AppIdle(s, k)
    ensures var t := Run(s, Turns(k, order, count));
            && AppIdle(t, k)
            && t.store == Finish(s.store, k, s.appPasses[k], order)
    decreases AppEffort(s, k), AppLeft(s, k)
  {
    var t := Step(s, AppTurn(k, Chance(NoFault, order)));
    var p := s.appPasses[k];
    FinishStep(s.store, k, p, order);
    ServedTurn(s, k, order);
    AppTurnAdvances(s, k, Chance(NoFault, order));
    OneTurn(s, k, order);
    assert t == AppStep(s, k, Chance(NoFault, order));
    hide Step, AppStep, Run, Turns, Serve, Finish, AC.NextCall, AC.Resume, AppEffort, AppLeft;
    var (after, r) := Serve(s.store, AC.NextCall(k, p), order);
    if AppIdle(t, k) {
      count := 1;
      FinishEnds(after, k, AC.Resume(p, r), order);
    } else {
      count := FinishIsRun(t, k, order);
      TurnsJoin(k, order, 1, count);
      RunConcat(s, Turns(k, order, 1), Turns(k, order, count));
      count := count + 1;
    }
  }

  lemma {:induction false} TurnsJoin(k: Key, order: seq<string>, a: nat, b: nat)
    ensures Turns(k, order, a) + Turns(k, order, b) == Turns(k, order, a + b)
  {
    if b == 0 {
      assert Turns(k, order, a) + [] == Turns(k, order, a);
    } else {
      TurnsJoin(k, order, a, b - 1);
      var last := [AppTurn(k, Chance(NoFault, order))];
      assert Turns(k, order, a) + (Turns(k, order, b - 1) + last) == (Turns(k, order, a) + Turns(k, order, b - 1)) + last;
    }
  }

  // ----- up to the tenant check -----------------------------------------------------------------------------------

  predicate Alive(store: Store, k: Key) {
    k in store.apps && !store.apps[k].deleting
  }

  /** The app exists, is not being deleted and is not paused, and its tenant exists. */
  predicate Healthy(store: Store, k: Key) {
    Alive(store, k) && !store.apps[k].spec.paused && store.apps[k].spec.tenantRef in store.tenants
  }

  /** `b` is `a` but for the status, the finalizers and the version of the app at `k`. */
  ghost predicate SameButStatus(a: Store, b: Store, k: Key) {
    && b == a.(apps := b.apps, clock := b.clock)
    && k in a.apps && k in b.apps && b.apps == a.apps[k := b.apps[k]]
    && b.apps[k].spec == a.apps[k].spec && b.apps[k].deleting == a.apps[k].deleting
    && a.apps[k].finalizers <= b.apps[k].finalizers
  }

  lemma SameChain(a: Store, b: Store, c: Store, k: Key)
    requires SameButStatus(a, b, k) && SameButStatus(b, c, k)
    ensures SameButStatus(a, c, k) && (Healthy(a, k) ==> Healthy(c, k))
  {
    assert a.apps[k := c.apps[k]] == a.apps[k := b.apps[k]][k := c.apps[k]];
  }

  /** A status write whose copy is current is stored. */
  lemma StatusStored(store: Store, k: Key, status: AppStatus, order: seq<string>)
    requires k in store.apps
    ensures var written := store.apps[k].(status := status);
            var (after, r) := Serve(store, UpdateAppStatus(k, written), order);
            && r == GotApp(written.(rv := store.clock)) && after.apps[k := r.app] == after.apps
            && SameButStatus(store, after, k)
  {
  }

  function Begun(status: AppStatus): AppStatus {
    if status.phase == Unset then status.(phase := Pending) else status
  }

  lemma PendingRuns(store: Store, k: Key, order: seq<string>) returns (st: Store)
    requires Alive(store, k)
    ensures SameButStatus(store, st, k) && st.apps[k].status == Begun(store.apps[k].status)
    ensures Finish(store, k, AC.AfterFinalizer(store.apps[k]), order)
         == Finish(st, k, AC.AfterPending(st.apps[k]), order)
  {
    hide Finish;
    if store.apps[k].status.phase == Unset {
      var status := store.apps[k].status.(phase := Pending);
      StatusStored(store, k, status, order);
      FinishStep(store, k, AC.Pass(AC.MarkPending, AC.Phased(store.apps[k], Pending)), order);
      hide Serve, AC.AfterPending;
      st := Serve(store, UpdateAppStatus(k, store.apps[k].(status := status)), order).0;
    } else {
      st := store;
      assert store.apps[k := store.apps[k]] == store.apps;
    }
  }

  lemma FinalizerStored(store: Store, k: Key, order: seq<string>) returns (st: Store)
    requires Alive(store, k)
    ensures SameButStatus(store, st, k) && FINALIZER_APP in st.apps[k].finalizers
    ensures st.apps[k].status == store.apps[k].status
    ensures Finish(store, k, AC.Pass(AC.AddFinalizer, store.apps[k].(finalizers := store.apps[k].finalizers + {FINALIZER_APP})), order)
         == Finish(st, k, AC.AfterFinalizer(st.apps[k]), order)
  {
    hide Finish, AC.AfterFinalizer;
    FinishStep(store, k, AC.Pass(AC.AddFinalizer, store.apps[k].(finalizers := store.apps[k].finalizers + {FINALIZER_APP})), order);
    st := Serve(store, UpdateApp(k, store.apps[k].(finalizers := store.apps[k].finalizers + {FINALIZER_APP})), order).0;
  }

  /** Every pass of an app that is not being deleted makes sure of the finalizer and of a phase. */
  lemma BeginRuns(store: Store, k: Key, order: seq<string>) returns (st: Store)
    requires Alive(store, k)
    ensures SameButStatus(store, st, k) && FINALIZER_APP in st.apps[k].finalizers
    ensures st.apps[k].status == Begun(store.apps[k].status)
    ensures OnePass(store, k, order) == Finish(st, k, AC.AfterPending(st.apps[k]), order)
  {
    FinishStep(store, k, AC.NewPass, order);
    hide Finish;
    var mid := Serve(store, GetApp(k), order).0;
    assert SameButStatus(store, mid, k) && mid.apps == store.apps;
    assert OnePass(store, k, order) == Finish(mid, k, AC.AfterGet(mid.apps[k]), order);
    hide OnePass, Serve, AC.AfterFinalizer, AC.AfterPending;
    if FINALIZER_APP !in mid.apps[k].finalizers {
      var added := FinalizerStored(mid, k, order);
      SameChain(store, mid, added, k);
      st := PendingRuns(added, k, order);
      SameChain(store, added, st, k);
    } else {
      st := PendingRuns(mid, k, order);
      SameChain(store, mid, st, k);
    }
  }

  lemma DeployingRuns(store: Store, k: Key, order: seq<string>) returns (st: Store)
    requires Healthy(store, k) && store.apps[k].status.phase != Unset
    ensures SameButStatus(store, st, k) && st.apps[k].status.phase != Pending && st.apps[k].status.phase != Unset
    ensures Finish(store, k, AC.AfterPending(store.apps[k]), order)
         == Finish(st, k, AC.Pass(AC.CheckTenant, st.apps[k]), order)
  {
    hide Finish;
    if store.apps[k].status.phase == Pending {
      var status := store.apps[k].status.(phase := Deploying);
      StatusStored(store, k, status, order);
      FinishStep(store, k, AC.Pass(AC.MarkDeploying, AC.Phased(store.apps[k], Deploying)), order);
      hide Serve;
      st := Serve(store, UpdateAppStatus(k, store.apps[k].(status := status)), order).0;
    } else {
      st := store;
      assert store.apps[k := store.apps[k]] == store.apps;
    }
  }

  lemma PrologueRuns(store: Store, k: Key, order: seq<string>) returns (st: Store)
    requires Healthy(store, k)
    ensures SameButStatus(store, st, k) && FINALIZER_APP in st.apps[k].finalizers
    ensures OnePass(store, k, order) == Finish(st, k, AC.Pass(AC.CheckTenant, st.apps[k]), order)
  {
    hide OnePass, Finish, AC.AfterPending;
    var begun := BeginRuns(store, k, order);
    st := DeployingRuns(begun, k, order);
    SameChain(store, begun, st, k);
  }

  // ----- a paused app -----------------------------------------------------------------------------------------------

  /** A pass of a paused app takes its service away and leaves its mappings and its condition. */
  lemma PausedPassStops(store: Store, k: Key, order: seq<string>)
    requires Alive(store, k) && store.apps[k].spec.paused
    ensures var st := OnePass(store, k, order);
            && SameButStatus(store.(services := st.services), st, k)
            && st.services == store.services - {k}
            && FINALIZER_APP in st.apps[k].finalizers
            && st.apps[k].status == store.apps[k].status.(phase := Paused)
  {
    hide OnePass, Finish;
    var begun := BeginRuns(store, k, order);
    var status := begun.apps[k].status.(phase := Paused);
    StatusStored(begun, k, status, order);
    FinishStep(begun, k, AC.Pass(AC.MarkPaused, AC.Phased(begun.apps[k], Paused)), order);
    var marked := Serve(begun, UpdateAppStatus(k, begun.apps[k].(status := status)), order).0;
    hide Serve;
    SameChain(store, begun, marked, k);
    StopRuns(marked, k, marked.apps[k], order);
  }

  lemma StopRuns(store: Store, k: Key, app: App, order: seq<string>)
    ensures var st := Finish(store, k, AC.Pass(AC.PausedGet, app), order);
            st == store.(services := store.services - {k}, clock := st.clock)
  {
    hide Finish;
    var p := AC.Pass(AC.PausedGet, app);
    var mid := store.(clock := store.clock + 1);
    FinishStep(store, k, p, order);
    assert Serve(store, GetService(k), order).0 == mid;
    if k in store.services {
      FinishStep(mid, k, AC.Pass(AC.PausedDelete, app), order);
      DeleteServiceServed(mid, k, order);
      FinishEnds(Serve(mid, DeleteService(k), order).0, k, AC.Pass(AC.Finished, app), order);
    } else {
      assert store.services - {k} == store.services;
      FinishEnds(mid, k, AC.Pass(AC.Finished, app), order);
    }
    hide Serve;
  }

  // ----- an app that is being deleted ---------------------------------------------------------------------------------

  function KeysOf(ns: string, hosts: seq<string>): set<Key> {
    set h | h in hosts :: Key(ns, h)
  }

  lemma CleanServed(store: Store, k: Key, app: App, left: seq<string>, order: seq<string>) returns (mid: Store)
    requires left != []
    ensures mid == store.(mappings := store.mappings - {Key(k.ns, left[0])}, clock := mid.clock)
    ensures Finish(store, k, AC.ToClean(app, left), order) == Finish(mid, k, AC.ToClean(app, left[1..]), order)
  {
    AC.CleanHead(k, app, left, 0);
    assert left[0..] == left;
    FinishStep(store, k, AC.Pass(AC.CleanMapping(left[0], left[1..]), app), order);
    DeleteMappingServed(store, Key(k.ns, left[0]), order);
    hide Finish, Serve, AC.ToClean, AC.NextCall, AC.Resume;
    mid := Serve(store, DeleteMapping(Key(k.ns, left[0])), order).0;
  }

  lemma {:induction false} CleansRun(store: Store, k: Key, app: App, left: seq<string>, order: seq<string>) returns (st: Store)
    ensures st == store.(mappings := store.mappings - KeysOf(k.ns, left), clock := st.clock)
    ensures Finish(store, k, AC.ToClean(app, left), order) == Finish(st, k, AC.Pass(AC.CleanGet, app), order)
    decreases |left|
  {
    hide Finish;
    if left == [] {
      st := store;
      assert KeysOf(k.ns, left) == {};
    } else {
      var mid := CleanServed(store, k, app, left, order);
      st := CleansRun(mid, k, app, left[1..], order);
      assert KeysOf(k.ns, left) == {Key(k.ns, left[0])} + KeysOf(k.ns, left[1..]);
    }
  }

  lemma RemovalLeads(app: App)
    ensures var p := AC.Pass(AC.CleanGet, app);
            AC.AfterDelete(p) == AC.ToDrop(app) && AC.Removing(p) == AC.Pass(AC.CleanDelete, app)
  {
  }

  lemma RemovalRuns(store: Store, k: Key, app: App, order: seq<string>) returns (st: Store)
    ensures st == store.(services := store.services - {k}, clock := st.clock)
    ensures Finish(store, k, AC.Pass(AC.CleanGet, app), order) == Finish(st, k, AC.ToDrop(app), order)
  {
    hide Finish, Serve, AC.NextCall, AC.Resume, AC.ToDrop, AC.AfterDelete, AC.Removing;
    var p := AC.Pass(AC.CleanGet, app);
    var mid := store.(clock := store.clock + 1);
    AC.DeleteHeads(k, p);
    RemovalLeads(app);
    FinishStep(store, k, p, order);
    GetServiceServed(store, k, order);
    if k in store.services {
      FinishStep(mid, k, AC.Pass(AC.CleanDelete, app), order);
      DeleteServiceServed(mid, k, order);
      st := Serve(mid, DeleteService(k), order).0;
    } else {
      assert store.services - {k} == store.services;
      st := mid;
    }
  }

  /** The app without the operator's finalizer, or gone if it was the last. */
  function Released(apps: map<Key, App>, k: Key, rv: nat): map<Key, App>
    requires k in apps
  {
    var rest := apps[k].finalizers - {FINALIZER_APP};
    if rest == {} then apps - {k} else apps[k := apps[k].(rv := rv, finalizers := rest)]
  }

  lemma DropRuns(store: Store, k: Key, order: seq<string>)
    requires k in store.apps && store.apps[k].deleting
    ensures var st := Finish(store, k, AC.ToDrop(store.apps[k]), order);
            st == store.(apps := Released(store.apps, k, store.clock), clock := st.clock)
  {
    var p := AC.ToDrop(store.apps[k]);
    FinishStep(store, k, p, order);
    AppServed(store, UpdateApp(k, p.app), order);
    var (after, r) := Serve(store, UpdateApp(k, p.app), order);
    FinishEnds(after, k, AC.Resume(p, r), order);
    hide Finish, Serve;
  }

  /** A deletion pass reads the app, lists its mappings and goes on to remove them. */
  lemma DeletionBegins(store: Store, k: Key, order: seq<string>)
    requires k in store.apps && store.apps[k].deleting
    requires Enumerates(order, MappingNames(store.mappings, k.ns, k.name))
    ensures OnePass(store, k, order) == Finish(store.(clock := store.clock + 2), k, AC.ToClean(store.apps[k], order), order)
  {
    hide Finish, AC.ToClean, MappingNames, Enumerates;
    var app := store.apps[k];
    FinishStep(store, k, AC.NewPass, order);
    var s1 := store.(clock := store.clock + 1);
    assert Serve(store, GetApp(k), order) == (s1, GotApp(app));
    FinishStep(s1, k, AC.Pass(AC.CleanList, app), order);
    assert Serve(s1, ListMappings(k.ns, k.name), order) == (s1.(clock := s1.clock + 1), Listed(order));
    hide Serve;
  }

  /** One pass of an app that is being deleted removes its service and every mapping of its own, nobody else's,
      and releases the app. */
  lemma DeletionPassRemoves(store: Store, k: Key, order: seq<string>)
    requires k in store.apps && store.apps[k].deleting
    requires Enumerates(order, MappingNames(store.mappings, k.ns, k.name))
    ensures var st := OnePass(store, k, order);
            && st == store.(apps := st.apps, services := store.services - {k}, mappings := st.mappings, clock := st.clock)
            && (forall at :: at in st.mappings <==>
                  at in store.mappings && !(at.ns == k.ns && LabelledFor(store.mappings[at], k.name)))
            && (forall at | at in st.mappings :: st.mappings[at] == store.mappings[at])
            && exists rv: nat :: st.apps == Released(store.apps, k, rv)
  {
    hide Finish, OnePass, Serve, AC.ToClean, AC.ToDrop, MappingNames, Enumerates;
    var app := store.apps[k];
    DeletionBegins(store, k, order);
    var s2 := store.(clock := store.clock + 2);
    var s3 := CleansRun(s2, k, app, order, order);
    var s4 := RemovalRuns(s3, k, app, order);
    DropRuns(s4, k, order);
    OwnKeys(store, k, order);
    hide Released;
  }

  lemma OwnKeys(store: Store, k: Key, order: seq<string>)
    requires Enumerates(order, MappingNames(store.mappings, k.ns, k.name))
    ensures forall at | at in store.mappings ::
              at in KeysOf(k.ns, order) <==> at.ns == k.ns && LabelledFor(store.mappings[at], k.name)
  {
    hide NoDuplicates, LabelledFor;
    forall at | at in store.mappings
      ensures at in KeysOf(k.ns, order) <==> at.ns == k.ns && LabelledFor(store.mappings[at], k.name)
    {
      assert at == Key(at.ns, at.name);
    }
  }
}
