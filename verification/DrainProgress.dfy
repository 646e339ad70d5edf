/** Every fair run without failures reaches the teardown of a tenant that is being deleted: pass by pass, the
    tenant controller marks the apps, the app controller removes them, and the next listing is empty. */
module DrainProgress {
  import opened Options
  import opened Kube
  import opened ApiServer
  import opened Operator
  import opened DrainSafety
  import opened DrainLiveness
  import AC = AppController
  import TC = TenantController

  // ----- a pass in flight ends ----------------------------------------------------------------------------------

  ghost predicate Ongoing(s: State, n: string) {
    Sane(s) && Draining(s, n)
  }

  /** Either the teardown is reached at `i`, or the drain is still going on there. */
  ghost predicate Underway(s: State, trace: nat -> Label, n: string, i: nat) {
    Reached(At(s, trace, i), n) || Ongoing(At(s, trace, i), n)
  }

  lemma AtNext(s: State, trace: nat -> Label, i: nat)
    ensures At(s, trace, i + 1) == Step(At(s, trace, i), trace(i))
  {
    hide Step;
  }

  lemma CalmAt(s: State, trace: nat -> Label, n: string, i: nat)
    requires CalmRun(s, trace, n)
    ensures Calm(At(s, trace, i), trace(i), n)
  {
    hide At, Calm, Fair;
  }

  lemma UnderwayNext(s: State, trace: nat -> Label, n: string, i: nat)
    requires CalmRun(s, trace, n) && Ongoing(At(s, trace, i), n) && !Reached(At(s, trace, i), n)
    ensures Ongoing(At(s, trace, i + 1), n)
    ensures At(s, trace, i + 1) == Step(At(s, trace, i), trace(i))
    ensures Calm(At(s, trace, i), trace(i), n)
  {
    hide At, Step, Sane, Draining, Calm, CalmRun;
    AtNext(s, trace, i);
    CalmAt(s, trace, n, i);
    StepDrains(At(s, trace, i), trace(i), n);
    StepSane(At(s, trace, i), trace(i));
  }

  /** Idle ranks above every stage of a pass that has just begun. */
  function TenantRank(s: State, n: string): nat {
    if Idle(s, n) then 30 else TC.Stage(s.tenantPasses[n].pc)
  }

  function AppRank(s: State, k: Key): nat {
    if AppIdle(s, k) then 30 else AC.Stage(s.appPasses[k].pc)
  }

  lemma OwnTurnAdvances(s: State, l: Label, n: string)
    requires TenantMoves(l, n) && !Idle(s, n)
    ensures var t := Step(s, l);
            TenantEffort(t, n) < TenantEffort(s, n)
            || (TenantEffort(t, n) == TenantEffort(s, n) && TenantLeft(t, n) < TenantLeft(s, n))
  {
    hide TenantStep;
    TenantTurnAdvances(s, n, l.chance);
  }

  lemma OwnAppTurnAdvances(s: State, l: Label, k: Key)
    requires AppMoves(l, k) && !AppIdle(s, k)
    ensures var t := Step(s, l);
            AppEffort(t, k) < AppEffort(s, k)
            || (AppEffort(t, k) == AppEffort(s, k) && AppLeft(t, k) < AppLeft(s, k))
  {
    hide AppStep;
    AppTurnAdvances(s, k, l.chance);
  }

  lemma NextTenantTurn(s: State, trace: nat -> Label, n: string, i: nat) returns (m: nat)
    requires CalmRun(s, trace, n)
    ensures i <= m && TenantMoves(trace(m), n)
  {
    hide TenantMoves;
    assert TenantMovesAfter(trace, n, i);
    m :| i <= m && TenantMoves(trace(m), n);
  }

  lemma NextAppTurn(s: State, trace: nat -> Label, n: string, k: Key, i: nat) returns (m: nat)
    requires CalmRun(s, trace, n) && k.ns == TenantNamespace(n) && k in At(s, trace, i).store.apps
    ensures i <= m && AppMoves(trace(m), k)
  {
    hide AppMoves;
    assert AppMovesAfter(trace, k, i);
    m :| i <= m && AppMoves(trace(m), k);
  }

  /** Whatever the tenant's pass was doing, it ends, unless it gets to tear down first. */
  lemma {:induction false} TenantPassEnds(s: State, trace: nat -> Label, n: string, i: nat, m: nat) returns (j: nat)
    requires CalmRun(s, trace, n) && Underway(s, trace, n, i) && i <= m && TenantMoves(trace(m), n)
    ensures i <= j && Underway(s, trace, n, j)
    ensures Reached(At(s, trace, j), n) || Idle(At(s, trace, j), n)
    decreases TenantEffort(At(s, trace, i), n), TenantLeft(At(s, trace, i), n), m - i
  {
    hide At, Step, TenantMoves, CalmRun, Ongoing, Calm, Reached, Idle, TenantEffort, TenantLeft;
    var now, l := At(s, trace, i), trace(i);
    if Reached(now, n) || Idle(now, n) {
      j := i;
    } else {
      UnderwayNext(s, trace, n, i);
      if TenantMoves(l, n) {
        OwnTurnAdvances(now, l, n);
        var next := NextTenantTurn(s, trace, n, i + 1);
        j := TenantPassEnds(s, trace, n, i + 1, next);
      } else {
        TenantUnmoved(now, l, n);
        j := TenantPassEnds(s, trace, n, i + 1, m);
      }
    }
  }

  lemma TenantUnmoved(s: State, l: Label, n: string)
    requires Ongoing(s, n) && Calm(s, l, n) && !TenantMoves(l, n)
    ensures var t := Step(s, l);
            && Find(t.tenantPasses, n) == Find(s.tenantPasses, n)
            && Find(t.store.tenants, n) == Find(s.store.tenants, n)
            && Idle(t, n) == Idle(s, n) && TenantRank(t, n) == TenantRank(s, n)
            && TenantEffort(t, n) == TenantEffort(s, n) && TenantLeft(t, n) == TenantLeft(s, n)
  {
    TenantFrame(s, l, n);
    hide Step;
    assert Find(Step(s, l).tenantPasses, n) == Find(s.tenantPasses, n);
  }

  lemma AppUnmoved(s: State, l: Label, n: string, k: Key)
    requires Ongoing(s, n) && Calm(s, l, n) && !AppMoves(l, k) && k.ns == TenantNamespace(n)
    ensures var t := Step(s, l);
            && Find(t.appPasses, k) == Find(s.appPasses, k)
            && (k in s.store.apps && s.store.apps[k].deleting ==> Find(t.store.apps, k) == Find(s.store.apps, k))
            && (k !in s.store.apps ==> k !in t.store.apps)
            && AppIdle(t, k) == AppIdle(s, k) && AppRank(t, k) == AppRank(s, k)
            && AppEffort(t, k) == AppEffort(s, k) && AppLeft(t, k) == AppLeft(s, k)
  {
    AppFrame(s, l, n, k);
    hide Step;
    assert Find(Step(s, l).appPasses, k) == Find(s.appPasses, k);
  }

  lemma {:induction false} AppPassEnds(s: State, trace: nat -> Label, n: string, k: Key, i: nat, m: nat) returns (j: nat)
    requires CalmRun(s, trace, n) && Underway(s, trace, n, i) && i <= m
    requires AppMoves(trace(m), k) && k.ns == TenantNamespace(n)
    ensures i <= j && Underway(s, trace, n, j)
    ensures Reached(At(s, trace, j), n) || AppIdle(At(s, trace, j), k) || k !in At(s, trace, j).store.apps
    decreases AppEffort(At(s, trace, i), k), AppLeft(At(s, trace, i), k), m - i
  {
    hide At, Step, AppMoves, CalmRun, Ongoing, Calm, Reached, AppIdle, AppEffort, AppLeft;
    var now, l := At(s, trace, i), trace(i);
    if Reached(now, n) || AppIdle(now, k) {
      j := i;
    } else {
      UnderwayNext(s, trace, n, i);
      if AppMoves(l, k) {
        OwnAppTurnAdvances(now, l, k);
        if k !in At(s, trace, i + 1).store.apps {
          j := i + 1;
        } else {
          var next := NextAppTurn(s, trace, n, k, i + 1);
          j := AppPassEnds(s, trace, n, k, i + 1, next);
        }
      } else {
        AppUnmoved(now, l, n, k);
        j := AppPassEnds(s, trace, n, k, i + 1, m);
      }
    }
  }

  // ----- one tenant pass marks every app --------------------------------------------------------------------------

  /** A deletion pass that began after the mark: its copy is current, and every unmarked app is on its list. */
  ghost predicate Marking(s: State, n: string) {
    && n in s.store.tenants && s.store.tenants[n].deleting
    && (!Idle(s, n) ==>
          var p := s.tenantPasses[n];
          && (p.pc.Get? || p.pc.MarkDeleting? || p.pc.DrainList? || p.pc.DrainApp?)
          && (p.pc.MarkDeleting? ==> p.tenant.rv == s.store.tenants[n].rv)
          && (p.pc.DrainApp? ==> OnList(s.store.apps, TenantNamespace(n), [p.pc.app] + p.pc.left)))
  }

  ghost predicate OnList(apps: map<Key, App>, ns: string, names: seq<string>) {
    forall k | k in apps && k.ns == ns && !apps[k].deleting :: k.name in names
  }

  ghost predicate NotDraining(s: State, n: string) {
    Idle(s, n) || !s.tenantPasses[n].pc.DrainApp?
  }

  /** Where the pass stands after a turn of its own: the list shrinks, and when it is empty all are marked. */
  ghost predicate MarkedOrCloser(s: State, t: State, n: string) {
    || Reached(t, n)
    || (AllMarked(t, n) && !NoApps(s.store, TenantNamespace(n)))
    || (Marking(t, n)
        && (NoApps(s.store, TenantNamespace(n)) ==> NotDraining(t, n))
        && (TenantRank(t, n) < TenantRank(s, n)
            || (TenantRank(t, n) == TenantRank(s, n) && TenantLeft(t, n) < TenantLeft(s, n))))
  }

  lemma GetTurn(s: State, l: Label, n: string)
    requires Marking(s, n) && Calm(s, l, n) && TenantMoves(l, n) && (Idle(s, n) || s.tenantPasses[n].pc.Get?)
    ensures MarkedOrCloser(s, Step(s, l), n)
  {
    hide OnList;
  }

  lemma MarkTurn(s: State, l: Label, n: string)
    requires Marking(s, n) && Calm(s, l, n) && TenantMoves(l, n) && !Idle(s, n) && s.tenantPasses[n].pc.MarkDeleting?
    ensures MarkedOrCloser(s, Step(s, l), n)
  {
    hide OnList, NoApps, AllMarked;
  }

  lemma ListedCovers(store: Store, ns: string, order: seq<string>)
    ensures Listing(order, AppNames(store.apps, ns)).Listed? ==> OnList(store.apps, ns, order)
    ensures Listing(order, AppNames(store.apps, ns)).Listed? ==> (order == [] <==> NoApps(store, ns))
  {
    forall k | k in store.apps && k.ns == ns
      ensures k.name in AppNames(store.apps, ns)
    {
    }
    if order != [] && Enumerates(order, AppNames(store.apps, ns)) {
      assert order[0] in AppNames(store.apps, ns);
    }
  }

  lemma ListTurn(s: State, l: Label, n: string)
    requires Marking(s, n) && Calm(s, l, n) && TenantMoves(l, n) && !Idle(s, n) && s.tenantPasses[n].pc.DrainList?
    ensures MarkedOrCloser(s, Step(s, l), n)
  {
    var ns, p, names := TenantNamespace(n), s.tenantPasses[n], l.chance.order;
    ListedCovers(s.store, ns, names);
    AppsListed(s.store, ns, l.chance);
    TC.DrainListHead(n, p.tenant, s.quantities);
    TenantTurnTaken(s, n, l.chance);
    hide OnList, AppNames, NoApps, AllMarked, TenantNamespace, Deliver, TC.NextCall, TC.Resume, TenantStep;
    assert Listing(names, AppNames(s.store.apps, ns)) == Listed(names);
    hide Listing;
    if names != [] {
      assert [names[0]] + names[1..] == names;
    }
  }

  lemma DeleteMarks(apps: map<Key, App>, rv: nat, ns: string, app: string, left: seq<string>)
    requires OnList(apps, ns, [app] + left)
    ensures OnList(ServeApp(apps, rv, Call.DeleteApp(Key(ns, app))).0, ns, left)
  {
    var after := ServeApp(apps, rv, Call.DeleteApp(Key(ns, app))).0;
    forall k: Key | k in after && k.ns == ns && !after[k].deleting
      ensures k.name in left
    {
      assert k in apps && !apps[k].deleting;
      assert k.name in [app] + left;
      assert k == Key(ns, k.name);
    }
  }

  lemma DrainTurn(s: State, l: Label, n: string)
    requires Marking(s, n) && Calm(s, l, n) && TenantMoves(l, n) && !Idle(s, n) && s.tenantPasses[n].pc.DrainApp?
    requires !NoApps(s.store, TenantNamespace(n))
    ensures MarkedOrCloser(s, Step(s, l), n)
  {
    hide NoApps, TenantNamespace, OnList;
    var p := s.tenantPasses[n];
    var ns := TenantNamespace(n);
    DeleteMarks(s.store.apps, s.store.clock, ns, p.pc.app, p.pc.left);
    AppServed(s.store, Call.DeleteApp(Key(ns, p.pc.app)), l.chance.order);
    var t := Step(s, l);
    hide Serve, NoApps, TenantNamespace;
    assert t.store.apps == ServeApp(s.store.apps, s.store.clock, Call.DeleteApp(Key(ns, p.pc.app))).0;
    assert t.store.tenants == s.store.tenants;
    hide ServeApp;
    if p.pc.left == [] {
      assert AllMarked(t, n);
    } else {
      assert [p.pc.left[0]] + p.pc.left[1..] == p.pc.left;
      hide OnList;
    }
  }

  lemma MarkingTurn(s: State, l: Label, n: string)
    requires Marking(s, n) && Calm(s, l, n) && TenantMoves(l, n)
    requires NoApps(s.store, TenantNamespace(n)) ==> NotDraining(s, n)
    ensures MarkedOrCloser(s, Step(s, l), n)
  {
    hide MarkedOrCloser, Step, Calm, NoApps;
    if Idle(s, n) || s.tenantPasses[n].pc.Get? {
      GetTurn(s, l, n);
    } else if s.tenantPasses[n].pc.MarkDeleting? {
      MarkTurn(s, l, n);
    } else if s.tenantPasses[n].pc.DrainList? {
      ListTurn(s, l, n);
    } else {
      DrainTurn(s, l, n);
    }
  }

  lemma MarkingUnmoved(s: State, l: Label, n: string)
    requires Marking(s, n) && Ongoing(s, n) && Calm(s, l, n) && !TenantMoves(l, n)
    ensures Marking(Step(s, l), n)
  {
    hide OnList, Step;
    TenantUnmoved(s, l, n);
    var t := Step(s, l);
    assert Find(t.tenantPasses, n) == Find(s.tenantPasses, n);
    assert Find(t.store.tenants, n) == Find(s.store.tenants, n);
    if !Idle(s, n) && s.tenantPasses[n].pc.DrainApp? {
      NamespaceOnlyFewer(s, l, n);
      OnListStaysIn(s.store.apps, t.store.apps, TenantNamespace(n), [s.tenantPasses[n].pc.app] + s.tenantPasses[n].pc.left);
    }
  }

  /** In the namespace of a calm drain, apps are only marked and removed. */
  ghost predicate OnlyFewerIn(a: map<Key, App>, b: map<Key, App>, ns: string) {
    forall k | k in b && k.ns == ns :: k in a && (a[k].deleting ==> b[k].deleting)
  }

  lemma OnListStaysIn(a: map<Key, App>, b: map<Key, App>, ns: string, names: seq<string>)
    requires OnList(a, ns, names) && OnlyFewerIn(a, b, ns)
    ensures OnList(b, ns, names)
  {
  }

  lemma NamespaceOnlyFewer(s: State, l: Label, n: string)
    requires Calm(s, l, n)
    ensures OnlyFewerIn(s.store.apps, Step(s, l).store.apps, TenantNamespace(n))
  {
    if !l.CreateApp? {
      StepsOnlyFewer(s, l);
      hide Step;
    }
  }

  lemma MarkedStays(s: State, l: Label, n: string)
    requires Calm(s, l, n)
    ensures AllMarked(s, n) ==> AllMarked(Step(s, l), n)
    ensures NoApps(s.store, TenantNamespace(n)) ==> NoApps(Step(s, l).store, TenantNamespace(n))
  {
    NamespaceOnlyFewer(s, l, n);
    hide Step;
  }

  /** From an idle tenant controller the next pass marks every app, or finds none and tears down. */
  lemma {:induction false} PassMarksAll(s: State, trace: nat -> Label, n: string, i: nat, m: nat) returns (j: nat)
    requires CalmRun(s, trace, n) && Underway(s, trace, n, i) && i <= m && TenantMoves(trace(m), n)
    requires Marking(At(s, trace, i), n)
    requires NoApps(At(s, trace, i).store, TenantNamespace(n)) ==> NotDraining(At(s, trace, i), n)
    ensures i <= j && Underway(s, trace, n, j)
    ensures Reached(At(s, trace, j), n)
            || (AllMarked(At(s, trace, j), n) && !NoApps(At(s, trace, i).store, TenantNamespace(n)))
    decreases TenantRank(At(s, trace, i), n), TenantLeft(At(s, trace, i), n), m - i
  {
    hide At, Step, TenantMoves, CalmRun, Ongoing, Calm;
    hide Reached, NoApps, AllMarked, Marking, TenantRank, TenantLeft, NotDraining;
    var now, l := At(s, trace, i), trace(i);
    if Reached(now, n) {
      j := i;
    } else {
      UnderwayNext(s, trace, n, i);
      MarkedStays(now, l, n);
      var next := At(s, trace, i + 1);
      if TenantMoves(l, n) {
        MarkingTurn(now, l, n);
        if Reached(next, n) || (AllMarked(next, n) && !NoApps(now.store, TenantNamespace(n))) {
          j := i + 1;
        } else if NoApps(next.store, TenantNamespace(n)) && !NoApps(now.store, TenantNamespace(n)) {
          NoAppsAllMarked(next, n);
          assert false;
        } else {
          var turn := NextTenantTurn(s, trace, n, i + 1);
          j := PassMarksAll(s, trace, n, i + 1, turn);
        }
      } else {
        MarkingUnmoved(now, l, n);
        TenantUnmoved(now, l, n);
        if NoApps(next.store, TenantNamespace(n)) && !NoApps(now.store, TenantNamespace(n)) {
          NoAppsAllMarked(next, n);
          j := i + 1;
        } else {
          if NotDraining(now, n) {
            NotDrainingUnmoved(now, l, n);
          }
          j := PassMarksAll(s, trace, n, i + 1, m);
        }
      }
    }
  }

  lemma NoAppsAllMarked(s: State, n: string)
    requires NoApps(s.store, TenantNamespace(n))
    ensures AllMarked(s, n)
  {
  }

  lemma NotDrainingUnmoved(s: State, l: Label, n: string)
    requires Ongoing(s, n) && Calm(s, l, n) && !TenantMoves(l, n) && NotDraining(s, n)
    ensures NotDraining(Step(s, l), n)
  {
    TenantUnmoved(s, l, n);
    hide Step;
    assert Find(Step(s, l).tenantPasses, n) == Find(s.tenantPasses, n);
  }

  // ----- one app pass removes a marked app --------------------------------------------------------------------------

  /** A deletion pass of a marked app whose copy is current. */
  ghost predicate Removing(s: State, k: Key) {
    && k in s.store.apps && s.store.apps[k].deleting
    && (!AppIdle(s, k) ==>
          var p := s.appPasses[k];
          || p.pc.Get?
          || (AC.Cleaning(p.pc) && p.app == s.store.apps[k])
          || (p.pc.DropFinalizer? && p.app == AC.ToDrop(s.store.apps[k]).app))
  }

  ghost predicate GoneOrCloser(s: State, t: State, k: Key) {
    || k !in t.store.apps
    || (Removing(t, k)
        && (AppRank(t, k) < AppRank(s, k) || (AppRank(t, k) == AppRank(s, k) && AppLeft(t, k) < AppLeft(s, k))))
  }

  lemma RemovingBegins(s: State, l: Label, n: string, k: Key)
    requires Removing(s, k) && Calm(s, l, n) && AppMoves(l, k) && k.ns == TenantNamespace(n)
    requires AppIdle(s, k) || s.appPasses[k].pc.Get?
    ensures GoneOrCloser(s, Step(s, l), k)
  {
  }

  /** Every answer of a cleaning pass leads to the next cleaning call or to dropping the finalizer. */
  lemma CleaningResumes(p: AC.Pass, r: Response)
    requires AC.Cleaning(p.pc)
    ensures var q := AC.Resume(p, r);
            (AC.Cleaning(q.pc) && q.app == p.app) || (q.pc.DropFinalizer? && q.app == AC.ToDrop(p.app).app)
  {
  }

  lemma CleaningWritesNoApp(k: Key, p: AC.Pass)
    requires AC.Cleaning(p.pc)
    ensures !WritesApp(AC.NextCall(k, p))
  {
  }

  lemma RemovingCleans(s: State, l: Label, n: string, k: Key)
    requires Removing(s, k) && Calm(s, l, n) && AppMoves(l, k) && k.ns == TenantNamespace(n)
    requires !AppIdle(s, k) && AC.Cleaning(s.appPasses[k].pc)
    ensures GoneOrCloser(s, Step(s, l), k)
  {
    var p := s.appPasses[k];
    var call := AC.NextCall(k, p);
    CleaningWritesNoApp(k, p);
    DeliverTouches(s.store, call, l.chance);
    CleaningResumes(p, Deliver(s.store, call, l.chance).1);
    AC.ResumeAdvances(p, Deliver(s.store, call, l.chance).1);
    hide Deliver, AC.NextCall, AC.Resume;
  }

  lemma RemovingDrops(s: State, l: Label, n: string, k: Key)
    requires Removing(s, k) && Ongoing(s, n) && Calm(s, l, n) && AppMoves(l, k) && k.ns == TenantNamespace(n)
    requires !AppIdle(s, k) && s.appPasses[k].pc.DropFinalizer?
    ensures GoneOrCloser(s, Step(s, l), k)
  {
    var p := s.appPasses[k];
    AppTurnTaken(s, k, l.chance);
    assert AC.NextCall(k, p) == UpdateApp(k, p.app);
    AppServed(s.store, UpdateApp(k, p.app), l.chance.order);
    hide AppStep, Serve, AC.NextCall, AC.Resume, Sane;
    assert s.store.apps[k].finalizers - {FINALIZER_APP} == {};
    assert Step(s, l).store.apps == s.store.apps - {k};
  }

  lemma RemovingTurn(s: State, l: Label, n: string, k: Key)
    requires Removing(s, k) && Ongoing(s, n) && Calm(s, l, n) && AppMoves(l, k) && k.ns == TenantNamespace(n)
    ensures GoneOrCloser(s, Step(s, l), k)
  {
    hide GoneOrCloser, Step, Calm, Ongoing;
    if AppIdle(s, k) || s.appPasses[k].pc.Get? {
      RemovingBegins(s, l, n, k);
    } else if s.appPasses[k].pc.DropFinalizer? {
      RemovingDrops(s, l, n, k);
    } else {
      RemovingCleans(s, l, n, k);
    }
  }

  lemma RemovingUnmoved(s: State, l: Label, n: string, k: Key)
    requires Removing(s, k) && Ongoing(s, n) && Calm(s, l, n) && !AppMoves(l, k) && k.ns == TenantNamespace(n)
    ensures Removing(Step(s, l), k)
  {
    hide Step;
    AppUnmoved(s, l, n, k);
    var t := Step(s, l);
    assert Find(t.appPasses, k) == Find(s.appPasses, k);
    assert Find(t.store.apps, k) == Find(s.store.apps, k);
  }

  lemma {:induction false} AppGoes(s: State, trace: nat -> Label, n: string, k: Key, i: nat, m: nat) returns (j: nat)
    requires CalmRun(s, trace, n) && Underway(s, trace, n, i) && i <= m
    requires AppMoves(trace(m), k) && k.ns == TenantNamespace(n)
    requires Removing(At(s, trace, i), k)
    ensures i <= j && Underway(s, trace, n, j)
    ensures Reached(At(s, trace, j), n) || k !in At(s, trace, j).store.apps
    decreases AppRank(At(s, trace, i), k), AppLeft(At(s, trace, i), k), m - i
  {
    hide At, Step, AppMoves, CalmRun, Ongoing, Calm, Reached, Removing, AppIdle, AppRank, AppLeft;
    var now, l := At(s, trace, i), trace(i);
    if Reached(now, n) {
      j := i;
    } else {
      UnderwayNext(s, trace, n, i);
      if AppMoves(l, k) {
        RemovingTurn(now, l, n, k);
        if k !in At(s, trace, i + 1).store.apps {
          j := i + 1;
        } else {
          var turn := NextAppTurn(s, trace, n, k, i + 1);
          j := AppGoes(s, trace, n, k, i + 1, turn);
        }
      } else {
        RemovingUnmoved(now, l, n, k);
        AppUnmoved(now, l, n, k);
        j := AppGoes(s, trace, n, k, i + 1, m);
      }
    }
  }

  // ----- the teardown is reached ------------------------------------------------------------------------------------

  /** Over a whole calm run both components of the pair only fall. */
  lemma {:induction false} RunNeverRises(s: State, trace: nat -> Label, n: string, i: nat, j: nat)
    requires CalmRun(s, trace, n) && i <= j
    ensures Unmarked(At(s, trace, j).store, TenantNamespace(n)) <= Unmarked(At(s, trace, i).store, TenantNamespace(n))
    ensures Present(At(s, trace, j).store, TenantNamespace(n)) <= Present(At(s, trace, i).store, TenantNamespace(n))
    decreases j - i
  {
    hide At, Step, CalmRun, Unmarked, Present;
    if i < j {
      RunNeverRises(s, trace, n, i, j - 1);
      AtNext(s, trace, j - 1);
      CalmAt(s, trace, n, j - 1);
      DrainNeverRises(At(s, trace, j - 1), trace(j - 1), TenantNamespace(n));
    }
  }

  lemma MarkedMeansNoneUnmarked(s: State, n: string)
    ensures AllMarked(s, n) <==> Unmarked(s.store, TenantNamespace(n)) == {}
    ensures NoApps(s.store, TenantNamespace(n)) <==> Present(s.store, TenantNamespace(n)) == {}
  {
    if !AllMarked(s, n) {
      var k :| k in s.store.apps && k.ns == TenantNamespace(n) && !s.store.apps[k].deleting;
      assert k in Unmarked(s.store, TenantNamespace(n));
    }
    if !NoApps(s.store, TenantNamespace(n)) {
      var k :| k in s.store.apps && k.ns == TenantNamespace(n);
      assert k in Present(s.store, TenantNamespace(n));
    }
  }

  lemma StaysMarked(s: State, trace: nat -> Label, n: string, i: nat, j: nat)
    requires CalmRun(s, trace, n) && i <= j
    ensures AllMarked(At(s, trace, i), n) ==> AllMarked(At(s, trace, j), n)
    ensures NoApps(At(s, trace, i).store, TenantNamespace(n)) ==> NoApps(At(s, trace, j).store, TenantNamespace(n))
  {
    hide At, CalmRun, AllMarked, NoApps, Unmarked, Present;
    RunNeverRises(s, trace, n, i, j);
    MarkedMeansNoneUnmarked(At(s, trace, i), n);
    MarkedMeansNoneUnmarked(At(s, trace, j), n);
  }

  /** A marked app goes away. */
  lemma MarkedAppGoes(s: State, trace: nat -> Label, n: string, k: Key, i: nat) returns (j: nat)
    requires CalmRun(s, trace, n) && Underway(s, trace, n, i)
    requires k.ns == TenantNamespace(n) && k in At(s, trace, i).store.apps && AllMarked(At(s, trace, i), n)
    ensures i <= j && Underway(s, trace, n, j)
    ensures Reached(At(s, trace, j), n) || k !in At(s, trace, j).store.apps
  {
    hide At, CalmRun, Ongoing, Reached;
    var turn := NextAppTurn(s, trace, n, k, i);
    j := AppPassEnds(s, trace, n, k, i, turn);
    StaysMarked(s, trace, n, i, j);
    if !Reached(At(s, trace, j), n) && k in At(s, trace, j).store.apps {
      turn := NextAppTurn(s, trace, n, k, j);
      j := AppGoes(s, trace, n, k, j, turn);
    }
  }

  lemma {:induction false} AllGo(s: State, trace: nat -> Label, n: string, i: nat) returns (j: nat)
    requires CalmRun(s, trace, n) && Underway(s, trace, n, i) && AllMarked(At(s, trace, i), n)
    ensures i <= j && Underway(s, trace, n, j)
    ensures Reached(At(s, trace, j), n) || NoApps(At(s, trace, j).store, TenantNamespace(n))
    decreases |Present(At(s, trace, i).store, TenantNamespace(n))|
  {
    hide At, CalmRun, Underway, Reached, AllMarked;
    var here := Present(At(s, trace, i).store, TenantNamespace(n));
    MarkedMeansNoneUnmarked(At(s, trace, i), n);
    if here == {} || Reached(At(s, trace, i), n) {
      j := i;
    } else {
      var k :| k in here;
      j := MarkedAppGoes(s, trace, n, k, i);
      if !Reached(At(s, trace, j), n) {
        StaysMarked(s, trace, n, i, j);
        RunNeverRises(s, trace, n, i, j);
        Shrinks(Present(At(s, trace, j).store, TenantNamespace(n)), here);
        var i' := j;
        j := AllGo(s, trace, n, i');
      }
    }
  }

  /** An idle tenant controller whose tenant is marked is about to begin a marking pass. */
  lemma IdleIsMarking(s: State, n: string)
    requires Ongoing(s, n) && Idle(s, n)
    ensures Marking(s, n) && NotDraining(s, n)
  {
  }

  /** From any point of the drain the tenant controller gets to list apps once more: either the teardown is
      reached, or every app is marked and there were some. */
  lemma NextPassMarks(s: State, trace: nat -> Label, n: string, i: nat) returns (j: nat)
    requires CalmRun(s, trace, n) && Underway(s, trace, n, i)
    ensures i <= j && Underway(s, trace, n, j)
    ensures Reached(At(s, trace, j), n)
            || (AllMarked(At(s, trace, j), n) && !NoApps(At(s, trace, i).store, TenantNamespace(n)))
  {
    hide At, CalmRun, Ongoing, Reached, AllMarked, NoApps, Marking, NotDraining, Idle;
    var turn := NextTenantTurn(s, trace, n, i);
    j := TenantPassEnds(s, trace, n, i, turn);
    if !Reached(At(s, trace, j), n) {
      StaysMarked(s, trace, n, i, j);
      IdleIsMarking(At(s, trace, j), n);
      turn := NextTenantTurn(s, trace, n, j);
      j := PassMarksAll(s, trace, n, j, turn);
    }
  }

  lemma TeardownComes(s: State, trace: nat -> Label, n: string, i: nat) returns (j: nat)
    requires CalmRun(s, trace, n) && Underway(s, trace, n, i)
    ensures i <= j && Reached(At(s, trace, j), n)
  {
    hide At, CalmRun, Sane, Draining, Reached, AllMarked, NoApps;
    j := NextPassMarks(s, trace, n, i);
    if !Reached(At(s, trace, j), n) {
      j := AllGo(s, trace, n, j);
      if !Reached(At(s, trace, j), n) {
        j := NextPassMarks(s, trace, n, j);
      }
    }
  }

  /** Every fair run without failures, from any point of a drain, reaches the teardown. */
  lemma DrainReachesTeardown(s: State, trace: nat -> Label, n: string)
    requires Sane(s) && Draining(s, n) && CalmRun(s, trace, n)
    ensures exists j: nat :: Reached(At(s, trace, j), n)
  {
    assert At(s, trace, 0) == s;
    hide At, CalmRun, Sane, Draining, Reached;
    var j := TeardownComes(s, trace, n, 0);
    assert Reached(At(s, trace, j), n);
  }

  /** What the drain takes for granted of the cluster holds in every reachable state if it held at first. */
  lemma {:induction false} RunStaysSane(s: State, labels: seq<Label>)
    requires Sane(s)
    ensures Sane(Run(s, labels))
  {
    if labels == [] {
    } else {
      hide Sane, Step;
      RunStaysSane(s, labels[..|labels| - 1]);
      StepSane(Run(s, labels[..|labels| - 1]), labels[|labels| - 1]);
    }
  }

  /** The two halves together: after any history whatever, failures included, a drain that goes on fairly and
      without failures reaches a teardown, and finds nothing left, neither app nor anything made for one,
      unless the listing or a cleanup call had failed, or an app came late. */
  lemma DrainEndsEmpty(s: State, labels: seq<Label>, trace: nat -> Label, n: string) returns (j: nat)
    requires Initial(s) && Sane(s)
    requires Draining(Run(s, labels), n) && CalmRun(Run(s, labels), trace, n)
    ensures var t := At(Run(s, labels), trace, j);
            && Reached(t, n)
            && (n !in t.failedListing && n !in t.lateApps ==> Deserted(t, n))
  {
    hide Initial, Run, Draining, CalmRun, Deserted, Sane;
    var origin := Run(s, labels);
    RunStaysSane(s, labels);
    DrainReachesTeardown(origin, trace, n);
    assert exists i: nat :: Reached(At(origin, trace, i), n);
    j :| Reached(At(origin, trace, j), n);
    var rest := Prefix(trace, j);
    PrefixRuns(origin, trace, j);
    RunConcat(s, labels, rest);
    RunFindsNothing(s, labels + rest, n);
  }

  function Prefix(trace: nat -> Label, j: nat): seq<Label> {
    if j == 0 then [] else Prefix(trace, j - 1) + [trace(j - 1)]
  }

  lemma {:induction false} PrefixRuns(s: State, trace: nat -> Label, j: nat)
    ensures Run(s, Prefix(trace, j)) == At(s, trace, j)
  {
    hide Step;
    if j > 0 {
      PrefixRuns(s, trace, j - 1);
      var labels := Prefix(trace, j);
      assert labels[..|labels| - 1] == Prefix(trace, j - 1);
    }
  }
}
