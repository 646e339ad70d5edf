/** What holds at every stage of an app's pass while its own calls are answered and the others leave its objects alone,
    whatever else goes on in the cluster, and what each of its turns brings on. */
module AppStages {
  import opened Options
  import opened Kube
  import opened ApiServer
  import opened Operator
  import opened SoloPass
  import opened AppConvergence
  import opened DomainConvergence
  import CL = Client
  import DL = DrainLiveness
  import AC = AppController

  // ----- quiet runs ---------------------------------------------------------------------------------------------

  /** The host is one the app wants or has. */
  ghost predicate Concerns(store: Store, k: Key, host: string) {
    host in Owned(store, k) || (k in store.apps && host in Wanted(store, k))
  }

  /** The app, its service, its tenant's existence and the mappings that concern it are as they were. */
  ghost predicate LeavesAlone(a: Store, b: Store, k: Key) {
    && Find(b.apps, k) == Find(a.apps, k) && Find(b.services, k) == Find(a.services, k)
    && (k in a.apps && a.apps[k].spec.tenantRef in a.tenants ==> a.apps[k].spec.tenantRef in b.tenants)
    && (forall h | Concerns(a, k, h) || Concerns(b, k, h) ::
          Find(b.mappings, Key(k.ns, h)) == Find(a.mappings, Key(k.ns, h)))
  }

  /** The app's own calls are answered, its pass is not abandoned, and the others leave its objects alone. */
  ghost predicate Quiet(s: State, l: Label, k: Key) {
    if DL.AppMoves(l, k) then
      !AppIdle(s, k) ==>
        l.chance.fault == NoFault && !Deliver(s.store, AC.NextCall(k, s.appPasses[k]), l.chance).1.Error?
    else
      !(l.AppCrash? && l.key == k) && LeavesAlone(s.store, Step(s, l).store, k)
  }

  ghost predicate QuietRun(s: State, trace: nat -> Label, k: Key) {
    && (forall i: nat :: DL.AppMovesAfter(trace, k, i))
    && (forall i: nat :: Quiet(DL.At(s, trace, i), trace(i), k))
  }

  // ----- what holds at every stage of a pass --------------------------------------------------------------------

  ghost predicate ServiceOk(store: Store, k: Key)
    requires k in store.apps
  {
    k in store.services && AC.Renders(store.services[k].spec, store.apps[k].spec)
  }

  /** The stale hosts still to go are owned and unwanted, and the missing ones are those wanted and not owned. */
  ghost predicate DeletesLeft(store: Store, k: Key, stale: seq<string>, missing: seq<string>)
    requires k in store.apps
  {
    && NoDuplicates(stale)
    && (forall h | h in stale :: h in Owned(store, k) && h !in Wanted(store, k))
    && (forall h | h in Owned(store, k) :: h in Wanted(store, k) || h in stale)
    && (forall h :: h in missing <==> h in Wanted(store, k) && h !in Owned(store, k))
  }

  /** Nothing stale is left, and what is not owned yet is still to be made. */
  ghost predicate CreatesLeft(store: Store, k: Key, missing: seq<string>)
    requires k in store.apps
  {
    && (forall h | h in Owned(store, k) :: h in Wanted(store, k))
    && (forall h | h in Wanted(store, k) :: h in Owned(store, k) || h in missing)
    && (forall h | h in missing :: h in Wanted(store, k))
  }

  ghost predicate StageFits(store: Store, k: Key, pc: AC.Pc)
    requires k in store.apps
  {
    match pc
    case Get => true
    case AddFinalizer => true
    case MarkPending => true
    case MarkDeploying => true
    case CheckTenant => true
    case ServiceGet => true
    case FailureWrite => true
    case ServiceCreate => k !in store.services
    case ServiceUpdate(existing) => k in store.services && store.services[k] == existing
    case MappingList => ServiceOk(store, k)
    case MappingDelete(host, stale, missing) => ServiceOk(store, k) && DeletesLeft(store, k, [host] + stale, missing)
    case MappingCreate(host, missing) => ServiceOk(store, k) && CreatesLeft(store, k, [host] + missing)
    case StatusRead => Matches(store, k)
    case StatusWrite => Matches(store, k)
    case _ => false
  }

  predicate CopyFits(store: Store, k: Key, p: AC.Pass)
    requires k in store.apps
  {
    !p.pc.Get? ==> p.app.rv == store.apps[k].rv && p.app.spec == store.apps[k].spec && !p.app.deleting
  }

  /** The app is healthy, nobody else maps a host it wants, and the pass in flight, if any, works on what is stored. */
  ghost predicate Good(s: State, k: Key) {
    && Healthy(s.store, k) && NoForeign(s.store, k)
    && (!AppIdle(s, k) ==> StageFits(s.store, k, s.appPasses[k].pc) && CopyFits(s.store, k, s.appPasses[k]))
  }

  // ----- the others ---------------------------------------------------------------------------------------------

  lemma LeftAloneOwned(a: Store, b: Store, k: Key)
    requires LeavesAlone(a, b, k)
    ensures Owned(b, k) == Owned(a, k)
  {
    hide LabelledFor;
    forall h
      ensures h in Owned(b, k) <==> h in Owned(a, k)
    {
      OwnedAt(a, k, h);
      OwnedAt(b, k, h);
      if Concerns(a, k, h) || Concerns(b, k, h) {
        assert Find(b.mappings, Key(k.ns, h)) == Find(a.mappings, Key(k.ns, h));
      }
    }
  }

  lemma LeftAloneForeign(a: Store, b: Store, k: Key)
    requires LeavesAlone(a, b, k) && k in a.apps && NoForeign(a, k)
    ensures k in b.apps && NoForeign(b, k)
  {
    LeftAloneOwned(a, b, k);
    hide Owned;
    forall h | h in Wanted(b, k) && h in Hosts(b.mappings, k.ns)
      ensures h in Owned(b, k)
    {
      assert Concerns(a, k, h);
      assert Find(b.mappings, Key(k.ns, h)) == Find(a.mappings, Key(k.ns, h));
      HostsAt(a.mappings, k.ns, h);
      HostsAt(b.mappings, k.ns, h);
    }
  }

  /** The view of the app that its passes depend on. */
  ghost predicate SameView(a: Store, b: Store, k: Key)
    requires k in a.apps && k in b.apps
  {
    && b.apps[k].spec == a.apps[k].spec && Find(b.services, k) == Find(a.services, k) && Owned(b, k) == Owned(a, k)
  }

  lemma SameViewFits(a: Store, b: Store, k: Key, pc: AC.Pc)
    requires k in a.apps && k in b.apps && SameView(a, b, k)
    ensures StageFits(b, k, pc) == StageFits(a, k, pc) && Matches(b, k) == Matches(a, k)
    ensures MissingHosts(b, k) == MissingHosts(a, k) && ServiceOk(b, k) == ServiceOk(a, k)
  {
    hide Owned, AC.DesiredServiceSpec, AC.Renders, NoDuplicates;
    assert Wanted(b, k) == Wanted(a, k);
  }

  /** Where the app goes on as it was. */
  ghost predicate GoesOn(s: State, t: State, k: Key) {
    && Good(s, k) && Good(t, k) && t.store.apps[k].spec == s.store.apps[k].spec
    && MissingHosts(t.store, k) <= MissingHosts(s.store, k)
    && (Matches(s.store, k) ==> Matches(t.store, k))
  }

  lemma OthersGoOn(s: State, l: Label, k: Key)
    requires Good(s, k) && Quiet(s, l, k) && !DL.AppMoves(l, k)
    ensures var t := Step(s, l);
            && GoesOn(s, t, k) && Find(t.appPasses, k) == Find(s.appPasses, k)
            && MissingHosts(t.store, k) == MissingHosts(s.store, k) && Owned(t.store, k) == Owned(s.store, k)
  {
    var t := Step(s, l);
    CL.OthersLeaveAppPass(s, l, k);
    hide Step;
    LeftAloneOwned(s.store, t.store, k);
    LeftAloneForeign(s.store, t.store, k);
    assert Find(t.store.apps, k) == Find(s.store.apps, k);
    assert SameView(s.store, t.store, k);
    hide Owned, NoForeign, Matches, StageFits, MissingHosts, LeavesAlone, Wanted;
    if !AppIdle(s, k) {
      SameViewFits(s.store, t.store, k, s.appPasses[k].pc);
    } else {
      SameViewFits(s.store, t.store, k, AC.Get);
    }
  }

  // ----- the app's own turns ------------------------------------------------------------------------------------

  /** A call that writes the app's copy back, or none of its objects at all. */
  lemma ViewKept(a: Store, b: Store, k: Key)
    requires Healthy(a, k) && NoForeign(a, k) && b == a.(apps := b.apps, clock := b.clock)
    requires k in b.apps && b.apps[k].spec == a.apps[k].spec && !b.apps[k].deleting
    ensures SameView(a, b, k) && Healthy(b, k) && NoForeign(b, k)
  {
    hide Owned, Hosts;
    assert Owned(b, k) == Owned(a, k) by { SameOwned(a, b, k); }
  }

  lemma SameOwned(a: Store, b: Store, k: Key)
    requires a.mappings == b.mappings
    ensures Owned(a, k) == Owned(b, k)
  {
  }

  /** Reading and writing the app itself. */
  predicate Refreshing(pc: AC.Pc) {
    pc.AddFinalizer? || pc.MarkPending? || pc.MarkDeploying? || pc.StatusWrite? || pc.FailureWrite?
  }

  predicate InPrologue(pc: AC.Pc) {
    pc.Get? || pc.AddFinalizer? || pc.MarkPending? || pc.MarkDeploying? || pc.CheckTenant?
  }

  lemma RefreshStored(store: Store, k: Key, p: AC.Pass, order: seq<string>)
    requires k in store.apps && !store.apps[k].deleting && Refreshing(p.pc) && CopyFits(store, k, p)
    ensures var (after, r) := Serve(store, AC.NextCall(k, p), order);
            && after == store.(apps := after.apps, clock := after.clock)
            && k in after.apps && after.apps[k].spec == store.apps[k].spec && !after.apps[k].deleting
            && r == GotApp(after.apps[k])
  {
  }

  lemma RefreshResumes(p: AC.Pass, app: App)
    requires Refreshing(p.pc) && !app.spec.paused && !app.deleting
    ensures var q := AC.Resume(p, GotApp(app));
            && (p.pc.StatusWrite? || p.pc.FailureWrite? ==> q.pc.Finished?)
            && (!(p.pc.StatusWrite? || p.pc.FailureWrite?) ==>
                  && (q.pc.MarkPending? || q.pc.MarkDeploying? || q.pc.CheckTenant?)
                  && q.app.rv == app.rv && q.app.spec == app.spec && !q.app.deleting)
  {
  }

  lemma RefreshTurn(s: State, k: Key, chance: Chance)
    requires Good(s, k) && Quiet(s, AppTurn(k, chance), k) && !AppIdle(s, k) && Refreshing(s.appPasses[k].pc)
    ensures var t := AppStep(s, k, chance);
            && GoesOn(s, t, k) && MissingHosts(t.store, k) == MissingHosts(s.store, k)
            && (!(s.appPasses[k].pc.StatusWrite? || s.appPasses[k].pc.FailureWrite?) ==> !AppIdle(t, k) && InPrologue(t.appPasses[k].pc))
  {
    var p := s.appPasses[k];
    AppTurnTaken(s, k, chance);
    RefreshStored(s.store, k, p, chance.order);
    var (after, r) := Serve(s.store, AC.NextCall(k, p), chance.order);
    RefreshResumes(p, after.apps[k]);
    hide AppStep, Serve, AC.NextCall, AC.Resume, NoForeign, Owned, MissingHosts, Matches;
    ViewKept(s.store, after, k);
    SameViewFits(s.store, after, k, AC.Get);
  }

  lemma GetResumes(app: App)
    requires !app.deleting && !app.spec.paused
    ensures var q := AC.AfterGet(app);
            && (q.pc.AddFinalizer? || q.pc.MarkPending? || q.pc.MarkDeploying? || q.pc.CheckTenant?)
            && q.app.rv == app.rv && q.app.spec == app.spec && !q.app.deleting
  {
  }

  lemma BeginTurn(s: State, k: Key, chance: Chance)
    requires Good(s, k) && Quiet(s, AppTurn(k, chance), k) && (AppIdle(s, k) || s.appPasses[k].pc.Get?)
    ensures var t := AppStep(s, k, chance);
            && GoesOn(s, t, k) && !AppIdle(t, k) && InPrologue(t.appPasses[k].pc)
            && MissingHosts(t.store, k) == MissingHosts(s.store, k)
  {
    if AppIdle(s, k) {
      hide NoForeign, Owned, Matches;
    } else {
      var p := s.appPasses[k];
      AppTurnTaken(s, k, chance);
      var (after, r) := Serve(s.store, GetApp(k), chance.order);
      assert AC.NextCall(k, p) == GetApp(k) && AC.Resume(p, GotApp(s.store.apps[k])) == AC.AfterGet(s.store.apps[k]);
      assert after == s.store.(clock := after.clock) && r == GotApp(s.store.apps[k]);
      GetResumes(s.store.apps[k]);
      hide AppStep, Serve, AC.NextCall, AC.Resume, AC.AfterGet, NoForeign, Owned, MissingHosts, Matches;
      ViewKept(s.store, after, k);
      SameViewFits(s.store, after, k, AC.Get);
    }
  }

  /** Reads that change nothing but the clock: of the tenant, of the service, of the mappings. */
  predicate Reading(pc: AC.Pc) {
    pc.CheckTenant? || pc.ServiceGet? || pc.MappingList? || pc.StatusRead?
  }

  lemma ReadAnswered(store: Store, k: Key, p: AC.Pass, order: seq<string>)
    requires Reading(p.pc) && !Serve(store, AC.NextCall(k, p), order).1.Error?
    requires p.pc.CheckTenant? ==> p.app.spec.tenantRef in store.tenants
    ensures var (after, r) := Serve(store, AC.NextCall(k, p), order);
            && after == store.(clock := after.clock)
            && (p.pc.CheckTenant? ==> r.GotTenant?)
            && (p.pc.ServiceGet? ==> r == if k in store.services then GotService(store.services[k]) else NotFound)
            && (p.pc.MappingList? ==> r == Listed(order) && Enumerates(order, Owned(store, k)))
  {
    hide Enumerates, MappingNames;
  }

  lemma ReadResumes(store: Store, k: Key, p: AC.Pass, r: Response)
    requires k in store.apps && Reading(p.pc) && CopyFits(store, k, p) && StageFits(store, k, p.pc)
    requires p.pc.CheckTenant? ==> r.GotTenant?
    requires p.pc.ServiceGet? ==> r == if k in store.services then GotService(store.services[k]) else NotFound
    requires p.pc.MappingList? ==> r.Listed? && Enumerates(r.names, Owned(store, k))
    ensures var q := AC.Resume(p, r);
            && !q.pc.Finished? && !q.pc.FailureWrite? && StageFits(store, k, q.pc) && CopyFits(store, k, q)
            && (q.pc.MappingCreate? ==> q.pc.host !in Owned(store, k))
  {
    hide Owned, AC.DesiredServiceSpec, AC.Renders, AC.Observed, Enumerates;
    if k in store.services {
      AC.RendersExactly(store.services[k].spec, store.apps[k].spec);
    }
    if p.pc.MappingList? {
      ListResumes(store, k, p, r.names);
    }
    hide AC.Stale, AC.Missing, DeletesLeft, CreatesLeft, Matches;
  }

  lemma {:induction false} StaleDistinct(listed: seq<string>, wanted: seq<string>)
    requires NoDuplicates(listed)
    ensures NoDuplicates(AC.Stale(listed, wanted))
  {
    if listed != [] {
      var rest := listed[1..];
      assert forall i, j | 0 <= i < j < |rest| :: rest[i] == listed[i + 1] && rest[j] == listed[j + 1];
      StaleDistinct(rest, wanted);
      var tail := AC.Stale(rest, wanted);
      if listed[0] !in wanted {
        assert listed[0] !in rest;
        assert listed[0] !in tail;
        assert AC.Stale(listed, wanted) == [listed[0]] + tail;
      } else {
        assert AC.Stale(listed, wanted) == [] + tail == tail;
      }
    }
  }

  /** The listing splits what is to be done: delete first, then create. */
  lemma ListResumes(store: Store, k: Key, p: AC.Pass, names: seq<string>)
    requires k in store.apps && p.pc.MappingList? && CopyFits(store, k, p) && ServiceOk(store, k)
    requires Enumerates(names, Owned(store, k))
    ensures var q := AC.Resume(p, Listed(names));
            && q.app == p.app && !q.pc.Finished? && !q.pc.FailureWrite? && !q.pc.Get? && StageFits(store, k, q.pc)
            && (q.pc.MappingCreate? ==> q.pc.host !in Owned(store, k))
  {
    var stale, missing := AC.Stale(names, p.app.spec.customDomains), AC.Missing(names, p.app.spec.customDomains);
    StaleDistinct(names, p.app.spec.customDomains);
    hide Owned, AC.Stale, AC.Missing, AC.DesiredServiceSpec, AC.Renders, NoDuplicates;
    assert AC.Resume(p, Listed(names)) == AC.ToDelete(p.app, stale, missing);
    assert DeletesLeft(store, k, stale, missing);
    DeletingOn(store, k, p.app, stale, missing);
    hide DeletesLeft, CreatesLeft, Matches, AC.ToDelete;
  }

  /** Where a pass stands with these hosts still to delete and to create. */
  lemma DeletingOn(store: Store, k: Key, app: App, stale: seq<string>, missing: seq<string>)
    requires k in store.apps && ServiceOk(store, k) && DeletesLeft(store, k, stale, missing)
    ensures var q := AC.ToDelete(app, stale, missing);
            && q.app == app && !q.pc.Finished? && !q.pc.FailureWrite? && !q.pc.Get? && StageFits(store, k, q.pc)
            && (q.pc.MappingCreate? ==> q.pc.host !in Owned(store, k))
  {
    hide Owned, AC.DesiredServiceSpec, AC.Renders, NoDuplicates;
    if stale != [] {
      assert [stale[0]] + stale[1..] == stale;
    } else if missing != [] {
      assert [missing[0]] + missing[1..] == missing;
      assert missing[0] in missing;
    } else {
      NothingMissing(store, k);
    }
  }

  lemma NothingMissing(store: Store, k: Key)
    requires k in store.apps && (forall h | h in Owned(store, k) :: h in Wanted(store, k))
    requires forall h | h in Wanted(store, k) :: h in Owned(store, k)
    ensures Owned(store, k) == Wanted(store, k)
  {
    hide Owned, Wanted;
  }

  lemma ReadTurn(s: State, k: Key, chance: Chance)
    requires Good(s, k) && Quiet(s, AppTurn(k, chance), k) && !AppIdle(s, k) && Reading(s.appPasses[k].pc)
    ensures var t := AppStep(s, k, chance);
            && GoesOn(s, t, k) && MissingHosts(t.store, k) == MissingHosts(s.store, k)
            && !AppIdle(t, k) && !t.appPasses[k].pc.FailureWrite?
            && (t.appPasses[k].pc.MappingCreate? ==> t.appPasses[k].pc.host !in Owned(t.store, k))
  {
    var p := s.appPasses[k];
    AppTurnTaken(s, k, chance);
    hide AppStep, NoForeign, Owned, MissingHosts, Matches, StageFits;
    ReadAnswered(s.store, k, p, chance.order);
    var (after, r) := Serve(s.store, AC.NextCall(k, p), chance.order);
    hide Serve, AC.NextCall;
    ReadResumes(s.store, k, p, r);
    var q := AC.Resume(p, r);
    hide AC.Resume;
    ViewKept(s.store, after, k);
    SameViewFits(s.store, after, k, q.pc);
  }

  // ----- writing the service ------------------------------------------------------------------------------------

  lemma ServiceWritten(store: Store, k: Key, p: AC.Pass, order: seq<string>)
    requires k in store.apps && (p.pc.ServiceCreate? || p.pc.ServiceUpdate?)
    requires CopyFits(store, k, p) && StageFits(store, k, p.pc)
    ensures var (after, r) := Serve(store, AC.NextCall(k, p), order);
            && after == store.(services := after.services, clock := after.clock) && ServiceOk(after, k)
            && AC.Resume(p, r) == AC.Pass(AC.MappingList, p.app)
  {
    AC.RendersExactly(AC.DesiredServiceSpec(p.app.spec), p.app.spec);
    hide AC.DesiredServiceSpec, AC.Renders, AC.KeptAnnotations, AC.ChildLabels;
  }

  lemma ServiceTurn(s: State, k: Key, chance: Chance)
    requires Good(s, k) && Quiet(s, AppTurn(k, chance), k) && !AppIdle(s, k)
    requires s.appPasses[k].pc.ServiceCreate? || s.appPasses[k].pc.ServiceUpdate?
    ensures var t := AppStep(s, k, chance);
            && GoesOn(s, t, k) && MissingHosts(t.store, k) == MissingHosts(s.store, k)
            && !AppIdle(t, k) && t.appPasses[k].pc.MappingList?
  {
    var p := s.appPasses[k];
    AppTurnTaken(s, k, chance);
    ServiceWritten(s.store, k, p, chance.order);
    hide AppStep, Serve, AC.NextCall, AC.Resume, AC.DesiredServiceSpec, AC.Renders;
    var after := Serve(s.store, AC.NextCall(k, p), chance.order).0;
    SameOwned(s.store, after, k);
    hide Owned;
  }

  // ----- deleting and creating mappings -------------------------------------------------------------------------

  lemma OwnedWithout(a: Store, b: Store, k: Key, host: string)
    requires b == a.(mappings := a.mappings - {Key(k.ns, host)}, clock := b.clock)
    ensures Owned(b, k) == Owned(a, k) - {host}
  {
    hide LabelledFor;
    forall h
      ensures h in Owned(b, k) <==> h in Owned(a, k) && h != host
    {
      OwnedAt(a, k, h);
      OwnedAt(b, k, h);
    }
  }

  lemma DeletesOn(a: Store, b: Store, k: Key, stale: seq<string>, missing: seq<string>)
    requires k in a.apps && stale != [] && DeletesLeft(a, k, stale, missing)
    requires b == a.(mappings := a.mappings - {Key(k.ns, stale[0])}, clock := b.clock)
    ensures DeletesLeft(b, k, stale[1..], missing) && MissingHosts(b, k) == MissingHosts(a, k)
  {
    OwnedWithout(a, b, k, stale[0]);
    hide Owned;
    assert Wanted(b, k) == Wanted(a, k);
    hide Wanted;
    assert stale[0] in stale;
    assert forall h | h in stale[1..] :: h in stale && h != stale[0];
    assert forall h | h in stale :: h == stale[0] || h in stale[1..];
    forall i, j | 0 <= i < j < |stale[1..]|
      ensures stale[1..][i] != stale[1..][j]
    {
      assert stale[1..][i] == stale[i + 1] && stale[1..][j] == stale[j + 1];
    }
  }

  lemma DeleteKeepsForeign(a: Store, b: Store, k: Key, host: string)
    requires k in a.apps && NoForeign(a, k) && host !in Wanted(a, k)
    requires b == a.(mappings := a.mappings - {Key(k.ns, host)}, clock := b.clock)
    ensures NoForeign(b, k)
  {
    OwnedWithout(a, b, k, host);
    hide Owned;
    forall h | h in Wanted(b, k) && h in Hosts(b.mappings, k.ns)
      ensures h in Owned(b, k)
    {
      HostsAt(a.mappings, k.ns, h);
      HostsAt(b.mappings, k.ns, h);
    }
  }

  /** What one deletion makes of the app's view, and where the pass goes on. */
  lemma DeleteDone(store: Store, k: Key, p: AC.Pass, order: seq<string>)
    requires k in store.apps && NoForeign(store, k) && p.pc.MappingDelete? && CopyFits(store, k, p)
    requires StageFits(store, k, p.pc)
    ensures var (after, r) := Serve(store, AC.NextCall(k, p), order);
            var q := AC.Resume(p, r);
            && after == store.(mappings := after.mappings, clock := after.clock)
            && NoForeign(after, k) && StageFits(after, k, q.pc) && CopyFits(after, k, q)
            && !q.pc.Finished? && !q.pc.FailureWrite? && (q.pc.MappingCreate? ==> q.pc.host !in Owned(after, k))
            && MissingHosts(after, k) == MissingHosts(store, k) && !Matches(store, k)
  {
    var host, stale, missing := p.pc.host, p.pc.stale, p.pc.missing;
    DeleteMappingServed(store, Key(k.ns, host), order);
    assert AC.NextCall(k, p) == DeleteMapping(Key(k.ns, host));
    assert AC.Resume(p, Ok) == AC.Resume(p, NotFound) == AC.ToDelete(p.app, stale, missing);
    var after := Serve(store, DeleteMapping(Key(k.ns, host)), order).0;
    hide Serve, AC.NextCall, AC.Resume, AC.ToDelete, Owned, AC.DesiredServiceSpec, AC.Renders, NoForeign, DeletesLeft;
    assert ([host] + stale)[1..] == stale;
    DeletesOn(store, after, k, [host] + stale, missing);
    FirstIsStale(store, k, host, stale, missing);
    DeleteKeepsForeign(store, after, k, host);
    DeletingOn(after, k, p.app, stale, missing);
    hide StageFits, MissingHosts, Wanted, Hosts;
  }

  lemma DeleteTurn(s: State, k: Key, chance: Chance)
    requires Good(s, k) && Quiet(s, AppTurn(k, chance), k) && !AppIdle(s, k) && s.appPasses[k].pc.MappingDelete?
    ensures var t := AppStep(s, k, chance);
            && GoesOn(s, t, k) && MissingHosts(t.store, k) == MissingHosts(s.store, k)
            && !AppIdle(t, k) && !t.appPasses[k].pc.FailureWrite?
            && (t.appPasses[k].pc.MappingCreate? ==> t.appPasses[k].pc.host !in Owned(t.store, k))
  {
    var p := s.appPasses[k];
    AppTurnTaken(s, k, chance);
    hide AppStep, Serve, AC.NextCall, AC.Resume, Owned, NoForeign, MissingHosts, StageFits, Matches;
    DeleteDone(s.store, k, p, chance.order);
  }

  lemma FirstIsStale(store: Store, k: Key, host: string, stale: seq<string>, missing: seq<string>)
    requires k in store.apps && DeletesLeft(store, k, [host] + stale, missing)
    ensures host in Owned(store, k) && host !in Wanted(store, k) && !Matches(store, k)
  {
    hide Owned, Wanted, NoDuplicates;
    assert host in [host] + stale;
  }

  lemma OwnedWith(a: Store, b: Store, k: Key, host: string, m: Mapping)
    requires b == a.(mappings := a.mappings[Key(k.ns, host) := m], clock := b.clock) && LabelledFor(m, k.name)
    ensures Owned(b, k) == Owned(a, k) + {host}
  {
    hide LabelledFor;
    forall h
      ensures h in Owned(b, k) <==> h in Owned(a, k) || h == host
    {
      OwnedAt(a, k, h);
      OwnedAt(b, k, h);
    }
  }

  /** A wanted host that is not owned is free, and a mapping made there is owned from then on. */
  lemma CreateServedOwned(store: Store, k: Key, host: string, spec: AppSpec, order: seq<string>)
    requires k in store.apps && NoForeign(store, k) && host in Wanted(store, k)
    ensures var (after, r) := Serve(store, CreateMapping(Key(k.ns, host), AC.DesiredMapping(k, spec)), order);
            && after == store.(mappings := after.mappings, clock := after.clock)
            && Owned(after, k) == Owned(store, k) + {host}
            && (r.Ok? <==> host !in Owned(store, k)) && (host in Owned(store, k) ==> r.AlreadyExists?)
            && NoForeign(after, k)
  {
    var at := Key(k.ns, host);
    var after := Serve(store, CreateMapping(at, AC.DesiredMapping(k, spec)), order).0;
    HostsAt(store.mappings, k.ns, host);
    OwnedAt(store, k, host);
    if host in Owned(store, k) {
      SameOwned(store, after, k);
      hide Owned;
    } else {
      OwnedWith(store, after, k, host, AC.DesiredMapping(k, spec).(rv := store.clock));
      hide Owned, Serve;
      forall h | h in Wanted(after, k) && h in Hosts(after.mappings, k.ns)
        ensures h in Owned(after, k)
      {
        HostsAt(store.mappings, k.ns, h);
        HostsAt(after.mappings, k.ns, h);
      }
    }
  }

  lemma CreatesOn(a: Store, b: Store, k: Key, host: string, missing: seq<string>)
    requires k in a.apps && b == a.(mappings := b.mappings, clock := b.clock)
    requires CreatesLeft(a, k, [host] + missing) && Owned(b, k) == Owned(a, k) + {host}
    ensures CreatesLeft(b, k, missing) && MissingHosts(b, k) == MissingHosts(a, k) - {host}
    ensures host in Wanted(a, k)
    ensures missing == [] ==> Owned(b, k) == Wanted(b, k)
  {
    hide Owned;
    assert Wanted(b, k) == Wanted(a, k);
    hide Wanted;
    assert host in [host] + missing;
    assert forall h | h in [host] + missing :: h == host || h in missing;
    assert forall h | h in missing :: h in [host] + missing;
    if missing == [] {
      NothingMissing(b, k);
    }
  }

  lemma CreateResumes(k: Key, p: AC.Pass)
    requires p.pc.MappingCreate?
    ensures AC.NextCall(k, p) == CreateMapping(Key(k.ns, p.pc.host), AC.DesiredMapping(k, p.app.spec))
    ensures AC.Resume(p, Ok) == AC.ToCreate(p.app, p.pc.missing)
    ensures AC.Resume(p, AlreadyExists).pc.FailureWrite?
    ensures var app := AC.Resume(p, AlreadyExists).app; app.rv == p.app.rv && app.spec == p.app.spec && app.deleting == p.app.deleting
  {
  }

  /** What one creation makes of the app's view, and where the pass goes on. */
  lemma CreateDone(store: Store, k: Key, p: AC.Pass, order: seq<string>)
    requires k in store.apps && NoForeign(store, k) && p.pc.MappingCreate? && CopyFits(store, k, p)
    requires StageFits(store, k, p.pc)
    ensures var (after, r) := Serve(store, AC.NextCall(k, p), order);
            var q := AC.Resume(p, r);
            && after == store.(mappings := after.mappings, clock := after.clock)
            && NoForeign(after, k) && StageFits(after, k, q.pc) && CopyFits(after, k, q) && !q.pc.Finished?
            && MissingHosts(after, k) == MissingHosts(store, k) - {p.pc.host} && p.pc.host in Wanted(store, k)
            && (Matches(store, k) ==> Matches(after, k))
  {
    hide Serve, AC.NextCall, AC.Resume, AC.ToCreate, Owned, NoForeign, StageFits, Wanted, Matches, MissingHosts;
    if p.pc.host in Owned(store, k) {
      CreateFails(store, k, p, order);
    } else {
      CreateSucceeds(store, k, p, order);
    }
    var after := Serve(store, AC.NextCall(k, p), order).0;
    CreateViews(store, k, p, order);
    OwnedMatches(store, after, k, p.pc.host);
  }

  lemma CreateViews(store: Store, k: Key, p: AC.Pass, order: seq<string>)
    requires k in store.apps && NoForeign(store, k) && p.pc.MappingCreate? && StageFits(store, k, p.pc)
    ensures var after := Serve(store, AC.NextCall(k, p), order).0;
            && after == store.(mappings := after.mappings, clock := after.clock) && NoForeign(after, k)
            && Owned(after, k) == Owned(store, k) + {p.pc.host} && p.pc.host in Wanted(store, k)
            && MissingHosts(after, k) == MissingHosts(store, k) - {p.pc.host}
  {
    hide Serve, AC.NextCall, Owned, AC.DesiredServiceSpec, AC.Renders, NoForeign, CreatesLeft, AC.DesiredMapping, Wanted, MissingHosts;
    CreateResumes(k, p);
    FirstIsWanted(store, k, p.pc.host, p.pc.missing);
    CreateServedOwned(store, k, p.pc.host, p.app.spec, order);
    CreatesOn(store, Serve(store, AC.NextCall(k, p), order).0, k, p.pc.host, p.pc.missing);
  }

  /** A host the spec repeats is taken already, and the pass goes on to report the failure. */
  lemma CreateFails(store: Store, k: Key, p: AC.Pass, order: seq<string>)
    requires k in store.apps && NoForeign(store, k) && p.pc.MappingCreate? && CopyFits(store, k, p)
    requires StageFits(store, k, p.pc) && p.pc.host in Owned(store, k)
    ensures var (after, r) := Serve(store, AC.NextCall(k, p), order);
            var q := AC.Resume(p, r);
            k in after.apps && StageFits(after, k, q.pc) && CopyFits(after, k, q) && !q.pc.Finished?
  {
    hide Serve, AC.NextCall, AC.Resume, Owned, AC.DesiredServiceSpec, AC.Renders, NoForeign, CreatesLeft, AC.DesiredMapping, Wanted;
    CreateResumes(k, p);
    FirstIsWanted(store, k, p.pc.host, p.pc.missing);
    CreateServedOwned(store, k, p.pc.host, p.app.spec, order);
  }

  lemma CreateSucceeds(store: Store, k: Key, p: AC.Pass, order: seq<string>)
    requires k in store.apps && NoForeign(store, k) && p.pc.MappingCreate? && CopyFits(store, k, p)
    requires StageFits(store, k, p.pc) && p.pc.host !in Owned(store, k)
    ensures var (after, r) := Serve(store, AC.NextCall(k, p), order);
            var q := AC.Resume(p, r);
            k in after.apps && StageFits(after, k, q.pc) && CopyFits(after, k, q) && !q.pc.Finished?
  {
    hide Serve, AC.NextCall, AC.Resume, AC.ToCreate, Owned, NoForeign, CreatesLeft, AC.DesiredMapping, Wanted;
    CreateResumes(k, p);
    var after := Serve(store, AC.NextCall(k, p), order).0;
    FirstIsWanted(store, k, p.pc.host, p.pc.missing);
    CreateServedOwned(store, k, p.pc.host, p.app.spec, order);
    CreatesOn(store, after, k, p.pc.host, p.pc.missing);
    CreatingOn(after, k, p.app, p.pc.missing);
    hide StageFits, AC.DesiredServiceSpec, AC.Renders;
  }

  /** Where a pass stands with these hosts still to create. */
  lemma CreatingOn(store: Store, k: Key, app: App, missing: seq<string>)
    requires k in store.apps && ServiceOk(store, k) && CreatesLeft(store, k, missing)
    ensures var q := AC.ToCreate(app, missing);
            q.app == app && !q.pc.Finished? && !q.pc.Get? && StageFits(store, k, q.pc)
  {
    hide Owned, AC.DesiredServiceSpec, AC.Renders, Wanted;
    if missing != [] {
      assert [missing[0]] + missing[1..] == missing;
    } else {
      NothingMissing(store, k);
    }
  }

  lemma OwnedMatches(a: Store, b: Store, k: Key, host: string)
    requires k in a.apps && b == a.(mappings := b.mappings, clock := b.clock) && host in Wanted(a, k)
    requires Owned(b, k) == Owned(a, k) + {host}
    ensures Matches(a, k) ==> Matches(b, k)
  {
    hide Owned, AC.DesiredServiceSpec, AC.Renders;
    SameSpecWanted(a, b, k);
    hide Wanted;
  }

  lemma CreateTurn(s: State, k: Key, chance: Chance)
    requires Good(s, k) && Quiet(s, AppTurn(k, chance), k) && !AppIdle(s, k) && s.appPasses[k].pc.MappingCreate?
    ensures var t := AppStep(s, k, chance);
            && GoesOn(s, t, k)
            && MissingHosts(t.store, k) == MissingHosts(s.store, k) - {s.appPasses[k].pc.host}
            && s.appPasses[k].pc.host in Wanted(s.store, k)
  {
    var p := s.appPasses[k];
    AppTurnTaken(s, k, chance);
    hide AppStep, Serve, AC.NextCall, AC.Resume, Owned, NoForeign, Wanted, MissingHosts, StageFits, Matches;
    CreateDone(s.store, k, p, chance.order);
  }

  lemma SameSpecWanted(a: Store, b: Store, k: Key)
    requires k in a.apps && k in b.apps && b.apps[k].spec == a.apps[k].spec
    ensures Wanted(a, k) == Wanted(b, k)
  {
  }

  lemma FirstIsWanted(store: Store, k: Key, host: string, missing: seq<string>)
    requires k in store.apps && CreatesLeft(store, k, [host] + missing)
    ensures host in Wanted(store, k)
  {
    hide Owned, Wanted;
    assert host in [host] + missing;
  }

  // ----- one turn ----------------------------------------------------------------------------------------------

  lemma OwnTurn(s: State, l: Label, k: Key)
    requires Good(s, k) && Quiet(s, l, k) && DL.AppMoves(l, k)
    ensures GoesOn(s, Step(s, l), k)
  {
    hide GoesOn, AppStep, Good, MissingHosts, Owned, Wanted;
    assert Step(s, l) == AppStep(s, k, l.chance) && l == AppTurn(k, l.chance);
    if !AppIdle(s, k) {
      OwnStages(s, k);
    }
    if AppIdle(s, k) || s.appPasses[k].pc.Get? {
      BeginTurn(s, k, l.chance);
    } else if Refreshing(s.appPasses[k].pc) {
      RefreshTurn(s, k, l.chance);
    } else if Reading(s.appPasses[k].pc) {
      ReadTurn(s, k, l.chance);
    } else if s.appPasses[k].pc.MappingDelete? {
      DeleteTurn(s, k, l.chance);
    } else if s.appPasses[k].pc.MappingCreate? {
      CreateTurn(s, k, l.chance);
    } else {
      ServiceTurn(s, k, l.chance);
    }
    hide Step, Quiet;
  }

  lemma OwnStages(s: State, k: Key)
    requires Good(s, k) && !AppIdle(s, k)
    ensures var pc := s.appPasses[k].pc;
            pc.Get? || Refreshing(pc) || Reading(pc) || pc.MappingDelete? || pc.MappingCreate? || pc.ServiceCreate? || pc.ServiceUpdate?
  {
    hide Matches, NoForeign, DeletesLeft, CreatesLeft, ServiceOk;
  }

  // ----- a pass that has not failed -----------------------------------------------------------------------------

  /** The pass, if any, has not failed and its next creation will not. */
  ghost predicate Work(s: State, k: Key) {
    && Good(s, k)
    && (!AppIdle(s, k) ==>
          var pc := s.appPasses[k].pc;
          !pc.FailureWrite? && !pc.StatusWrite? && (pc.MappingCreate? ==> pc.host !in Owned(s.store, k)))
  }

  /** Idle ranks above every stage. */
  function Rank(s: State, k: Key): nat {
    if AppIdle(s, k) then 30 else AC.Stage(s.appPasses[k].pc)
  }

  /** The app matches, a missing host was made, or the pass has come further. */
  ghost predicate Advanced(s: State, t: State, k: Key) {
    && GoesOn(s, t, k)
    && (|| Matches(t.store, k)
        || MissingHosts(t.store, k) < MissingHosts(s.store, k)
        || (Work(t, k) && (Rank(t, k) < Rank(s, k) || (Rank(t, k) == Rank(s, k) && AppLeft(t, k) < AppLeft(s, k)))))
  }

  lemma BusyRankFalls(s: State, k: Key, chance: Chance)
    requires !AppIdle(s, k) && !AppIdle(AppStep(s, k, chance), k)
    ensures var t := AppStep(s, k, chance);
            Rank(t, k) < Rank(s, k) || (Rank(t, k) == Rank(s, k) && AppLeft(t, k) < AppLeft(s, k))
  {
    AppTurnAdvances(s, k, chance);
    hide AppStep, AC.Stage, AC.Remaining;
  }

  lemma IdleRankFalls(s: State, k: Key)
    requires !AppIdle(s, k)
    ensures Rank(s, k) < 30
  {
  }

  lemma WorkTurn(s: State, l: Label, k: Key)
    requires Work(s, k) && Quiet(s, l, k) && DL.AppMoves(l, k)
    ensures Advanced(s, Step(s, l), k)
  {
    var t := Step(s, l);
    assert t == AppStep(s, k, l.chance) && l == AppTurn(k, l.chance);
    hide GoesOn, AppStep, Step, MissingHosts, Owned, Wanted, Rank, NoForeign, Quiet;
    if AppIdle(s, k) {
      BeginTurn(s, k, l.chance);
      GoodAfter(s, t, k);
      IdleRankFalls(t, k);
      assert Rank(s, k) == 30 by { IdleRank(s, k); }
    } else {
      BusyWorkTurn(s, k, l.chance);
    }
  }

  lemma IdleRank(s: State, k: Key)
    requires AppIdle(s, k)
    ensures Rank(s, k) == 30
  {
  }

  lemma GoodAfter(s: State, t: State, k: Key)
    requires GoesOn(s, t, k)
    ensures Good(t, k)
  {
    hide Good;
  }

  lemma BusyWorkTurn(s: State, k: Key, chance: Chance)
    requires Work(s, k) && Quiet(s, AppTurn(k, chance), k) && !AppIdle(s, k)
    ensures Advanced(s, AppStep(s, k, chance), k)
  {
    hide AppStep, Owned, Rank, NoForeign, Quiet, StageFits, MissingHosts, Wanted, Good;
    var pc := s.appPasses[k].pc;
    var t := AppStep(s, k, chance);
    OwnStages(s, k);
    GoodApp(s, k);
    if pc.MappingCreate? {
      CreateTurn(s, k, chance);
      GoodApp(t, k);
      Shrunk(s.store, t.store, k, pc.host);
    } else if pc.StatusRead? {
      ReadTurn(s, k, chance);
      ReadMatches(s, k);
    } else {
      if pc.Get? {
        BeginTurn(s, k, chance);
      } else if Refreshing(pc) {
        RefreshTurn(s, k, chance);
      } else if Reading(pc) {
        ReadTurn(s, k, chance);
        NoStatusYet(s, k, chance);
      } else if pc.MappingDelete? {
        DeleteTurn(s, k, chance);
        NoStatusYet(s, k, chance);
      } else {
        ServiceTurn(s, k, chance);
      }
      BusyRankFalls(s, k, chance);
      assert Work(t, k);
    }
    hide Matches;
  }

  lemma GoodApp(s: State, k: Key)
    requires Good(s, k)
    ensures k in s.store.apps
  {
    hide NoForeign;
  }

  /** Only reading the service leads to writing the status. */
  lemma NoStatusYet(s: State, k: Key, chance: Chance)
    requires !AppIdle(s, k) && (s.appPasses[k].pc.MappingDelete? || (Reading(s.appPasses[k].pc) && !s.appPasses[k].pc.StatusRead?))
    requires !AppIdle(AppStep(s, k, chance), k)
    ensures !AppStep(s, k, chance).appPasses[k].pc.StatusWrite?
  {
    AppTurnTaken(s, k, chance);
    hide AppStep, Deliver, AC.NextCall;
  }

  lemma ReadMatches(s: State, k: Key)
    requires Good(s, k) && !AppIdle(s, k) && s.appPasses[k].pc.StatusRead?
    ensures Matches(s.store, k)
  {
    hide Matches, NoForeign;
  }

  lemma Shrunk(a: Store, b: Store, k: Key, host: string)
    requires k in a.apps && k in b.apps && host in Wanted(a, k) && host !in Owned(a, k)
    requires MissingHosts(b, k) == MissingHosts(a, k) - {host}
    ensures MissingHosts(b, k) < MissingHosts(a, k)
  {
    hide Owned, Wanted;
    assert host in MissingHosts(a, k);
  }
}
