/** What one pass without failures makes of any cluster, and why repeating it settles. */
module AppConvergence {
  import opened Options
  import opened Kube
  import opened ApiServer
  import opened SoloPass
  import AC = AppController

  // ----- the service ----------------------------------------------------------------------------------------------

  /** `after` is `before` with the service at `k` made to match the spec: left alone if it does, replaced but for
      Knative's annotations and status if it does not, and created if there is none. */
  ghost predicate ServiceSettled(before: map<Key, Service>, after: map<Key, Service>, k: Key, spec: AppSpec) {
    && k in after && after == before[k := after[k]] && AC.Renders(after[k].spec, spec)
    && (if k !in before then AC.MadeFor(after[k], k, spec) && after[k].annotations == map[] && after[k].status == None
        else if AC.Renders(before[k].spec, spec) then after == before
        else
          && AC.MadeFor(after[k], k, spec) && AC.KnativesOnly(after[k].annotations, before[k].annotations)
          && after[k].status == before[k].status)
  }

  /** What the answer to the lookup leads to. */
  function Looked(services: map<Key, Service>, k: Key, app: App): AC.Pass {
    if k !in services then AC.Pass(AC.ServiceCreate, app)
    else if services[k].spec == AC.DesiredServiceSpec(app.spec) then AC.Pass(AC.MappingList, app)
    else AC.Pass(AC.ServiceUpdate(services[k]), app)
  }

  lemma LookupRuns(store: Store, k: Key, order: seq<string>) returns (st: Store)
    requires Healthy(store, k)
    ensures st == store.(clock := st.clock)
    ensures Finish(store, k, AC.Pass(AC.CheckTenant, store.apps[k]), order)
         == Finish(st, k, Looked(store.services, k, store.apps[k]), order)
  {
    hide Finish, AC.DesiredServiceSpec;
    var app := store.apps[k];
    var mid := Serve(store, GetTenant(app.spec.tenantRef), order).0;
    FinishStep(store, k, AC.Pass(AC.CheckTenant, app), order);
    FinishStep(mid, k, AC.Pass(AC.ServiceGet, app), order);
    st := Serve(mid, GetService(k), order).0;
  }

  lemma CreateRuns(store: Store, k: Key, app: App, order: seq<string>) returns (st: Store)
    requires k !in store.services
    ensures st == store.(services := st.services, clock := st.clock)
    ensures ServiceSettled(store.services, st.services, k, app.spec)
    ensures Finish(store, k, AC.Pass(AC.ServiceCreate, app), order)
         == Finish(st, k, AC.Pass(AC.MappingList, app), order)
  {
    hide Finish, AC.DesiredService, AC.OwnLabels, AC.Renders;
    var svc := AC.DesiredService(k, app.spec);
    FinishStep(store, k, AC.Pass(AC.ServiceCreate, app), order);
    st := Serve(store, CreateService(k, svc), order).0;
    AC.NewServiceMeaning(k, app.spec);
    AC.MadeForParts(svc, st.services[k], k, app.spec);
  }

  lemma UpdateRuns(store: Store, k: Key, app: App, order: seq<string>) returns (st: Store)
    requires k in store.services && store.services[k].spec != AC.DesiredServiceSpec(app.spec)
    ensures st == store.(services := st.services, clock := st.clock)
    ensures ServiceSettled(store.services, st.services, k, app.spec)
    ensures Finish(store, k, AC.Pass(AC.ServiceUpdate(store.services[k]), app), order)
         == Finish(st, k, AC.Pass(AC.MappingList, app), order)
  {
    hide Finish, AC.ReplacedService, AC.OwnLabels, AC.Renders, AC.KnativesOnly;
    var svc := AC.ReplacedService(k, app.spec, store.services[k]);
    FinishStep(store, k, AC.Pass(AC.ServiceUpdate(store.services[k]), app), order);
    assert svc.rv == store.services[k].rv by {
      AC.ReplacementKeepsVersion(k, app.spec, store.services[k]);
    }
    st := Serve(store, UpdateService(k, svc), order).0;
    AC.ReplacementMeaning(k, app.spec, store.services[k]);
    AC.MadeForParts(svc, st.services[k], k, app.spec);
    AC.RendersExactly(store.services[k].spec, app.spec);
  }

  lemma ServiceRuns(store: Store, k: Key, order: seq<string>) returns (st: Store)
    requires Healthy(store, k)
    ensures st == store.(services := st.services, clock := st.clock)
    ensures k in st.services && ServiceSettled(store.services, st.services, k, store.apps[k].spec)
    ensures Finish(store, k, AC.Pass(AC.CheckTenant, store.apps[k]), order)
         == Finish(st, k, AC.Pass(AC.MappingList, store.apps[k]), order)
  {
    hide Finish, AC.DesiredServiceSpec, AC.Renders, AC.MadeFor, AC.KnativesOnly;
    var app := store.apps[k];
    var mid := LookupRuns(store, k, order);
    if k in store.services {
      AC.RendersExactly(store.services[k].spec, app.spec);
    }
    if k !in store.services {
      st := CreateRuns(mid, k, app, order);
    } else if store.services[k].spec != AC.DesiredServiceSpec(app.spec) {
      st := UpdateRuns(mid, k, app, order);
    } else {
      st := mid;
      assert st.services[k := st.services[k]] == st.services;
    }
  }

  // ----- the domain mappings --------------------------------------------------------------------------------------

  function Hosts(mappings: map<Key, Mapping>, ns: string): set<string> {
    set at | at in mappings && at.ns == ns :: at.name
  }

  lemma {:induction false} DeletesRun(store: Store, k: Key, app: App, stale: seq<string>, missing: seq<string>, order: seq<string>)
    returns (st: Store)
    ensures st == store.(mappings := store.mappings - KeysOf(k.ns, stale), clock := st.clock)
    ensures Finish(store, k, AC.ToDelete(app, stale, missing), order) == Finish(st, k, AC.ToCreate(app, missing), order)
    decreases |stale|
  {
    hide Finish, AC.ToDelete, AC.ToCreate;
    if stale == [] {
      st := store;
      assert KeysOf(k.ns, stale) == {};
      ToDeleteNothing(app, missing);
    } else {
      var mid := DeleteServed(store, k, app, stale, missing, order);
      st := DeletesRun(mid, k, app, stale[1..], missing, order);
      assert KeysOf(k.ns, stale) == {Key(k.ns, stale[0])} + KeysOf(k.ns, stale[1..]);
    }
  }

  lemma ToDeleteNothing(app: App, missing: seq<string>)
    ensures AC.ToDelete(app, [], missing) == AC.ToCreate(app, missing)
  {
  }

  lemma DeleteServed(store: Store, k: Key, app: App, stale: seq<string>, missing: seq<string>, order: seq<string>)
    returns (mid: Store)
    requires stale != []
    ensures mid == store.(mappings := store.mappings - {Key(k.ns, stale[0])}, clock := mid.clock)
    ensures Finish(store, k, AC.ToDelete(app, stale, missing), order)
         == Finish(mid, k, AC.ToDelete(app, stale[1..], missing), order)
  {
    hide Finish, AC.ToCreate;
    FinishStep(store, k, AC.Pass(AC.MappingDelete(stale[0], stale[1..], missing), app), order);
    mid := Serve(store, DeleteMapping(Key(k.ns, stale[0])), order).0;
  }

  /** The hosts created before the first that is taken already, by others or by a repetition. */
  function Creatable(taken: set<string>, missing: seq<string>): (r: seq<string>)
    ensures r <= missing
    decreases |missing|
  {
    if missing == [] || missing[0] in taken then []
    else [missing[0]] + Creatable(taken + {missing[0]}, missing[1..])
  }

  lemma CreatableStep(taken: set<string>, missing: seq<string>)
    ensures missing == [] || missing[0] in taken ==> Creatable(taken, missing) == []
    ensures missing != [] && missing[0] !in taken ==>
              var rest := Creatable(taken + {missing[0]}, missing[1..]);
              Creatable(taken, missing) == [missing[0]] + rest && (Creatable(taken, missing) == missing <==> rest == missing[1..])
  {
    if missing != [] && missing[0] !in taken {
      var rest := Creatable(taken + {missing[0]}, missing[1..]);
      assert ([missing[0]] + rest)[1..] == rest;
    }
  }

  /** `b` is `a` with mappings for the app at `k` added at `hosts`. */
  ghost predicate Grown(a: map<Key, Mapping>, b: map<Key, Mapping>, k: Key, spec: AppSpec, hosts: seq<string>) {
    forall at ::
      if at in a then at in b && b[at] == a[at]
      else if at in KeysOf(k.ns, hosts) then at in b && AC.LeadsTo(b[at], k, spec)
      else at !in b
  }

  function Outcome(app: App, done: bool): AC.Pass {
    if done then AC.Pass(AC.StatusRead, app) else AC.Fail(app, "DomainMappingFailed")
  }

  lemma {:induction false} CreatesRun(store: Store, k: Key, app: App, missing: seq<string>, order: seq<string>)
    returns (st: Store)
    ensures st == store.(mappings := st.mappings, clock := st.clock)
    ensures var made := Creatable(Hosts(store.mappings, k.ns), missing);
            && Grown(store.mappings, st.mappings, k, app.spec, made)
            && Finish(store, k, AC.ToCreate(app, missing), order) == Finish(st, k, Outcome(app, made == missing), order)
    decreases |missing|
  {
    hide Finish, AC.DesiredMapping, AC.Fail, Serve, Hosts, Grown, Creatable, AC.ToCreate;
    CreatableStep(Hosts(store.mappings, k.ns), missing);
    if missing == [] {
      st := store;
      NothingGrown(store.mappings, k, app.spec);
      assert AC.ToCreate(app, []) == AC.Pass(AC.StatusRead, app) by { ToCreateNothing(app); }
    } else if Key(k.ns, missing[0]) in store.mappings {
      st := store.(clock := store.clock + 1);
      NothingGrown(store.mappings, k, app.spec);
      HostsAt(store.mappings, k.ns, missing[0]);
      CreateTaken(store, k, app, missing, order);
    } else {
      var mid := CreateFree(store, k, app, missing, order);
      HostsAt(store.mappings, k.ns, missing[0]);
      st := CreatesRun(mid, k, app, missing[1..], order);
      var rest := Creatable(Hosts(mid.mappings, k.ns), missing[1..]);
      GrownMore(store.mappings, mid.mappings, st.mappings, k, app.spec, missing[0], rest);
    }
  }

  lemma ToCreateNothing(app: App)
    ensures AC.ToCreate(app, []) == AC.Pass(AC.StatusRead, app)
  {
  }

  lemma HostsAt(mappings: map<Key, Mapping>, ns: string, host: string)
    ensures host in Hosts(mappings, ns) <==> Key(ns, host) in mappings
  {
  }

  lemma NothingGrown(a: map<Key, Mapping>, k: Key, spec: AppSpec)
    ensures Grown(a, a, k, spec, [])
  {
  }

  lemma CreateTaken(store: Store, k: Key, app: App, missing: seq<string>, order: seq<string>)
    requires missing != [] && Key(k.ns, missing[0]) in store.mappings
    ensures Finish(store, k, AC.ToCreate(app, missing), order)
         == Finish(store.(clock := store.clock + 1), k, AC.Fail(app, "DomainMappingFailed"), order)
  {
    hide Finish, AC.DesiredMapping, AC.Fail;
    FinishStep(store, k, AC.Pass(AC.MappingCreate(missing[0], missing[1..]), app), order);
  }

  lemma CreateFree(store: Store, k: Key, app: App, missing: seq<string>, order: seq<string>) returns (mid: Store)
    requires missing != [] && Key(k.ns, missing[0]) !in store.mappings
    ensures mid == store.(mappings := mid.mappings, clock := mid.clock)
    ensures mid.mappings == store.mappings[Key(k.ns, missing[0]) := AC.DesiredMapping(k, app.spec).(rv := store.clock)]
    ensures Hosts(mid.mappings, k.ns) == Hosts(store.mappings, k.ns) + {missing[0]}
    ensures Finish(store, k, AC.ToCreate(app, missing), order) == Finish(mid, k, AC.ToCreate(app, missing[1..]), order)
  {
    var at := Key(k.ns, missing[0]);
    mid := CreateServed(store, k, app, missing, order);
    assert Hosts(mid.mappings, k.ns) == Hosts(store.mappings, k.ns) + {missing[0]} by {
      hide Finish;
      forall h
        ensures h in Hosts(mid.mappings, k.ns) <==> h in Hosts(store.mappings, k.ns) || h == missing[0]
      {
        HostsAt(mid.mappings, k.ns, h);
        HostsAt(store.mappings, k.ns, h);
      }
    }
  }

  lemma CreateServed(store: Store, k: Key, app: App, missing: seq<string>, order: seq<string>) returns (mid: Store)
    requires missing != [] && Key(k.ns, missing[0]) !in store.mappings
    ensures mid == store.(mappings := mid.mappings, clock := mid.clock)
    ensures mid.mappings == store.mappings[Key(k.ns, missing[0]) := AC.DesiredMapping(k, app.spec).(rv := store.clock)]
    ensures Finish(store, k, AC.ToCreate(app, missing), order) == Finish(mid, k, AC.ToCreate(app, missing[1..]), order)
  {
    hide Finish, AC.DesiredMapping;
    FinishStep(store, k, AC.Pass(AC.MappingCreate(missing[0], missing[1..]), app), order);
    mid := Serve(store, CreateMapping(Key(k.ns, missing[0]), AC.DesiredMapping(k, app.spec)), order).0;
  }

  lemma GrownMore(a: map<Key, Mapping>, b: map<Key, Mapping>, c: map<Key, Mapping>, k: Key, spec: AppSpec,
                  host: string, hosts: seq<string>)
    requires Key(k.ns, host) !in a && exists rv: nat :: b == a[Key(k.ns, host) := AC.DesiredMapping(k, spec).(rv := rv)]
    requires Grown(b, c, k, spec, hosts)
    ensures Grown(a, c, k, spec, [host] + hosts)
  {
    AC.LeadsToExactly(b[Key(k.ns, host)], k, spec);
    hide AC.DesiredMapping, AC.LeadsTo;
    assert KeysOf(k.ns, [host] + hosts) == {Key(k.ns, host)} + KeysOf(k.ns, hosts);
    hide KeysOf;
  }

  // ----- the end of the pass ----------------------------------------------------------------------------------------

  /** The status a pass leaves: what the service reports, or the failure of the mappings. */
  ghost predicate StatusFits(status: AppStatus, svc: Service, done: bool) {
    var reported := svc.status.Some? && ("Ready", "True") in svc.status.value.conditions;
    && status.phase == (if !done then AppPhase.Failed else if reported then Ready else Deploying)
    && status.ready == Some(Condition(done && reported,
         if !done then "DomainMappingFailed" else if reported then "KnativeServiceReady" else "KnativeServiceNotReady"))
    && (done && svc.status.Some? ==> status.url == svc.status.value.url && status.latestRevision == svc.status.value.latestRevision)
    && (done && svc.status.None? ==> status.url == "" && status.latestRevision == "")
  }

  lemma EpilogueRuns(store: Store, k: Key, done: bool, order: seq<string>)
    requires k in store.apps && k in store.services
    ensures var st := Finish(store, k, Outcome(store.apps[k], done), order);
            && SameButStatus(store, st, k)
            && StatusFits(st.apps[k].status, store.services[k], done)
  {
    if done {
      DoneRuns(store, k, order);
    } else {
      var status := store.apps[k].status.(phase := AppPhase.Failed, ready := Some(Condition(false, "DomainMappingFailed")));
      StatusStored(store, k, status, order);
      StatusRuns(store, k, AC.FailureWrite, status, order);
      hide Finish, Serve;
    }
  }

  lemma DoneRuns(store: Store, k: Key, order: seq<string>)
    requires k in store.apps && k in store.services
    ensures var st := Finish(store, k, AC.Pass(AC.StatusRead, store.apps[k]), order);
            SameButStatus(store, st, k) && StatusFits(st.apps[k].status, store.services[k], true)
  {
    var app := store.apps[k];
    var (mid, r) := Serve(store, GetService(k), order);
    var status := AC.Observed(app.status, r);
    FinishStep(store, k, AC.Pass(AC.StatusRead, app), order);
    assert r == GotService(store.services[k]);
    ObservedFits(app.status, store.services[k]);
    hide Finish, AC.Observed, StatusFits;
    assert mid == store.(clock := store.clock + 1);
    StatusStored(mid, k, status, order);
    StatusRuns(mid, k, AC.StatusWrite, status, order);
    hide Serve;
  }

  lemma ObservedFits(status: AppStatus, svc: Service)
    ensures StatusFits(AC.Observed(status, GotService(svc)), svc, true)
  {
  }

  lemma StatusRuns(store: Store, k: Key, pc: AC.Pc, status: AppStatus, order: seq<string>)
    requires k in store.apps && (pc.StatusWrite? || pc.FailureWrite?)
    ensures Finish(store, k, AC.Pass(pc, store.apps[k].(status := status)), order)
         == Serve(store, UpdateAppStatus(k, store.apps[k].(status := status)), order).0
  {
    var p := AC.Pass(pc, store.apps[k].(status := status));
    var (after, r) := Serve(store, UpdateAppStatus(k, p.app), order);
    FinishStep(store, k, p, order);
    FinishEnds(after, k, AC.Resume(p, r), order);
    hide Serve, Finish;
  }

  // ----- one pass ---------------------------------------------------------------------------------------------------

  /** What one pass does to any cluster. */
  ghost predicate PassResult(store: Store, st: Store, k: Key, order: seq<string>)
    requires k in store.apps
  {
    var spec := store.apps[k].spec;
    var kept := store.mappings - KeysOf(k.ns, AC.Stale(order, spec.customDomains));
    var missing := AC.Missing(order, spec.customDomains);
    var made := Creatable(Hosts(kept, k.ns), missing);
    && SameButStatus(store.(services := st.services, mappings := st.mappings), st, k)
    && FINALIZER_APP in st.apps[k].finalizers
    && ServiceSettled(store.services, st.services, k, spec)
    && Grown(kept, st.mappings, k, spec, made)
    && StatusFits(st.apps[k].status, st.services[k], made == missing)
  }

  lemma ListAnswered(store: Store, k: Key, order: seq<string>)
    requires Enumerates(order, MappingNames(store.mappings, k.ns, k.name))
    ensures Serve(store, ListMappings(k.ns, k.name), order) == (store.(clock := store.clock + 1), Listed(order))
  {
    hide MappingNames, Enumerates;
  }

  lemma ListResumes(app: App, order: seq<string>)
    ensures forall k :: AC.NextCall(k, AC.Pass(AC.MappingList, app)) == ListMappings(k.ns, k.name)
    ensures AC.Resume(AC.Pass(AC.MappingList, app), Listed(order))
         == AC.ToDelete(app, AC.Stale(order, app.spec.customDomains), AC.Missing(order, app.spec.customDomains))
  {
    hide AC.Stale, AC.Missing, AC.ToDelete;
  }

  lemma ListServed(store: Store, k: Key, order: seq<string>)
    requires k in store.apps && Enumerates(order, MappingNames(store.mappings, k.ns, k.name))
    ensures var domains := store.apps[k].spec.customDomains;
            && Finish(store, k, AC.Pass(AC.MappingList, store.apps[k]), order)
            == Finish(store.(clock := store.clock + 1), k,
                      AC.ToDelete(store.apps[k], AC.Stale(order, domains), AC.Missing(order, domains)), order)
  {
    FinishStep(store, k, AC.Pass(AC.MappingList, store.apps[k]), order);
    ListAnswered(store, k, order);
    ListResumes(store.apps[k], order);
    hide Finish, Serve, AC.NextCall, AC.Resume, AC.Stale, AC.Missing, AC.ToDelete, MappingNames, Enumerates;
  }

  lemma ListRuns(store: Store, k: Key, order: seq<string>) returns (st: Store)
    requires k in store.apps && Enumerates(order, MappingNames(store.mappings, k.ns, k.name))
    ensures var app := store.apps[k];
            var kept := store.mappings - KeysOf(k.ns, AC.Stale(order, app.spec.customDomains));
            var missing := AC.Missing(order, app.spec.customDomains);
            var made := Creatable(Hosts(kept, k.ns), missing);
            && st == store.(mappings := st.mappings, clock := st.clock)
            && Grown(kept, st.mappings, k, app.spec, made)
            && Finish(store, k, AC.Pass(AC.MappingList, app), order) == Finish(st, k, Outcome(app, made == missing), order)
  {
    var app := store.apps[k];
    var s1 := store.(clock := store.clock + 1);
    ListServed(store, k, order);
    hide Finish, AC.Stale, AC.Missing, AC.ToDelete, AC.ToCreate, MappingNames, Grown, Creatable, KeysOf, Hosts, Outcome;
    var s2 := DeletesRun(s1, k, app, AC.Stale(order, app.spec.customDomains), AC.Missing(order, app.spec.customDomains), order);
    st := CreatesRun(s2, k, app, AC.Missing(order, app.spec.customDomains), order);
  }

  lemma PassRuns(store: Store, k: Key, order: seq<string>)
    requires Healthy(store, k) && Enumerates(order, MappingNames(store.mappings, k.ns, k.name))
    ensures PassResult(store, OnePass(store, k, order), k, order)
  {
    hide OnePass, Finish, AC.Stale, AC.Missing, MappingNames, ServiceSettled, Grown, Creatable, KeysOf, Hosts, Outcome;
    var s1 := PrologueRuns(store, k, order);
    var s2 := ServiceRuns(s1, k, order);
    var s3 := ListRuns(s2, k, order);
    var missing := AC.Missing(order, store.apps[k].spec.customDomains);
    var kept := store.mappings - KeysOf(k.ns, AC.Stale(order, store.apps[k].spec.customDomains));
    var done := Creatable(Hosts(kept, k.ns), missing) == missing;
    EpilogueRuns(s3, k, done, order);
    var st := OnePass(store, k, order);
    assert SameButStatus(s3, st, k);
    assert store.(services := st.services, mappings := st.mappings).apps == store.apps;
    assert store.apps[k := st.apps[k]] == s1.apps[k := st.apps[k]];
  }
}
