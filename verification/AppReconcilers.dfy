/** The App controller's code, call by call (operator/controller/app_controller.go,
    operator/reconciler/knative.go, operator/reconciler/domain.go).  Each method is proved to take the pass of
    the machine from where it is called to where it returns, whatever happens around its calls. */
module AppReconcilers {
  import opened Options
  import opened Kube
  import opened ApiServer
  import opened Operator
  import opened Client
  import SP = SoloPass
  import CV = AppConvergence
  import AC = AppController

  // ----- knative.go -------------------------------------------------------------------------------------------------

  lemma EnvEntriesNext(env: seq<EnvVar>, i: nat)
    requires i < |env|
    ensures var e := env[i];
            AC.EnvEntries(env[..i + 1]) == AC.EnvEntries(env[..i])
            + [if e.secret.Some? then FromSecret(e.name, e.secret.value.name, e.secret.value.key) else Literal(e.name, e.value)]
  {
    assert env[..i + 1][..i] == env[..i];
  }

  lemma ServiceHeads(k: Key, app: App)
    ensures AC.NextCall(k, AC.Pass(AC.ServiceGet, app)) == GetService(k)
    ensures AC.NextCall(k, AC.Pass(AC.ServiceCreate, app)) == CreateService(k, AC.DesiredService(k, app.spec))
    ensures forall r: Response :: AC.Resume(AC.Pass(AC.ServiceGet, app), r) ==
              if r.GotService? then
                (if r.service.spec == AC.DesiredService(k, app.spec).spec then AC.Pass(AC.MappingList, app)
                 else AC.Pass(AC.ServiceUpdate(r.service), app))
              else if r.NotFound? then AC.Pass(AC.ServiceCreate, app) else AC.Fail(app, "KnativeServiceFailed")
    ensures forall r: Response :: AC.Resume(AC.Pass(AC.ServiceCreate, app), r) ==
              if r.Ok? then AC.Pass(AC.MappingList, app) else AC.Fail(app, "KnativeServiceFailed")
  {
    hide AC.DesiredServiceSpec, AC.ChildLabels;
  }

  lemma ServiceUpdateHead(k: Key, app: App, existing: Service)
    ensures var p := AC.Pass(AC.ServiceUpdate(existing), app);
            && AC.NextCall(k, p) == UpdateService(k, AC.DesiredService(k, app.spec).(
                                      annotations := AC.KeptAnnotations(existing.annotations), rv := existing.rv))
            && (forall r: Response :: AC.Resume(p, r) ==
                  if r.Ok? then AC.Pass(AC.MappingList, app) else AC.Fail(app, "KnativeServiceFailed"))
  {
    hide AC.DesiredServiceSpec, AC.ChildLabels, AC.KeptAnnotations;
  }

  lemma StatusHead(k: Key, app: App)
    ensures var p := AC.Pass(AC.StatusRead, app);
            && AC.NextCall(k, p) == GetService(k)
            && (forall r: Response :: AC.Resume(p, r) == AC.Pass(AC.StatusWrite, app.(status := AC.Observed(app.status, r))))
  {
    hide AC.Observed;
  }

  class KnativeReconciler {
    const client: Client

    constructor (client: Client)
      ensures this.client == client
    {
      this.client := client;
    }

    /** Makes the service exist and match the app's spec. */
    method Reconcile(k: Key, app: App) returns (failed: bool)
      requires client.AppAt(k, AC.Pass(AC.ServiceGet, app)) && client.ExclusiveApp(k)
      modifies client
      ensures client.AppAt(k, if failed then AC.Fail(app, "KnativeServiceFailed") else AC.Pass(AC.MappingList, app))
      ensures old(client.labels) <= client.labels && client.goal == old(client.goal) && client.begun == old(client.begun)
    {
      ServiceHeads(k, app);
      hide Client.AppAt, AC.Resume, AC.NextCall, AC.Fail, AC.DesiredService, AC.KeptAnnotations;
      var desired := BuildKnativeService(k, app);
      var got := client.AppCall(k, AC.Pass(AC.ServiceGet, app), GetService(k));
      if !got.GotService? {
        if !got.NotFound? {
          return true;
        }
        var created := client.AppCall(k, AC.Pass(AC.ServiceCreate, app), CreateService(k, desired));
        return !created.Ok?;
      }
      var existing := got.service;
      if existing.spec == desired.spec {
        return false;
      }
      var annotations := KeepAnnotations(existing.annotations);
      desired := desired.(annotations := annotations, rv := existing.rv);
      ServiceUpdateHead(k, app, existing);
      var updated := client.AppCall(k, AC.Pass(AC.ServiceUpdate(existing), app), UpdateService(k, desired));
      return !updated.Ok?;
    }

    /** Copies the two annotations that Knative owns. */
    method KeepAnnotations(existing: Labels) returns (kept: Labels)
      ensures kept == AC.KeptAnnotations(existing) && AC.KnativesOnly(kept, existing)
    {
      kept := map[];
      var keys := [CREATOR, LAST_MODIFIER];
      var i := 0;
      while i < |keys|
        invariant 0 <= i <= |keys|
        invariant kept == map key | key in existing && key in keys[..i] :: existing[key]
      {
        if keys[i] in existing {
          kept := kept[keys[i] := existing[keys[i]]];
        }
        assert keys[..i + 1] == keys[..i] + [keys[i]];
        i := i + 1;
      }
      assert forall key :: key in keys <==> key == CREATOR || key == LAST_MODIFIER;
      assert keys[..i] == keys;
    }

    /** Removes the service.  A paused pass ends here; a deletion pass goes on, whatever went wrong. */
    method Delete(k: Key, app: App, ghost p: AC.Pass)
      requires p == AC.Pass(AC.PausedGet, app) || p == AC.Pass(AC.CleanGet, app)
      requires client.AppAt(k, p) && client.ExclusiveApp(k)
      modifies client
      ensures client.AppAt(k, AC.AfterDelete(p))
      ensures old(client.labels) <= client.labels && client.goal == old(client.goal) && client.begun == old(client.begun)
    {
      AC.DeleteHeads(k, p);
      hide Client.AppAt, AC.Resume, AC.NextCall, AC.AfterDelete;
      var got := client.AppCall(k, p, GetService(k));
      if got.GotService? {
        var deleted := client.AppCall(k, AC.Removing(p), DeleteService(k));
      }
    }

    /** Reads what Knative reports: URL, latest revision, and whether some condition says Ready is True. */
    method GetStatus(k: Key, app: App) returns (url: string, revision: string, ready: bool)
      requires client.AppAt(k, AC.Pass(AC.StatusRead, app)) && client.ExclusiveApp(k)
      modifies client
      ensures client.AppAt(k, AC.Pass(AC.StatusWrite, app.(status := Reported(url, revision, ready))))
      ensures old(client.labels) <= client.labels && client.goal == old(client.goal) && client.begun == old(client.begun)
    {
      StatusHead(k, app);
      hide Client.AppAt, AC.Resume, AC.NextCall;
      var got := client.AppCall(k, AC.Pass(AC.StatusRead, app), GetService(k));
      url, revision, ready := "", "", false;
      if !got.GotService? || got.service.status == None {
        return;
      }
      var status := got.service.status.value;
      url, revision := status.url, status.latestRevision;
      var i := 0;
      while i < |status.conditions|
        invariant 0 <= i <= |status.conditions|
        invariant ready <==> ("Ready", "True") in status.conditions[..i]
      {
        if status.conditions[i].0 == "Ready" && status.conditions[i].1 == "True" {
          ready := true;
        }
        assert status.conditions[..i + 1] == status.conditions[..i] + [status.conditions[i]];
        i := i + 1;
      }
      assert status.conditions[..i] == status.conditions;
    }

    method BuildKnativeService(k: Key, app: App) returns (service: Service)
      ensures service == AC.DesiredService(k, app.spec)
      ensures AC.MadeFor(service, k, app.spec) && service.annotations == map[] && service.status == None
    {
      AC.NewServiceMeaning(k, app.spec);
      var env: seq<EnvEntry> := [];
      var i := 0;
      while i < |app.spec.env|
        invariant 0 <= i <= |app.spec.env|
        invariant env == AC.EnvEntries(app.spec.env[..i])
      {
        var e := app.spec.env[i];
        EnvEntriesNext(app.spec.env, i);
        if e.secret.Some? {
          env := env + [FromSecret(e.name, e.secret.value.name, e.secret.value.key)];
        } else {
          env := env + [Literal(e.name, e.value)];
        }
        i := i + 1;
      }
      assert app.spec.env[..i] == app.spec.env;
      var spec := ServiceSpec(app.spec.minInstances, app.spec.maxInstances, app.spec.targetConcurrency, app.spec.image,
                              app.spec.port, app.spec.cpuRequest, app.spec.memoryLimit, env);
      var labels := map[LABEL_MANAGED_BY := MANAGED_BY_VALUE, LABEL_APP := k.name, LABEL_TENANT := app.spec.tenantRef];
      service := Service(0, true, labels, map[], spec, None);
    }
  }

  /** The status the controller writes for what it read. */
  function Reported(url: string, revision: string, ready: bool): AppStatus {
    if ready then AppStatus(Ready, url, revision, Some(Condition(true, "KnativeServiceReady")))
    else AppStatus(Deploying, url, revision, Some(Condition(false, "KnativeServiceNotReady")))
  }

  // ----- domain.go --------------------------------------------------------------------------------------------------

  lemma StaleNext(listed: seq<string>, wanted: seq<string>, i: nat)
    requires i < |listed|
    ensures AC.Stale(listed[i..], wanted) == (if listed[i] in wanted then [] else [listed[i]]) + AC.Stale(listed[i + 1..], wanted)
  {
    assert listed[i..][1..] == listed[i + 1..];
  }

  lemma MissingNext(listed: seq<string>, wanted: seq<string>, i: nat)
    requires i < |wanted|
    ensures AC.Missing(listed, wanted[i..])
         == (if wanted[i] in listed then [] else [wanted[i]]) + AC.Missing(listed, wanted[i + 1..])
  {
    assert wanted[i..][1..] == wanted[i + 1..];
  }

  lemma DeleteHead(k: Key, app: App, host: string, rest: seq<string>, missing: seq<string>)
    ensures var p := AC.Pass(AC.MappingDelete(host, rest, missing), app);
            && AC.ToDelete(app, [host] + rest, missing) == p
            && AC.NextCall(k, p) == DeleteMapping(Key(k.ns, host))
            && (forall r: Response :: AC.Resume(p, r) ==
                  if r.Ok? || r.NotFound? then AC.ToDelete(app, rest, missing) else AC.Fail(app, "DomainMappingFailed"))
    ensures [] + rest == rest
  {
    assert ([host] + rest)[1..] == rest;
    hide AC.ToCreate;
  }

  lemma CreateHead(k: Key, app: App, host: string, rest: seq<string>)
    ensures var p := AC.Pass(AC.MappingCreate(host, rest), app);
            && AC.ToCreate(app, [host] + rest) == p
            && AC.NextCall(k, p) == CreateMapping(Key(k.ns, host), AC.DesiredMapping(k, app.spec))
            && (forall r: Response :: AC.Resume(p, r) == if r.Ok? then AC.ToCreate(app, rest) else AC.Fail(app, "DomainMappingFailed"))
    ensures [] + rest == rest
  {
    assert ([host] + rest)[1..] == rest;
  }

  class DomainReconciler {
    const client: Client

    constructor (client: Client)
      ensures this.client == client
    {
      this.client := client;
    }

    /** Deletes the app's mappings that are no longer wanted, then creates those that are missing. */
    method Reconcile(k: Key, app: App) returns (failed: bool)
      requires client.AppAt(k, AC.Pass(AC.MappingList, app)) && client.ExclusiveApp(k)
      modifies client
      ensures client.AppAt(k, if failed then AC.Fail(app, "DomainMappingFailed") else AC.Pass(AC.StatusRead, app))
      ensures old(client.labels) <= client.labels && client.goal == old(client.goal) && client.begun == old(client.begun)
    {
      AC.ListHead(k, app);
      hide Client.AppAt, AC.Resume, AC.NextCall, AC.ToDelete, AC.ToCreate, AC.Stale, AC.Missing, AC.Fail;
      var domains := app.spec.customDomains;
      var listed := client.AppCall(k, AC.Pass(AC.MappingList, app), ListMappings(k.ns, k.name));
      if !listed.Listed? {
        return true;
      }
      var desiredHosts := HostSet(domains);
      var existingHosts: set<string>;
      existingHosts, failed := DeleteStale(k, app, listed.names, desiredHosts);
      if !failed {
        failed := CreateMissing(k, app, listed.names, existingHosts);
      }
    }

    /** The loop over the listed mappings: notes their hosts and deletes those not desired. */
    method DeleteStale(k: Key, app: App, names: seq<string>, desiredHosts: set<string>)
      returns (existingHosts: set<string>, failed: bool)
      requires forall h :: h in desiredHosts <==> h in app.spec.customDomains
      requires client.AppAt(k, AC.ToDelete(app, AC.Stale(names, app.spec.customDomains), AC.Missing(names, app.spec.customDomains)))
      requires client.ExclusiveApp(k)
      modifies client
      ensures client.AppAt(k, if failed then AC.Fail(app, "DomainMappingFailed")
                              else AC.ToCreate(app, AC.Missing(names, app.spec.customDomains)))
      ensures !failed ==> existingHosts == set h | h in names
      ensures old(client.labels) <= client.labels && client.goal == old(client.goal) && client.begun == old(client.begun)
    {
      hide Client.AppAt, AC.Resume, AC.NextCall, AC.ToDelete, AC.ToCreate, AC.Stale, AC.Missing, AC.Fail;
      var domains := app.spec.customDomains;
      ghost var missing := AC.Missing(names, domains);
      existingHosts, failed := {}, false;
      var i := 0;
      assert names[0..] == names;
      while i < |names|
        invariant 0 <= i <= |names|
        invariant existingHosts == set h | h in names[..i]
        invariant client.AppAt(k, AC.ToDelete(app, AC.Stale(names[i..], domains), missing))
        invariant old(client.labels) <= client.labels && client.goal == old(client.goal) && client.begun == old(client.begun)
      {
        var host := names[i];
        assert names[..i + 1] == names[..i] + [host];
        existingHosts := existingHosts + {host};
        StaleNext(names, domains, i);
        ghost var rest := AC.Stale(names[i + 1..], domains);
        DeleteHead(k, app, host, rest, missing);
        if host !in desiredHosts {
          var r := client.AppCall(k, AC.Pass(AC.MappingDelete(host, rest, missing), app), DeleteMapping(Key(k.ns, host)));
          if !r.Ok? && !r.NotFound? {
            return existingHosts, true;
          }
        }
        i := i + 1;
      }
      NothingStale(names[i..], domains, app, missing);
      assert names[..i] == names;
    }

    /** The loop over the wanted hosts: creates those that were not there. */
    method CreateMissing(k: Key, app: App, ghost names: seq<string>, existingHosts: set<string>) returns (failed: bool)
      requires existingHosts == set h | h in names
      requires client.AppAt(k, AC.ToCreate(app, AC.Missing(names, app.spec.customDomains))) && client.ExclusiveApp(k)
      modifies client
      ensures client.AppAt(k, if failed then AC.Fail(app, "DomainMappingFailed") else AC.Pass(AC.StatusRead, app))
      ensures old(client.labels) <= client.labels && client.goal == old(client.goal) && client.begun == old(client.begun)
    {
      hide Client.AppAt, AC.Resume, AC.NextCall, AC.ToCreate, AC.Missing, AC.Fail, AC.DesiredMapping;
      var domains := app.spec.customDomains;
      var i := 0;
      assert domains[0..] == domains;
      while i < |domains|
        invariant 0 <= i <= |domains|
        invariant client.AppAt(k, AC.ToCreate(app, AC.Missing(names, domains[i..])))
        invariant old(client.labels) <= client.labels && client.goal == old(client.goal) && client.begun == old(client.begun)
      {
        var host := domains[i];
        MissingNext(names, domains, i);
        ghost var rest := AC.Missing(names, domains[i + 1..]);
        CreateHead(k, app, host, rest);
        if host !in existingHosts {
          var mapping := BuildDomainMapping(k, app);
          var r := client.AppCall(k, AC.Pass(AC.MappingCreate(host, rest), app), CreateMapping(Key(k.ns, host), mapping));
          if !r.Ok? {
            return true;
          }
        }
        i := i + 1;
      }
      NothingMissing(names, domains[i..], app);
      return false;
    }

    method HostSet(domains: seq<string>) returns (hosts: set<string>)
      ensures forall h :: h in hosts <==> h in domains
    {
      hosts := {};
      var i := 0;
      while i < |domains|
        invariant 0 <= i <= |domains|
        invariant forall h :: h in hosts <==> h in domains[..i]
      {
        assert domains[..i + 1] == domains[..i] + [domains[i]];
        hosts := hosts + {domains[i]};
        i := i + 1;
      }
      assert domains[..i] == domains;
    }

    /** Deletes every mapping of the app, giving up at the first that fails. */
    method Delete(k: Key, app: App)
      requires client.AppAt(k, AC.Pass(AC.CleanList, app)) && client.ExclusiveApp(k)
      modifies client
      ensures client.AppAt(k, AC.Pass(AC.CleanGet, app))
      ensures old(client.labels) <= client.labels && client.goal == old(client.goal) && client.begun == old(client.begun)
    {
      AC.CleanListHead(k, app);
      hide Client.AppAt, AC.Resume, AC.NextCall, AC.ToClean;
      var listed := client.AppCall(k, AC.Pass(AC.CleanList, app), ListMappings(k.ns, k.name));
      if !listed.Listed? {
        return;
      }
      var names := listed.names;
      var i := 0;
      assert names[0..] == names;
      while i < |names|
        invariant 0 <= i <= |names|
        invariant client.AppAt(k, AC.ToClean(app, names[i..]))
        invariant old(client.labels) <= client.labels && client.goal == old(client.goal) && client.begun == old(client.begun)
      {
        AC.CleanHead(k, app, names, i);
        var r := client.AppCall(k, AC.Pass(AC.CleanMapping(names[i], names[i + 1..]), app), DeleteMapping(Key(k.ns, names[i])));
        if !r.Ok? && !r.NotFound? {
          return;
        }
        i := i + 1;
      }
      NothingLeft(app, names[i..]);
    }

    method BuildDomainMapping(k: Key, app: App) returns (mapping: Mapping)
      ensures mapping == AC.DesiredMapping(k, app.spec) && AC.LeadsTo(mapping, k, app.spec)
    {
      AC.LeadsToExactly(AC.DesiredMapping(k, app.spec), k, app.spec);
      mapping := Mapping(0, true,
        map[LABEL_MANAGED_BY := MANAGED_BY_VALUE, LABEL_APP := k.name, LABEL_TENANT := app.spec.tenantRef], k.name);
    }
  }

  lemma NothingLeft(app: App, left: seq<string>)
    requires left == []
    ensures AC.ToClean(app, left) == AC.Pass(AC.CleanGet, app)
  {
  }

  lemma NothingStale(listed: seq<string>, wanted: seq<string>, app: App, missing: seq<string>)
    requires listed == []
    ensures AC.ToDelete(app, AC.Stale(listed, wanted), missing) == AC.ToCreate(app, missing)
  {
  }

  lemma NothingMissing(listed: seq<string>, wanted: seq<string>, app: App)
    requires wanted == []
    ensures AC.ToCreate(app, AC.Missing(listed, wanted)) == AC.Pass(AC.StatusRead, app)
  {
  }

  // ----- app_controller.go ------------------------------------------------------------------------------------------

  lemma MarkDeployingHead(k: Key, app: App)
    ensures var p := AC.Pass(AC.MarkDeploying, app);
            && AC.NextCall(k, p) == UpdateAppStatus(k, app)
            && (forall r: Response :: AC.Resume(p, r) ==
                  if r.GotApp? then AC.Pass(AC.CheckTenant, r.app) else AC.Pass(AC.Finished, app))
  {
  }

  lemma CheckTenantHead(k: Key, app: App)
    ensures var p := AC.Pass(AC.CheckTenant, app);
            && AC.NextCall(k, p) == GetTenant(app.spec.tenantRef)
            && (forall r: Response :: AC.Resume(p, r) ==
                  if r.GotTenant? then AC.Pass(AC.ServiceGet, app)
                  else if r.NotFound? then AC.Fail(app, "TenantNotFound")
                  else AC.Pass(AC.Finished, app))
  {
  }

  lemma MarkPausedHead(k: Key, read: App)
    requires read.spec.paused
    ensures var p := AC.Pass(AC.MarkPaused, read.(status := read.status.(phase := Paused)));
            && AC.AfterPending(read) == p
            && AC.NextCall(k, p) == UpdateAppStatus(k, p.app)
            && (forall r: Response :: AC.Resume(p, r) ==
                  if r.GotApp? then AC.Pass(AC.PausedGet, r.app) else AC.Pass(AC.Finished, p.app))
    ensures forall app: App :: AC.AfterDelete(AC.Pass(AC.PausedGet, app)) == AC.Pass(AC.Finished, app)
  {
  }

  lemma DeletionHeads(read: App)
    requires read.deleting
    ensures AC.AfterGet(read) == AC.Pass(AC.CleanList, read)
    ensures AC.AfterDelete(AC.Pass(AC.CleanGet, read)) == AC.ToDrop(read)
  {
  }

  /** The calls that make sure of the finalizer and of a phase. */
  lemma PrepareHeads(k: Key, app: App)
    ensures AC.NextCall(k, AC.Pass(AC.AddFinalizer, app)) == UpdateApp(k, app)
    ensures AC.NextCall(k, AC.Pass(AC.MarkPending, app)) == UpdateAppStatus(k, app)
    ensures forall r: Response ::
              && AC.Resume(AC.Pass(AC.AddFinalizer, app), r)
                 == (if r.GotApp? then AC.AfterFinalizer(r.app) else AC.Pass(AC.Finished, app))
              && AC.Resume(AC.Pass(AC.MarkPending, app), r)
                 == (if r.GotApp? then AC.AfterPending(r.app) else AC.Pass(AC.Finished, app))
  {
    hide AC.AfterFinalizer, AC.AfterPending;
  }

  /** The last calls: a status, or the app without the finalizer. */
  lemma LastHeads(k: Key, app: App, reason: string)
    ensures AC.NextCall(k, AC.Pass(AC.StatusWrite, app)) == UpdateAppStatus(k, app)
    ensures AC.NextCall(k, AC.Fail(app, reason)) == UpdateAppStatus(k, AC.Fail(app, reason).app)
    ensures AC.NextCall(k, AC.ToDrop(app)) == UpdateApp(k, AC.ToDrop(app).app)
    ensures forall r: Response ::
              && AC.Resume(AC.Pass(AC.StatusWrite, app), r) == AC.Pass(AC.Finished, app)
              && AC.Resume(AC.Fail(app, reason), r) == AC.Pass(AC.Finished, AC.Fail(app, reason).app)
              && AC.Resume(AC.ToDrop(app), r) == AC.Pass(AC.Finished, AC.ToDrop(app).app)
  {
  }

  class AppReconciler {
    const client: Client
    const knative: KnativeReconciler
    const domains: DomainReconciler

    constructor (client: Client)
      ensures this.client == client && knative.client == client && domains.client == client
      ensures fresh(knative) && fresh(domains)
    {
      this.client := client;
      knative := new KnativeReconciler(client);
      domains := new DomainReconciler(client);
    }

    ghost predicate Wired() {
      knative.client == client && domains.client == client
    }

    /** One pass, from reading the app to its last write.  Whatever others do in between and whichever calls
        fail, what happened is a run of the machine in which this app's controller made exactly one whole pass,
        started here, carried through call by call and never abandoned; and if nobody else moved and every
        call was answered, the cluster is as a solo pass leaves it. */
    method Reconcile(k: Key)
      requires Wired() && client.Valid() && AppIdle(client.state, k) && client.ExclusiveApp(k)
      modifies client
      ensures client.Valid() && AppIdle(client.state, k) && old(client.labels) <= client.labels
      ensures OneAppPass(client.origin, client.labels, |old(client.labels)|, k)
      ensures client.Alone() ==> client.state.store == SP.OnePass(old(client.state.store), k, client.order)
      ensures var was := old(client.state.store);
              client.Alone() && SP.Healthy(was, k) && Enumerates(client.order, MappingNames(was.mappings, k.ns, k.name)) ==>
                CV.PassResult(was, client.state.store, k, client.order)
    {
      if SP.Healthy(client.state.store, k)
        && Enumerates(client.order, MappingNames(client.state.store.mappings, k.ns, k.name)) {
        CV.PassRuns(client.state.store, k, client.order);
      }
      hide SP.OnePass, SP.Healthy, Run, AppIdle, Client.AppAt, CV.PassResult, MappingNames, Enumerates;
      client.BeginApp(k);
      Handle(k);
    }

    /** Reads the app and does what its state asks for. */
    method Handle(k: Key)
      requires Wired() && client.AppAt(k, AC.NewPass) && client.ExclusiveApp(k)
      modifies client
      ensures client.AppDone(k)
      ensures old(client.labels) <= client.labels && client.goal == old(client.goal) && client.begun == old(client.begun)
    {
      AC.GetHead(k);
      hide Client.AppAt, Run, AppIdle, AC.Resume, AC.NextCall, AC.AfterGet;
      var got := client.AppCall(k, AC.NewPass, GetApp(k));
      if !got.GotApp? {
        PassOver(k, AC.NewPass.app);
        return;
      }
      var app := got.app;
      if app.deleting {
        ReconcileDelete(k, app);
        return;
      }
      var gone: bool;
      app, gone := Prepare(k, app);
      if gone {
        return;
      }
      if app.spec.paused {
        Pause(k, app);
      } else {
        Deploy(k, app);
      }
    }

    /** The pass has made its last call. */
    ghost method PassOver(k: Key, app: App)
      requires client.AppAt(k, AC.Pass(AC.Finished, app))
      ensures client.AppDone(k)
    {
      SP.FinishEnds(client.state.store, k, AC.Pass(AC.Finished, app), client.order);
      hide SP.Finish, Run;
    }

    /** Adds the finalizer and the first phase where they are absent. */
    method Prepare(k: Key, read: App) returns (app: App, gone: bool)
      requires Wired() && client.AppAt(k, AC.AfterGet(read)) && !read.deleting && client.ExclusiveApp(k)
      modifies client
      ensures client.Valid() && old(client.labels) <= client.labels && client.goal == old(client.goal) && client.begun == old(client.begun)
      ensures !gone ==> client.AppAt(k, AC.AfterPending(app))
      ensures gone ==> client.AppDone(k)
    {
      hide Client.AppAt, Run, AppIdle, AC.Resume, AC.NextCall, AC.AfterPending, OneAppPass;
      app, gone := read, false;
      if FINALIZER_APP !in app.finalizers {
        app := app.(finalizers := app.finalizers + {FINALIZER_APP});
        PrepareHeads(k, app);
        var r := client.AppCall(k, AC.Pass(AC.AddFinalizer, app), UpdateApp(k, app));
        if !r.GotApp? {
          PassOver(k, app);
          return app, true;
        }
        app := r.app;
      }
      if app.status.phase == Unset {
        app := app.(status := app.status.(phase := Pending));
        PrepareHeads(k, app);
        var r := client.AppCall(k, AC.Pass(AC.MarkPending, app), UpdateAppStatus(k, app));
        if !r.GotApp? {
          PassOver(k, app);
          return app, true;
        }
        app := r.app;
      }
      StillValid(k, AC.AfterPending(app));
    }

    ghost method StillValid(k: Key, p: AC.Pass)
      requires client.AppAt(k, p)
      ensures client.Valid()
    {
    }

    /** A paused app loses its service; its conditions stay, and a failed delete is not tried again. */
    method Pause(k: Key, read: App)
      requires Wired() && client.AppAt(k, AC.AfterPending(read)) && read.spec.paused && client.ExclusiveApp(k)
      modifies client
      ensures client.AppDone(k)
      ensures old(client.labels) <= client.labels && client.goal == old(client.goal) && client.begun == old(client.begun)
    {
      MarkPausedHead(k, read);
      hide Client.AppAt, Run, AppIdle, AC.Resume, AC.NextCall, AC.AfterPending, AC.AfterDelete;
      var app := read.(status := read.status.(phase := Paused));
      var r := client.AppCall(k, AC.Pass(AC.MarkPaused, app), UpdateAppStatus(k, app));
      if !r.GotApp? {
        PassOver(k, app);
        return;
      }
      app := r.app;
      knative.Delete(k, app, AC.Pass(AC.PausedGet, app));
      PassOver(k, app);
    }

    /** Brings service and mappings in line and reports. */
    method Deploy(k: Key, read: App)
      requires Wired() && client.AppAt(k, AC.AfterPending(read)) && !read.spec.paused && client.ExclusiveApp(k)
      modifies client
      ensures client.AppDone(k)
      ensures old(client.labels) <= client.labels && client.goal == old(client.goal) && client.begun == old(client.begun)
    {
      var app := read;
      assert AC.AfterPending(app) == (if app.status.phase == Pending then AC.Pass(AC.MarkDeploying, AC.Phased(app, Deploying))
                                      else AC.Pass(AC.CheckTenant, app));
      hide Client.AppAt, Run, AppIdle, AC.Resume, AC.NextCall, AC.AfterPending, AC.Fail;
      if app.status.phase == Pending {
        app := app.(status := app.status.(phase := Deploying));
        MarkDeployingHead(k, app);
        var r := client.AppCall(k, AC.Pass(AC.MarkDeploying, app), UpdateAppStatus(k, app));
        if !r.GotApp? {
          PassOver(k, app);
          return;
        }
        app := r.app;
      }
      CheckTenant(k, app);
    }

    /** Without the tenant the app fails; otherwise the children follow. */
    method CheckTenant(k: Key, app: App)
      requires Wired() && client.AppAt(k, AC.Pass(AC.CheckTenant, app)) && client.ExclusiveApp(k)
      modifies client
      ensures client.AppDone(k)
      ensures old(client.labels) <= client.labels && client.goal == old(client.goal) && client.begun == old(client.begun)
    {
      CheckTenantHead(k, app);
      hide Client.AppAt, Run, AppIdle, AC.Resume, AC.NextCall, AC.Fail;
      var tenant := client.AppCall(k, AC.Pass(AC.CheckTenant, app), GetTenant(app.spec.tenantRef));
      if tenant.NotFound? {
        SetFailed(k, app, "TenantNotFound");
      } else if !tenant.GotTenant? {
        PassOver(k, app);
      } else {
        BringInLine(k, app);
      }
    }

    method BringInLine(k: Key, app: App)
      requires Wired() && client.AppAt(k, AC.Pass(AC.ServiceGet, app)) && client.ExclusiveApp(k)
      modifies client
      ensures client.AppDone(k)
      ensures old(client.labels) <= client.labels && client.goal == old(client.goal) && client.begun == old(client.begun)
    {
      hide Client.AppAt, Run, AppIdle, AC.Fail;
      var failed := knative.Reconcile(k, app);
      if failed {
        SetFailed(k, app, "KnativeServiceFailed");
        return;
      }
      failed := domains.Reconcile(k, app);
      if failed {
        SetFailed(k, app, "DomainMappingFailed");
        return;
      }
      Report(k, app);
    }

    method Report(k: Key, read: App)
      requires Wired() && client.AppAt(k, AC.Pass(AC.StatusRead, read)) && client.ExclusiveApp(k)
      modifies client
      ensures client.AppDone(k)
      ensures old(client.labels) <= client.labels && client.goal == old(client.goal) && client.begun == old(client.begun)
    {
      hide Client.AppAt, Run, AppIdle, AC.Resume, AC.NextCall;
      var app := read;
      var url, revision, ready := knative.GetStatus(k, app);
      app := app.(status := app.status.(url := url, latestRevision := revision));
      if ready {
        app := app.(status := app.status.(phase := Ready, ready := Some(Condition(true, "KnativeServiceReady"))));
      } else {
        app := app.(status := app.status.(phase := Deploying, ready := Some(Condition(false, "KnativeServiceNotReady"))));
      }
      LastHeads(k, app, "");
      var r := client.AppCall(k, AC.Pass(AC.StatusWrite, app), UpdateAppStatus(k, app));
      PassOver(k, app);
    }

    /** Deletes the children, drops the finalizer even if that failed, and is done. */
    method ReconcileDelete(k: Key, read: App)
      requires Wired() && client.AppAt(k, AC.AfterGet(read)) && read.deleting && client.ExclusiveApp(k)
      modifies client
      ensures client.AppDone(k)
      ensures old(client.labels) <= client.labels && client.goal == old(client.goal) && client.begun == old(client.begun)
    {
      hide Client.AppAt, Run, AppIdle, AC.Resume, AC.NextCall, AC.AfterGet, AC.AfterDelete, AC.Fail, OneAppPass;
      DeletionHeads(read);
      LastHeads(k, read, "");
      domains.Delete(k, read);
      knative.Delete(k, read, AC.Pass(AC.CleanGet, read));
      var app := read.(finalizers := read.finalizers - {FINALIZER_APP});
      var r := client.AppCall(k, AC.ToDrop(read), UpdateApp(k, app));
      PassOver(k, app);
    }

    method SetFailed(k: Key, read: App, reason: string)
      requires Wired() && client.AppAt(k, AC.Fail(read, reason)) && client.ExclusiveApp(k)
      modifies client
      ensures client.AppDone(k)
      ensures old(client.labels) <= client.labels && client.goal == old(client.goal) && client.begun == old(client.begun)
    {
      hide SP.Finish, Run;
      var app := read.(status := read.status.(phase := AppPhase.Failed, ready := Some(Condition(false, reason))));
      var r := client.AppCall(k, AC.Pass(AC.FailureWrite, app), UpdateAppStatus(k, app));
      PassOver(k, app);
    }
  }
}
