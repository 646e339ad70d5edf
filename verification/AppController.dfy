/** One reconciliation pass of the App controller as a machine that stops at every client call
    (operator/controller/app_controller.go with operator/reconciler/knative.go and domain.go).  `NextCall`
    is the call a pass is about to make, `Resume` what the controller does with the answer. */
module AppController {
  import opened Options
  import opened Kube
  import opened ApiServer

  datatype Pc =
    | Get | AddFinalizer | MarkPending | MarkPaused | PausedGet | PausedDelete | MarkDeploying | CheckTenant
    | ServiceGet | ServiceCreate | ServiceUpdate(existing: Service)
    | MappingList | MappingDelete(host: string, stale: seq<string>, missing: seq<string>)
    | MappingCreate(host: string, missing: seq<string>)
    | StatusRead | StatusWrite | FailureWrite
    | CleanList | CleanMapping(host: string, left: seq<string>) | CleanGet | CleanDelete | DropFinalizer
    | Finished

  /** A pass in flight: where it stands and its copy of the App. */
  datatype Pass = Pass(pc: Pc, app: App)

  const NewPass := Pass(Get, App(0, false, {}, AppSpec("", "", 0, [], 0, 0, 0, "", "", [], false), NewAppStatus))

  // ----- desired children -----------------------------------------------------------------------------------

  function ChildLabels(k: Key, spec: AppSpec): Labels {
    map[LABEL_MANAGED_BY := MANAGED_BY_VALUE, LABEL_APP := k.name, LABEL_TENANT := spec.tenantRef]
  }

  function EnvEntries(env: seq<EnvVar>): (r: seq<EnvEntry>)
    ensures |r| == |env|
  {
    if env == [] then []
    else
      var e := env[|env| - 1];
      EnvEntries(env[..|env| - 1])
      + [if e.secret.Some? then FromSecret(e.name, e.secret.value.name, e.secret.value.key) else Literal(e.name, e.value)]
  }

  function DesiredServiceSpec(spec: AppSpec): ServiceSpec {
    ServiceSpec(spec.minInstances, spec.maxInstances, spec.targetConcurrency, spec.image, spec.port,
                spec.cpuRequest, spec.memoryLimit, EnvEntries(spec.env))
  }

  /** The service runs what the app's spec says: the scaling bounds and target, the image and port, the CPU and memory,
      and one variable for each of the spec's in the same place, read from the secret where it names one. */
  predicate Renders(svc: ServiceSpec, spec: AppSpec) {
    && svc.minScale == spec.minInstances && svc.maxScale == spec.maxInstances && svc.target == spec.targetConcurrency
    && svc.image == spec.image && svc.port == spec.port
    && svc.cpu == spec.cpuRequest && svc.memory == spec.memoryLimit
    && |svc.env| == |spec.env|
    && forall i | 0 <= i < |spec.env| ::
         var e := spec.env[i];
         svc.env[i] == if e.secret.Some? then FromSecret(e.name, e.secret.value.name, e.secret.value.key) else Literal(e.name, e.value)
  }

  lemma {:induction false} EnvEntryAt(env: seq<EnvVar>, i: nat)
    requires i < |env|
    ensures var e := env[i];
            EnvEntries(env)[i]
            == if e.secret.Some? then FromSecret(e.name, e.secret.value.name, e.secret.value.key) else Literal(e.name, e.value)
  {
    if i < |env| - 1 {
      EnvEntryAt(env[..|env| - 1], i);
    }
  }

  lemma RendersExactly(svc: ServiceSpec, spec: AppSpec)
    ensures svc == DesiredServiceSpec(spec) <==> Renders(svc, spec)
  {
    hide EnvEntries;
    forall i: nat | i < |spec.env|
      ensures var e := spec.env[i];
              EnvEntries(spec.env)[i]
              == if e.secret.Some? then FromSecret(e.name, e.secret.value.name, e.secret.value.key) else Literal(e.name, e.value)
    {
      EnvEntryAt(spec.env, i);
    }
  }

  function DesiredService(k: Key, spec: AppSpec): Service {
    Service(0, true, ChildLabels(k, spec), map[], DesiredServiceSpec(spec), None)
  }

  /** The annotations Knative set on the service and does not let anyone change. */
  function KeptAnnotations(annotations: Labels): Labels {
    map key | key in annotations && (key == CREATOR || key == LAST_MODIFIER) :: annotations[key]
  }

  function ReplacedService(k: Key, spec: AppSpec, existing: Service): Service {
    DesiredService(k, spec).(rv := existing.rv, annotations := KeptAnnotations(existing.annotations))
  }

  function DesiredMapping(k: Key, spec: AppSpec): Mapping {
    Mapping(0, true, ChildLabels(k, spec), k.name)
  }

  /** The labels name the operator, the app and its tenant, and nothing else. */
  predicate OwnLabels(labels: Labels, k: Key, spec: AppSpec) {
    && labels.Keys == {LABEL_MANAGED_BY, LABEL_APP, LABEL_TENANT}
    && labels[LABEL_MANAGED_BY] == "kuberless" && labels[LABEL_APP] == k.name && labels[LABEL_TENANT] == spec.tenantRef
  }

  lemma OwnLabelsExactly(labels: Labels, k: Key, spec: AppSpec)
    ensures labels == ChildLabels(k, spec) <==> OwnLabels(labels, k, spec)
  {
    assert LABEL_APP != LABEL_TENANT by {
      assert LABEL_APP[13] == 'a' && LABEL_TENANT[13] == 't';
    }
    assert LABEL_MANAGED_BY[0] == 'a' && LABEL_APP[0] == 'k' && LABEL_TENANT[0] == 'k';
  }

  /** A mapping the operator wrote for the app: it leads to the service of the app's name. */
  predicate LeadsTo(m: Mapping, k: Key, spec: AppSpec) {
    m.made && m.ref == k.name && OwnLabels(m.labels, k, spec)
  }

  lemma LeadsToExactly(m: Mapping, k: Key, spec: AppSpec)
    ensures m == DesiredMapping(k, spec).(rv := m.rv) <==> LeadsTo(m, k, spec)
  {
    OwnLabelsExactly(m.labels, k, spec);
    hide OwnLabels, ChildLabels;
  }

  /** Of the old annotations, those in which Knative records who made the service and who changed it last. */
  ghost predicate KnativesOnly(after: Labels, before: Labels) {
    forall key ::
      && (key in after <==> key in before && (key == CREATOR || key == LAST_MODIFIER))
      && (key in after ==> after[key] == before[key])
  }

  /** A service the operator wrote for the app. */
  predicate MadeFor(svc: Service, k: Key, spec: AppSpec) {
    svc.made && OwnLabels(svc.labels, k, spec) && Renders(svc.spec, spec)
  }

  lemma NewServiceMeaning(k: Key, spec: AppSpec)
    ensures MadeFor(DesiredService(k, spec), k, spec)
    ensures DesiredService(k, spec).annotations == map[] && DesiredService(k, spec).status == None
  {
    OwnLabelsExactly(ChildLabels(k, spec), k, spec);
    RendersExactly(DesiredServiceSpec(spec), spec);
    hide OwnLabels, ChildLabels, Renders, DesiredServiceSpec;
  }

  lemma ReplacementMeaning(k: Key, spec: AppSpec, existing: Service)
    ensures MadeFor(ReplacedService(k, spec, existing), k, spec)
    ensures KnativesOnly(ReplacedService(k, spec, existing).annotations, existing.annotations)
  {
    NewServiceMeaning(k, spec);
    hide MadeFor, DesiredService;
    assert MadeFor(ReplacedService(k, spec, existing), k, spec) by {
      MadeForParts(DesiredService(k, spec), ReplacedService(k, spec, existing), k, spec);
    }
  }

  lemma ReplacementKeepsVersion(k: Key, spec: AppSpec, existing: Service)
    ensures ReplacedService(k, spec, existing).rv == existing.rv
  {
    hide DesiredService, KeptAnnotations;
  }

  lemma MadeForParts(a: Service, b: Service, k: Key, spec: AppSpec)
    requires MadeFor(a, k, spec) && b.made == a.made && b.labels == a.labels && b.spec == a.spec
    ensures MadeFor(b, k, spec)
  {
    hide OwnLabels, Renders;
  }

  /** Listed hosts that are no longer wanted, in list order. */
  function Stale(listed: seq<string>, wanted: seq<string>): (r: seq<string>)
    ensures forall h :: h in r <==> h in listed && h !in wanted
  {
    if listed == [] then []
    else (if listed[0] in wanted then [] else [listed[0]]) + Stale(listed[1..], wanted)
  }

  /** Wanted hosts that were not listed, in spec order and with the spec's repetitions. */
  function Missing(listed: seq<string>, wanted: seq<string>): (r: seq<string>)
    ensures forall h :: h in r <==> h in wanted && h !in listed
  {
    if wanted == [] then []
    else (if wanted[0] in listed then [] else [wanted[0]]) + Missing(listed, wanted[1..])
  }

  /** What is listed earlier goes earlier, and what the spec names earlier comes earlier. */
  lemma {:induction false} StaleInOrder(a: seq<string>, b: seq<string>, wanted: seq<string>)
    ensures Stale(a + b, wanted) == Stale(a, wanted) + Stale(b, wanted)
  {
    if a == [] {
      assert a + b == b && Stale(a, wanted) + Stale(b, wanted) == Stale(b, wanted);
    } else {
      assert (a + b)[1..] == a[1..] + b;
      StaleInOrder(a[1..], b, wanted);
    }
  }

  lemma {:induction false} MissingInOrder(listed: seq<string>, a: seq<string>, b: seq<string>)
    ensures Missing(listed, a + b) == Missing(listed, a) + Missing(listed, b)
  {
    if a == [] {
      assert a + b == b && Missing(listed, a) + Missing(listed, b) == Missing(listed, b);
    } else {
      assert (a + b)[1..] == a[1..] + b;
      MissingInOrder(listed, a[1..], b);
    }
  }

  // ----- readiness ----------------------------------------------------------------------------------------

  predicate IsReady(svc: Service) {
    svc.status.Some? && ("Ready", "True") in svc.status.value.conditions
  }

  /** The status a pass reports after reading the service. */
  function Observed(status: AppStatus, r: Response): AppStatus {
    var known := r.GotService? && r.service.status.Some?;
    var url := if known then r.service.status.value.url else "";
    var revision := if known then r.service.status.value.latestRevision else "";
    if r.GotService? && IsReady(r.service) then AppStatus(Ready, url, revision, Some(Condition(true, "KnativeServiceReady")))
    else AppStatus(Deploying, url, revision, Some(Condition(false, "KnativeServiceNotReady")))
  }

  // ----- the pass -----------------------------------------------------------------------------------------

  function NextCall(k: Key, p: Pass): Call
    requires !p.pc.Finished?
  {
    match p.pc
    case Get => GetApp(k)
    case AddFinalizer => UpdateApp(k, p.app)
    case MarkPending => UpdateAppStatus(k, p.app)
    case MarkPaused => UpdateAppStatus(k, p.app)
    case PausedGet => GetService(k)
    case PausedDelete => DeleteService(k)
    case MarkDeploying => UpdateAppStatus(k, p.app)
    case CheckTenant => GetTenant(p.app.spec.tenantRef)
    case ServiceGet => GetService(k)
    case ServiceCreate => CreateService(k, DesiredService(k, p.app.spec))
    case ServiceUpdate(existing) => UpdateService(k, ReplacedService(k, p.app.spec, existing))
    case MappingList => ListMappings(k.ns, k.name)
    case MappingDelete(host, _, _) => DeleteMapping(Key(k.ns, host))
    case MappingCreate(host, _) => CreateMapping(Key(k.ns, host), DesiredMapping(k, p.app.spec))
    case StatusRead => GetService(k)
    case StatusWrite => UpdateAppStatus(k, p.app)
    case FailureWrite => UpdateAppStatus(k, p.app)
    case CleanList => ListMappings(k.ns, k.name)
    case CleanMapping(host, _) => DeleteMapping(Key(k.ns, host))
    case CleanGet => GetService(k)
    case CleanDelete => DeleteService(k)
    case DropFinalizer => UpdateApp(k, p.app)
  }

  function Phased(app: App, phase: AppPhase): App {
    app.(status := app.status.(phase := phase))
  }

  function Fail(app: App, reason: string): Pass {
    Pass(FailureWrite, app.(status := app.status.(phase := AppPhase.Failed, ready := Some(Condition(false, reason)))))
  }

  function AfterGet(app: App): Pass {
    if app.deleting then Pass(CleanList, app)
    else if FINALIZER_APP !in app.finalizers then
      Pass(AddFinalizer, app.(finalizers := app.finalizers + {FINALIZER_APP}))
    else AfterFinalizer(app)
  }

  function AfterFinalizer(app: App): Pass {
    if app.status.phase == Unset then Pass(MarkPending, Phased(app, Pending)) else AfterPending(app)
  }

  function AfterPending(app: App): Pass {
    if app.spec.paused then Pass(MarkPaused, Phased(app, Paused))
    else if app.status.phase == Pending then Pass(MarkDeploying, Phased(app, Deploying))
    else Pass(CheckTenant, app)
  }

  function ToDelete(app: App, stale: seq<string>, missing: seq<string>): Pass {
    if stale == [] then ToCreate(app, missing) else Pass(MappingDelete(stale[0], stale[1..], missing), app)
  }

  function ToCreate(app: App, missing: seq<string>): Pass {
    if missing == [] then Pass(StatusRead, app) else Pass(MappingCreate(missing[0], missing[1..]), app)
  }

  function ToClean(app: App, left: seq<string>): Pass {
    if left == [] then Pass(CleanGet, app) else Pass(CleanMapping(left[0], left[1..]), app)
  }

  function ToDrop(app: App): Pass {
    Pass(DropFinalizer, app.(finalizers := app.finalizers - {FINALIZER_APP}))
  }

  function Resume(p: Pass, r: Response): Pass
    requires !p.pc.Finished?
  {
    var done := Pass(Finished, p.app);
    match p.pc
    case Get => if r.GotApp? then AfterGet(r.app) else done
    case AddFinalizer => if r.GotApp? then AfterFinalizer(r.app) else done
    case MarkPending => if r.GotApp? then AfterPending(r.app) else done
    case MarkPaused => if r.GotApp? then Pass(PausedGet, r.app) else done
    case PausedGet => if r.GotService? then Pass(PausedDelete, p.app) else done
    case PausedDelete => done
    case MarkDeploying => if r.GotApp? then Pass(CheckTenant, r.app) else done
    case CheckTenant =>
      if r.GotTenant? then Pass(ServiceGet, p.app)
      else if r.NotFound? then Fail(p.app, "TenantNotFound")
      else done
    case ServiceGet =>
      if r.GotService? then
        if r.service.spec == DesiredServiceSpec(p.app.spec) then Pass(MappingList, p.app)
        else Pass(ServiceUpdate(r.service), p.app)
      else if r.NotFound? then Pass(ServiceCreate, p.app)
      else Fail(p.app, "KnativeServiceFailed")
    case ServiceCreate => if r.Ok? then Pass(MappingList, p.app) else Fail(p.app, "KnativeServiceFailed")
    case ServiceUpdate(_) => if r.Ok? then Pass(MappingList, p.app) else Fail(p.app, "KnativeServiceFailed")
    case MappingList =>
      if r.Listed? then
        ToDelete(p.app, Stale(r.names, p.app.spec.customDomains), Missing(r.names, p.app.spec.customDomains))
      else Fail(p.app, "DomainMappingFailed")
    case MappingDelete(_, stale, missing) =>
      if r.Ok? || r.NotFound? then ToDelete(p.app, stale, missing) else Fail(p.app, "DomainMappingFailed")
    case MappingCreate(_, missing) => if r.Ok? then ToCreate(p.app, missing) else Fail(p.app, "DomainMappingFailed")
    case StatusRead => Pass(StatusWrite, p.app.(status := Observed(p.app.status, r)))
    case StatusWrite => done
    case FailureWrite => done
    case CleanList => if r.Listed? then ToClean(p.app, r.names) else Pass(CleanGet, p.app)
    case CleanMapping(_, left) => if r.Ok? || r.NotFound? then ToClean(p.app, left) else Pass(CleanGet, p.app)
    case CleanGet => if r.GotService? then Pass(CleanDelete, p.app) else ToDrop(p.app)
    case CleanDelete => ToDrop(p.app)
    case DropFinalizer => done
  }

  // ----- calls and answers ---------------------------------------------------------------------------------

  lemma GetHead(k: Key)
    ensures !NewPass.pc.Finished? && NextCall(k, NewPass) == GetApp(k)
    ensures forall r: Response :: Resume(NewPass, r) ==
              if r.GotApp? then AfterGet(r.app) else Pass(Finished, NewPass.app)
  {
  }

  lemma CleanListHead(k: Key, app: App)
    ensures var p := Pass(CleanList, app);
            && NextCall(k, p) == ListMappings(k.ns, k.name)
            && (forall r: Response :: Resume(p, r) == if r.Listed? then ToClean(app, r.names) else Pass(CleanGet, app))
  {
    hide ToClean;
  }

  lemma CleanHead(k: Key, app: App, left: seq<string>, i: nat)
    requires i < |left|
    ensures var p := Pass(CleanMapping(left[i], left[i + 1..]), app);
            && ToClean(app, left[i..]) == p
            && NextCall(k, p) == DeleteMapping(Key(k.ns, left[i]))
            && (forall r: Response :: Resume(p, r) ==
                  if r.Ok? || r.NotFound? then ToClean(app, left[i + 1..]) else Pass(CleanGet, app))
  {
    assert left[i..][1..] == left[i + 1..];
  }

  /** Where a pass goes once the service is dealt with. */
  function AfterDelete(p: Pass): Pass {
    if p.pc.PausedGet? || p.pc.PausedDelete? then Pass(Finished, p.app) else ToDrop(p.app)
  }

  function Removing(p: Pass): Pass {
    Pass(if p.pc.PausedGet? then PausedDelete else CleanDelete, p.app)
  }

  lemma DeleteHeads(k: Key, p: Pass)
    requires p.pc.PausedGet? || p.pc.CleanGet?
    ensures NextCall(k, p) == GetService(k) && NextCall(k, Removing(p)) == DeleteService(k)
    ensures forall r: Response :: Resume(p, r) == if r.GotService? then Removing(p) else AfterDelete(p)
    ensures forall r: Response :: Resume(Removing(p), r) == AfterDelete(p)
  {
  }

  lemma ListHead(k: Key, app: App)
    ensures var p := Pass(MappingList, app);
            && NextCall(k, p) == ListMappings(k.ns, k.name)
            && (forall r: Response :: Resume(p, r) ==
                  if r.Listed? then ToDelete(app, Stale(r.names, app.spec.customDomains), Missing(r.names, app.spec.customDomains))
                  else Fail(app, "DomainMappingFailed"))
  {
    hide Stale, Missing, ToDelete;
  }

  // ----- progress -------------------------------------------------------------------------------------------

  /** Passes only move to later stages, or shorten the work of the stage they are in. */
  function Stage(pc: Pc): nat {
    match pc
    case Get => 16
    case AddFinalizer => 15
    case MarkPending => 14
    case MarkPaused => 13
    case PausedGet => 12
    case PausedDelete => 11
    case MarkDeploying => 13
    case CheckTenant => 12
    case ServiceGet => 11
    case ServiceCreate => 10
    case ServiceUpdate(_) => 10
    case MappingList => 9
    case MappingDelete(_, _, _) => 8
    case MappingCreate(_, _) => 7
    case StatusRead => 6
    case StatusWrite => 5
    case FailureWrite => 4
    case CleanList => 7
    case CleanMapping(_, _) => 6
    case CleanGet => 5
    case CleanDelete => 4
    case DropFinalizer => 3
    case Finished => 0
  }

  function Remaining(pc: Pc): nat {
    match pc
    case MappingDelete(_, stale, missing) => |stale|
    case MappingCreate(_, missing) => |missing|
    case CleanMapping(_, left) => |left|
    case _ => 0
  }

  ghost predicate Later(q: Pc, p: Pc) {
    Stage(q) < Stage(p) || (Stage(q) == Stage(p) && Remaining(q) < Remaining(p))
  }

  /** Every answer moves a pass forward, so every pass ends. */
  lemma ResumeAdvances(p: Pass, r: Response)
    requires !p.pc.Finished?
    ensures Later(Resume(p, r).pc, p.pc)
  {
    hide Stale, Missing, Observed, DesiredServiceSpec;
  }

  /** Passes that have made sure of the finalizer and may create children. */
  predicate Armed(pc: Pc) {
    pc.MarkPending? || pc.MarkPaused? || pc.PausedGet? || pc.PausedDelete? || pc.MarkDeploying? || pc.CheckTenant?
    || pc.ServiceGet? || pc.ServiceCreate? || pc.ServiceUpdate? || pc.MappingList? || pc.MappingDelete?
    || pc.MappingCreate? || pc.StatusRead? || pc.StatusWrite? || pc.FailureWrite?
  }

  /** The calls of the deletion pass whose errors are only logged. */
  predicate Cleaning(pc: Pc) {
    pc.CleanList? || pc.CleanMapping? || pc.CleanGet? || pc.CleanDelete?
  }
}
