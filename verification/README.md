# Kuberless: a verified model

Kuberless is a platform that runs its tenants' apps on Kubernetes.  This project models, in Dafny, the four
parts of it that carry real obligations, and proves what they keep.

**The operator** (`Kube`, `ApiServer`, `AppController`, `TenantController`, `Operator`).  Two controllers read an
object, add a finalizer, create children, report a status and tear everything down again.  The API server is a
store with resource versions, deletion marks and finalizers; every client call is one step that may be served,
be lost, or take effect while its answer is lost.  A pass of a controller is a machine that stops at every call.
A run is a list of turns: controllers, crashes, users and outsiders interleave without any restriction but that
one pass per object is in flight.  Theorems about runs are stated for all of them, or for all fair ones where something must happen:

- `FinalizerSafety`: finalizer before children.
- `DrainSafety`, `DrainLiveness`, `DrainProgress`, `DrainCompletion`, `DrainWitness`: a tenant's namespace is torn down
  only when it is empty, and a fair run gets there and removes the tenant.
- `AppVersions`, `AppStages`, `AppProgress`: a fair run brings an app's service and mappings to match its spec, for good.
- `AppStatuses`, `AppReadiness`, `TenantStatuses`: every change of a status is accounted for; Ready and Failed are earned.
- `PhaseAgreement`: phase and condition agree.
- `DomainSafety`: interruptions lose no wanted mapping and apps do not touch each other's.
- `DeletionPass`: exactly which children a deletion pass leaves behind when its calls fail.
- `TenantStages`, `TenantActivation`: Active is earned stage by stage, and all four objects are right at that moment
  unless outsiders undo them.

`SoloPass`, `AppConvergence`, `DomainConvergence` and `TenantConvergence` say what a pass without failures makes
of an arbitrary cluster, and that repeating it settles.  `Client`, `AppReconcilers` and `TenantReconcilers` hold
the controllers in the source's own form, as objects whose methods make calls, loop and return early; under every
interference each is proved to make exactly one pass of the machine, so the theorems above are about it.

**The rate limiter** (`RateLimit`, `RateLimitTheorems`, `RateLimitExact`, `RateLimitWindow`).  Token buckets per client with background
eviction: when eviction can be seen, exactly which requests are admitted, and that no schedule admits more.

**The two services and their mirror** (`DomainCodec`, `Rows`, `TenantMirror`, `Mirror`, `AppService`, `TenantService`,
`MirrorTheorems`, `MirrorRepair`, `MirrorCluster`).  The domain list kept as text inside the environment, patching, and
the custom resources written after each row.  App and Tenant resources carry the operator's finalizer and the deletion
mark, and the operator takes turns with the services: it adopts, drains the Apps of a Tenant that is being deleted, and
finishes deletions.  So an app can be created again while its old resource, or its tenant's, is still going away.

**Log streaming** (`LogStream`, `LogStandard`, `LogChannel`, `LogProgress`, `LogReader`).  Pod lines through a bounded channel, a
server-sent-events printer and an incremental parser to the browser.

What an object or a row must be is stated beside the function that computes it as a predicate on its fields (`AppController.Renders`,
`TenantController.QuotaFor`, `Mirror.ChangedBy`, `DomainCodec.PatchedBy` and others); the theorems about passes, runs and operations
speak of those predicates, so what they say does not rest on the function.

Where a property of the code has exceptions, the model does not exclude them by assumption: the state remembers
that a cleanup call failed, that a listing failed or that an app came late, and the theorem says "unless".
Lemmas beside the theorems show exactly when a failed cleanup orphans a child, when a failed listing tears down a
namespace that is in use, when a turn removes somebody else's mapping, when writing a row does not leave it a lasting
resource, and when a cancelled log request leaves a reader waiting for ever.

Two places where the code and its comments differ, and the model follows the code: the comment on `ListDomains`
speaks of a JSON list, while the text is comma-separated (apiserver/service/app.go:347-355); and domains added
through the API never reach the App's `customDomains`, because the spec is built without them
(apiserver/adapter/adapter.go:604-625).

`dafny verify dfyconfig.toml` verifies everything.

## Model

| member | source | states |
|---|---|---|
| RateLimit.TokenBucket.constructor | apiserver/middleware/ratelimit.go:39-46 | a new bucket is full and remembers the instant it was made |
| RateLimit.TokenBucket.Allow | apiserver/middleware/ratelimit.go:50-66 | refill, cap and spend in place: the answer and the new bucket are those of the level function, and what that admits is what fits in every window, by RateLimitWindow.AdmittedExactly and PrivateDecisionExactly |
| RateLimit.RateLimiter.Allow | apiserver/middleware/ratelimit.go:99-110 | a request is charged to its own bucket, made full on first sight, and no other bucket changes |
| RateLimit.RateLimiter.Cleanup | apiserver/middleware/ratelimit.go:84-97 | one tick keeps exactly the buckets used within StaleAfter, each unchanged |
| RateLimitExact.TransparencyIsExact | apiserver/middleware/ratelimit.go:83-110 | eviction is invisible, for every interleaving of requests and sweeps, if and only if the burst admits nothing or Rate >= 0 and Rate x StaleAfter >= Burst; and the same holds for runs whose sweeps come at the multiples of any fixed interval |
| RateLimitTheorems.EnoughTimeIsTransparent | apiserver/middleware/ratelimit.go:50-110 | under that condition every decision is that of a private, never evicted bucket fed only that client's requests |
| RateLimitExact.TooShortIsVisible | apiserver/middleware/ratelimit.go:84-110 | otherwise some run of one client, with every sweep on time, decides differently, in a run that is constructed |
| RateLimitExact.DefaultIsTransparent | apiserver/middleware/ratelimit.go:23-30 | the default configuration is transparent, with its five-minute sweeps too |
| RateLimitTheorems.Conservation | apiserver/middleware/ratelimit.go:50-66 | over any window of any run, admissions plus what is left never exceed a full bucket plus the inflow |
| RateLimitTheorems.PrivateWindowBound | apiserver/middleware/ratelimit.go:50-66 | a private bucket admits at most Burst + Rate x window length over any window, also for a zero or negative burst |
| RateLimitTheorems.WindowBound | apiserver/middleware/ratelimit.go:83-110 | the same bound for the evicting limiter, whatever other clients do, when the burst admits nothing or Rate x StaleAfter >= Burst |
| RateLimitExact.WindowBoundIsExact | apiserver/middleware/ratelimit.go:83-110 | every window of every run is bounded so if and only if Rate >= 0 and the burst admits nothing or Rate x StaleAfter >= Burst; and the same holds for sweeps at any fixed interval |
| RateLimitTheorems.GreedyIsOptimal | apiserver/middleware/ratelimit.go:50-66 | on every prefix of any arrivals the bucket admits at least as many as any schedule whose tokens cover what it accepts, and is itself such a schedule |
| RateLimitWindow.AdmittedExactly | apiserver/middleware/ratelimit.go:50-66 | a bucket that starts full admits arrival n if and only if for every i up to n the arrivals admitted from i on, and this one, are at most Burst + Rate x (time of n - time of i): the answers in terms of the times and the earlier answers alone |
| RateLimitWindow.CoveredExactly | apiserver/middleware/ratelimit.go:50-66 | a schedule is covered by the tokens of a bucket that starts full if and only if all it accepts fits in every such window |
| RateLimitWindow.NoScheduleBeatsTheBucket | apiserver/middleware/ratelimit.go:50-66 | so on every prefix the bucket admits at least as many arrivals as any schedule whose acceptances fit in every window, and its own do |
| RateLimitWindow.PrivateDecisionExactly | apiserver/middleware/ratelimit.go:50-66 | in every run, with other clients and sweeps in between, a private bucket admits a request if and only if it fits in every window of that client's admissions |
| RateLimitWindow.LimiterAdmitsExactly | apiserver/middleware/ratelimit.go:83-110 | the limiter itself admits exactly the requests that fit, in every run, if and only if the burst admits nothing or Rate x StaleAfter >= Burst |
| RateLimitWindow.DefaultAdmitsExactly | apiserver/middleware/ratelimit.go:23-30 | as configured: a request is admitted if and only if, for every earlier event, the client's admissions since then and this one are at most 20 and ten for each second |
| LogStream.HandleGetLogs | apiserver/handler/logs.go:91-106 | the consumer loop prints one event per received entry and the closing event only when the channel closed |
| LogStream.StreamLogs | frontend/lib/api.ts:257-272 | the chunked line parser calls back for the whole stream's data lines, however it is chunked |
| LogStream.CallBack | frontend/lib/api.ts:267-271 | the inner loop calls back with the text of each data line, in order |
| LogStream.RoundTrip | apiserver/handler/logs.go:91-106 | for every list of entries and every chunking the browser receives, entry by entry, a bracket, the timestamp, a bracket and a space, the message, then the closing notice, if and only if no entry contains a newline |
| LogStream.CutShowsPrefix | frontend/lib/api.ts:257-272 | a stream cut anywhere has shown a prefix |
| LogStandard.AgreesWithStandard | apiserver/handler/logs.go:91-106 | on entries without line breaks, the events of section 9.2.6 of the WHATWG HTML Standard are one message per entry with that text and then done with the closing notice, and carry what the browser's parser calls back with |
| LogStandard.AgreementIsExact | apiserver/handler/logs.go:91-106 | on entries of one line each, a conforming reader and the browser's parser see the same texts if and only if no entry contains a carriage return |
| LogChannel.Conservation | apiserver/adapter/adapter.go:666-713 | in every interleaving of reader, handler and cancellation: written then queued is what was sent, at most 64 queued, and sent in pod-then-line order |
| LogChannel.ScriptInOrder | apiserver/adapter/adapter.go:682-713 | what the pods say is what each of them says, in their order |
| LogChannel.ScriptOfOne | apiserver/adapter/adapter.go:687-711 | a pod that cannot be opened says its report, any other its lines |
| LogChannel.NothingLost | apiserver/adapter/adapter.go:680-713 | what was written is a prefix of what the pods say, and all of it once an uncancelled request has seen the channel close |
| LogChannel.PodsToBrowser | apiserver/adapter/adapter.go:680-713 | end to end, through channel, printer, chunks and parser, the browser shows that prefix, each entry as its timestamp in brackets and its message, and everything at the closing notice |
| LogChannel.HandlerPrints | apiserver/handler/logs.go:91-106 | in every interleaving the machine's handler has printed what the handler's own loop prints for what its select picked |
| LogProgress.LogsArrive | apiserver/adapter/adapter.go:666-713 | in every fair run that is never cancelled, however often the channel is full, the channel closes with everything sent and the handler completes with everything written |
| LogProgress.TurnsArePatient | apiserver/adapter/adapter.go:666-713 | such a run exists: reader and handler in turn |
| LogProgress.ReaderEndsExactly | apiserver/adapter/adapter.go:682-713 | in every fair run, cancelled or not, the reader ends and closes the channel if and only if it never comes to stand before a pod that cannot be opened with the channel full and the handler gone |
| LogProgress.SomeRunIsStuck | apiserver/adapter/adapter.go:690-695 | that wait happens: a cancelled request with more pods that cannot be opened than the channel has room for leaves the reader waiting for ever |
| LogReader.LogPipe.StreamLogs | apiserver/adapter/adapter.go:680-713 | the goroutine's loops, waiting at a full channel while anyone else still moves, are a run of that machine; they return with the channel closed and, unless cancelled, everything sent, or never return because everybody else has stopped and left the channel full |
| LogReader.LogPipe.ReadLines | apiserver/adapter/adapter.go:698-711 | the loop over one pod's lines, waiting the same way, reaches the next pod, or ends the reader at a cancellation |
| DomainCodec.ParseDomains | apiserver/service/app.go:453-469 | the index loop yields what the recursive scanner yields, which DomainCodec.CommaSeparates and NoCommaIsOneHost fix |
| DomainCodec.EncodeDomains | apiserver/service/app.go:472-484 | the loop yields the comma-separated text |
| DomainCodec.ParsedAreHosts | apiserver/service/app.go:453-469 | parsing any text yields non-empty comma-free hosts |
| DomainCodec.CommaSeparates | apiserver/service/app.go:453-469 | text before and after a comma is parsed on its own and the hosts before it come first |
| DomainCodec.NoCommaIsOneHost | apiserver/service/app.go:453-469 | text without a comma is one host, or none if it is empty |
| DomainCodec.EncodingJoins | apiserver/service/app.go:472-484 | encoding one list after another is the first text, a comma and the second, and a single host is its own text |
| DomainCodec.ParseUndoesEncode | apiserver/service/app.go:453-484 | parsing undoes encoding exactly on lists of non-empty comma-free hosts |
| DomainCodec.EncodeNormalises | apiserver/service/app.go:453-484 | encoding what was parsed keeps the meaning and is a normal form |
| DomainCodec.AddAppendsExactly | apiserver/service/app.go:363-384 | adding an unlisted host appends it if and only if it has no comma, which the code does not check |
| DomainCodec.EditRefinesList | apiserver/service/app.go:377-424 | a comma-free add or remove on the environment is that operation on the list, and changes no other key |
| DomainCodec.RemovalKeepsOrder | apiserver/service/app.go:409-419 | removal leaves exactly the positions of the other hosts, in ascending order and none left out |
| DomainCodec.DomainsAreAList | apiserver/service/app.go:349-434 | over any run of comma-free operations the stored text is a duplicate-free ordered list and every other key keeps its value |
| DomainCodec.PatchOrderIrrelevant | apiserver/service/app.go:329-335 | a patch gives the same environment in every iteration order |
| DomainCodec.PatchMeaning | apiserver/service/app.go:329-335 | in every iteration order a key the patch names is there afterwards if and only if its value is not empty, and then with it; every other key keeps its presence and value |
| DomainCodec.PatchesCompose | apiserver/service/app.go:329-335 | patching p then q is patching p overridden by q; patching is idempotent |
| DomainCodec.PatchKeepsDomains | apiserver/service/app.go:329-355 | a patch changes the domain list only if it names the reserved key, and then to what that value parses to |
| AppService.Database.CreateApp | apiserver/store/migrations.go:51-67 | accepted exactly when the columns fit, the tenant exists, and id and (tenant, name) are new |
| AppService.Database.UpdateApp | apiserver/store/app.go:139-146 | stores every column but the tenant and the name |
| AppService.Database.DeleteTenant | apiserver/store/migrations.go:51-67 | the tenant's rows go with it |
| AppService.K8sClientAdapter.BuildAppSpec | apiserver/adapter/adapter.go:604-625 | the variables are appended in some order of the map's keys, each once; no domain reaches the spec |
| AppService.K8sClientAdapter.UpdateAppCRD | apiserver/adapter/adapter.go:550-559 | creates the resource or replaces its whole spec, also that of one being deleted, and what each failure leaves behind |
| AppService.K8sClientAdapter.DeleteAppCRD | apiserver/adapter/adapter.go:562-571 | marks a resource that the operator's finalizer holds, removes one that it does not, and touches no other |
| AppService.AppService.SyncAppToK8s | apiserver/service/app.go:438-450 | tables are untouched, and the resources change as a sync does, or not at all under the stated failures |
| AppService.AppService.Create | apiserver/service/app.go:108-160 | validation, defaults, insert and sync, under every failure; succeeds exactly when accepted and storable, and then the row has each column of the request or its default: port 8080, 10 instances, target 100, 100m, 128Mi, not paused |
| AppService.AppService.Update | apiserver/service/app.go:210-249 | each of the eight columns of the stored row is the request's where the request sets it and the old one elsewhere; environment, tenant and name stay; succeeds exactly when the row exists, the database does not fail and the numbers fit; then sync |
| AppService.AppService.Delete | apiserver/service/app.go:252-270 | the row goes, then the resource is marked or goes, as far as the calls succeed |
| AppService.AppService.Redeploy | apiserver/service/app.go:274-288 | stores the row as it is and syncs; succeeds exactly when the row can be stored |
| AppService.AppService.UpdateEnv | apiserver/service/app.go:300-316 | replaces the whole environment and nothing else of the row |
| AppService.AppService.PatchEnv | apiserver/service/app.go:320-345 | of the stored environment: a key the patch names is present if and only if its value is not empty, and then with that value; every other keeps presence and value; nothing else of the row changes |
| AppService.AppService.ListDomains | apiserver/service/app.go:349-360 | the parsed list, empty when the key is absent |
| AppService.AppService.AddDomain | apiserver/service/app.go:363-394 | refuses an empty or listed host; otherwise the stored text is that of the list with the host appended, and nothing else of the row changes |
| AppService.AppService.RemoveDomain | apiserver/service/app.go:397-434 | refuses an unlisted host; otherwise the stored text is that of the other hosts in their order, and nothing else of the row changes |
| Mirror.WorldChangesExactly | apiserver/service/app.go:108-450 | what every operation of the service leaves, in terms of the request alone and under every failure: the row column by column, and of the resources nothing but the one at its key, which says what the row says and keeps its labels and marks, or is marked or gone after a deletion |
| Mirror.CastIsLossless | apiserver/adapter/adapter.go:612-617 | the int32 conversions lose nothing exactly on what the columns can store |
| Mirror.DesiredMatches | apiserver/adapter/adapter.go:604-625 | the spec built for a storable row says what the row says, up to the order of the variables |
| MirrorTheorems.RunKeepsIntegrity | apiserver/store/migrations.go:25-67 | unique names, references and column ranges hold after every run of operations and failures |
| MirrorTheorems.LastingIsExact | apiserver/service/app.go:108-288 | rows and resources agree and go on agreeing through everything the operator may do if and only if they agree and no row belongs to a tenant whose resource is being deleted |
| MirrorTheorems.CallIsExact | apiserver/service/app.go:108-288 | from such a world, one call of a service without failures leaves such a world if and only if it inserts no row where an App, or in a tenant whose Tenant, is being deleted, and deletes no tenant with apps |
| MirrorTheorems.AgreementIsExact | apiserver/service/app.go:108-288 | over every run without failures of both services and the operator: each row has its live resource, matching spec and all, each live resource its row, at every point and whatever the operator did from there, if and only if every call of a service was safe in that sense when it was made |
| MirrorTheorems.MirrorIsBijection | apiserver/adapter/adapter.go:627-639 | agreement is a bijection between the rows and the resources that are not being deleted, through (tenant name, app name) |
| MirrorTheorems.TenantDeletionIsExact | apiserver/service/tenant.go:182-197 | deleting a tenant keeps agreement if and only if it had no apps |
| MirrorTheorems.DrainRestores | apiserver/service/tenant.go:182-197 | once no resource in a deleted tenant's namespace is live, rows and live resources agree again |
| MirrorRepair.SyncLastsExactly | apiserver/adapter/adapter.go:550-559 | what a store and sync writes outlasts everything the operator may do if and only if neither the App at that key nor its Tenant was being deleted |
| MirrorRepair.CreateLastsExactly | apiserver/service/app.go:108-160 | creating an app keeps lasting agreement if and only if neither the App at its key nor its Tenant is being deleted |
| MirrorRepair.RecreatedTooSoon | apiserver/adapter/adapter.go:550-571 | with every call succeeding: a held app that is deleted and created again before the operator is done gets its spec written into the old resource and ends as a row without one |
| MirrorRepair.LossFromNothing | apiserver/adapter/adapter.go:550-571 | such a run exists from empty tables: four operations and two operator turns |
| MirrorRepair.LossInRecreatedTenant | apiserver/service/tenant.go:130-135 | a second such run: a tenant is deleted and created again, an app created in it agrees with its resource, and the drain of the old Tenant takes that resource |
| MirrorRepair.RedeployHeals | apiserver/service/app.go:274-288 | whatever the resources are like, one Redeploy without failures makes the app's resource match its row and touches no other; it lasts if and only if neither it nor its Tenant was being deleted |
| MirrorRepair.HistoryHeals | apiserver/service/app.go:274-288 | the same after any history of operations, failures and operator turns |
| MirrorRepair.HealsOnceClear | apiserver/service/app.go:274-288 | and after any history the operator has turns, no listing failing, after which a Redeploy heals for good |
| MirrorRepair.RedeployKeepsLabels | apiserver/adapter/adapter.go:550-559 | the identifying label is right afterwards exactly when it was before or the resource was missing |
| MirrorCluster.RunIsSeen | apiserver/adapter/adapter.go:515-571 | every run of the mirror is, state by state, a run of one API server: a turn of a service is a user's step of the operator's machine, a turn of the operator a call that one of its passes makes |
| MirrorCluster.CallWrites | apiserver/adapter/adapter.go:515-571 | each call of a service writes at most one App or Tenant |
| AppService.K8sClientAdapter.UpdateTenantCRD | apiserver/adapter/adapter.go:521-531 | creates the resource or sets its two fields, under every failure |
| TenantService.TenantService.Create | apiserver/service/tenant.go:91-140 | validation, defaults, insert, membership and resource, under every failure |
| TenantService.TenantService.Update | apiserver/service/tenant.go:153-179 | exactly the fields the request sets change, in the row and in the resource; nothing if the lookup fails |
| TenantService.TenantService.Delete | apiserver/service/tenant.go:182-197 | the row and its apps go, then the resource is marked if the operator's finalizer holds it, or goes; nothing if the lookup fails |
| TenantService.TenantsChangeExactly | apiserver/service/tenant.go:91-197 | what every operation leaves, under every failure: the row filled in or changed field by field, at most the one resource written, with the id, display name and plan, no owner, and of the app rows all but a deleted tenant's |
| TenantMirror.AgreementIsExact | apiserver/service/tenant.go:91-197 | over every run without failures of the service and the operator, the live Tenant resources are the tenant rows, name by name, at every point, if and only if no tenant was created over a resource of its name and every owner was added |
| TenantMirror.RecreatedTooSoon | apiserver/service/tenant.go:130-135 | a held tenant that is deleted and created again before the operator is done ends as a row without a resource, the create call's failure being only logged |
| TenantMirror.UpdateHeals | apiserver/adapter/adapter.go:521-531 | one Update without failures makes the resource match its row, whatever was there; it lasts if and only if that resource was not being deleted |
| TenantMirror.UpdateHealsOnceGone | apiserver/adapter/adapter.go:521-531 | once the deletion under way has ended, an Update heals for good |
| TenantMirror.CreateDoesNotReplace | apiserver/adapter/adapter.go:515-518 | creating over a resource of that name leaves it as it was |
| AppController.ResumeAdvances | operator/controller/app_controller.go:53-211 | every answer moves a pass to a later stage or shortens its work, so every pass ends |
| TenantController.ResumeAdvances | operator/controller/tenant_controller.go:58-206 | the same for tenant passes |
| FinalizerSafety.ChildrenAreProtected | operator/controller/app_controller.go:64-125 | at the end of every history, however turns interleave and whatever fails: each service and mapping the operator made belongs to an App that exists and carries the finalizer, unless a cleanup call failed in that App's deletion pass |
| FinalizerSafety.LostDeleteOrphans | operator/controller/app_controller.go:177-186 | the finalizer is dropped even if deleting the service failed: the service is orphaned exactly when that call is lost |
| DeletionPass.SurvivorsAreExact | operator/controller/app_controller.go:169-191 | which children a deletion pass leaves behind, as a function of the fate of each of its calls: the service unless looked up and its delete took effect, a mapping unless listed, no delete before it failed and its own took effect; the finalizer goes all the same |
| DeletionPass.OrphansAreExact | operator/controller/app_controller.go:169-191 | so an app goes and leaves a child of its own behind if and only if one survives that way |
| DeletionPass.AttemptIsRun | operator/controller/app_controller.go:169-191 | such a pass is a run of the whole machine |
| DrainSafety.TeardownFindsNothing | operator/controller/tenant_controller.go:149-183 | at the end of every history, a tenant pass that tears down has no App in its namespace, nothing the operator made there, and no pass that could make anything, unless listing failed, an App came late, or a cleanup call failed |
| DrainSafety.FailedListingTearsDown | operator/controller/tenant_controller.go:151-161 | with Apps left the pass tears down exactly when listing them failed |
| DrainSafety.LateAppIsRecorded | operator/controller/tenant_controller.go:163-183 | an App created while the pass tears down, at whatever call, is recorded as late, and the pass goes on with the App there |
| DrainSafety.LateAppLosesNamespace | operator/controller/tenant_controller.go:174-177 | and the namespace goes with that App in it |
| DrainLiveness.HistoryNeverRises | operator/controller/tenant_controller.go:150-161 | over any stretch of any history without new apps neither the unmarked nor the remaining apps ever grow, whoever acts and whatever fails |
| DrainLiveness.MarkingLowersUnmarked | operator/controller/tenant_controller.go:152-156 | the tenant's delete call on an unmarked app strictly lowers the first component |
| DrainLiveness.DroppingLowersPresent | operator/controller/app_controller.go:183-187 | dropping the last finalizer strictly lowers the second and leaves the first |
| DrainProgress.DrainReachesTeardown | operator/controller/tenant_controller.go:140-183 | from any point of a drain, every fair run in which, around that tenant, calls are answered, no pass is abandoned and users create and edit nothing reaches the teardown |
| DrainProgress.DrainEndsEmpty | operator/controller/tenant_controller.go:140-183 | after any history, such a run reaches a teardown that finds the namespace deserted, unless a listing failed, an app came late or a cleanup call had failed |
| DrainCompletion.DrainRemovesTenant | operator/controller/tenant_controller.go:140-183 | if only the operator's finalizer is on the tenant, the same runs remove the tenant itself, whatever copy the pass in flight works on |
| DrainWitness.CalmRunExists | operator/controller/tenant_controller.go:140-183 | such runs exist, from every state and for every tenant |
| PhaseAgreement.PhasesAgree | operator/controller/app_controller.go:77-211 | in every reachable state each persisted phase fits its condition: Ready True, Failed False, Deploying False or absent, Pending absent |
| AppStatuses.StatusChangesExactly | operator/controller/app_controller.go:69-211 | in every history a step that changes an App's status is a call of its own pass and makes of the stored status what that call is there to make: Pending of none, Paused of a paused app's, Deploying of Pending, the report, or a failure that keeps URL and revision |
| AppStatuses.FailuresAreReported | operator/controller/app_controller.go:108-125 | a pass goes on to report a failure with a reason if and only if the call it made failed and is one that is reported with that reason |
| AppStatuses.ReadingIsReported | operator/controller/app_controller.go:128-155 | what is reported after reading the service: Ready if and only if some condition says Ready is True, with its URL and revision, and nothing where there is no answer |
| AppStatuses.LostAnswersStop | operator/controller/app_controller.go:53-191 | where a call fails, a pass ends or reports a failure, exactly unless it was reading the service or cleaning up |
| AppReadiness.ReadyIsEarned | operator/controller/app_controller.go:108-159 | in every history an App becomes Ready only by its own pass's status write, and one and the same pass had found the tenant, then found or made the service as the spec now stored says and then read that it is ready, with the URL and revision now stored |
| AppReadiness.FailureIsEarned | operator/controller/app_controller.go:108-125 | in every history, when an App's status becomes Failed with a reason, an earlier call of that very pass had failed that is reported with this reason, and the pass made no other call in between |
| DomainSafety.TurnChangesExactly | operator/reconciler/domain.go:48-103 | in every state and for every turn of an app's controller: an existing mapping, whoever owns it, changes if and only if deleting it is the pass's next call, deploying or cleaning up, and the call is not lost |
| DomainSafety.AppsKeepApart | operator/reconciler/domain.go:30-71 | in every history in which nobody else deletes mappings, no turn of one app's controller changes a mapping of another app |
| DomainSafety.ReplacedMappingIsDeleted | operator/reconciler/domain.go:54-57 | the listing is not checked again: a mapping dropped and replaced by anyone after it is deleted exactly when the call gets through, in a deploying and in a cleaning pass |
| DomainSafety.InterruptionsLoseNothing | operator/reconciler/domain.go:23-74 | in every interleaving in which nobody else drops mappings or makes one in the app's name, wherever passes are abandoned and calls fail: while the app asks for the same hosts its wanted mappings stay as they are and it gains no unwanted one |
| SoloPass.FinishIsRun | operator/controller/app_controller.go:53-167 | an undisturbed pass is a run of the whole machine, so what is said of it is said of the machine |
| SoloPass.PausedPassStops | operator/controller/app_controller.go:86-97 | a pass of a paused app takes its service away and leaves mappings and condition |
| SoloPass.DeletionPassRemoves | operator/controller/app_controller.go:169-191 | one pass of an app being deleted removes its service and every mapping of its own, nobody else's, and releases the app |
| AppConvergence.PassRuns | operator/controller/app_controller.go:108-159 | what one pass without failures makes of any cluster: the service with every field, label and annotation that is kept, mappings with their labels and reference, finalizer, and a status that says what the service reports or that the mappings failed |
| AppConvergence.ServiceRuns | operator/reconciler/knative.go:25-72 | the service ends up with the scaling bounds and target, image, port, CPU, memory and each variable of the app's spec, in terms of its fields, and with the three labels; an existing one keeps Knative's two annotations and its status, and is not written if it matched |
| AppConvergence.CreatesRun | operator/reconciler/domain.go:60-71 | missing hosts are created in order up to the first that is taken, and the pass fails exactly then |
| DomainConvergence.PassFailsExactlyOnClash | operator/reconciler/domain.go:60-71 | a pass fails if and only if a wanted host is mapped by someone else or is repeated and not mapped yet; otherwise the mappings are exactly the wanted ones |
| DomainConvergence.PassCreatesInOrder | operator/reconciler/domain.go:60-71 | a pass creates a new mapping exactly for the wanted hosts that come, in the order of the spec, before the first that someone else maps or that is repeated |
| DomainConvergence.FailingPassProgresses | operator/reconciler/domain.go:48-71 | a pass that fails on a repeated host has still strictly reduced the missing hosts |
| DomainConvergence.DomainsConverge | operator/reconciler/domain.go:23-74 | after more passes than hosts were missing, the mappings are exactly the wanted ones, the last pass did not fail, and everyone else's are untouched |
| DomainConvergence.PassRepairs | operator/reconciler/domain.go:48-71 | a pass removes only own unwanted mappings, adds only wanted ones at free names, and keeps all other values |
| DomainConvergence.OnePassMatches | operator/controller/app_controller.go:108-125 | with distinct hosts nobody else maps, one pass makes the service of any cluster match the app field by field, variable by variable, and its mappings exactly the wanted ones |
| DomainConvergence.PassIsFixpoint | operator/controller/app_controller.go:108-125 | a pass writes no service and no mapping if and only if they match already |
| AppVersions.HistoryCurrent | operator/controller/app_controller.go:53-83 | at the end of every history the copy a pass works on is the stored spec if it carries the stored version |
| AppProgress.RunConverges | operator/controller/app_controller.go:53-167 | from any moment on, with whatever pass in flight: in every fair run in which only that app's calls are answered and its objects left alone, the service matches the spec field by field and the mappings are the wanted ones from some moment on, whatever everybody else does |
| AppProgress.HistoryConverges | operator/controller/app_controller.go:53-167 | in particular after any history whatever |
| AppProgress.QuietRunExists | operator/controller/app_controller.go:53-167 | such runs exist, from every state and for every app |
| TenantStages.MergedLabelsMeaning | operator/reconciler/namespace.go:51-65 | merging sets the three labels, keeps every other, and changes nothing exactly when they are set |
| TenantActivation.OnlyPipelineActivates | operator/controller/tenant_controller.go:124-130 | in every history, outside writes and failures included, a tenant becomes Active only in the status write at the end of its own pipeline |
| TenantActivation.ActiveIsEarned | operator/controller/tenant_controller.go:93-134 | and then one and the same pass has, in order, left namespace, Capsule tenant, policy and quota as the spec stored at that moment says, entry by entry, each at a step of its own |
| TenantActivation.ActiveMeansAllFour | operator/controller/tenant_controller.go:93-134 | in every history in which outsiders undo nothing of this tenant's, all four are still so at the step that makes it Active |
| TenantStatuses.StatusChangesExactly | operator/controller/tenant_controller.go:76-206 | in every history a step that changes a Tenant's status is a call of its own pass and makes of the stored status what that call is there to make: Pending of none, Deleting of one being deleted, Active with its namespace, or a failure that keeps namespace and count |
| TenantStatuses.FailuresAreReported | operator/controller/tenant_controller.go:93-111 | a pass goes on to report a failure with a reason if and only if a call of the stage with that reason failed |
| TenantStatuses.FailureIsEarned | operator/controller/tenant_controller.go:93-111 | in every history, when a Tenant's status becomes Failed with a reason, an earlier call of that very pass, of the stage with this reason, had failed, and the pass made no other call in between |
| TenantStatuses.LostAnswersStop | operator/controller/tenant_controller.go:58-183 | where a call fails, a pass ends or reports a failure, exactly unless it was counting apps, listing them before the teardown, or tearing down |
| TenantStatuses.CountIsReported | operator/controller/tenant_controller.go:113-130 | the number of apps reported is that of the apps in the namespace, as an int32, or the last one if they cannot be listed |
| TenantConvergence.FinishIsRun | operator/controller/tenant_controller.go:58-138 | an undisturbed tenant pass is a run of the whole machine |
| TenantConvergence.PassProvisions | operator/controller/tenant_controller.go:93-134 | what one pass without failures makes of any cluster, with limits that parse and with limits that do not |
| TenantConvergence.PassLeaves | operator/controller/tenant_controller.go:93-134 | object by object, after such a pass: the namespace with its three labels, the Capsule tenant with the owner and quota, the policy unless isolation is off, both CPU and both memory entries of the quota equal to the limit that is set or the amount of the plan, and the Tenant Active with its namespace and number of apps |
| TenantConvergence.DrainPassMarks | operator/controller/tenant_controller.go:140-162 | with apps left, one deletion pass marks every one of them and tears nothing down |
| TenantConvergence.TeardownPassRemoves | operator/controller/tenant_controller.go:163-183 | with none left, one pass removes policy, Capsule tenant and namespace, nothing else, and releases the tenant |
| TenantConvergence.SecondPassChangesNoContent | operator/controller/tenant_controller.go:93-134 | one pass leaves the canonical objects, foreign labels kept; a second changes nothing but versions |
| Client.Client.AppCall | operator/controller/app_controller.go:53-211 | others move, the call is served, lost or unacknowledged, and the pass goes on; what happened stays a run of the machine with this one pass in it |
| Client.Client.TenantCall | operator/controller/tenant_controller.go:58-206 | the same for tenant passes |
| AppReconcilers.AppReconciler.Reconcile | operator/controller/app_controller.go:53-167 | whatever others do in between and whichever calls fail, what happened is a run of the machine in which this app's controller made exactly one pass: started here, carried on call by call, never abandoned, and over at the end; left alone it makes of the cluster what one pass makes of it |
| AppReconcilers.AppReconciler.Prepare | operator/controller/app_controller.go:69-83 | adds finalizer and first phase where absent, or the pass is over |
| AppReconcilers.AppReconciler.Pause | operator/controller/app_controller.go:86-97 | a paused app loses its service; nothing is tried again |
| AppReconcilers.AppReconciler.Deploy | operator/controller/app_controller.go:101-159 | phase, tenant check, service, mappings, status, with each failure's own exit |
| AppReconcilers.AppReconciler.Report | operator/controller/app_controller.go:128-159 | the status written is the one that fits what was read |
| AppReconcilers.AppReconciler.ReconcileDelete | operator/controller/app_controller.go:169-191 | children, then the finalizer, whatever failed in between |
| AppReconcilers.AppReconciler.SetFailed | operator/controller/app_controller.go:193-211 | one status write with phase Failed and the reason |
| AppReconcilers.KnativeReconciler.Reconcile | operator/reconciler/knative.go:25-72 | create, skip or update, keeping Knative's annotations |
| AppReconcilers.KnativeReconciler.KeepAnnotations | operator/reconciler/knative.go:54-66 | exactly the two annotations, where present, with their values |
| AppReconcilers.KnativeReconciler.Delete | operator/reconciler/knative.go:75-95 | look up and delete, or nothing |
| AppReconcilers.KnativeReconciler.GetStatus | operator/reconciler/knative.go:98-141 | the loop finds whether some condition says Ready is True, with URL and revision |
| AppReconcilers.KnativeReconciler.BuildKnativeService | operator/reconciler/knative.go:143-219 | minimum, maximum and target, image, port, CPU and memory are the app's, and entry i is the i-th variable, read from its secret or literal; three labels, no annotations, no status |
| AppReconcilers.DomainReconciler.Reconcile | operator/reconciler/domain.go:23-74 | list, delete the stale, create the missing, first error wins |
| AppReconcilers.DomainReconciler.DeleteStale | operator/reconciler/domain.go:48-58 | the first loop deletes exactly the listed hosts that are not wanted, in order |
| AppReconcilers.DomainReconciler.CreateMissing | operator/reconciler/domain.go:60-71 | the second loop creates exactly the wanted hosts that were not listed, in order |
| AppReconcilers.DomainReconciler.Delete | operator/reconciler/domain.go:77-103 | deletes every listed mapping, giving up at the first failure |
| AppController.StaleInOrder | operator/reconciler/domain.go:48-58 | the hosts to delete keep the order of the listing |
| AppController.MissingInOrder | operator/reconciler/domain.go:60-71 | the hosts to create keep the order of the spec |
| DomainConvergence.CreatedIsListed | operator/reconciler/domain.go:30-33 | a mapping created for an app refers to its service and is listed from then on for that app and for no other; nothing else is listed or stops being listed |
| TenantReconcilers.TenantReconciler.Reconcile | operator/controller/tenant_controller.go:58-138 | whatever others do in between and whichever calls fail, what happened is a run of the machine in which this tenant's controller made exactly one pass: started here, carried on call by call, never abandoned, and over at the end; left alone it provisions the tenant |
| TenantReconcilers.TenantReconciler.Provision | operator/controller/tenant_controller.go:93-111 | the four stages in order, each failure with its own reason |
| TenantReconcilers.TenantReconciler.Activate | operator/controller/tenant_controller.go:113-134 | counts the apps if it can and writes Active |
| TenantReconcilers.TenantReconciler.Drain | operator/controller/tenant_controller.go:149-162 | deletes the listed apps and waits, or tears down |
| TenantReconcilers.TenantReconciler.DeleteApps | operator/controller/tenant_controller.go:152-160 | the loop deletes every listed app, not-found ones aside, up to the first failure |
| TenantReconcilers.TenantReconciler.TearDown | operator/controller/tenant_controller.go:164-183 | policy, Capsule tenant, namespace, finalizer, whatever fails |
| TenantReconcilers.TenantReconciler.SetFailed | operator/controller/tenant_controller.go:188-206 | one status write with phase Failed and the reason |
| TenantReconcilers.NamespaceReconciler.Reconcile | operator/reconciler/namespace.go:23-74 | create, or update exactly when a label differs |
| TenantReconcilers.NamespaceReconciler.MergeLabels | operator/reconciler/namespace.go:51-65 | the loop, in any order of the map, gives the merged labels and knows whether anything changed |
| TenantReconcilers.NamespaceReconciler.Delete | operator/reconciler/namespace.go:77-95 | look up and delete, or nothing |
| TenantReconcilers.CapsuleReconciler.Reconcile | operator/reconciler/capsule.go:23-49 | create or replace |
| TenantConvergence.QuotaHasRoom | operator/reconciler/capsule.go:75-102 | after a pass the Capsule tenant's quota is one more than maxApps if and only if maxApps is below the largest int32, where it wraps to the smallest |
| TenantReconcilers.CiliumReconciler.Reconcile | operator/reconciler/cilium.go:23-56 | create or replace; without isolation no call at all |
| TenantReconcilers.ResourceQuotaReconciler.Reconcile | operator/reconciler/resourcequota.go:24-64 | create or overwrite; a limit that does not parse ends the pass |
| TenantReconcilers.ResourceQuotaReconciler.GetResourceLimits | operator/reconciler/resourcequota.go:66-86 | each amount is the limit where one is set and otherwise what the plan gives: 1 and 2Gi free or no plan, 4 and 8Gi starter, 16 and 32Gi pro, 64 and 128Gi enterprise, nothing for any other |

## Left out

- Float rounding in the token bucket: tokens and times are reals.
- The clock: every reading is a parameter; requests and ticks come in order of time, as one mutex and one monotonic clock give them.
- The interval of the sweeps is no part of the limiter's configuration here; RateLimitExact states its results for free sweeps and for sweeps at every fixed interval.
- Bytes and UTF-8: texts are sequences of characters, so a character split between two chunks is not modelled.
- HTTP routing, headers, flushing, JSON, authentication, hashing, the command line and the web pages.
- SQL: tables are maps with the declared keys, references, cascades and column ranges; requests on one app run one at a time.
- Timestamps, messages of conditions, `readyInstances` (always zero in the source), requeue delays and log output.
- API-server defaulting, admission and the JSON comparison of specs: specs are stored verbatim and compared as values.
- The text of scaling annotations: the numbers are kept as numbers, since printing them is injective.
- The body of the network policy is one opaque value; Kubernetes quantities are texts with a set of those that parse, the same set throughout a run.
- A limit that does not parse panics in the source; here the pass ends without a status write.
- The namespace as a precondition for creating objects in it, and the cascade of its deletion over what it holds.
- The real Knative, Capsule and Cilium controllers: what they write is any outside step; a service's readiness is arbitrary.
- Cached reads and leader election: reads are current and one pass per object is in flight.
- In the mirror no other finalizer than the operator's is on a resource, and users do not edit or delete the resources past the service.
- Tenant membership beyond whether adding the owner fails.
- LogReader.LogPipe.StreamLogs: the others' moves are a finite schedule, so the wait at a full channel ends when nobody will ever move again; LogProgress.LogsArrive speaks of infinite runs.  Opening a pod's stream is one outcome per pod and the scanner's line limit is not modelled.
- DrainProgress.DrainReachesTeardown: asks that no other finalizer than the operator's is on the tenant's apps, since nothing could make another controller remove its own, and that users create and edit nothing around the tenant, since every edit may defeat a pass's write.
- FinalizerSafety.ChildrenAreProtected: nobody relabels a mapping the operator made, and no user adds or removes the operator's own finalizer; a cleanup call whose answer is lost counts as failed although it may have taken effect; DeletionPass.SurvivorsAreExact says what is left in each case.
- AppProgress.RunConverges: asks that nobody else touches the app's own objects meanwhile, Knative's reports on its service included, since each such write may defeat an update.
- DomainConvergence.DomainsConverge: asks that nobody else maps a wanted host; DomainConvergence.PassFailsExactlyOnClash shows that a pass fails otherwise.
- AppService.AppService.Delete: a resource whose tenant row is gone is left behind, as in the source.
- App and tenant objects inside a pass are values that the methods reassign, not shared heap objects; aliasing between a caller's and a callee's copy does not arise in the source.
- `extractIP`, `deriveAppName`, listing and status enrichment, generated deep copies: they would only add easy members.
