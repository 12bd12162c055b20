# microservice-operator, modelled in Dafny

A model of the core of a Kubernetes operator that turns one custom resource, the
**Microservice**, into its child objects, and keeps those children in step with it. The
children are a Service, one Ingress per declared rule, a Deployment, a ServiceAccount
with its token Secret, and an optional HorizontalPodAutoscaler. A second custom resource,
the **ScheduledAutoscaler**, lists calendar entries for one workload. Its supervisor
registers one firing per entry with an in-process scheduler. Each firing overwrites the
workload's autoscaler bounds and marks the workload with the
`scheduledautoscaler.override` annotation, so that the workload's reconciler leaves the
autoscaler alone.

The model has three parts.

- **Generators** (`gen_*.dfy`): pure functions from a Microservice (or a legacy
  Deployment-kind object) to the desired child objects. They cover:
  - naming: `<workload>-<rule>` for ingresses and `<workload>-sa` for the secret;
  - the ingress fan-out over hosts and paths, with a catch-all path when a rule declares none;
  - ports copied from the rules in order;
  - the env map turned into a set of variables;
  - the secret's annotation binding.

  `gen_consistency.dfy` states how the children refer to each other. The ingress backends
  name the *rule*, while the generated Service is named after the *workload*: the two
  agree only when the rule bears the workload's name. The package's own test expects the
  rule name there. The legacy generator routes every path to the owning object instead.
- **Ensure steps and reconcile passes** (`cluster.dfy`, `check_*.dfy`, `status.dfy`,
  `microservice_controller.dfy`, `legacy_controller.dfy`):
  - **Store.** The cluster is a finite map from (kind, name) to object, in one namespace,
    plus the trace of every call issued.
  - **Failures.** Store failures are injected by an oracle keyed by call number. This makes
    "the first error stops the rest" and "nothing is written before X" statable.
  - **Ensure.** Each per-kind step either deletes by name, or runs
    create-if-absent → get → update.
  - **Reconcile pass.** It runs the six steps in their fixed order and drives the status
    machine: Reconciling first, Stable at the end, the error text recorded on failure.
- **Schedule supervisor** (`cron.dfy`, `scheduled_controller.dfy`, `scale.dfy`):
  - **Scheduler.** The scheduler is a map from id to registration, with a counter of ids
    handed out.
  - **One pass.** A pass gates on the finalizer. It removes every recorded id, registers
    one firing per entry, and records the new ids in the status.
  - **Firing.** A firing overwrites the autoscaler bounds and then marks the workload.

Where the code and the intent seem to disagree, the model follows the code. One case: a
failed write of the new registration ids goes through the error logger, which is handed
the status that already holds the new ids. When the logger's own write goes through, the
new ids are recorded, with the Reconciling state (`ScheduledController.RecordedAs`). The
new registrations stay unrecorded, while the scheduler holds them, in three cases:
- an entry the scheduler rejects stops the pass before any id is written;
- the Stable write fails;
- the id write fails and the logger's own write fails too, leaving Stable with the old ids.

## Model

| member | source | states |
|---|---|---|
| IngressGen.GenerateIngresses | pkg/microservice/ingress.go:11-31 | exactly one object per declared rule, in declaration order; object i is named `<workload>-<rule i>`, sits in the workload's namespace, carries the workload's labels and rule i's own annotations, and holds the stanzas of rule i |
| IngressGen.IngressesFor | pkg/microservice/ingress.go:11-19 | the loop over rules yields one object per rule, object i being the one built for rule i |
| IngressGen.IngressFor | pkg/microservice/ingress.go:21-31 | the object of one rule: name `<workload>-<rule>`, workload namespace and labels, the rule's annotations, and the rule's stanzas |
| IngressGen.RuleNameRoundTrip | pkg/microservice/ingress.go:14 | the rule name can be read back from the child name built for a workload |
| IngressGen.IngressNameInjective | pkg/microservice/ingress.go:14 | two rules of one workload get the same child name exactly when they have the same rule name |
| IngressGen.IngressNameContainsWorkload | pkg/microservice/ingress.go:14 | every child name contains its workload's name, the test the ingress cleanup deletes by |
| IngressGen.DeclaredPaths | pkg/microservice/ingress.go:37-50 | one path entry per declared path, in order, each with that path, type ImplementationSpecific and the given backend |
| IngressGen.PathsFor | pkg/microservice/ingress.go:33-64 | a rule's path list is its declared paths with backend {rule name, container port}, or exactly one catch-all entry (empty path, same backend) when it declares none |
| IngressGen.HostRules | pkg/microservice/ingress.go:74-85 | one stanza per host, in host order, all carrying the identical path list |
| IngressGen.RulesFor | pkg/microservice/ingress.go:66-85 | no hosts gives exactly one hostless stanza; otherwise one stanza per host, each with the rule's path list |
| IngressGen.FanOutCount | pkg/microservice/ingress.go:33-88 | a rule with h hosts and p paths yields max(1,h) * max(1,p) path entries across its stanzas |
| IngressGen.EveryPathRoutesToItsRule | pkg/microservice/ingress.go:37-64 | every path entry of every generated object routes to its own rule's name and container port, with type ImplementationSpecific |
| IngressGen.CatchAllExactlyWhenNoPaths | pkg/microservice/ingress.go:52-64 | an empty-path entry appears exactly when the rule declares no paths (when no declared path is itself empty) |
| ServiceGen.GenerateService | pkg/microservice/service.go:10-44 | name, namespace, labels and annotations are the workload's; selector is the label set; type NodePort; one port per rule in rule order with name = rule name, port = targetPort = container port, protocol TCP |
| ServiceGen.ServicePorts | pkg/microservice/service.go:29-37 | one port per rule, in rule order, with no deduplication of names or numbers |
| ServiceGen.ServiceRecordsRules | pkg/microservice/service.go:29-37 | the (name, port) pairs of the generated ports are exactly those of the rules, in order, duplicates included |
| DeploymentGen.GenerateDeployment | pkg/microservice/deployment.go:11-83 | identity and labels from the workload; replicas, tolerations and node selector copied; exactly one container named after the workload with the spec's image and resources, the env map's entries as variables, and one port per rule in rule order |
| DeploymentGen.EnvVars | pkg/microservice/deployment.go:33-39 | a variable is in the container's environment exactly when its name is a key of the env map with that value |
| DeploymentGen.EnvRoundTrip | pkg/microservice/deployment.go:33-39 | no variable name repeats, and the env map is read back from the variables unchanged |
| DeploymentGen.EnvVarCount | pkg/microservice/deployment.go:33-39 | there are as many variables as env map entries |
| DeploymentGen.ContainerPorts | pkg/microservice/deployment.go:41-47 | one container port per rule, in rule order, with the rule's name and container port |
| DeploymentGen.SelectorMatchesTemplate | pkg/microservice/deployment.go:19-65 | selector, pod-template labels and object labels are one and the same spec label set |
| DeploymentGen.ContainerEnvIsDeclaredEnv | pkg/microservice/deployment.go:33-76 | the generated container's environment determines the declared env map and has as many variables as it has entries |
| ServiceAccountGen.GenerateServiceAccount | pkg/microservice/serviceaccount.go:11-25 | name, namespace, labels and annotations are the workload's |
| ServiceAccountGen.SecretAnnotations | pkg/microservice/serviceaccount.go:32-38 | every workload annotation is copied except that the account-name key is forced to the account, whatever it held; no other key is added |
| ServiceAccountGen.SecretAnnotationsIdempotent | pkg/microservice/serviceaccount.go:32-38 | applying the binding to the secret's own annotations changes nothing |
| ServiceAccountGen.GenerateServiceAccountSecret | pkg/microservice/serviceaccount.go:27-51 | type service-account-token; named `<workload>-sa` in the workload namespace with its labels; annotations bind the account name and keep every other workload annotation |
| ServiceAccountGen.SecretBindsGeneratedAccount | pkg/microservice/serviceaccount.go:15-38 | the secret's binding names exactly the generated service account |
| ServiceAccountGen.SecretNameDiffersFromAccount | pkg/microservice/serviceaccount.go:39 | the secret's name never equals the account's, so both live side by side |
| AutoscalingGen.GenerateAutoscaling | pkg/microservice/autoscaling.go:10-28 | no autoscaler exactly when no policy is declared; otherwise the spec is the policy verbatim and name, namespace, labels and annotations are the workload's |
| AutoscalingGen.GeneratedCarriesMarker | pkg/microservice/autoscaling.go:24 | the generated autoscaler carries the override marker exactly as the workload does |
| GeneratorConsistency.ServiceTargetsContainerPorts | pkg/microservice/service.go:29-37 | service port i forwards to container port i, and both carry rule i's name |
| GeneratorConsistency.BackendsNameServicePorts | pkg/microservice/ingress.go:41-47 | every path of ingress i names service port i's name and number |
| GeneratorConsistency.BackendIsGeneratedServiceOnlyWhenNamesMatch | pkg/microservice/ingress.go:41-47 | a backend names the generated service exactly when the rule bears the workload's name |
| LegacyGen.LegacyPaths | pkg/microservice/microservice.go:50-81 | one entry per declared path, in order, each routing to the owning object's name, or one catch-all entry with that backend when none are declared |
| LegacyGen.LegacyIngressFor | pkg/microservice/microservice.go:36-93 | one object named `<object>-<rule>` with no labels or annotations and exactly one stanza carrying the rule's single host |
| LegacyGen.LegacyIngressesFor | pkg/microservice/microservice.go:24-34 | one object per rule, object i built for rule i |
| LegacyGen.GenerateLegacyIngresses | pkg/microservice/microservice.go:24-34 | one object per rule, in order, named `<object>-<rule>`, each with exactly one stanza for the rule's host |
| LegacyGen.LegacyServicePorts | pkg/microservice/microservice.go:112-121 | one TCP port per rule, in order, named after the rule, port = targetPort = container port |
| LegacyGen.GenerateLegacyService | pkg/microservice/microservice.go:95-127 | the legacy service has empty annotations, no labels, no selector, type NodePort and, per rule in order, one TCP port named after the rule whose port and target port are the rule's container port |
| LegacyGen.LegacyBackendsResolve | pkg/microservice/microservice.go:58-64 | every legacy path routes to the legacy service itself, on the port that service exposes for the rule |
| Cluster.Ensure | controllers/deployment.go:17-28 | create-if-absent, get, update of one object: the first failing call ends it with that call's error; without failures the desired object is stored |
| Cluster.EnsureQuiet | controllers/deployment.go:17-28 | without failures, ensure issues exactly create, get, update and leaves the desired object stored |
| Cluster.EnsureFrame | controllers/deployment.go:17-28 | ensure changes only the desired object's key, never removes one, and succeeds exactly when none of its three calls fails |
| Cluster.EnsureShape | controllers/deployment.go:17-28 | the calls of an ensure are a prefix of create, get, update; a failure is its last call's and leaves what the create left |
| Cluster.EnsuredCreateFailureStops | controllers/deployment.go:17-20 | a failing create is followed by no get and no update, and writes nothing |
| Cluster.EnsuredGetFailureStops | controllers/deployment.go:22-26 | a failing get is followed by no update |
| Cluster.EnsureIdempotent | controllers/deployment.go:17-28 | ensuring the same object twice without failures leaves the store as one ensure did |
| Cluster.DeleteEach | controllers/ingress.go:28-35 | deletes the keys in order and stops at the first failing delete; the store loses exactly the keys whose delete went through |
| Cluster.EnsureEach | controllers/ingress.go:55-71 | ensures each object in order, issuing only creates, gets and updates of their keys; succeeds exactly when none of its calls fails, and then all are stored |
| Cluster.EnsureEachStopsAt | controllers/ingress.go:55-71 | when call j of the loop is the first to fail, the loop ends right after it with that error |
| IngressCheck.Doomed | controllers/ingress.go:28-34 | the keys deleted are exactly the listed ingresses whose names contain the workload's name |
| IngressCheck.DeleteContaining | controllers/ingress.go:27-51 | the deleting branch issues only deletes, changes only ingresses, and fails only at its own failing call |
| IngressCheck.EnsureGenerated | controllers/ingress.go:53-73 | the ensuring branch ensures every generated ingress in order and never deletes |
| IngressCheck.CheckIngress | controllers/ingress.go:18-74 | the List comes first and a failing List ends the step with nothing written; only ingresses change; the unwanted branch only deletes, the wanted branch never deletes |
| IngressCheck.UnwantedDeletesContaining | controllers/ingress.go:27-51 | with no rules or ingress disabled and no failure, what remains is exactly the store minus the ingresses whose names contain the workload's |
| IngressCheck.CollateralDeletion | controllers/ingress.go:40-51 | a workload "api" with ingress disabled deletes the ingress "payments-api-public" of another workload |
| IngressCheck.WantedStoresGenerated | controllers/ingress.go:53-73 | with rules, ingress enabled and no failure, the store afterwards is the old one with every generated ingress written over it in order, and no ingress disappears |
| IngressCheck.GeneratedIngressStored | controllers/ingress.go:53-73 | writing the generated ingresses in order over any store (what the check leaves, by WantedStoresGenerated) stores the ingress of rule i, unchanged, under its own name, unless a later rule bears the same name |
| IngressCheck.WantedStopsAtFirstFailure | controllers/ingress.go:55-71 | the first failing call of the ensure loop ends the step: nothing after it is issued |
| IngressCheck.MergedService | controllers/ingress.go:94-96 | the written service is the generated one with the stored one's assigned fields merged into its spec |
| IngressCheck.CheckService | controllers/ingress.go:76-97 | no rules means one delete of the service named after the workload, whatever ingressEnabled says; otherwise create, get, merge, update, with a create or get error aborting before the update |
| IngressCheck.ServiceEnsured | controllers/ingress.go:81-96 | with rules and no failure, the stored service is the generated one with the assigned fields merged from what was stored |
| ServiceAccountCheck.CheckServiceAccount | controllers/serviceaccount.go:15-33 | creation disabled means one delete of the account named after the workload; otherwise an ensure of the generated account |
| ServiceAccountCheck.CheckServiceAccountSecret | controllers/serviceaccount.go:35-54 | creation disabled means one delete of `<workload>-sa`; otherwise an ensure of the generated secret |
| ServiceAccountCheck.DeletedAreGenerated | controllers/serviceaccount.go:16-38 | the account and secret the disabled branch deletes are those the generators name |
| ServiceAccountCheck.DisableRemovesBoth | controllers/serviceaccount.go:16-38 | disabling creation without failures removes the account and the secret and nothing else |
| DeploymentCheck.CheckDeployment | controllers/deployment.go:14-29 | always an ensure of the generated deployment; no delete is ever issued |
| DeploymentCheck.CreateFailureStops | controllers/deployment.go:17-20 | a failing create means no get and no update |
| DeploymentCheck.GetFailureStops | controllers/deployment.go:22-26 | a failing get means no update |
| AutoscalingCheck.CheckAutoscaling | controllers/autoscaling.go:15-40 | no policy means one delete of the autoscaler named after the workload; the marker "true" means success with no call; otherwise an ensure of the generated autoscaler |
| AutoscalingCheck.DeletedIsGenerated | controllers/autoscaling.go:16-26 | the autoscaler the delete branch removes is the one the ensure branch writes |
| AutoscalingCheck.RemovedPolicyBeatsMarker | controllers/autoscaling.go:16-24 | removing the policy deletes the autoscaler even while the marker is set |
| AutoscalingCheck.OtherMarkerEnsures | controllers/autoscaling.go:20-39 | any marker value other than "true", or none, leads to a normal ensure that stores the generated autoscaler |
| StatusMachine.UpdateStatus | controllers/utils.go:20-36 | no call when the in-memory status already equals the new one; otherwise one status write that stores exactly the new status, or fails with a wrapped error and leaves the store as it was; the in-memory copy changes either way; nothing but that object's status changes, not even its spec or metadata |
| StatusMachine.UpdateStatusReconciling | controllers/utils.go:15-18 | writes the status with the Reconciling state and the error text kept; no call when memory already holds it; otherwise one status call, which fails exactly when the store fails or the object is gone, and a failure leaves the store as it was |
| StatusMachine.UpdateStatusReconcilingAndLogError | controllers/utils.go:38-47 | records the error text when there is one, sets Reconciling, never returns an error; no call when memory already holds that status, otherwise exactly one status call; the stored status becomes the new one unless that call failed, when the store is unchanged |
| StatusMachine.UpdateStatusSettles | controllers/utils.go:21-23 | writing the same status again right after issues no call |
| StatusMachine.LogErrorRecordsMessage | controllers/utils.go:38-47 | with a working store, the stored status ends as Reconciling with exactly the error's text |
| MicroserviceController.RunCheck | controllers/microservice_controller.go:86-120 | each check changes only its own kind of child, fails only at its own failing call, and succeeds without store failures |
| MicroserviceController.RunChecks | controllers/microservice_controller.go:86-120 | the checks run in the given order, check i taking the world left by check i-1 to the next one, until the first error; every check but the last that ran passed; only their kinds change; the error is the store failure of the last call |
| MicroserviceController.ChecksNeverTouchWorkload | controllers/microservice_controller.go:86-120 | no check changes a Microservice object |
| MicroserviceController.FinishPass | controllers/microservice_controller.go:122-128 | with Reconciling stored, one status call writes Stable with the error text read at the start and succeeds exactly when that call does; a failure returns the wrapped store error after a second, logging call, and leaves Reconciling with that error's text stored, or the earlier status when the logging call failed too; only the workload's status changes |
| MicroserviceController.CheckAndRecord | controllers/microservice_controller.go:86-128 | the checks run in order from the marked world; a failing check ends the pass with it as the last check run, returns the store error of its own failing call, and leaves Reconciling with that error's text stored (or the status before, when the logging call failed); otherwise all six ran and Stable is written as in FinishPass; only a pass that writes Stable succeeds |
| MicroserviceController.MarkAndCheck | controllers/microservice_controller.go:79-128 | a state other than Reconciling is written first, as one status call storing Reconciling with the error text read; a failed mark returns the wrapped store error with nothing else issued or written; after the mark the checks run and are recorded as in CheckAndRecord |
| MicroserviceController.Reconcile | controllers/microservice_controller.go:63-130 | a missing workload is success with nothing written; a failed read returns its store error with nothing written; the mark precedes every check and its failure returns the wrapped store error; checks run in fixed order until the first error, which is returned and recorded as Reconciling with its text; Done means Stable stored with the earlier error text; only child kinds that ran and the workload's status change |
| LegacyController.Settle | controllers/deployment_controller.go:88-99 | a failing service check is returned and recorded; otherwise Stable is written; success exactly when Stable was written |
| LegacyController.Reconcile | controllers/deployment_controller.go:62-102 | a missing object is success with nothing written; a failed read is returned; a failed mark ends the pass with nothing written |
| LegacyController.SetStateIsNotMarked | controllers/deployment_controller.go:81-86 | an object whose state is already set is not marked: the check runs right after the read |
| LegacyController.EmptyStateIsMarked | controllers/deployment_controller.go:81-86 | an object with an empty state is marked Reconciling, keeping its error text, before the check |
| LegacyController.FailureIsRecorded | controllers/deployment_controller.go:88-92 | a failed check is returned and the stored status becomes Reconciling with its text |
| LegacyController.SettledIsStable | controllers/deployment_controller.go:94-99 | a settled pass leaves Stable stored with the error text read at the start |
| LegacyController.QuietCheckSettles | controllers/deployment_controller.go:88-101 | a passing check with a working store always settles |
| Cron.Remove | controllers/scheduledautoscaler_controller.go:129-131 | the id is no longer registered, every other entry is kept, and no id is handed out |
| Cron.RemoveUnknown | controllers/scheduledautoscaler_controller.go:129-131 | removing an id that is not registered changes nothing |
| Cron.RemoveAll | controllers/scheduledautoscaler_controller.go:129-131 | removing a list of ids only drops entries |
| Cron.RemoveAllExactly | controllers/scheduledautoscaler_controller.go:129-131 | after removing the ids none of them is registered and every other entry is kept |
| Cron.AddFunc | controllers/scheduledautoscaler_controller.go:140-144 | a rejected expression leaves the scheduler unchanged; otherwise the next id is handed out for the registration and nothing else changes |
| Cron.AddFuncFresh | controllers/scheduledautoscaler_controller.go:140-146 | an accepted registration never reuses an id in use and keeps every existing entry |
| Cron.RegisterAll | controllers/scheduledautoscaler_controller.go:133-147 | one registration per entry, ids last+1, last+2, ... in entry order; the first rejected entry stops the loop, and the entries before it stay registered |
| Cron.RegisterAllKeeps | controllers/scheduledautoscaler_controller.go:133-147 | registration keeps every earlier entry and every id stays one the scheduler handed out |
| ScaleCallback.Rescaled | controllers/scheduled_autoscaler.go:26-27 | the autoscaler gets the entry's maximum and minimum |
| ScaleCallback.RescaledKeepsTheRest | controllers/scheduled_autoscaler.go:26-29 | only the two bounds change; metadata, target and metrics stay |
| ScaleCallback.LaterFiringWins | controllers/scheduled_autoscaler.go:26-27 | two firings in a row leave the later one's bounds |
| ScaleCallback.Marked | controllers/scheduled_autoscaler.go:42 | the workload gains the marker "true" and every other annotation, its name, spec and status stay |
| ScaleCallback.MarkedKeepsOtherAnnotations | controllers/scheduled_autoscaler.go:42 | every other annotation keeps its presence and value |
| ScaleCallback.Fire | controllers/scheduled_autoscaler.go:14-52 | the autoscaler is read first, by the target's name; a failed read or autoscaler write leaves the store as it was; a later failure, or a nil annotation map, keeps the new bounds with no rollback; a full firing stores the new bounds and the marked workload |
| ScaleCallback.QuietFiringScales | controllers/scheduled_autoscaler.go:19-47 | with a working store, a present autoscaler and an annotated workload, a firing always scales |
| ScaleCallback.ScaledBoundsSurviveCheck | controllers/autoscaling.go:20-24 | after a full firing, the workload's autoscaling step issues no call and the firing's bounds stay |
| ScaleCallback.UnmarkedBoundsAreOverwritten | controllers/scheduled_autoscaler.go:35-47 | a firing that could not mark the workload is undone by the next working autoscaling step |
| ScheduledController.AddFinalizer | controllers/scheduledautoscaler_controller.go:91-92 | the finalizer is present afterwards; an existing one leaves the list as it was; otherwise it is appended |
| ScheduledController.RemoveFinalizer | controllers/scheduledautoscaler_controller.go:109 | the finalizer is gone and every other entry is kept |
| ScheduledController.UpdateSaStatus | controllers/scheduledautoscaler_controller.go:149-154 | no call when the in-memory status equals the new one; otherwise one write that stores it, or fails with a wrapped error and leaves the store as it was; nothing but that object's status changes, not even its spec, finalizers or deletion mark |
| ScheduledController.SaLogError | controllers/scheduledautoscaler_controller.go:141-143 | records Reconciling with the error's text on the status it was given, never fails; no call when memory already holds that status, otherwise exactly one status call |
| ScheduledController.ReregisteredKeepsIssued | controllers/scheduledautoscaler_controller.go:129-147 | a normal pass keeps every registered id one the scheduler handed out |
| ScheduledController.NextPassRemovesRecorded | controllers/scheduledautoscaler_controller.go:129-131 | the ids a recorded pass stored are all gone after the next normal pass |
| ScheduledController.RejectedPassLeaks | controllers/scheduledautoscaler_controller.go:140-144 | registrations made by a pass stopped by a rejected entry survive the next pass |
| ScheduledController.Record | controllers/scheduledautoscaler_controller.go:149-161 | Stable with the old ids is written before the new ids, as two calls; a failed Stable write returns its wrapped error and leaves Reconciling with its text and the old ids (or the status before); a failed id write returns its wrapped error and leaves Reconciling with its text and the new ids, or Stable with the old ids when the logging call failed; only a pass whose writes succeed stores Stable with the new ids and the old error text |
| ScheduledController.RegistrationReregisters | controllers/scheduledautoscaler_controller.go:129-147 | removing the recorded ids and registering the entries on the cleared scheduler keeps every other registration, drops every recorded one, and adds one registration per entry registered, in entry order |
| ScheduledController.RegistrationIds | controllers/scheduledautoscaler_controller.go:133-147 | the ids of that run are the ones right after the scheduler's last id, one per registered entry, and the counter advances by their number |
| ScheduledController.RegistrationRejects | controllers/scheduledautoscaler_controller.go:133-144 | that run stops exactly when some entry is rejected, and then at the first rejected entry, whose expression it reports |
| ScheduledController.Reregister | controllers/scheduledautoscaler_controller.go:129-147 | the scheduler side of a pass: the definition is re-registered, with fresh ids in entry order; it stops at the first rejected entry exactly when there is one, and otherwise registers every entry |
| ScheduledController.NewIdsInOrder | controllers/scheduledautoscaler_controller.go:133-147 | the new ids are the ones right after the last id, in entry order, each holding its entry |
| ScheduledController.Register | controllers/scheduledautoscaler_controller.go:129-161 | removal precedes registration; it stops exactly when some entry is rejected, returning the rejection of the first rejected entry's expression and leaving Reconciling with that error's text and the old ids (or the status before, when the logging call failed); otherwise one id per entry and the recording outcome of Record; only the definition's status changes |
| ScheduledController.Finalize | controllers/scheduledautoscaler_controller.go:97-120 | without the finalizer nothing happens; with it every recorded id is removed, every other entry kept, nothing registered, and the definition written back once: Finalized exactly when that write works, storing the definition without the finalizer; otherwise the write's own error with the store unchanged |
| ScheduledController.FinalizedDropsFinalizer | controllers/scheduledautoscaler_controller.go:108-112 | a finalized definition is stored without the finalizer and with nothing else changed |
| ScheduledController.MarkAndRegister | controllers/scheduledautoscaler_controller.go:122-161 | a state other than Reconciling is written first, as one status call storing Reconciling; a failed mark returns the wrapped store error with the scheduler and store unchanged; after the mark, registration runs as in Register |
| ScheduledController.Admit | controllers/scheduledautoscaler_controller.go:84-96 | a missing finalizer is persisted before anything is registered; a failed write returns its store error with the scheduler and store unchanged; a failed mark returns the wrapped store error of the mark, its last call; once admitted, the stored definition is the one read with the finalizer added, differing at most in its status, and no other object changes |
| ScheduledController.Retire | controllers/scheduledautoscaler_controller.go:97-120 | for a definition under deletion, the pass after the read is Finalize: Released leaves everything as read; Finalized stores the definition without the finalizer; FinalizeFailed returns the write's store error with the store unchanged; recorded ids are removed in both |
| ScheduledController.Enter | controllers/scheduledautoscaler_controller.go:84-161 | for a definition not under deletion, the pass after the read is Admit: the finalizer write's error, the mark's wrapped error, the stored definition with the finalizer, every other stored object unchanged, and registration as in Register |
| ScheduledController.Reconcile | controllers/scheduledautoscaler_controller.go:67-164 | a missing definition or failed read leaves the scheduler as it was; deletion stages exactly for a definition under deletion, their outcome being Finalize on the world after the read (finalizer dropped and persisted, or the write's own error), with recorded ids removed; otherwise a failed finalizer write or mark returns its own store error, and the definition is stored with the finalizer, marked, re-registered and recorded as in Register, with every other stored object unchanged |

## Left out

- `pkg/resources` is not part of this model. Its create-if-absent, update and delete
  helpers are modelled from their names:
  - create only when absent;
  - an update of a missing object reports not-found;
  - a delete of a missing object succeeds.

  No "no write when equal" property is claimed for the update. The copying of
  cluster-assigned service fields is an opaque function parameter (`IngressCheck.Merge`).
- The legacy reconciler's service check is not part of this model. It is a parameter of
  `LegacyController` (`ServiceCheck`), applied to the world it runs in.
- Record: compares the new id list with the recorded one as sequences. Go starts the list
  as a non-nil empty slice, while a status that never recorded ids holds nil. So for a
  definition with no entries and no recorded ids, Go may issue one more status write than
  the model does; whether it does depends on `updateStatusWithCronID`, which is not part of
  this model.
- Finalize: the store keeps a definition under deletion once its last finalizer is removed.
  The API server would delete it at that point. So the next pass on that definition ends
  Released here, where the source's read would find nothing and end as SaGone. Both outcomes
  succeed and leave the scheduler as it was.
- The status helpers of the Microservice and ScheduledAutoscaler reconcilers, and
  `updateStatusWithCronID`, are not part of this model. They are assumed to behave like the
  legacy helpers in `controllers/utils.go`.
- Owner references, garbage collection, logging, `SetupWithManager` and its predicates,
  RBAC markers and the controller-runtime client are framework plumbing and are not modelled.
- Rolling-update strategy, revision-history defaults and probes are not modelled. The
  defaults use constants that are not part of this model, and probes are declared but never
  used. Pod-template annotations are not modelled as copied, because the generator never
  sets them.
- The env map becomes a set of variables. The order comes from Go map iteration and is
  not modelled.
- The order in which List returns ingresses is a parameter (`listing`), required to name
  exactly the ingresses in the store.
- Integer widths (int32 ports and replicas, the scheduler's int ids) are not modelled.
  Integers are unbounded.
- One namespace: keys are (kind, name). The ingress list and all lookups are in the
  workload's namespace.
- Cron expression parsing and firing times are not modelled. The set of expressions the
  scheduler rejects is a parameter.
- A firing is one atomic step (`ScaleCallback.Fire`) between whole store operations. No
  atomicity against a reconcile in flight is claimed: the code has no lock or retry.
- Each registration captures its calendar entry by value. In Go the callback holds a
  pointer to the loop variable. Which entry it sees then depends on the Go version's
  loop-variable semantics.
- Writing into a nil annotation map panics in Go. This is the explicit `NilAnnotations`
  outcome of a firing, with the autoscaler already updated.
- API-server defaulting (protocol, termination message path) is not modelled; only the
  cluster test code observes it.
- The reconcile passes and the supervisor pass are modelled as methods composed of pure
  store steps. Each returns the new world, the new scheduler and where the pass ended.
