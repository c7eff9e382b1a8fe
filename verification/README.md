# solver-operator: the Solver reconciler in Dafny

This project models the controller of the `Solver` custom resource in
solver-operator. A Solver asks for one Python dependency-resolution run. It
names the packages to resolve, whether transitive dependencies are included,
an output location, and whether the finished Job is kept. The controller runs
each Solver as a batch `Job` called `<solver-name>-job` in the Solver's
namespace, and records progress in the Solver's status phase:

- the empty phase of a fresh Solver;
- `Running` once the Job exists;
- `Completed` once the Job reports exactly one success.

The model is purely functional:

- The API server is a `Store`: one map of Solvers and one of Jobs, each keyed
  by namespace and name (`Cluster`).
- Every client call takes an injected fault (`Reconciler.Faults`, one per call
  site). When a fault is present the call fails with that error and changes
  nothing. This stands for a request refused before it took effect (a network
  error, a write conflict), and for a cache that reports an existing object
  missing. A read never returns an outdated copy of an object, and a write
  never takes effect while reporting an error (see "## Left out").
- Without a fault, the store decides the outcome:
  - create on a taken key returns "already exists";
  - delete or update of a missing key returns "not found";
  - a read of a missing key returns "not found".
- `Reconciler.Reconcile` reads the Solver and the Job, then issues a `Plan` of
  writes in order and stops at the first failure. It returns the new store,
  the error, and the exact sequence of client calls it made.
- `Traces.Run` strings invocations together with changes made outside the
  controller: a user submitting a Solver, a Job's status changing, or a Job
  being removed.

Modules:

| file | module | contents |
|---|---|---|
| wrappers.dfy | `Wrappers` | `Option`, `Result` |
| kube.dfy | `Kube` | keys, metadata, owner references, the batch Job and its pod template, client errors |
| solver_types.dfy | `SolverTypes` | the Solver resource, its phases and their order |
| cluster.dfy | `Cluster` | the store and the client's get/create/delete/update |
| job_builder.dfy | `JobBuilder` | the Job a Solver asks for, its labels, and readers that invert the builder |
| reconciler.dfy | `Reconciler` | owner reference, write plans, `Reconcile`, frame and progress predicates |
| reconcile_branches.dfy | `ReconcileBranches` | one lemma per branch of `Reconcile`, plus frame and progress |
| transitions.dfy | `Transitions` | the transition table written independently, checked against `Reconcile` |
| traces.dfy | `Traces` | runs: monotone phase, terminal Completed, ownership, idempotent creation |
| completion_order.dfy | `CompletionOrder` | the Job re-created after a failed completion, and the reordered completion that prevents it |
| scenario.dfy | `Scenario` | one concrete Solver lifetime |

Where the code differs from the intended behaviour, the model follows the code:

- A failed create, including "already exists", is returned to the work queue.
  So is a failed delete, including "not found". Neither is treated as success.
- A Job whose `Failed` counter is set is never noticed. Only `Succeeded == 1`
  completes the Solver, and a failed Job leaves it `Running` for ever.
- On the success path the Solver is written twice with the same value. If the
  first write fails, that error is returned and the second write is not made.
- `THOTH_SOLVER_NO_TRANSITIVE` carries the `IncludeTransitive` flag itself,
  not its negation.
- The controller never writes `Initializing`. A fresh Solver's phase is the
  empty string, which ranks with `Initializing` at the start of the phase order.
- The succeeded Job is deleted before the Solver is recorded Completed. A
  failure in between makes the next call create the Job and run the solver
  again (see "## Findings").

## Model

| member | source | states |
|---|---|---|
| Reconciler.Reconcile | pkg/controller/solver/solver_controller.go:76-165 | Every invocation returns the empty result that never asks for a requeue; the errors it returns are the ones the branch lemmas list |
| Reconciler.SetControllerReference | pkg/controller/solver/solver_controller.go:101-104 | Fails exactly when the library call fails; otherwise the Job names the Solver as controller and nothing else about the Job changes |
| Reconciler.Plan | pkg/controller/solver/solver_controller.go:106-162 | Every status write keeps the Solver's identity and spec and sets phase Running or Completed; every other write targets the Job built for the Solver |
| Reconciler.Perform | pkg/controller/solver/solver_controller.go:109-162 | Never more writes are issued than planned; no error means all were issued, an error means at least one was; the store stays well formed |
| Reconciler.PerformStopsAtFirstError | pkg/controller/solver/solver_controller.go:109-162 | When an error is returned, the writes before the last one issued all succeeded in order, and the error is the one the last write met on the store they left, which it did not change |
| Reconciler.PerformFramed | pkg/controller/solver/solver_controller.go:109-162 | Writes that all concern one Solver and its Job change no other object and add or remove no Solver |
| Reconciler.PerformAdvances | pkg/controller/solver/solver_controller.go:117-158 | If every status write keeps identity and spec and does not move the phase back, the stored Solver advances however far the writes get |
| Reconciler.PerformEndsWithLastUpdate | pkg/controller/solver/solver_controller.go:151-164 | When all writes succeed and the last one is a status write, that Solver is what remains stored |
| Cluster.GetSolver | pkg/controller/solver/solver_controller.go:79-81 | A read succeeds exactly when no fault occurs and the Solver is stored, and then returns the stored Solver; a free key gives "not found"; a fault is returned as the error |
| Cluster.GetJob | pkg/controller/solver/solver_controller.go:106-108 | A read succeeds exactly when no fault occurs and the Job is stored, and then returns the stored Job; a free key gives "not found"; a fault is returned as the error |
| Cluster.CreateJob | pkg/controller/solver/solver_controller.go:111-114 | Create succeeds exactly when no fault occurs and the key is free; it then adds just that Job; otherwise the store is unchanged |
| Cluster.DeleteJob | pkg/controller/solver/solver_controller.go:140-143 | Delete succeeds exactly when no fault occurs and the key is present; it then removes just that key; otherwise the store is unchanged |
| Cluster.UpdateSolver | pkg/controller/solver/solver_controller.go:118-122 | Update succeeds exactly when no fault occurs and the Solver exists; it then replaces the whole stored Solver; Jobs are untouched |
| ReconcileBranches.ReconcileExecutesPlan | pkg/controller/solver/solver_controller.go:98-127 | Once the Solver is read, not Completed and owned, and the Job lookup fails with at most "not found", the call issues exactly the plan for what the lookup returned |
| ReconcileBranches.ReconcileConfined | pkg/controller/solver/solver_controller.go:76-165 | Under any faults: the store stays well formed, only the requested Solver and its Job can change, no Solver appears or disappears, and every write targets one of those two objects |
| ReconcileBranches.ReconcileFramed | pkg/controller/solver/solver_controller.go:76-165 | Under any faults, the store stays well formed and only the requested Solver and its Job can change |
| ReconcileBranches.ReconcileWritesTargeted | pkg/controller/solver/solver_controller.go:108-158 | Under any faults, every write call targets the requested Solver or its Job key |
| ReconcileBranches.ReconcileAdvances | pkg/apis/thoth/v1alpha1/solver_types.go:34-36 | The phase never moves back, and the Solver's identity and spec never change; a call that read the Solver and returned no error leaves it Running or Completed |
| ReconcileBranches.SolverGoneStops | pkg/controller/solver/solver_controller.go:79-88 | A Solver that is missing, or that the read reports missing, ends the call with no error, no further call and no change |
| ReconcileBranches.SolverReadErrorReturned | pkg/controller/solver/solver_controller.go:89-90 | Any other error reading the Solver is returned unchanged, with no further call |
| ReconcileBranches.CompletedSolverUntouched | pkg/controller/solver/solver_controller.go:93-96 | A Completed Solver ends the call after the read, with no error and no change |
| ReconcileBranches.OwnerReferenceFailureAborts | pkg/controller/solver/solver_controller.go:98-104 | A failure to set the owner reference is returned before the Job is looked up |
| ReconcileBranches.JobReadErrorReturned | pkg/controller/solver/solver_controller.go:106-127 | An error reading the Job other than "not found" is returned after the lookup, with no write |
| ReconcileBranches.AbsentJobIsCreated | pkg/controller/solver/solver_controller.go:106-124 | A missing Job is created under the Job key, controlled by the Solver; then phase Running is written; the call returns that write's error, and the Solver changes only if it succeeded |
| ReconcileBranches.CreateFailureSkipsStatus | pkg/controller/solver/solver_controller.go:109-114 | A failed create, "already exists" included, is returned and the store is unchanged; the status is not written |
| ReconcileBranches.ExistingJobMarkedRunning | pkg/controller/solver/solver_controller.go:129-164 | A found Job without exactly one success leaves the Jobs alone and writes phase Running with one active Job |
| ReconcileBranches.FailedCountNotConsulted | pkg/controller/solver/solver_controller.go:129-134 | Changing the Job's failure counter changes neither the error, nor the calls, nor the resulting Solvers |
| ReconcileBranches.PerformIgnoresJobContents | pkg/controller/solver/solver_controller.go:109-162 | Writing a plan depends on the stored Jobs only through which keys are taken |
| ReconcileBranches.SucceededJobCompletes | pkg/controller/solver/solver_controller.go:134-162 | A Job with exactly one success makes the Solver Completed with one success and no active Job; the Job is deleted unless kept; the Solver is written twice with the same value, and a failed first write is returned at once, with no call after it |
| ReconcileBranches.RetentionRule | pkg/controller/solver/solver_controller.go:137-146 | After success, and when the delete succeeds, the Job stays in the store exactly when the Solver keeps it, and a delete is issued exactly when it does not |
| ReconcileBranches.DeleteIssuedUnlessKept | pkg/controller/solver/solver_controller.go:137-143 | After success, under any faults, a delete of the Solver's Job is issued exactly when the Solver does not keep it |
| ReconcileBranches.PerformCompletedTwice | pkg/controller/solver/solver_controller.go:148-162 | The two completion writes: a failed first write stops with its error; otherwise the Solver is stored and the second write's error is returned |
| ReconcileBranches.DeleteFailureAborts | pkg/controller/solver/solver_controller.go:137-143 | A failed delete, "not found" included, is returned before any status write, and the store is unchanged |
| Transitions.FaultFreeReconcileFollowsTable | pkg/controller/solver/solver_controller.go:76-165 | When no call fails, Reconcile returns no error and leaves exactly the state the separately written transition table prescribes |
| Transitions.EachObjectOldOrExpected | pkg/controller/solver/solver_controller.go:76-165 | Under any faults, the Solvers and the Jobs are each left either as they were or as the table prescribes; the two need not agree with each other (see "## Findings") |
| Transitions.StopBeforeWritesKeepsStore | pkg/controller/solver/solver_controller.go:79-127 | A call that stops at a read, at a Completed Solver, at the owner reference or at a Job lookup error leaves the store unchanged |
| Transitions.FoundJobOldOrExpected | pkg/controller/solver/solver_controller.go:129-164 | When the Job is found, under any faults the Solvers and the Jobs are each left as they were or as the table prescribes |
| Traces.StepOutcome | pkg/controller/solver/solver_controller.go:76-165 | Every step of a run keeps the store well formed: a reconcile, a user submitting a Solver (refused when its name is taken), a Job status change or a Job removal |
| Traces.Run | pkg/controller/solver/solver_controller.go:71-75 | Any sequence of reconciles and outside changes keeps the store well formed |
| Traces.StepKeepsSolver | pkg/apis/thoth/v1alpha1/solver_types.go:34-36 | No step removes a Solver or moves its phase back, and only a reconcile of that Solver changes it |
| Traces.PhaseNeverRegresses | pkg/apis/thoth/v1alpha1/solver_types.go:34-36 | Along any run, every Solver survives with the same identity and spec, and its phase never moves back |
| Traces.StepLeavesCompletedAlone | pkg/controller/solver/solver_controller.go:93-96 | A Completed Solver is unchanged by every step, and no step writes it or its Job |
| Traces.CompletedIsTerminal | pkg/controller/solver/solver_controller.go:93-96 | Once Completed, a Solver stays exactly as it is along any run, and no write targets it or its Job |
| Traces.StepKeepsJobsOwned | pkg/controller/solver/solver_controller.go:101-104 | If every Job is controlled by a stored Solver whose Job key it occupies, that still holds after any step |
| Traces.ReconcileKeepsJobsOwned | pkg/controller/solver/solver_controller.go:101-124 | Reconcile keeps every Job controlled by the stored Solver whose Job key it occupies |
| Traces.EachJobOldOrDesired | pkg/controller/solver/solver_controller.go:99-124 | After a reconcile, the Job under the requested Solver's Job key is either the one already there or the Job built and owned for that Solver |
| Traces.JobsStayOwned | pkg/controller/solver/solver_controller.go:101-104 | Along any run, every Job in the store is controlled by the Solver it was created for |
| Traces.RedeliveryWhileRunning | pkg/controller/solver/solver_controller.go:129-164 | When every call succeeds, while the Job exists without success, any number of deliveries create nothing, keep the Jobs and keep the Solver Running |
| Traces.FirstDeliveryCreates | pkg/controller/solver/solver_controller.go:106-124 | When every call succeeds, the first delivery for a Solver with no Job creates exactly one Job, and the Solver becomes Running |
| Traces.RedeliveryCreatesOneJob | pkg/controller/solver/solver_controller.go:106-132 | When every call succeeds, however often a key is delivered, exactly one Job is created for a Solver with no Job, and it is that Solver's Job |
| JobBuilder.FormatBool | pkg/controller/solver/solver_controller.go:202-206 | The text is "true" or "false", and it is "true" exactly when the flag is set |
| JobBuilder.LabelsForSolverJob | pkg/controller/solver/solver_controller.go:230-234 | Exactly the keys app, component and solver, mapped to thoth, solver-f27 and the Solver's name |
| JobBuilder.NewSolverJob | pkg/controller/solver/solver_controller.go:167-228 | The Job lives under the Solver's Job key, carries the Solver's labels, has no owner, passes the spec through the first container's environment, and starts with a zero status |
| JobBuilder.FormatBoolRoundTrip | pkg/controller/solver/solver_controller.go:202-206 | The flag written into the environment can be read back |
| JobBuilder.JobNameRoundTrip | pkg/controller/solver/solver_controller.go:176 | The Solver name can be recovered from the Job name |
| JobBuilder.JobKeyInjective | pkg/controller/solver/solver_controller.go:176-177 | Two Solvers share a Job key exactly when they are the same Solver |
| JobBuilder.LookupEnv | pkg/controller/solver/solver_controller.go:195-216 | A variable is found exactly when one with that name exists, and the value is that of the first one |
| JobBuilder.NewSolverJobShape | pkg/controller/solver/solver_controller.go:168-234 | The built Job is named `<name>-job` in the Solver's namespace and has the three labels. It has one busybox container running `env` with pull policy Always and the five variables in order. Its restart policy is Never, and it has no owner and no success yet |
| JobBuilder.ParametersRoundTrip | pkg/controller/solver/solver_controller.go:195-216 | Reading the environment back yields exactly the Solver's packages, transitivity flag and output |
| JobBuilder.NoTransitiveCarriesIncludeTransitive | pkg/controller/solver/solver_controller.go:204-207 | The NO_TRANSITIVE variable reads true exactly when transitive dependencies are included |
| JobBuilder.JobIdentifiesSolver | pkg/controller/solver/solver_controller.go:175-178 | The Job's name and its `solver` label both lead back to the Solver |
| JobBuilder.SameJobIffSameParameters | pkg/controller/solver/solver_controller.go:168-228 | Two Solvers get the same Job exactly when they agree on identity, packages, transitivity and output; retention and status do not reach the Job |
| SolverTypes.NewSolver | pkg/apis/thoth/v1alpha1/solver_types.go:32-45 | A fresh Solver has the empty phase, which is not `Initializing` but ranks with it, and all counters are zero |
| SolverTypes.PhaseLiteralsOrdered | pkg/apis/thoth/v1alpha1/solver_types.go:13-18 | The three phase literals are distinct and ranked Initial < Running < Completed |
| CompletionOrder.FailedCompletionLosesJob | pkg/controller/solver/solver_controller.go:137-155 | As written: when the delete succeeds and the first Completed write fails, the error is returned, the Solver is left as it was and its Job is gone |
| CompletionOrder.RetryAfterFailedCompletionRecreatesJob | pkg/controller/solver/solver_controller.go:106-155 | As written: after that failure, a retry in which every call succeeds creates the Solver's Job again |
| CompletionOrder.CorrectedPlan | pkg/controller/solver/solver_controller.go:134-162 | Corrected order: for a succeeded Job the first write records Completed, every status write is that Completed Solver, and no Job is created |
| CompletionOrder.CorrectedCompletionAtomic | pkg/controller/solver/solver_controller.go:134-162 | Corrected order: from a Solver whose Job has succeeded, any call under any faults either leaves the store as it was or leaves the Solver Completed |
| CompletionOrder.CorrectedRetryNeverRecreates | pkg/controller/solver/solver_controller.go:106-162 | Corrected order: after a call that failed anywhere, a retry in which every call succeeds never creates the Job of a Solver whose Job had succeeded |
| CompletionOrder.CorrectedDeleteFaultStrandsJob | pkg/controller/solver/solver_controller.go:93-143 | Corrected order: when the delete fails after Completed was recorded, the error is returned with the Job still stored, and a retry in which every call succeeds only reads the Solver, so the Job that is not to be kept is never deleted |
| CompletionOrder.StaleSolverReadRecreatesJob | pkg/controller/solver/solver_controller.go:65-66 | As written: after a fault-free completion that deletes the Job, a Solver read that lags behind the status write, next to a Job read that has seen the delete, makes the next call create the Job again |
| CompletionOrder.StaleSolverReadRecreatesJobCorrected | pkg/controller/solver/solver_controller.go:65-66 | Corrected order: the same lagging Solver read makes the next call create the Job again, so the corrected order also needs fresh reads |
| CompletionOrder.CorrectedKeepsWellFormed | pkg/controller/solver/solver_controller.go:134-162 | The corrected call keeps the store well formed |
| Scenario.FirstDeliveryStartsJob | pkg/controller/solver/solver_controller.go:106-124 | For a fresh Solver `numpy==1.0`, the first delivery creates its Job and marks it Running |
| Scenario.FirstJobCarriesSpec | pkg/controller/solver/solver_controller.go:195-216 | That Job hands over `numpy==1.0`, true and `/out`, and names the Solver as controller |
| Scenario.SecondDeliveryCompletes | pkg/controller/solver/solver_controller.go:134-162 | After the Job reports one success, the next delivery deletes it and records Completed with one success and no active Job |
| Scenario.ThirdDeliveryIsQuiet | pkg/controller/solver/solver_controller.go:93-96 | A further delivery reads the Solver and writes nothing |

## Findings

| source | as written | input that shows it | evidently intended | confidence | as-written member | corrected member |
|---|---|---|---|---|---|---|
| pkg/controller/solver/solver_controller.go:137-155 | The succeeded Job is deleted (line 140) before the Solver is written Completed (line 151) | A Running Solver with `keepJob` false whose Job reports one success; the delete succeeds and the Update at line 151 meets a conflict; the retry finds no Job and creates it again at line 111, so the solver runs twice | Record Completed first and delete the Job afterwards, so that, when reads are fresh, a retry after any failure finds either the Solver Completed or the succeeded Job still there. The cost: if that delete fails, the Solver is already Completed, later calls stop at the Completed check, and a Job that is not to be kept stays in the store (`CompletionOrder.CorrectedDeleteFaultStrandsJob`); the code as written retries that delete | medium; not executed | CompletionOrder.RetryAfterFailedCompletionRecreatesJob | CompletionOrder.CorrectedRetryNeverRecreates |

Failed calls alone never store a second Job for a Solver: the store holds
one Job per key, and a create on a taken key is refused. The Job is created
again only when it has succeeded and a failure falls between its deletion and
the Completed write, which is why `Traces.RedeliveryCreatesOneJob` is stated
for runs in which every call succeeds.

The rest of the model keeps the order as written, because it describes what
the controller does; `CompletionOrder.CorrectedReconcile` differs from
`Reconciler.Reconcile` only in that order.

## Left out

- Controller wiring (`Add`, `add`, `newReconciler`, the watches on Solvers and owned Jobs, and `AddToManagerFuncs`): these register the controller with the manager and are not logic of the reconciler.
- Stale reads: a read returns the object as stored, or reports it missing through a fault. It never returns an outdated copy, although the controller's client reads from a cache (pkg/controller/solver/solver_controller.go:65-66). For example, the Job deletion at pkg/controller/solver/solver_controller.go:140 requeues the Solver, and a lagging cache could still show it Running next to the Job already gone; in either completion order that read makes the next call create the Job again (`CompletionOrder.StaleSolverReadRecreatesJob`, `CompletionOrder.StaleSolverReadRecreatesJobCorrected`). `Traces.CompletedIsTerminal`, `Traces.RedeliveryCreatesOneJob`, `CompletionOrder.CorrectedCompletionAtomic` and `CompletionOrder.CorrectedRetryNeverRecreates` rely on fresh reads.
- Writes that take effect but report an error (a timeout after the server applied the write): a faulted write changes nothing.
- Solver deletion: runs include a user submitting a Solver, but never deleting one, so every Solver survives a run. Deleting a Solver would cascade to the Jobs it controls; `Traces.JobsStayOwned` is the invariant that cascade needs. A Job created by anyone but the controller is not modelled either.
- CompletionOrder.CorrectedReconcile: the corrected order does not keep the retention rule when its delete fails, because the Solver is already Completed and nothing deletes the Job later; removing such a Job would need a change to the Completed check, which is beyond the reordering.
- Pods: the model has no Pods. What deleting a Job does to the Pods it started (pkg/controller/solver/solver_controller.go:140-146) is outside the model.
- Concurrency and event delivery: the work queue is modelled as a sequence of deliveries of one key at a time, in any order and any number of times.
- Logging: the log lines have no effect on state.
- Resource versions and optimistic locking: an update rejected for a stale version is one of the injected faults (`Conflict`).
- The internals of `controllerutil.SetControllerReference` and the scheme: the call either stamps the controller reference or fails with an injected error.
- `SolverStatus.StartTime` and `CompletionTime`: the controller never sets them.
- `SolverSpec.Pod` and `PodPolicy`: the Job builder never reads them.
- `SolverList` and the scheme registration in `init`: they only serve serialization.
- `TypeMeta` of the Solver, the Job's empty `VolumeMounts`, `Volumes` and `ImagePullSecrets`, and the container's `Name` beyond its value: they have no bearing on the behaviour modelled here.
- Garbage collection of a Job whose owner Solver is deleted: it is done by the API server, not this controller. `Traces.JobsStayOwned` states the precondition it relies on.
- JobBuilder.ParseBool: not in the source; it is the reference inverse of `strconv.FormatBool`, used to state the round trip.
- The `Failed` and `Active` counters of a Job are carried but never read, and the model keeps them that way.
