/**
 * One invocation of the Solver controller's Reconcile, as a pure step from a
 * store to an outcome: the new store, the (always empty) reconcile result,
 * the error returned to the work queue, and the client calls made in order.
 */
module Reconciler {
  import opened Wrappers
  import opened Kube
  import opened SolverTypes
  import opened Cluster
  import opened JobBuilder

  /**
   * The error, if any, each client call site of Reconcile returns. A call
   * without an injected fault behaves as the store dictates.
   */
  datatype Faults = Faults(
    getSolver: Option<Error>,       // Get of the Solver
    setOwner: Option<Error>,        // SetControllerReference
    getJob: Option<Error>,          // Get of the Job
    create: Option<Error>,          // Create of the Job
    createUpdate: Option<Error>,    // Update marking the Solver Running after the create
    delete: Option<Error>,          // Delete of the succeeded Job
    completeUpdate: Option<Error>,  // first Update marking the Solver Completed
    finalUpdate: Option<Error>)     // last Update, on every path that finds the Job

  const NoFaults: Faults := Faults(None, None, None, None, None, None, None, None)

  /** A write to the API server. */
  datatype Write =
    | CreateJobWrite(job: Job)
    | DeleteJobWrite(job: Job)
    | UpdateSolverWrite(solver: Solver)

  /** A client call, read or write. */
  datatype Call =
    | GetSolverCall(key: Key)
    | GetJobCall(key: Key)
    | WriteCall(write: Write)

  /** Whether a write touches the Solver stored under `k` or that Solver's Job. */
  predicate WritesFor(w: Write, k: Key)
  {
    match w
    case UpdateSolverWrite(s) => KeyOf(s.meta) == k
    case CreateJobWrite(j) => KeyOf(j.meta) == JobKey(k)
    case DeleteJobWrite(j) => KeyOf(j.meta) == JobKey(k)
  }

  /** A write Reconcile intends to issue, with the fault its call site meets. */
  datatype Planned = Planned(write: Write, fault: Option<Error>)

  function ApplyWrite(st: Store, p: Planned): Applied
  {
    match p.write
    case CreateJobWrite(j) => CreateJob(st, j, p.fault)
    case DeleteJobWrite(j) => DeleteJob(st, j, p.fault)
    case UpdateSolverWrite(s) => UpdateSolver(st, s, p.fault)
  }

  /** The store after issuing writes in order, the first error, and how many writes were issued. */
  datatype Performed = Performed(store: Store, err: Option<Error>, issued: nat)

  /**
   * Issues the planned writes one after the other and stops at the first
   * that fails, returning its error: every error path of Reconcile after its
   * reads has this shape.
   */
  function Perform(st: Store, plan: seq<Planned>): (r: Performed)
    ensures r.issued <= |plan|
    ensures r.err.None? ==> r.issued == |plan|
    ensures r.err.Some? ==> 0 < r.issued
    ensures WellFormed(st) ==> WellFormed(r.store)
    decreases |plan|
  {
    if |plan| == 0 then Performed(st, None, 0)
    else
      var a := ApplyWrite(st, plan[0]);
      if a.err.Some? then Performed(a.store, a.err, 1)
      else
        var rest := Perform(a.store, plan[1..]);
        Performed(rest.store, rest.err, rest.issued + 1)
  }

  /**
   * Perform stops at the first failing write: the writes before it all
   * succeeded, in order, and the error returned is the one that write met on
   * the store they left. A failing write changes nothing, so that is the
   * final store too.
   */
  lemma {:induction false} PerformStopsAtFirstError(st: Store, plan: seq<Planned>)
    ensures var r := Perform(st, plan);
      r.err.Some? ==>
        var before := Perform(st, plan[..r.issued - 1]);
        && before.err.None? && before.issued == r.issued - 1
        && ApplyWrite(before.store, plan[r.issued - 1]) == Applied(r.store, r.err)
    decreases |plan|
  {
    if |plan| > 0 {
      var a := ApplyWrite(st, plan[0]);
      if a.err.Some? {
        assert plan[..0] == [];
      } else {
        var rest := Perform(a.store, plan[1..]);
        PerformStopsAtFirstError(a.store, plan[1..]);
        if rest.err.Some? {
          var pre := plan[..rest.issued];
          assert pre[0] == plan[0];
          assert pre[1..] == plan[1..][..rest.issued - 1];
          assert plan[rest.issued] == plan[1..][rest.issued - 1];
        }
      }
    }
  }

  function WriteCalls(plan: seq<Planned>): (calls: seq<Call>)
    ensures |calls| == |plan|
    ensures forall i | 0 <= i < |plan| :: calls[i] == WriteCall(plan[i].write)
  {
    seq(|plan|, i requires 0 <= i < |plan| => WriteCall(plan[i].write))
  }

  /** The controller-runtime result; Reconcile always returns the empty one. */
  datatype ReconcileResult = ReconcileResult(requeue: bool)

  const EmptyResult: ReconcileResult := ReconcileResult(false)

  datatype Outcome = Outcome(store: Store, result: ReconcileResult, err: Option<Error>, calls: seq<Call>)

  function Stop(st: Store, err: Option<Error>, calls: seq<Call>): Outcome
  {
    Outcome(st, EmptyResult, err, calls)
  }

  /** Issues a plan after the reads `readCalls`; the calls are the reads and the writes issued. */
  function Execute(st: Store, readCalls: seq<Call>, plan: seq<Planned>): Outcome
  {
    var r := Perform(st, plan);
    Outcome(r.store, EmptyResult, r.err, readCalls + WriteCalls(plan[..r.issued]))
  }

  /** The controller owner reference naming a Solver. */
  function ControllerRef(owner: Solver): OwnerRef
  {
    OwnerRef("Solver", owner.meta.name, true)
  }

  /**
   * Marks `owner` as the controller of the freshly built `job`. What the
   * library checks is not modelled: it either fails with the injected error
   * or stamps the reference.
   */
  function SetControllerReference(owner: Solver, job: Job, fault: Option<Error>): (r: Result<Job, Error>)
    ensures r.Failure? <==> fault.Some?
    ensures r.Success? ==> ControllerOf(r.value) == Some(Key(job.meta.namespace, owner.meta.name))
    ensures r.Success? ==> r.value.(meta := job.meta) == job
    ensures r.Success? ==> r.value.meta.(ownerRefs := job.meta.ownerRefs) == job.meta
  {
    if fault.Some? then Failure(fault.value)
    else Success(job.(meta := job.meta.(ownerRefs := [ControllerRef(owner)])))
  }

  /** The Job the controller creates for a Solver: the built Job with its owner stamped. */
  function DesiredJob(s: Solver): Job
  {
    var job := NewSolverJob(s);
    job.(meta := job.meta.(ownerRefs := [ControllerRef(s)]))
  }

  function Running(s: Solver): Solver
  {
    s.(status := s.status.(phase := PhaseRunning))
  }

  function RunningActive(s: Solver): Solver
  {
    s.(status := s.status.(phase := PhaseRunning, active := 1))
  }

  function Completed(s: Solver): Solver
  {
    s.(status := s.status.(phase := PhaseCompleted, succeeded := 1, active := 0))
  }

  /**
   * The writes Reconcile issues once the Solver has been read and found not
   * Completed, given the result of looking up its Job (a lookup error other
   * than "not found" never gets here):
   * a missing Job is created and the Solver marked Running; a Job with exactly
   * one success is deleted unless kept, and the Solver written Completed twice;
   * any other Job leaves the Solver Running with one active Job. The failure
   * counter is never read.
   */
  function Plan(instance: Solver, job: Job, found: Result<Job, Error>, f: Faults): (plan: seq<Planned>)
    ensures forall i | 0 <= i < |plan| :: plan[i].write.UpdateSolverWrite? ==>
      && plan[i].write.solver.meta == instance.meta
      && plan[i].write.solver.spec == instance.spec
      && plan[i].write.solver.status.phase in {PhaseRunning, PhaseCompleted}
    ensures forall i | 0 <= i < |plan| :: !plan[i].write.UpdateSolverWrite? ==> plan[i].write.job == job
  {
    if found.Failure? then
      [ Planned(CreateJobWrite(job), f.create),
        Planned(UpdateSolverWrite(Running(instance)), f.createUpdate) ]
    else if found.value.status.succeeded == 1 then
      var done := Completed(RunningActive(instance));
      (if !instance.spec.keepJob then [Planned(DeleteJobWrite(job), f.delete)] else [])
      + [ Planned(UpdateSolverWrite(done), f.completeUpdate),
          Planned(UpdateSolverWrite(done), f.finalUpdate) ]
    else
      [ Planned(UpdateSolverWrite(RunningActive(instance)), f.finalUpdate) ]
  }

  /**
   * One invocation of Reconcile: read the Solver and stop if it is gone or
   * Completed; otherwise build and own its Job, look the Job up, and issue the
   * writes the lookup calls for.
   */
  function Reconcile(st: Store, req: Key, f: Faults): (o: Outcome)
    requires WellFormed(st)
    ensures o.result == EmptyResult
  {
    var c0 := [GetSolverCall(req)];
    var got := GetSolver(st, req, f.getSolver);
    if got.Failure? then
      if got.error == NotFound then Stop(st, None, c0) else Stop(st, Some(got.error), c0)
    else
      var instance := got.value;
      if instance.status.phase == PhaseCompleted then Stop(st, None, c0)
      else
        var owned := SetControllerReference(instance, NewSolverJob(instance), f.setOwner);
        if owned.Failure? then Stop(st, Some(owned.error), c0)
        else
          var job := owned.value;
          var c1 := c0 + [GetJobCall(KeyOf(job.meta))];
          var found := GetJob(st, KeyOf(job.meta), f.getJob);
          if found.Failure? && found.error != NotFound then Stop(st, Some(found.error), c1)
          else Execute(st, c1, Plan(instance, job, found, f))
  }

  /** Only the Solver stored under `req` and its Job may differ between the two stores. */
  predicate Frame(st: Store, st': Store, req: Key)
  {
    && st'.solvers.Keys == st.solvers.Keys
    && st'.solvers - {req} == st.solvers - {req}
    && st'.jobs - {JobKey(req)} == st.jobs - {JobKey(req)}
  }

  /** The Solver keeps its identity and spec and does not move back in phase. */
  predicate Advances(before: Solver, after: Solver)
  {
    && after.meta == before.meta
    && after.spec == before.spec
    && PhaseRank(after.status.phase) >= PhaseRank(before.status.phase)
  }

  /** A plan whose writes all concern one Solver and its Job changes nothing else. */
  lemma {:induction false} PerformFramed(st: Store, plan: seq<Planned>, req: Key)
    requires forall i | 0 <= i < |plan| :: WritesFor(plan[i].write, req)
    ensures Frame(st, Perform(st, plan).store, req)
    decreases |plan|
  {
    if |plan| > 0 {
      var a := ApplyWrite(st, plan[0]);
      assert Frame(st, a.store, req);
      if a.err.None? {
        PerformFramed(a.store, plan[1..], req);
      }
    }
  }

  /**
   * If every Solver the plan writes under `req` advances from `before`, so
   * does the Solver stored there afterwards.
   */
  lemma {:induction false} PerformAdvances(st: Store, plan: seq<Planned>, req: Key, before: Solver)
    requires req in st.solvers && Advances(before, st.solvers[req])
    requires forall i | 0 <= i < |plan| ::
      (plan[i].write.UpdateSolverWrite? && KeyOf(plan[i].write.solver.meta) == req ==> Advances(before, plan[i].write.solver))
    ensures req in Perform(st, plan).store.solvers && Advances(before, Perform(st, plan).store.solvers[req])
    decreases |plan|
  {
    if |plan| > 0 {
      var a := ApplyWrite(st, plan[0]);
      if a.err.None? {
        PerformAdvances(a.store, plan[1..], req, before);
      }
    }
  }

  /** A plan that runs to its end and finishes by writing a Solver leaves exactly that Solver stored. */
  lemma {:induction false} PerformEndsWithLastUpdate(st: Store, plan: seq<Planned>)
    requires |plan| > 0 && plan[|plan| - 1].write.UpdateSolverWrite?
    requires Perform(st, plan).err.None?
    ensures var s := plan[|plan| - 1].write.solver;
      KeyOf(s.meta) in Perform(st, plan).store.solvers && Perform(st, plan).store.solvers[KeyOf(s.meta)] == s
    decreases |plan|
  {
    var a := ApplyWrite(st, plan[0]);
    if |plan| > 1 {
      assert plan[1..][|plan[1..]| - 1] == plan[|plan| - 1];
      PerformEndsWithLastUpdate(a.store, plan[1..]);
    } else {
      assert Perform(a.store, plan[1..]).store == a.store;
    }
  }
}
