/**
 * The order of the two effects of completion. The controller deletes a
 * succeeded Job before it records Completed on the Solver, so a failure
 * between the two leaves a Running Solver with no Job, and the next call
 * creates the Job again: the solver runs twice. Recording Completed first
 * closes that window but opens another: when the delete then fails, the
 * Solver is already Completed, every later call stops at the Completed check,
 * and a Job that is not to be kept stays in the store. This module exhibits
 * the re-creation for the code as written, proves that the reordered
 * completion never re-creates the Job, and exhibits the Job it can strand.
 * Both orders assume fresh reads: a Solver read that lags behind the
 * Completed write, after the Job is gone, re-creates the Job in either order.
 */
module CompletionOrder {
  import opened Wrappers
  import opened Kube
  import opened SolverTypes
  import opened Cluster
  import opened JobBuilder
  import opened Reconciler
  import opened ReconcileBranches

  /** No call in `calls` creates a Job. */
  predicate CreatesNothing(calls: seq<Call>)
  {
    forall i | 0 <= i < |calls| :: !(calls[i].WriteCall? && calls[i].write.CreateJobWrite?)
  }

  /** The faults of the window: every call succeeds except the first Completed write. */
  const ConflictOnCompletion: Faults := NoFaults.(completeUpdate := Some(Conflict))

  /**
   * As written: for a Running Solver whose Job has succeeded and is not
   * kept, the delete goes through, the first Completed write meets a
   * conflict, and the error is returned with the Solver as it was and the
   * Job gone.
   */
  lemma FailedCompletionLosesJob(st: Store, req: Key)
    requires FindsJob(st, req, NoFaults)
    requires st.jobs[JobKey(req)].status.succeeded == 1
    requires !st.solvers[req].spec.keepJob
    ensures var o := Reconcile(st, req, ConflictOnCompletion);
      && WellFormed(o.store)
      && o.err == Some(Conflict)
      && o.store.solvers == st.solvers
      && o.store.jobs == st.jobs - {JobKey(req)}
  {
    SucceededJobCompletes(st, req, ConflictOnCompletion);
    ReconcileFramed(st, req, ConflictOnCompletion);
  }

  /**
   * ... and the retry, with every call succeeding, creates the Job anew, so
   * the solver runs a second time.
   */
  lemma RetryAfterFailedCompletionRecreatesJob(st: Store, req: Key)
    requires FindsJob(st, req, NoFaults)
    requires st.jobs[JobKey(req)].status.succeeded == 1
    requires !st.solvers[req].spec.keepJob
    ensures var o := Reconcile(st, req, ConflictOnCompletion);
      var retry := Reconcile(o.store, req, NoFaults);
      && WriteCall(CreateJobWrite(DesiredJob(st.solvers[req]))) in retry.calls
      && retry.store.jobs == (st.jobs - {JobKey(req)})[JobKey(req) := DesiredJob(st.solvers[req])]
  {
    FailedCompletionLosesJob(st, req);
    AbsentJobIsCreated(Reconcile(st, req, ConflictOnCompletion).store, req, NoFaults);
  }

  /**
   * The completion writes in the intended order: Completed is recorded
   * first, the Job is deleted afterwards unless kept, and the status write
   * that ends every path follows. Every other case is planned as before.
   */
  function CorrectedPlan(instance: Solver, job: Job, found: Result<Job, Error>, f: Faults): (plan: seq<Planned>)
    ensures found.Success? ==> forall i | 0 <= i < |plan| :: !plan[i].write.CreateJobWrite?
    ensures found.Success? && found.value.status.succeeded == 1 ==>
      && |plan| > 0
      && plan[0] == Planned(UpdateSolverWrite(Completed(RunningActive(instance))), f.completeUpdate)
      && forall i | 0 <= i < |plan| :: plan[i].write.UpdateSolverWrite? ==>
           plan[i].write.solver == Completed(RunningActive(instance))
  {
    if found.Success? && found.value.status.succeeded == 1 then
      var done := Completed(RunningActive(instance));
      [Planned(UpdateSolverWrite(done), f.completeUpdate)]
      + (if !instance.spec.keepJob then [Planned(DeleteJobWrite(job), f.delete)] else [])
      + [Planned(UpdateSolverWrite(done), f.finalUpdate)]
    else
      Plan(instance, job, found, f)
  }

  /** Reconcile with the corrected completion order; its reads and other branches are unchanged. */
  function CorrectedReconcile(st: Store, req: Key, f: Faults): Outcome
    requires WellFormed(st)
  {
    if ReachesJobLookup(st, req, f) && (f.getJob.None? || f.getJob == Some(NotFound)) then
      var s := st.solvers[req];
      Execute(st, [GetSolverCall(req), GetJobCall(JobKey(req))],
              CorrectedPlan(s, DesiredJob(s), GetJob(st, JobKey(req), f.getJob), f))
    else
      Reconcile(st, req, f)
  }

  /**
   * Completion is all or nothing for the Solver: from a Solver whose Job has
   * succeeded, any corrected call either leaves the store as it was or
   * leaves the Solver Completed.
   */
  lemma CorrectedCompletionAtomic(st: Store, req: Key, f: Faults)
    requires WellFormed(st) && req in st.solvers && st.solvers[req].status.phase != PhaseCompleted
    requires JobKey(req) in st.jobs && st.jobs[JobKey(req)].status.succeeded == 1
    ensures var o := CorrectedReconcile(st, req, f);
      || o.store == st
      || (req in o.store.solvers && o.store.solvers[req].status.phase == PhaseCompleted)
  {
    var jk := JobKey(req);
    if (req !in st.solvers && f.getSolver.None?) || f.getSolver == Some(NotFound) {
      SolverGoneStops(st, req, f);
    } else if f.getSolver.Some? {
      SolverReadErrorReturned(st, req, f);
    } else if f.setOwner.Some? {
      OwnerReferenceFailureAborts(st, req, f);
    } else if f.getJob.Some? && f.getJob != Some(NotFound) {
      JobReadErrorReturned(st, req, f);
    } else if f.getJob.Some? {
      ReconcileExecutesPlan(st, req, f);
      CreateFailureSkipsStatus(st, req, f);
    } else {
      ReconcileExecutesPlan(st, req, f);
      var s := st.solvers[req];
      var done := Completed(RunningActive(s));
      var plan := CorrectedPlan(s, DesiredJob(s), Success(st.jobs[jk]), f);
      var a := ApplyWrite(st, plan[0]);
      if a.err.None? {
        assert a.store.solvers[req] == done;
        PerformAdvances(a.store, plan[1..], req, done);
        assert Perform(st, plan).store == Perform(a.store, plan[1..]).store;
      }
    }
  }

  /**
   * The evidently intended retry property: after a call that failed
   * anywhere, a retry in which every call succeeds never creates the Job of
   * a Solver whose Job had already succeeded.
   */
  lemma CorrectedRetryNeverRecreates(st: Store, req: Key, f: Faults)
    requires WellFormed(st) && req in st.solvers && st.solvers[req].status.phase != PhaseCompleted
    requires JobKey(req) in st.jobs && st.jobs[JobKey(req)].status.succeeded == 1
    ensures var o := CorrectedReconcile(st, req, f);
      WellFormed(o.store) && CreatesNothing(CorrectedReconcile(o.store, req, NoFaults).calls)
  {
    CorrectedCompletionAtomic(st, req, f);
    var o := CorrectedReconcile(st, req, f);
    CorrectedKeepsWellFormed(st, req, f);
    if o.store == st {
      ReconcileExecutesPlan(st, req, NoFaults);
      var s := st.solvers[req];
      var plan := CorrectedPlan(s, DesiredJob(s), Success(st.jobs[JobKey(req)]), NoFaults);
      var calls := [GetSolverCall(req), GetJobCall(JobKey(req))] + WriteCalls(plan[..Perform(st, plan).issued]);
      assert CorrectedReconcile(st, req, NoFaults).calls == calls;
    } else {
      CompletedSolverUntouched(o.store, req, NoFaults);
    }
  }

  /**
   * The cost of the corrected order: when the delete fails after Completed
   * was recorded, the error is returned with the Job still stored, and a
   * retry in which every call succeeds stops at the Completed check, so a
   * Job that is not to be kept is never deleted. The code as written retries
   * that delete instead, because its Solver is still Running.
   */
  lemma CorrectedDeleteFaultStrandsJob(st: Store, req: Key)
    requires FindsJob(st, req, NoFaults)
    requires st.jobs[JobKey(req)].status.succeeded == 1
    requires !st.solvers[req].spec.keepJob
    ensures var o := CorrectedReconcile(st, req, NoFaults.(delete := Some(Unavailable)));
      var retry := CorrectedReconcile(o.store, req, NoFaults);
      && o.err == Some(Unavailable)
      && req in o.store.solvers && o.store.solvers[req].status.phase == PhaseCompleted
      && o.store.jobs == st.jobs
      && retry.store == o.store
      && retry.calls == [GetSolverCall(req)]
  {
    var f := NoFaults.(delete := Some(Unavailable));
    var s := st.solvers[req];
    var done := Completed(RunningActive(s));
    var plan := CorrectedPlan(s, DesiredJob(s), Success(st.jobs[JobKey(req)]), f);
    assert KeyOf(done.meta) == req;
    var first := ApplyWrite(st, plan[0]);
    assert first.err.None? && first.store.solvers[req] == done && first.store.jobs == st.jobs;
    assert ApplyWrite(first.store, plan[1]) == Applied(first.store, Some(Unavailable));
    assert Perform(st, plan) == Performed(first.store, Some(Unavailable), 2);
    CompletedSolverUntouched(first.store, req, NoFaults);
  }

  /**
   * Neither order survives a lagging Solver read. After a fault-free call
   * that deletes the succeeded Job, a read of the Solver that has not yet
   * seen the call's status write, next to a Job read that has seen the
   * delete, makes the code as written create the Job again.
   */
  lemma StaleSolverReadRecreatesJob(st: Store, req: Key)
    requires FindsJob(st, req, NoFaults)
    requires st.jobs[JobKey(req)].status.succeeded == 1
    requires !st.solvers[req].spec.keepJob
    ensures var o := Reconcile(st, req, NoFaults);
      var view := Store(st.solvers, o.store.jobs);
      && WellFormed(view)
      && WriteCall(CreateJobWrite(DesiredJob(st.solvers[req]))) in Reconcile(view, req, NoFaults).calls
  {
    SucceededJobCompletes(st, req, NoFaults);
    var view := Store(st.solvers, Reconcile(st, req, NoFaults).store.jobs);
    AbsentJobIsCreated(view, req, NoFaults);
  }

  /** ... and the corrected order does the same: it assumes fresh reads too. */
  lemma StaleSolverReadRecreatesJobCorrected(st: Store, req: Key)
    requires FindsJob(st, req, NoFaults)
    requires st.jobs[JobKey(req)].status.succeeded == 1
    requires !st.solvers[req].spec.keepJob
    ensures var o := CorrectedReconcile(st, req, NoFaults);
      var view := Store(st.solvers, o.store.jobs);
      && WellFormed(view)
      && WriteCall(CreateJobWrite(DesiredJob(st.solvers[req]))) in CorrectedReconcile(view, req, NoFaults).calls
  {
    var s := st.solvers[req];
    var done := Completed(RunningActive(s));
    var plan := CorrectedPlan(s, DesiredJob(s), Success(st.jobs[JobKey(req)]), NoFaults);
    assert KeyOf(done.meta) == req;
    var first := ApplyWrite(st, plan[0]);
    assert first.err.None? && first.store.jobs == st.jobs;
    var second := ApplyWrite(first.store, plan[1]);
    assert second.err.None? && second.store.jobs == st.jobs - {JobKey(req)};
    var third := ApplyWrite(second.store, plan[2]);
    assert third.err.None? && third.store.jobs == second.store.jobs;
    assert plan[2..][1..] == [];
    assert Perform(second.store, plan[2..]).store == third.store;
    assert plan[1..][1..] == plan[2..];
    assert Perform(st, plan).store == third.store;
    var o := CorrectedReconcile(st, req, NoFaults);
    assert o.store == Perform(st, plan).store;
    var view := Store(st.solvers, o.store.jobs);
    ReconcileExecutesPlan(view, req, NoFaults);
    AbsentJobIsCreated(view, req, NoFaults);
  }

  lemma CorrectedKeepsWellFormed(st: Store, req: Key, f: Faults)
    requires WellFormed(st)
    ensures WellFormed(CorrectedReconcile(st, req, f).store)
  {
    ReconcileFramed(st, req, f);
  }
}
