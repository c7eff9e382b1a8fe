/**
 * What one call of Reconcile does: the invariants every call keeps, and the
 * outcome of each branch of the controller, in terms of the store it starts
 * from, the faults its client calls meet, and the calls it makes.
 */
module ReconcileBranches {
  import opened Wrappers
  import opened Kube
  import opened SolverTypes
  import opened Cluster
  import opened JobBuilder
  import opened Reconciler

  /** The Solver exists, is not Completed, and was read and owned without error. */
  predicate ReachesJobLookup(st: Store, req: Key, f: Faults)
  {
    && WellFormed(st)
    && req in st.solvers
    && st.solvers[req].status.phase != PhaseCompleted
    && f.getSolver.None?
    && f.setOwner.None?
  }

  /** Moreover the Job lookup returns the stored Job. */
  predicate FindsJob(st: Store, req: Key, f: Faults)
  {
    && ReachesJobLookup(st, req, f)
    && f.getJob.None?
    && JobKey(req) in st.jobs
  }

  /** On the paths that issue writes, Reconcile issues exactly the plan for what it read. */
  lemma ReconcileExecutesPlan(st: Store, req: Key, f: Faults)
    requires ReachesJobLookup(st, req, f)
    requires f.getJob.None? || f.getJob == Some(NotFound)
    ensures var s := st.solvers[req];
      var found := GetJob(st, JobKey(req), f.getJob);
      && KeyOf(DesiredJob(s).meta) == JobKey(req)
      && ControllerOf(DesiredJob(s)) == Some(req)
      && Reconcile(st, req, f)
         == Execute(st, [GetSolverCall(req), GetJobCall(JobKey(req))], Plan(s, DesiredJob(s), found, f))
  {
  }

  /**
   * Every call keeps the store well formed, changes only the requested
   * Solver and its Job, and directs every write at one of those two.
   */
  lemma ReconcileConfined(st: Store, req: Key, f: Faults)
    requires WellFormed(st)
    ensures var o := Reconcile(st, req, f);
      && WellFormed(o.store)
      && Frame(st, o.store, req)
      && forall c | c in o.calls && c.WriteCall? :: WritesFor(c.write, req)
  {
    ReconcileFramed(st, req, f);
    ReconcileWritesTargeted(st, req, f);
  }

  lemma ReconcileFramed(st: Store, req: Key, f: Faults)
    requires WellFormed(st)
    ensures var o := Reconcile(st, req, f);
      WellFormed(o.store) && Frame(st, o.store, req)
  {
    if ReachesJobLookup(st, req, f) && (f.getJob.None? || f.getJob == Some(NotFound)) {
      ReconcileExecutesPlan(st, req, f);
      var s := st.solvers[req];
      var plan := Plan(s, DesiredJob(s), GetJob(st, JobKey(req), f.getJob), f);
      assert forall i | 0 <= i < |plan| :: WritesFor(plan[i].write, req);
      PerformFramed(st, plan, req);
    }
  }

  lemma ReconcileWritesTargeted(st: Store, req: Key, f: Faults)
    requires WellFormed(st)
    ensures var o := Reconcile(st, req, f);
      forall c | c in o.calls && c.WriteCall? :: WritesFor(c.write, req)
  {
  }

  /**
   * Phase never regresses: the Solver keeps its identity and spec and its
   * phase does not move back; a call that read the Solver and returned no
   * error leaves it Running or Completed.
   */
  lemma ReconcileAdvances(st: Store, req: Key, f: Faults)
    requires WellFormed(st) && req in st.solvers
    ensures var o := Reconcile(st, req, f);
      && req in o.store.solvers
      && Advances(st.solvers[req], o.store.solvers[req])
      && (f.getSolver.None? && o.err.None? ==>
            o.store.solvers[req].status.phase in {PhaseRunning, PhaseCompleted})
  {
    if ReachesJobLookup(st, req, f) && (f.getJob.None? || f.getJob == Some(NotFound)) {
      ReconcileExecutesPlan(st, req, f);
      var s := st.solvers[req];
      var plan := Plan(s, DesiredJob(s), GetJob(st, JobKey(req), f.getJob), f);
      assert PhaseRank(s.status.phase) <= 1;
      PerformAdvances(st, plan, req, s);
      if Perform(st, plan).err.None? {
        PerformEndsWithLastUpdate(st, plan);
      }
    }
  }

  /** A Solver that is gone, or that the cache reports gone, ends the call cleanly with no write. */
  lemma SolverGoneStops(st: Store, req: Key, f: Faults)
    requires WellFormed(st)
    requires (req !in st.solvers && f.getSolver.None?) || f.getSolver == Some(NotFound)
    ensures Reconcile(st, req, f) == Outcome(st, EmptyResult, None, [GetSolverCall(req)])
  {
  }

  /** Any other error reading the Solver is returned unchanged, with no write. */
  lemma SolverReadErrorReturned(st: Store, req: Key, f: Faults)
    requires WellFormed(st)
    requires f.getSolver.Some? && f.getSolver.value != NotFound
    ensures Reconcile(st, req, f) == Outcome(st, EmptyResult, f.getSolver, [GetSolverCall(req)])
  {
  }

  /** A Completed Solver is left alone: no error, no Job read, no write. */
  lemma CompletedSolverUntouched(st: Store, req: Key, f: Faults)
    requires WellFormed(st) && f.getSolver.None?
    requires req in st.solvers && st.solvers[req].status.phase == PhaseCompleted
    ensures Reconcile(st, req, f) == Outcome(st, EmptyResult, None, [GetSolverCall(req)])
  {
  }

  /** Failing to set the owner reference is returned before the Job is read or anything written. */
  lemma OwnerReferenceFailureAborts(st: Store, req: Key, f: Faults)
    requires WellFormed(st) && f.getSolver.None? && f.setOwner.Some?
    requires req in st.solvers && st.solvers[req].status.phase != PhaseCompleted
    ensures Reconcile(st, req, f) == Outcome(st, EmptyResult, f.setOwner, [GetSolverCall(req)])
  {
  }

  /** An error reading the Job other than "not found" is returned, with no write. */
  lemma JobReadErrorReturned(st: Store, req: Key, f: Faults)
    requires ReachesJobLookup(st, req, f)
    requires f.getJob.Some? && f.getJob.value != NotFound
    ensures Reconcile(st, req, f)
      == Outcome(st, EmptyResult, f.getJob, [GetSolverCall(req), GetJobCall(JobKey(req))])
  {
  }

  /**
   * A Job reported missing is created, exactly one, under `<name>-job` in the
   * Solver's namespace and controlled by the Solver; then phase Running is
   * written. The call's error is that of the status write.
   */
  lemma AbsentJobIsCreated(st: Store, req: Key, f: Faults)
    requires ReachesJobLookup(st, req, f)
    requires f.getJob.None? || f.getJob == Some(NotFound)
    requires JobKey(req) !in st.jobs && f.create.None?
    ensures var s := st.solvers[req];
      var o := Reconcile(st, req, f);
      && o.store.jobs == st.jobs[JobKey(req) := DesiredJob(s)]
      && ControllerOf(o.store.jobs[JobKey(req)]) == Some(req)
      && o.calls == [GetSolverCall(req), GetJobCall(JobKey(req)),
                     WriteCall(CreateJobWrite(DesiredJob(s))), WriteCall(UpdateSolverWrite(Running(s)))]
      && o.err == f.createUpdate
      && o.store.solvers == (if f.createUpdate.None? then st.solvers[req := Running(s)] else st.solvers)
  {
    ReconcileExecutesPlan(st, req, f);
    var s := st.solvers[req];
    var plan := Plan(s, DesiredJob(s), Failure(NotFound), f);
    var a := ApplyWrite(st, plan[0]);
    assert plan[1..] == [plan[1]];
    assert Perform(a.store, plan[1..]).issued == 1;
  }

  /**
   * A failed create, "already exists" included, is returned as the call's
   * error and the status is not written.
   */
  lemma CreateFailureSkipsStatus(st: Store, req: Key, f: Faults)
    requires ReachesJobLookup(st, req, f)
    requires (JobKey(req) !in st.jobs && f.getJob.None?) || f.getJob == Some(NotFound)
    requires JobKey(req) in st.jobs || f.create.Some?
    ensures Reconcile(st, req, f)
      == Outcome(st, EmptyResult, if f.create.Some? then f.create else Some(AlreadyExists),
                 [GetSolverCall(req), GetJobCall(JobKey(req)), WriteCall(CreateJobWrite(DesiredJob(st.solvers[req])))])
  {
  }

  /**
   * A Job found with a success count other than exactly one is left alone,
   * whatever its failure count, and the Solver is written Running with one
   * active Job.
   */
  lemma ExistingJobMarkedRunning(st: Store, req: Key, f: Faults)
    requires FindsJob(st, req, f)
    requires st.jobs[JobKey(req)].status.succeeded != 1
    ensures var s := st.solvers[req];
      var o := Reconcile(st, req, f);
      && o.store.jobs == st.jobs
      && o.calls == [GetSolverCall(req), GetJobCall(JobKey(req)), WriteCall(UpdateSolverWrite(RunningActive(s)))]
      && o.err == f.finalUpdate
      && o.store.solvers == (if f.finalUpdate.None? then st.solvers[req := RunningActive(s)] else st.solvers)
      && RunningActive(s).status.phase == PhaseRunning && RunningActive(s).status.active == 1
  {
    ReconcileExecutesPlan(st, req, f);
    var s := st.solvers[req];
    var plan := Plan(s, DesiredJob(s), Success(st.jobs[JobKey(req)]), f);
    var a := ApplyWrite(st, plan[0]);
    assert Perform(a.store, plan[1..]) == Performed(a.store, None, 0);
  }

  /**
   * Retention: once the Job reports exactly one success and the delete does
   * not fail, the Job remains in the store exactly when the Solver keeps it,
   * and a delete is issued exactly when it does not.
   */
  lemma RetentionRule(st: Store, req: Key, f: Faults)
    requires FindsJob(st, req, f)
    requires st.jobs[JobKey(req)].status.succeeded == 1
    requires f.delete.None?
    ensures var o := Reconcile(st, req, f);
      && (JobKey(req) in o.store.jobs <==> st.solvers[req].spec.keepJob)
      && (WriteCall(DeleteJobWrite(DesiredJob(st.solvers[req]))) in o.calls <==> !st.solvers[req].spec.keepJob)
  {
    SucceededJobCompletes(st, req, f);
    DeleteIssuedUnlessKept(st, req, f);
  }

  /** Whatever becomes of it, the delete of a succeeded Job is issued exactly when the Solver does not keep it. */
  lemma DeleteIssuedUnlessKept(st: Store, req: Key, f: Faults)
    requires FindsJob(st, req, f)
    requires st.jobs[JobKey(req)].status.succeeded == 1
    ensures WriteCall(DeleteJobWrite(DesiredJob(st.solvers[req]))) in Reconcile(st, req, f).calls
      <==> !st.solvers[req].spec.keepJob
  {
  }

  /**
   * A succeeded Job completes the Solver: phase Completed, one success, no
   * active Job, written twice with the same value. A failure of the first
   * write is returned at once; otherwise the call returns the second write's
   * error.
   */
  lemma SucceededJobCompletes(st: Store, req: Key, f: Faults)
    requires FindsJob(st, req, f)
    requires st.jobs[JobKey(req)].status.succeeded == 1
    requires st.solvers[req].spec.keepJob || f.delete.None?
    ensures var s := st.solvers[req];
      var o := Reconcile(st, req, f);
      var done := Completed(RunningActive(s));
      && done.status.phase == PhaseCompleted && done.status.succeeded == 1 && done.status.active == 0
      && done.spec == s.spec && done.status.failed == s.status.failed
      && o.store.jobs == (if s.spec.keepJob then st.jobs else st.jobs - {JobKey(req)})
      && (f.completeUpdate.Some? ==>
           && o.err == f.completeUpdate && o.store.solvers == st.solvers
           && o.calls == [GetSolverCall(req), GetJobCall(JobKey(req))]
                         + (if s.spec.keepJob then [] else [WriteCall(DeleteJobWrite(DesiredJob(s)))])
                         + [WriteCall(UpdateSolverWrite(done))])
      && (f.completeUpdate.None? ==>
           && o.err == f.finalUpdate
           && o.store.solvers == st.solvers[req := done]
           && |o.calls| >= 2
           && o.calls[|o.calls| - 2..] == [WriteCall(UpdateSolverWrite(done)), WriteCall(UpdateSolverWrite(done))])
  {
    ReconcileExecutesPlan(st, req, f);
    var s := st.solvers[req];
    var done := Completed(RunningActive(s));
    var tail := [Planned(UpdateSolverWrite(done), f.completeUpdate), Planned(UpdateSolverWrite(done), f.finalUpdate)];
    var plan := Plan(s, DesiredJob(s), Success(st.jobs[JobKey(req)]), f);
    var st1 := if s.spec.keepJob then st else DeleteJob(st, DesiredJob(s), None).store;
    assert st1.solvers == st.solvers;
    PerformCompletedTwice(st1, done, f.completeUpdate, f.finalUpdate);
    if s.spec.keepJob {
      assert plan == tail;
    } else {
      assert plan[1..] == tail;
    }
    var n := Perform(st, plan).issued;
    var calls := [GetSolverCall(req), GetJobCall(JobKey(req))] + WriteCalls(plan[..n]);
    if f.completeUpdate.None? {
      assert n == |plan|;
      assert calls[|calls| - 2..] == [WriteCall(plan[|plan| - 2].write), WriteCall(plan[|plan| - 1].write)];
    }
  }

  /** The two writes that complete a Solver, issued in a row. */
  lemma PerformCompletedTwice(st: Store, done: Solver, first: Option<Error>, last: Option<Error>)
    requires KeyOf(done.meta) in st.solvers
    ensures var r := Perform(st, [Planned(UpdateSolverWrite(done), first), Planned(UpdateSolverWrite(done), last)]);
      var st' := st.(solvers := st.solvers[KeyOf(done.meta) := done]);
      r == if first.Some? then Performed(st, first, 1) else Performed(st', last, 2)
  {
    var plan := [Planned(UpdateSolverWrite(done), first), Planned(UpdateSolverWrite(done), last)];
    var st' := st.(solvers := st.solvers[KeyOf(done.meta) := done]);
    if first.None? {
      assert plan[1..] == [plan[1]];
      var a := ApplyWrite(st', plan[1]);
      assert a.store == st';
      assert Perform(st', plan[1..]) == Performed(st', last, 1);
    }
  }

  /**
   * A failed delete, "not found" included, is returned before any status
   * write and leaves the store as it was.
   */
  lemma DeleteFailureAborts(st: Store, req: Key, f: Faults)
    requires FindsJob(st, req, f)
    requires st.jobs[JobKey(req)].status.succeeded == 1
    requires !st.solvers[req].spec.keepJob && f.delete.Some?
    ensures Reconcile(st, req, f)
      == Outcome(st, EmptyResult, f.delete,
                 [GetSolverCall(req), GetJobCall(JobKey(req)), WriteCall(DeleteJobWrite(DesiredJob(st.solvers[req])))])
  {
  }

  /** The store with the failure counter of the Solver's Job replaced. */
  function WithFailedCount(st: Store, req: Key, n: int): (st': Store)
    requires WellFormed(st) && JobKey(req) in st.jobs
    ensures WellFormed(st')
    ensures st'.solvers == st.solvers && st'.jobs.Keys == st.jobs.Keys
    ensures st'.jobs[JobKey(req)].status.succeeded == st.jobs[JobKey(req)].status.succeeded
  {
    var job := st.jobs[JobKey(req)];
    st.(jobs := st.jobs[JobKey(req) := job.(status := job.status.(failed := n))])
  }

  /**
   * The Job's failure counter is never consulted: a failed Job is treated
   * like one still running. Whatever the counter says, the call returns the
   * same error, makes the same calls and leaves the Solvers alike.
   */
  lemma FailedCountNotConsulted(st: Store, req: Key, f: Faults, n: int)
    requires WellFormed(st) && JobKey(req) in st.jobs
    ensures var o := Reconcile(st, req, f);
      var o' := Reconcile(WithFailedCount(st, req, n), req, f);
      o'.err == o.err && o'.calls == o.calls && o'.store.solvers == o.store.solvers
  {
    var st' := WithFailedCount(st, req, n);
    if ReachesJobLookup(st, req, f) && (f.getJob.None? || f.getJob == Some(NotFound)) {
      ReconcileExecutesPlan(st, req, f);
      ReconcileExecutesPlan(st', req, f);
      var s := st.solvers[req];
      var plan := Plan(s, DesiredJob(s), GetJob(st, JobKey(req), f.getJob), f);
      assert Plan(s, DesiredJob(s), GetJob(st', JobKey(req), f.getJob), f) == plan;
      PerformIgnoresJobContents(st, st', plan);
    }
  }

  /** Issuing a plan depends on the stored Jobs only through which keys are taken. */
  lemma {:induction false} PerformIgnoresJobContents(st: Store, st': Store, plan: seq<Planned>)
    requires st'.solvers == st.solvers && st'.jobs.Keys == st.jobs.Keys
    ensures var r := Perform(st, plan);
      var r' := Perform(st', plan);
      && r'.err == r.err && r'.issued == r.issued
      && r'.store.solvers == r.store.solvers && r'.store.jobs.Keys == r.store.jobs.Keys
    decreases |plan|
  {
    if |plan| > 0 {
      var a := ApplyWrite(st, plan[0]);
      var a' := ApplyWrite(st', plan[0]);
      assert a'.err == a.err && a'.store.solvers == a.store.solvers && a'.store.jobs.Keys == a.store.jobs.Keys;
      if a.err.None? {
        PerformIgnoresJobContents(a.store, a'.store, plan[1..]);
      }
    }
  }
}
