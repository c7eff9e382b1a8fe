/**
 * The controller's transition table written out declaratively, as a
 * reference against which Reconcile is checked: from the Solver and its Job,
 * the state both objects should be left in.
 */
module Transitions {
  import opened Wrappers
  import opened Kube
  import opened SolverTypes
  import opened Cluster
  import opened JobBuilder
  import opened Reconciler
  import opened ReconcileBranches

  /** What the table prescribes for a Solver, given its Job if one exists. */
  datatype Action =
    | NoChange
    | CreateJobAndRun
    | MarkRunning
    | Complete(deleteJob: bool)

  function TableAction(s: Solver, job: Option<Job>): Action
  {
    if s.status.phase == PhaseCompleted then NoChange
    else if job.None? then CreateJobAndRun
    else if job.value.status.succeeded == 1 then Complete(!s.spec.keepJob)
    else MarkRunning
  }

  /** The store the table calls for once the action on the Solver under `req` is carried out. */
  function Expected(st: Store, req: Key): Store
  {
    if req !in st.solvers then st
    else
      var s := st.solvers[req];
      var jk := JobKey(req);
      match TableAction(s, if jk in st.jobs then Some(st.jobs[jk]) else None)
      case NoChange => st
      case CreateJobAndRun =>
        Store(st.solvers[req := s.(status := s.status.(phase := "Running"))],
              st.jobs[jk := DesiredJob(s)])
      case MarkRunning =>
        Store(st.solvers[req := s.(status := s.status.(phase := "Running", active := 1))], st.jobs)
      case Complete(d) =>
        Store(st.solvers[req := s.(status := s.status.(phase := "Completed", succeeded := 1, active := 0))],
              if d then st.jobs - {jk} else st.jobs)
  }

  /** When no call fails, Reconcile lands exactly in the table's state and returns no error. */
  lemma FaultFreeReconcileFollowsTable(st: Store, req: Key)
    requires WellFormed(st)
    ensures Reconcile(st, req, NoFaults).err == None
    ensures Reconcile(st, req, NoFaults).store == Expected(st, req)
  {
    var f := NoFaults;
    if req !in st.solvers {
      SolverGoneStops(st, req, f);
    } else if st.solvers[req].status.phase == PhaseCompleted {
      CompletedSolverUntouched(st, req, f);
    } else if JobKey(req) !in st.jobs {
      AbsentJobIsCreated(st, req, f);
    } else if st.jobs[JobKey(req)].status.succeeded == 1 {
      SucceededJobCompletes(st, req, f);
    } else {
      ExistingJobMarkedRunning(st, req, f);
    }
  }

  /**
   * Whatever fails, each object is left either as it was or as the table
   * prescribes: no call leaves a Solver or a Job in a state of its own. The
   * two objects need not agree, though: a failure can leave the Job deleted
   * and the Solver not yet Completed (see CompletionOrder).
   */
  lemma EachObjectOldOrExpected(st: Store, req: Key, f: Faults)
    requires WellFormed(st)
    ensures var o := Reconcile(st, req, f);
      && (o.store.solvers == st.solvers || o.store.solvers == Expected(st, req).solvers)
      && (o.store.jobs == st.jobs || o.store.jobs == Expected(st, req).jobs)
  {
    var jk := JobKey(req);
    if !(ReachesJobLookup(st, req, f) && (f.getJob.None? || f.getJob == Some(NotFound))) {
      StopBeforeWritesKeepsStore(st, req, f);
    } else if f.getJob.Some? || jk !in st.jobs {
      if jk in st.jobs || f.create.Some? {
        CreateFailureSkipsStatus(st, req, f);
      } else {
        AbsentJobIsCreated(st, req, f);
      }
    } else {
      FoundJobOldOrExpected(st, req, f);
    }
  }

  lemma FoundJobOldOrExpected(st: Store, req: Key, f: Faults)
    requires FindsJob(st, req, f)
    ensures var o := Reconcile(st, req, f);
      && (o.store.solvers == st.solvers || o.store.solvers == Expected(st, req).solvers)
      && (o.store.jobs == st.jobs || o.store.jobs == Expected(st, req).jobs)
  {
    if st.jobs[JobKey(req)].status.succeeded != 1 {
      ExistingJobMarkedRunning(st, req, f);
    } else if !st.solvers[req].spec.keepJob && f.delete.Some? {
      DeleteFailureAborts(st, req, f);
    } else {
      SucceededJobCompletes(st, req, f);
    }
  }

  /** A call that stops before looking up the Job, or on a lookup error, changes nothing. */
  lemma StopBeforeWritesKeepsStore(st: Store, req: Key, f: Faults)
    requires WellFormed(st)
    requires !(ReachesJobLookup(st, req, f) && (f.getJob.None? || f.getJob == Some(NotFound)))
    ensures Reconcile(st, req, f).store == st
  {
    if (req !in st.solvers && f.getSolver.None?) || f.getSolver == Some(NotFound) {
      SolverGoneStops(st, req, f);
    } else if f.getSolver.Some? {
      SolverReadErrorReturned(st, req, f);
    } else if st.solvers[req].status.phase == PhaseCompleted {
      CompletedSolverUntouched(st, req, f);
    } else if f.setOwner.Some? {
      OwnerReferenceFailureAborts(st, req, f);
    } else {
      JobReadErrorReturned(st, req, f);
    }
  }
}
