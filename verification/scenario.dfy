/**
 * One concrete lifetime of a Solver, from creation to retirement of its Job,
 * with every client call succeeding.
 */
module Scenario {
  import opened Wrappers
  import opened Kube
  import opened SolverTypes
  import opened Cluster
  import opened JobBuilder
  import opened Reconciler
  import opened ReconcileBranches
  import opened Traces

  const Req := Key("thoth", "numpy-solver")
  const Spec := SolverSpec("numpy==1.0", true, "/out", false)
  const Fresh := NewSolver(ObjectMeta("numpy-solver", "thoth", map[], []), Spec)
  const Start := Store(map[Req := Fresh], map[])

  lemma StartWellFormed()
    ensures WellFormed(Start) && Req in Start.solvers && Start.jobs == map[]
  {
  }

  /** The store after each event of the lifetime. */
  function AfterCreate(): (o: Outcome)
  {
    StartWellFormed();
    StepOutcome(Start, ReconcileStep(Req, NoFaults))
  }

  function AfterSuccess(): (st: Store)
    ensures WellFormed(st)
  {
    StepOutcome(AfterCreate().store, JobStatusChanged(JobKey(Req), JobStatus(0, 1, 0))).store
  }

  function AfterComplete(): (o: Outcome)
  {
    StepOutcome(AfterSuccess(), ReconcileStep(Req, NoFaults))
  }

  /** First delivery: the Solver's Job is created and the Solver is Running. */
  lemma FirstDeliveryStartsJob()
    ensures var o := AfterCreate();
      && o.err.None?
      && o.store.jobs == map[JobKey(Req) := DesiredJob(Fresh)]
      && o.store.solvers == map[Req := Running(Fresh)]
  {
    StartWellFormed();
    AbsentJobIsCreated(Start, Req, NoFaults);
  }

  /** The Job created carries the Solver's parameters and names the Solver as its controller. */
  lemma FirstJobCarriesSpec()
    ensures ParametersOf(DesiredJob(Fresh)) == Some(Parameters("numpy==1.0", true, "/out"))
    ensures ControllerOf(DesiredJob(Fresh)) == Some(Req)
  {
    var job := DesiredJob(Fresh);
    assert job.template == NewSolverJob(Fresh).template;
    ParametersRoundTrip(Fresh);
    assert ParametersOf(job) == ParametersOf(NewSolverJob(Fresh));
    assert job.meta.ownerRefs == [ControllerRef(Fresh)];
  }

  /** After the Job reports one success, the next delivery deletes it and records completion. */
  lemma SecondDeliveryCompletes()
    ensures var o := AfterComplete();
      && o.err.None?
      && o.store.jobs == map[]
      && Req in o.store.solvers
      && o.store.solvers[Req].status == SolverStatus(PhaseCompleted, 0, 0, 1)
  {
    FirstDeliveryStartsJob();
    SucceededJobCompletes(AfterSuccess(), Req, NoFaults);
  }

  /** Once completed, a further delivery reads the Solver and writes nothing. */
  lemma ThirdDeliveryIsQuiet()
    ensures var o := StepOutcome(AfterComplete().store, ReconcileStep(Req, NoFaults));
      && o.err.None?
      && o.store == AfterComplete().store
      && o.calls == [GetSolverCall(Req)]
  {
    SecondDeliveryCompletes();
    CompletedSolverUntouched(AfterComplete().store, Req, NoFaults);
  }
}
