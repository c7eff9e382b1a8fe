/**
 * The Solver custom resource: its phase values, the user-supplied spec and
 * the status the controller reports.
 */
module SolverTypes {
  import opened Kube

  /** The phase is a plain string: the API server accepts any value, the controller writes two. */
  type SolverPhase = string

  const PhaseInitial: SolverPhase := "Initializing"
  const PhaseRunning: SolverPhase := "Running"
  const PhaseCompleted: SolverPhase := "Completed"

  /**
   * The desired state. The pod policy and its resource requirements are not
   * modelled: the Job builder never reads them.
   */
  datatype SolverSpec = SolverSpec(
    packages: string,
    includeTransitive: bool,
    output: string,
    keepJob: bool)

  /** The observed state. Start and completion times are never set and are not modelled. */
  datatype SolverStatus = SolverStatus(
    phase: SolverPhase,
    active: int,
    failed: int,
    succeeded: int)

  datatype Solver = Solver(meta: ObjectMeta, spec: SolverSpec, status: SolverStatus)

  /**
   * Position of a phase in the documented one-way order
   * Initial -> Running -> Completed. The empty phase of a fresh Solver, the
   * literal "Initializing" and any unknown string all sit at the start.
   */
  function PhaseRank(p: SolverPhase): nat
  {
    if p == PhaseCompleted then 2
    else if p == PhaseRunning then 1
    else 0
  }

  /** A Solver as an external actor creates it: every status field holds its zero value. */
  function NewSolver(meta: ObjectMeta, spec: SolverSpec): (s: Solver)
    ensures s.status.phase == "" && s.status.phase != PhaseInitial
    ensures PhaseRank(s.status.phase) == PhaseRank(PhaseInitial)
    ensures s.status.active == 0 && s.status.failed == 0 && s.status.succeeded == 0
    ensures KeyOf(s.meta) == KeyOf(meta) && s.spec == spec
  {
    Solver(meta, spec, SolverStatus("", 0, 0, 0))
  }

  /** The three phase literals are pairwise distinct and ranked in their documented order. */
  lemma PhaseLiteralsOrdered()
    ensures PhaseInitial != PhaseRunning && PhaseRunning != PhaseCompleted && PhaseInitial != PhaseCompleted
    ensures PhaseRank(PhaseInitial) < PhaseRank(PhaseRunning) < PhaseRank(PhaseCompleted)
  {
  }
}
