/**
 * The pure builder that maps a Solver to the Job it wants: a name derived from
 * the Solver's name, a fixed label set, one container whose environment passes
 * the spec fields, and restart policy Never. Besides the builder, this module
 * defines readers that recover the Solver's identity and parameters from a
 * Job, and proves them inverse to the builder.
 */
module JobBuilder {
  import opened Wrappers
  import opened Kube
  import opened SolverTypes

  const JobSuffix: string := "-job"

  const EnvSolver: string := "THOTH_SOLVER"
  const EnvLogSolver: string := "THOTH_LOG_SOLVER"
  const EnvNoTransitive: string := "THOTH_SOLVER_NO_TRANSITIVE"
  const EnvPackages: string := "THOTH_SOLVER_PACKAGES"
  const EnvOutput: string := "THOTH_SOLVER_OUTPUT"

  /** Go's strconv.FormatBool. */
  function FormatBool(b: bool): (r: string)
    ensures r == "true" || r == "false"
    ensures r == "true" <==> b
  {
    if b then "true" else "false"
  }

  /** The exact inverse of FormatBool: only its two outputs are accepted. */
  function ParseBool(s: string): Option<bool>
  {
    if s == "true" then Some(true)
    else if s == "false" then Some(false)
    else None
  }

  lemma FormatBoolRoundTrip(b: bool)
    ensures ParseBool(FormatBool(b)) == Some(b)
  {
  }

  function JobName(solverName: string): string
  {
    solverName + JobSuffix
  }

  /** Where the Job of the Solver stored under `k` lives. */
  function JobKey(k: Key): Key
  {
    Key(k.namespace, JobName(k.name))
  }

  /** Recovers the Solver name from a Job name, if it carries the suffix. */
  function SolverNameOfJob(jobName: string): Option<string>
  {
    if |jobName| >= |JobSuffix| && jobName[|jobName| - |JobSuffix|..] == JobSuffix
    then Some(jobName[..|jobName| - |JobSuffix|])
    else None
  }

  /** The Job name is derived from the Solver name, and the derivation can be undone. */
  lemma JobNameRoundTrip(solverName: string)
    ensures SolverNameOfJob(JobName(solverName)) == Some(solverName)
  {
  }

  /** Distinct Solvers never compete for one Job key. */
  lemma JobKeyInjective(a: Key, b: Key)
    ensures JobKey(a) == JobKey(b) <==> a == b
  {
    if JobKey(a) == JobKey(b) {
      JobNameRoundTrip(a.name);
      JobNameRoundTrip(b.name);
    }
  }

  /** The labels selecting the Jobs of the Solver called `name`. */
  function LabelsForSolverJob(name: string): (labels: map<string, string>)
    ensures labels.Keys == {"app", "component", "solver"}
    ensures labels["app"] == "thoth" && labels["component"] == "solver-f27"
    ensures labels["solver"] == name
  {
    map["app" := "thoth", "component" := "solver-f27", "solver" := name]
  }

  function SolverEnv(spec: SolverSpec): seq<EnvVar>
  {
    [ EnvVar(EnvSolver, "solver-f27"),
      EnvVar(EnvLogSolver, FormatBool(true)),
      EnvVar(EnvNoTransitive, FormatBool(spec.includeTransitive)),
      EnvVar(EnvPackages, spec.packages),
      EnvVar(EnvOutput, spec.output) ]
  }

  /** The Job a Solver asks for; it carries no owner reference and a zero status. */
  function NewSolverJob(cr: Solver): (job: Job)
    ensures KeyOf(job.meta) == JobKey(KeyOf(cr.meta))
    ensures job.meta.labels == LabelsForSolverJob(cr.meta.name)
    ensures job.meta.ownerRefs == []
    ensures job.template.containers != [] && job.template.containers[0].env == SolverEnv(cr.spec)
    ensures job.status == ZeroJobStatus
  {
    Job(
      "Job",
      "v1",
      ObjectMeta(JobName(cr.meta.name), cr.meta.namespace, LabelsForSolverJob(cr.meta.name), []),
      PodSpec(
        [],
        [Container("solver", "busybox", PullAlways, ["env"], SolverEnv(cr.spec))],
        RestartNever),
      ZeroJobStatus)
  }

  /** The value of the first variable called `name`, if any. */
  function LookupEnv(env: seq<EnvVar>, name: string): (r: Option<string>)
    ensures r.Some? <==> exists i :: 0 <= i < |env| && env[i].name == name
    ensures r.Some? ==> exists i :: (0 <= i < |env| && env[i] == EnvVar(name, r.value)
      && forall j :: 0 <= j < i ==> env[j].name != name)
  {
    if |env| == 0 then None
    else if env[0].name == name then Some(env[0].value)
    else
      var r := LookupEnv(env[1..], name);
      assert forall i :: 0 < i < |env| ==> env[i] == env[1..][i - 1];
      r
  }

  /** The parameters a Job hands to the solver process. */
  datatype Parameters = Parameters(packages: string, noTransitive: bool, output: string)

  /** Reads the parameters back out of the first container's environment. */
  function ParametersOf(job: Job): Option<Parameters>
  {
    if |job.template.containers| == 0 then None
    else
      var env := job.template.containers[0].env;
      match (LookupEnv(env, EnvPackages), LookupEnv(env, EnvNoTransitive), LookupEnv(env, EnvOutput))
      case (Some(p), Some(t), Some(o)) =>
        (match ParseBool(t)
         case Some(b) => Some(Parameters(p, b, o))
         case None => None)
      case _ => None
  }

  /** The key of the Solver a Job was built for, read from its name and namespace. */
  function SolverKeyOfJob(job: Job): Option<Key>
  {
    match SolverNameOfJob(job.meta.name)
    case Some(n) => Some(Key(job.meta.namespace, n))
    case None => None
  }

  /**
   * The fixed shape of the built Job: name and namespace from the Solver, the
   * three labels, one container running `env` in busybox, the five variables
   * in their order, restart policy Never, and nothing observed yet.
   */
  lemma NewSolverJobShape(cr: Solver)
    ensures var job := NewSolverJob(cr);
      && KeyOf(job.meta) == JobKey(KeyOf(cr.meta))
      && job.meta.labels.Keys == {"app", "component", "solver"}
      && job.meta.labels["app"] == "thoth"
      && job.meta.labels["component"] == "solver-f27"
      && job.meta.labels["solver"] == cr.meta.name
      && job.meta.ownerRefs == []
      && job.template.initContainers == []
      && |job.template.containers| == 1
      && job.template.containers[0].image == "busybox"
      && job.template.containers[0].pullPolicy == PullAlways
      && job.template.containers[0].command == ["env"]
      && |job.template.containers[0].env| == 5
      && job.template.containers[0].env[0] == EnvVar("THOTH_SOLVER", "solver-f27")
      && job.template.containers[0].env[1] == EnvVar("THOTH_LOG_SOLVER", "true")
      && job.template.containers[0].env[2] == EnvVar("THOTH_SOLVER_NO_TRANSITIVE", FormatBool(cr.spec.includeTransitive))
      && job.template.containers[0].env[3] == EnvVar("THOTH_SOLVER_PACKAGES", cr.spec.packages)
      && job.template.containers[0].env[4] == EnvVar("THOTH_SOLVER_OUTPUT", cr.spec.output)
      && job.template.restartPolicy == RestartNever
      && job.status.succeeded != 1
  {
  }

  /** The Job hands the solver exactly the Solver's packages, transitivity flag and output. */
  lemma ParametersRoundTrip(cr: Solver)
    ensures ParametersOf(NewSolverJob(cr))
      == Some(Parameters(cr.spec.packages, cr.spec.includeTransitive, cr.spec.output))
  {
    var env := SolverEnv(cr.spec);
    assert env[2].name == EnvNoTransitive;
    assert env[3].name == EnvPackages;
    assert env[4].name == EnvOutput;
    FormatBoolRoundTrip(cr.spec.includeTransitive);
  }

  /**
   * The variable named NO_TRANSITIVE reads "true" exactly when transitive
   * dependencies ARE to be included: it carries the flag itself, not its negation.
   */
  lemma NoTransitiveCarriesIncludeTransitive(cr: Solver)
    ensures ParametersOf(NewSolverJob(cr)).Some?
    ensures ParametersOf(NewSolverJob(cr)).value.noTransitive <==> cr.spec.includeTransitive
  {
    ParametersRoundTrip(cr);
  }

  /** Both the name and the `solver` label of the Job lead back to the Solver. */
  lemma JobIdentifiesSolver(cr: Solver)
    ensures SolverKeyOfJob(NewSolverJob(cr)) == Some(KeyOf(cr.meta))
    ensures NewSolverJob(cr).meta.labels["solver"] == cr.meta.name
  {
  }

  /**
   * Two Solvers get the same Job exactly when they agree on identity,
   * packages, transitivity flag and output: the retention flag and the status
   * do not reach the Job.
   */
  lemma SameJobIffSameParameters(a: Solver, b: Solver)
    ensures NewSolverJob(a) == NewSolverJob(b) <==>
      && KeyOf(a.meta) == KeyOf(b.meta)
      && a.spec.packages == b.spec.packages
      && a.spec.includeTransitive == b.spec.includeTransitive
      && a.spec.output == b.spec.output
  {
    if NewSolverJob(a) == NewSolverJob(b) {
      JobIdentifiesSolver(a);
      JobIdentifiesSolver(b);
      ParametersRoundTrip(a);
      ParametersRoundTrip(b);
    }
  }
}
