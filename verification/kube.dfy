/**
 * The slice of the Kubernetes object model the Solver controller touches:
 * namespaced keys, object metadata, owner references, the batch Job with its
 * pod template, and the errors the API client returns.
 */
module Kube {
  import opened Wrappers

  /** A namespaced name, the key under which the API server stores an object. */
  datatype Key = Key(namespace: string, name: string)

  /** An owner reference stamped on a dependent object. */
  datatype OwnerRef = OwnerRef(kind: string, name: string, controller: bool)

  datatype ObjectMeta = ObjectMeta(
    name: string,
    namespace: string,
    labels: map<string, string>,
    ownerRefs: seq<OwnerRef>)

  /** The key an object is stored under. */
  function KeyOf(meta: ObjectMeta): Key {
    Key(meta.namespace, meta.name)
  }

  /** Errors the API client can return; which one a call returns is decided by the store. */
  datatype Error =
    | NotFound
    | AlreadyExists
    | Conflict
    | SchemeError
    | Unavailable

  datatype EnvVar = EnvVar(name: string, value: string)

  datatype PullPolicy = PullAlways | PullIfNotPresent | PullNever

  datatype RestartPolicy = RestartAlways | RestartOnFailure | RestartNever

  datatype Container = Container(
    name: string,
    image: string,
    pullPolicy: PullPolicy,
    command: seq<string>,
    env: seq<EnvVar>)

  datatype PodSpec = PodSpec(
    initContainers: seq<Container>,
    containers: seq<Container>,
    restartPolicy: RestartPolicy)

  /** Counters written by the execution environment, never by the controller. */
  datatype JobStatus = JobStatus(active: int, succeeded: int, failed: int)

  const ZeroJobStatus: JobStatus := JobStatus(0, 0, 0)

  datatype Job = Job(
    kind: string,
    apiVersion: string,
    meta: ObjectMeta,
    template: PodSpec,
    status: JobStatus)

  /** The key of the Solver that controls a Job, read from its first controller owner reference. */
  function ControllerOf(job: Job): Option<Key>
  {
    ControllerIn(job.meta.namespace, job.meta.ownerRefs)
  }

  function ControllerIn(namespace: string, refs: seq<OwnerRef>): Option<Key>
  {
    if |refs| == 0 then None
    else if refs[0].controller && refs[0].kind == "Solver" then Some(Key(namespace, refs[0].name))
    else ControllerIn(namespace, refs[1..])
  }
}
