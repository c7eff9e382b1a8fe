/**
 * The API server as the controller sees it: one store of Solvers and one of
 * Jobs, each keyed by namespaced name, and the client calls Reconcile makes.
 * Every call takes an injected fault: when present the call returns that
 * error and changes nothing. That stands for a request refused before it took
 * effect (a network failure, a conflict) and for a cache that has not yet seen
 * an object and reports it missing. Reads otherwise return the object as
 * stored: an outdated copy is never returned, and a write never takes effect
 * while reporting an error.
 */
module Cluster {
  import opened Wrappers
  import opened Kube
  import opened SolverTypes

  datatype Store = Store(solvers: map<Key, Solver>, jobs: map<Key, Job>)

  /** The API server keeps every object under its own namespace and name. */
  predicate WellFormed(st: Store)
  {
    && (forall k | k in st.solvers :: KeyOf(st.solvers[k].meta) == k)
    && (forall k | k in st.jobs :: KeyOf(st.jobs[k].meta) == k)
  }

  /** The store after a write, and the error the write returned. */
  datatype Applied = Applied(store: Store, err: Option<Error>)

  /** Get returns the stored Solver, or "not found" when the key is free. */
  function GetSolver(st: Store, k: Key, fault: Option<Error>): (r: Result<Solver, Error>)
    ensures r.Success? <==> fault.None? && k in st.solvers
    ensures r.Success? ==> r.value == st.solvers[k]
    ensures fault.Some? ==> r == Failure(fault.value)
    ensures fault.None? && k !in st.solvers ==> r == Failure(NotFound)
  {
    if fault.Some? then Failure(fault.value)
    else if k in st.solvers then Success(st.solvers[k])
    else Failure(NotFound)
  }

  /** Get returns the stored Job, or "not found" when the key is free. */
  function GetJob(st: Store, k: Key, fault: Option<Error>): (r: Result<Job, Error>)
    ensures r.Success? <==> fault.None? && k in st.jobs
    ensures r.Success? ==> r.value == st.jobs[k]
    ensures fault.Some? ==> r == Failure(fault.value)
    ensures fault.None? && k !in st.jobs ==> r == Failure(NotFound)
  {
    if fault.Some? then Failure(fault.value)
    else if k in st.jobs then Success(st.jobs[k])
    else Failure(NotFound)
  }

  /** Create refuses a key that is already taken. */
  function CreateJob(st: Store, job: Job, fault: Option<Error>): (a: Applied)
    ensures a.store.solvers == st.solvers
    ensures a.err.None? <==> fault.None? && KeyOf(job.meta) !in st.jobs
    ensures a.err.None? ==> a.store.jobs == st.jobs[KeyOf(job.meta) := job]
    ensures a.err.Some? ==> a.store == st
    ensures WellFormed(st) ==> WellFormed(a.store)
  {
    if fault.Some? then Applied(st, fault)
    else if KeyOf(job.meta) in st.jobs then Applied(st, Some(AlreadyExists))
    else Applied(st.(jobs := st.jobs[KeyOf(job.meta) := job]), None)
  }

  /** Delete removes the Job stored under the given Job's key and refuses a missing one. */
  function DeleteJob(st: Store, job: Job, fault: Option<Error>): (a: Applied)
    ensures a.store.solvers == st.solvers
    ensures a.err.None? <==> fault.None? && KeyOf(job.meta) in st.jobs
    ensures a.err.None? ==> a.store.jobs == st.jobs - {KeyOf(job.meta)}
    ensures a.err.Some? ==> a.store == st
    ensures WellFormed(st) ==> WellFormed(a.store)
  {
    if fault.Some? then Applied(st, fault)
    else if KeyOf(job.meta) !in st.jobs then Applied(st, Some(NotFound))
    else Applied(st.(jobs := st.jobs - {KeyOf(job.meta)}), None)
  }

  /** Update replaces the whole stored Solver, spec and status alike. */
  function UpdateSolver(st: Store, s: Solver, fault: Option<Error>): (a: Applied)
    ensures a.store.jobs == st.jobs
    ensures a.err.None? <==> fault.None? && KeyOf(s.meta) in st.solvers
    ensures a.err.None? ==> a.store.solvers == st.solvers[KeyOf(s.meta) := s]
    ensures a.err.Some? ==> a.store == st
    ensures WellFormed(st) ==> WellFormed(a.store)
  {
    if fault.Some? then Applied(st, fault)
    else if KeyOf(s.meta) !in st.solvers then Applied(st, Some(NotFound))
    else Applied(st.(solvers := st.solvers[KeyOf(s.meta) := s]), None)
  }
}
