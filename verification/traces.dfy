/**
 * Runs of the controller: Reconcile invoked any number of times, in any order
 * of keys and with any faults, interleaved with users submitting Solvers and
 * the execution environment changing Job status or removing Jobs. Solvers are
 * never deleted in a run. Properties here hold for every run.
 */
module Traces {
  import opened Wrappers
  import opened Kube
  import opened SolverTypes
  import opened Cluster
  import opened JobBuilder
  import opened Reconciler
  import opened ReconcileBranches

  /** One event of a run. */
  datatype Step =
    | ReconcileStep(req: Key, faults: Faults)       // the work queue delivers a key
    | JobStatusChanged(key: Key, status: JobStatus) // the execution environment reports progress
    | JobRemoved(key: Key)                          // someone else deletes a Job
    | SolverCreated(meta: ObjectMeta, spec: SolverSpec) // a user submits a Solver

  function StepOutcome(st: Store, step: Step): (o: Outcome)
    requires WellFormed(st)
    ensures WellFormed(o.store)
  {
    match step
    case ReconcileStep(req, f) =>
      ReconcileConfined(st, req, f);
      Reconcile(st, req, f)
    case JobStatusChanged(k, status) =>
      var st' := if k in st.jobs then st.(jobs := st.jobs[k := st.jobs[k].(status := status)]) else st;
      Outcome(st', EmptyResult, None, [])
    case JobRemoved(k) =>
      Outcome(st.(jobs := st.jobs - {k}), EmptyResult, None, [])
    case SolverCreated(meta, spec) =>
      // the API server refuses a name already taken
      if KeyOf(meta) in st.solvers then Outcome(st, EmptyResult, Some(AlreadyExists), [])
      else Outcome(st.(solvers := st.solvers[KeyOf(meta) := NewSolver(meta, spec)]), EmptyResult, None, [])
  }

  /** The store a run ends in and every client call the controller made along it. */
  datatype Trace = Trace(final: Store, calls: seq<Call>)

  function Run(st: Store, steps: seq<Step>): (t: Trace)
    requires WellFormed(st)
    ensures WellFormed(t.final)
    decreases |steps|
  {
    if |steps| == 0 then Trace(st, [])
    else
      var o := StepOutcome(st, steps[0]);
      var rest := Run(o.store, steps[1..]);
      Trace(rest.final, o.calls + rest.calls)
  }

  /** Only Reconcile writes Solvers, and it never removes one. */
  lemma StepKeepsSolver(st: Store, step: Step, k: Key)
    requires WellFormed(st) && k in st.solvers
    ensures var o := StepOutcome(st, step);
      && k in o.store.solvers
      && Advances(st.solvers[k], o.store.solvers[k])
      && (!step.ReconcileStep? || step.req != k ==> o.store.solvers[k] == st.solvers[k])
  {
    if step.ReconcileStep? {
      ReconcileConfined(st, step.req, step.faults);
      if step.req == k {
        ReconcileAdvances(st, k, step.faults);
      } else {
        var o := Reconcile(st, step.req, step.faults);
        assert (o.store.solvers - {step.req})[k] == o.store.solvers[k];
      }
    }
  }

  /**
   * Phase never regresses along any run, and no run changes a Solver's
   * identity or spec.
   */
  lemma {:induction false} PhaseNeverRegresses(st: Store, steps: seq<Step>, k: Key)
    requires WellFormed(st) && k in st.solvers
    ensures k in Run(st, steps).final.solvers
    ensures Advances(st.solvers[k], Run(st, steps).final.solvers[k])
    decreases |steps|
  {
    if |steps| > 0 {
      var o := StepOutcome(st, steps[0]);
      StepKeepsSolver(st, steps[0], k);
      PhaseNeverRegresses(o.store, steps[1..], k);
    }
  }

  /** A Completed Solver is untouched by any step, and no step writes it or its Job. */
  lemma StepLeavesCompletedAlone(st: Store, step: Step, k: Key)
    requires WellFormed(st) && k in st.solvers && st.solvers[k].status.phase == PhaseCompleted
    ensures var o := StepOutcome(st, step);
      && k in o.store.solvers && o.store.solvers[k] == st.solvers[k]
      && forall c | c in o.calls && c.WriteCall? :: !WritesFor(c.write, k)
  {
    StepKeepsSolver(st, step, k);
    if step.ReconcileStep? {
      var req, f := step.req, step.faults;
      if req == k {
        if f.getSolver == Some(NotFound) {
          SolverGoneStops(st, k, f);
        } else if f.getSolver.Some? {
          SolverReadErrorReturned(st, k, f);
        } else {
          CompletedSolverUntouched(st, k, f);
        }
      } else {
        ReconcileConfined(st, req, f);
        forall c | c in StepOutcome(st, step).calls && c.WriteCall?
          ensures !WritesFor(c.write, k)
        {
          JobKeyInjective(req, k);
        }
      }
    }
  }

  /**
   * Terminal stability: once a Solver is Completed, every later run leaves it
   * exactly as it is and makes no write to it or to its Job.
   */
  lemma {:induction false} CompletedIsTerminal(st: Store, steps: seq<Step>, k: Key)
    requires WellFormed(st) && k in st.solvers && st.solvers[k].status.phase == PhaseCompleted
    ensures var t := Run(st, steps);
      && k in t.final.solvers && t.final.solvers[k] == st.solvers[k]
      && forall c | c in t.calls && c.WriteCall? :: !WritesFor(c.write, k)
    decreases |steps|
  {
    if |steps| > 0 {
      var o := StepOutcome(st, steps[0]);
      StepLeavesCompletedAlone(st, steps[0], k);
      CompletedIsTerminal(o.store, steps[1..], k);
    }
  }

  /** Every Job in the store is controlled by a stored Solver whose Job key it occupies. */
  predicate JobsOwned(st: Store)
  {
    forall k | k in st.jobs ::
      && ControllerOf(st.jobs[k]).Some?
      && ControllerOf(st.jobs[k]).value in st.solvers
      && JobKey(ControllerOf(st.jobs[k]).value) == k
  }

  lemma StepKeepsJobsOwned(st: Store, step: Step)
    requires WellFormed(st) && JobsOwned(st)
    ensures JobsOwned(StepOutcome(st, step).store)
  {
    if step.ReconcileStep? {
      ReconcileKeepsJobsOwned(st, step.req, step.faults);
    }
  }

  lemma ReconcileKeepsJobsOwned(st: Store, req: Key, f: Faults)
    requires WellFormed(st) && JobsOwned(st)
    ensures JobsOwned(Reconcile(st, req, f).store)
  {
    var o := Reconcile(st, req, f);
    ReconcileConfined(st, req, f);
    EachJobOldOrDesired(st, req, f);
    forall k | k in o.store.jobs
      ensures ControllerOf(o.store.jobs[k]).Some?
      ensures ControllerOf(o.store.jobs[k]).value in o.store.solvers
      ensures JobKey(ControllerOf(o.store.jobs[k]).value) == k
    {
      if k != JobKey(req) {
        assert k in o.store.jobs - {JobKey(req)};
        assert k in st.jobs;
        assert (o.store.jobs - {JobKey(req)})[k] == o.store.jobs[k];
        assert (st.jobs - {JobKey(req)})[k] == st.jobs[k];
      }
    }
  }

  /** The Job under the requested Solver's key is either the one that was there or the one Reconcile built. */
  lemma EachJobOldOrDesired(st: Store, req: Key, f: Faults)
    requires WellFormed(st)
    ensures var o := Reconcile(st, req, f);
      JobKey(req) in o.store.jobs ==>
        || (JobKey(req) in st.jobs && o.store.jobs[JobKey(req)] == st.jobs[JobKey(req)])
        || (req in st.solvers && o.store.jobs[JobKey(req)] == DesiredJob(st.solvers[req])
            && ControllerOf(DesiredJob(st.solvers[req])) == Some(req))
  {
    var jk := JobKey(req);
    if ReachesJobLookup(st, req, f) && (f.getJob.None? || f.getJob == Some(NotFound)) {
      ReconcileExecutesPlan(st, req, f);
      if f.getJob.Some? || jk !in st.jobs {
        if jk in st.jobs || f.create.Some? {
          CreateFailureSkipsStatus(st, req, f);
        } else {
          AbsentJobIsCreated(st, req, f);
        }
      } else if st.jobs[jk].status.succeeded != 1 {
        ExistingJobMarkedRunning(st, req, f);
      } else if !st.solvers[req].spec.keepJob && f.delete.Some? {
        DeleteFailureAborts(st, req, f);
      } else {
        SucceededJobCompletes(st, req, f);
      }
    }
  }

  /**
   * Ownership holds along every run: each Job the controller creates names
   * its Solver as controller, so deleting the Solver would cascade to it.
   */
  lemma {:induction false} JobsStayOwned(st: Store, steps: seq<Step>)
    requires WellFormed(st) && JobsOwned(st)
    ensures JobsOwned(Run(st, steps).final)
    decreases |steps|
  {
    if |steps| > 0 {
      StepKeepsJobsOwned(st, steps[0]);
      JobsStayOwned(StepOutcome(st, steps[0]).store, steps[1..]);
    }
  }

  /** The work queue delivering the same key `n` times, with every call succeeding. */
  function Redeliver(req: Key, n: nat): (steps: seq<Step>)
    ensures |steps| == n
  {
    seq(n, _ => ReconcileStep(req, NoFaults))
  }

  /** How many Job creations a sequence of calls issues. */
  function CreatesIn(calls: seq<Call>): nat
  {
    if |calls| == 0 then 0
    else (if calls[0].WriteCall? && calls[0].write.CreateJobWrite? then 1 else 0) + CreatesIn(calls[1..])
  }

  lemma {:induction false} CreatesInAppend(a: seq<Call>, b: seq<Call>)
    ensures CreatesIn(a + b) == CreatesIn(a) + CreatesIn(b)
    decreases |a|
  {
    if |a| == 0 {
      assert a + b == b;
    } else {
      assert (a + b)[1..] == a[1..] + b;
      CreatesInAppend(a[1..], b);
    }
  }

  /** The two reads a reconcile starts with create nothing. */
  lemma CreatesInAfterReads(req: Key, writes: seq<Call>)
    ensures CreatesIn([GetSolverCall(req), GetJobCall(JobKey(req))] + writes) == CreatesIn(writes)
  {
  }

  /**
   * Once the Job exists and has not succeeded, redelivering the key any number
   * of times creates nothing, leaves the Job alone and keeps the Solver Running.
   */
  lemma {:induction false} RedeliveryWhileRunning(st: Store, req: Key, n: nat)
    requires WellFormed(st) && req in st.solvers && st.solvers[req].status.phase == PhaseRunning
    requires JobKey(req) in st.jobs && st.jobs[JobKey(req)].status.succeeded != 1
    ensures var t := Run(st, Redeliver(req, n));
      && t.final.jobs == st.jobs
      && CreatesIn(t.calls) == 0
      && req in t.final.solvers && t.final.solvers[req].status.phase == PhaseRunning
    decreases n
  {
    if n > 0 {
      var steps := Redeliver(req, n);
      var o := Reconcile(st, req, NoFaults);
      ExistingJobMarkedRunning(st, req, NoFaults);
      assert o.calls == [GetSolverCall(req), GetJobCall(JobKey(req)), WriteCall(UpdateSolverWrite(RunningActive(st.solvers[req])))];
      CreatesInAfterReads(req, [WriteCall(UpdateSolverWrite(RunningActive(st.solvers[req])))]);
      assert steps[1..] == Redeliver(req, n - 1);
      RedeliveryWhileRunning(o.store, req, n - 1);
      CreatesInAppend(o.calls, Run(o.store, steps[1..]).calls);
    }
  }

  lemma CreatesInCreateThenUpdate(job: Job, solver: Solver)
    ensures CreatesIn([WriteCall(CreateJobWrite(job)), WriteCall(UpdateSolverWrite(solver))]) == 1
  {
    var calls := [WriteCall(CreateJobWrite(job)), WriteCall(UpdateSolverWrite(solver))];
    assert calls[1..] == [WriteCall(UpdateSolverWrite(solver))];
    assert calls[1..][1..] == [];
    assert CreatesIn(calls[1..]) == 0;
  }

  /** The first delivery of a Solver without a Job creates it, once. */
  lemma FirstDeliveryCreates(st: Store, req: Key)
    requires WellFormed(st) && req in st.solvers && st.solvers[req].status.phase != PhaseCompleted
    requires JobKey(req) !in st.jobs
    ensures var o := StepOutcome(st, ReconcileStep(req, NoFaults));
      && o.store.jobs == st.jobs[JobKey(req) := DesiredJob(st.solvers[req])]
      && CreatesIn(o.calls) == 1
      && req in o.store.solvers && o.store.solvers[req].status.phase == PhaseRunning
      && o.store.jobs[JobKey(req)].status.succeeded != 1
  {
    var s := st.solvers[req];
    var o := Reconcile(st, req, NoFaults);
    AbsentJobIsCreated(st, req, NoFaults);
    var writes := [WriteCall(CreateJobWrite(DesiredJob(s))), WriteCall(UpdateSolverWrite(Running(s)))];
    assert o.calls == [GetSolverCall(req), GetJobCall(JobKey(req))] + writes;
    CreatesInAfterReads(req, writes);
    CreatesInCreateThenUpdate(DesiredJob(s), Running(s));
    NewSolverJobShape(s);
  }

  /**
   * Idempotent creation under at-least-once delivery, when every call
   * succeeds: however many times the key of a Solver without a Job is
   * delivered, exactly one Job is created and it is the Solver's Job; the
   * Solver ends Running.
   */
  lemma {:induction false} RedeliveryCreatesOneJob(st: Store, req: Key, n: nat)
    requires WellFormed(st) && req in st.solvers && st.solvers[req].status.phase != PhaseCompleted
    requires JobKey(req) !in st.jobs
    requires n >= 1
    ensures var t := Run(st, Redeliver(req, n));
      && t.final.jobs == st.jobs[JobKey(req) := DesiredJob(st.solvers[req])]
      && CreatesIn(t.calls) == 1
      && req in t.final.solvers && t.final.solvers[req].status.phase == PhaseRunning
  {
    var steps := Redeliver(req, n);
    var o := StepOutcome(st, steps[0]);
    FirstDeliveryCreates(st, req);
    assert steps[1..] == Redeliver(req, n - 1);
    var rest := Run(o.store, steps[1..]);
    assert Run(st, steps) == Trace(rest.final, o.calls + rest.calls);
    RedeliveryWhileRunning(o.store, req, n - 1);
    CreatesInAppend(o.calls, rest.calls);
  }
}
