/**
 * The cleanup decision the watcher takes for every job it lists: a job is
 * removed once enough of its pods succeeded or enough of them failed.
 */
module Cleanup {

  /**
   * A job as the watcher decodes it from the job listing: its identity and
   * the counters of its pods that succeeded, failed and are still running.
   */
  datatype Job = Job(name: string, namespace: string, succeeded: int, failed: int, active: int)

  /** Which threshold a job crossed: the success case is tested first. */
  datatype Reason = SucceededThreshold | FailedThreshold

  datatype Verdict = Keep | Cleanup(reason: Reason)

  /** The thresholds the watcher is built with: one success or one failure. */
  const SucceedThreshold: int := 1
  const FailThreshold: int := 1

  /** The `switch` of the watcher's loop, with the case that fired kept as the reason. */
  function Decide(job: Job, succeedThreshold: int, failThreshold: int): (v: Verdict)
    ensures v.Cleanup? <==> job.succeeded >= succeedThreshold || job.failed >= failThreshold
    ensures v == Cleanup(SucceededThreshold) <==> job.succeeded >= succeedThreshold
    ensures v == Cleanup(FailedThreshold) <==> job.succeeded < succeedThreshold && job.failed >= failThreshold
  {
    if job.succeeded >= succeedThreshold then Cleanup(SucceededThreshold)
    else if job.failed >= failThreshold then Cleanup(FailedThreshold)
    else Keep
  }

  /**
   * The decision is taken from the two counters alone: the name, the
   * namespace and the `active` counter never change it, so two snapshots
   * with the same counters are decided alike.
   */
  lemma DecisionFromCounters(a: Job, b: Job, succeedThreshold: int, failThreshold: int)
    requires a.succeeded == b.succeeded && a.failed == b.failed
    ensures Decide(a, succeedThreshold, failThreshold) == Decide(b, succeedThreshold, failThreshold)
  {
  }

  /** With the built-in thresholds a job is kept exactly while none of its pods has finished. */
  lemma BuiltInThresholds(job: Job)
    ensures Decide(job, SucceedThreshold, FailThreshold) == Keep <==> job.succeeded <= 0 && job.failed <= 0
  {
  }

  /** Worked examples, decided with the built-in thresholds. */
  lemma DecisionExamples()
    ensures Decide(Job("a", "ns", 1, 0, 0), SucceedThreshold, FailThreshold) == Cleanup(SucceededThreshold)
    ensures Decide(Job("b", "ns", 0, 1, 0), SucceedThreshold, FailThreshold) == Cleanup(FailedThreshold)
    ensures Decide(Job("c", "ns", 0, 0, 1), SucceedThreshold, FailThreshold) == Keep
    ensures Decide(Job("d", "ns", 1, 1, 0), SucceedThreshold, FailThreshold) == Cleanup(SucceededThreshold)
  {
  }

  /** A job named for deletion. */
  datatype Target = Target(name: string, namespace: string)

  function TargetOf(job: Job): Target {
    Target(job.name, job.namespace)
  }

  predicate MarkedForCleanup(job: Job, succeedThreshold: int, failThreshold: int) {
    Decide(job, succeedThreshold, failThreshold).Cleanup?
  }

  /** The jobs of a listing that are marked for cleanup, in listing order. */
  function Targets(jobs: seq<Job>, succeedThreshold: int, failThreshold: int): (ts: seq<Target>)
    ensures |ts| <= |jobs|
  {
    if jobs == [] then []
    else
      (if MarkedForCleanup(jobs[0], succeedThreshold, failThreshold) then [TargetOf(jobs[0])] else [])
      + Targets(jobs[1..], succeedThreshold, failThreshold)
  }

  /** A target is listed exactly when some job with its name and namespace is marked for cleanup. */
  lemma {:induction false} TargetsMembership(jobs: seq<Job>, succeedThreshold: int, failThreshold: int, t: Target)
    ensures t in Targets(jobs, succeedThreshold, failThreshold) <==>
      exists i :: 0 <= i < |jobs| && MarkedForCleanup(jobs[i], succeedThreshold, failThreshold) && TargetOf(jobs[i]) == t
  {
    if jobs != [] {
      TargetsMembership(jobs[1..], succeedThreshold, failThreshold, t);
      if exists i :: 0 <= i < |jobs| && MarkedForCleanup(jobs[i], succeedThreshold, failThreshold) && TargetOf(jobs[i]) == t {
        var i :| 0 <= i < |jobs| && MarkedForCleanup(jobs[i], succeedThreshold, failThreshold) && TargetOf(jobs[i]) == t;
        if i > 0 {
          assert jobs[1..][i - 1] == jobs[i];
        }
      }
      if exists i :: 0 <= i < |jobs[1..]| && MarkedForCleanup(jobs[1..][i], succeedThreshold, failThreshold) && TargetOf(jobs[1..][i]) == t {
        var i :| 0 <= i < |jobs[1..]| && MarkedForCleanup(jobs[1..][i], succeedThreshold, failThreshold) && TargetOf(jobs[1..][i]) == t;
        assert jobs[i + 1] == jobs[1..][i];
      }
    }
  }

  /** With no job listed nothing is marked, and a listing where nothing is marked yields no target. */
  lemma {:induction false} TargetsEmpty(jobs: seq<Job>, succeedThreshold: int, failThreshold: int)
    ensures Targets(jobs, succeedThreshold, failThreshold) == [] <==>
      forall i :: 0 <= i < |jobs| ==> !MarkedForCleanup(jobs[i], succeedThreshold, failThreshold)
  {
    if jobs != [] {
      TargetsEmpty(jobs[1..], succeedThreshold, failThreshold);
      assert forall i :: 1 <= i < |jobs| ==> jobs[i] == jobs[1..][i - 1];
    }
  }
}
