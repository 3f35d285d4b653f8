/**
 * One reconciliation pass of the job watcher, as pure functions: for every
 * listed job, decide whether it is finished, optionally fetch the logs of its
 * first pod, and delete it; the first failing call ends the pass.
 *
 * The functions are stated over a `World`: the outcome of the n-th kubectl
 * invocation issuing a given request, and the decoding of the job and pod
 * listings. Every lemma here holds for every world; module Watcher fixes the
 * world of a real cluster, where the outcome depends on the argument vector
 * `Kubectl.Argv` builds for the request.
 */
module Reconciler {
  import opened Results
  import opened Cleanup
  import K = Kubectl

  /** What running `/bin/kubectl` gave: its standard output, or the error of the run. */
  datatype Output = Printed(text: string) | ExecFailed(message: string)

  /**
   * The outcome of each kubectl invocation (by its position among all
   * invocations and the request it issues) and the decoding of the job
   * listing and of a pod listing (to the pod names, in listing order); a
   * decoder gives None for malformed output.
   */
  datatype World = World(
    reply: (nat, K.Request) -> Output,
    decodeJobs: string -> Option<seq<Job>>,
    decodePods: string -> Option<seq<string>>)

  /** The knobs of the pass: the two thresholds and whether logs are printed before deleting. */
  datatype Config = Config(succeedThreshold: int, failThreshold: int, printLogs: bool)

  /** The configuration the watcher is built with. */
  const BuiltIn: Config := Config(SucceedThreshold, FailThreshold, false)

  /** Why a pass stops: a failed kubectl run, undecodable output, or a log fetch for a job without pods. */
  datatype Failure = KubectlFailed(message: string) | MalformedJson | NoPod

  /** The requests an operation issued, in order, and what it returned. */
  datatype Step<+T> = Step(requests: seq<K.Request>, result: Result<T, Failure>)

  /** The label selector of the pods a job created. */
  function JobSelector(job: string): string {
    "job-name=" + job
  }

  /** `getPods`: list the pods matching a selector. */
  function PodsStep(w: World, n: nat, selector: string, namespace: string): Step<seq<string>> {
    var r := K.ListPods(selector, namespace);
    match w.reply(n, r)
    case ExecFailed(message) => Step([r], Err(KubectlFailed(message)))
    case Printed(text) =>
      match w.decodePods(text)
      case None => Step([r], Err(MalformedJson))
      case Some(pods) => Step([r], Ok(pods))
  }

  /** `getLogs`: find the job's pods and fetch the logs of the first one. */
  function LogsStep(w: World, n: nat, job: string, namespace: string): Step<string> {
    var pods := PodsStep(w, n, JobSelector(job), namespace);
    match pods.result
    case Err(e) => Step(pods.requests, Err(e))
    case Ok(names) =>
      if names == [] then Step(pods.requests, Err(NoPod))
      else
        var r := K.FetchLogs(names[0], namespace);
        match w.reply(n + 1, r)
        case ExecFailed(message) => Step(pods.requests + [r], Err(KubectlFailed(message)))
        case Printed(text) => Step(pods.requests + [r], Ok(text))
  }

  /** `deleteJob`: delete one job. */
  function DeleteStep(w: World, n: nat, job: string, namespace: string): Step<()> {
    var r := K.DeleteJob(job, namespace);
    match w.reply(n, r)
    case ExecFailed(message) => Step([r], Err(KubectlFailed(message)))
    case Printed(_) => Step([r], Ok(()))
  }

  /**
   * The body of the loop for one job: nothing for a job that is kept;
   * otherwise the optional log fetch, then the deletion.
   */
  function JobStep(w: World, cfg: Config, n: nat, job: Job): Step<()> {
    if !MarkedForCleanup(job, cfg.succeedThreshold, cfg.failThreshold) then Step([], Ok(()))
    else if cfg.printLogs then
      var logs := LogsStep(w, n, job.name, job.namespace);
      if logs.result.Err? then Step(logs.requests, Err(logs.result.error))
      else
        var d := DeleteStep(w, n + |logs.requests|, job.name, job.namespace);
        Step(logs.requests + d.requests, d.result)
    else DeleteStep(w, n, job.name, job.namespace)
  }

  /**
   * Running `step` for each job in turn, each numbered after the invocations
   * of the steps before it; the first step that fails ends the run.
   */
  function Chain(step: (nat, Job) -> Step<()>, n: nat, jobs: seq<Job>): Step<()>
    decreases |jobs|
  {
    if jobs == [] then Step([], Ok(()))
    else
      var first := step(n, jobs[0]);
      if first.result.Err? then first
      else
        var rest := Chain(step, n + |first.requests|, jobs[1..]);
        Step(first.requests + rest.requests, rest.result)
  }

  /** A successful unit result is `Ok(())`. */
  lemma OkUnit(r: Result<(), Failure>)
    requires r.Ok?
    ensures r == Ok(())
  {
    match r.value {
      case () =>
    }
  }

  /** The loop body as a step function. */
  function JobSteps(w: World, cfg: Config): (nat, Job) -> Step<()> {
    (n: nat, job: Job) => JobStep(w, cfg, n, job)
  }

  lemma JobStepsApply(w: World, cfg: Config, n: nat, job: Job)
    ensures JobSteps(w, cfg)(n, job) == JobStep(w, cfg, n, job)
  {
  }

  /** The loop over the listed jobs, in order, ending at the first error. */
  function PassStep(w: World, cfg: Config, n: nat, jobs: seq<Job>): Step<()> {
    Chain(JobSteps(w, cfg), n, jobs)
  }

  /** A pass begins with the step of its first job and, unless that fails, goes on with the rest. */
  lemma PassStepFirst(w: World, cfg: Config, n: nat, jobs: seq<Job>)
    requires jobs != []
    ensures var first := JobStep(w, cfg, n, jobs[0]);
      var rest := PassStep(w, cfg, n + |first.requests|, jobs[1..]);
      PassStep(w, cfg, n, jobs)
        == if first.result.Err? then first else Step(first.requests + rest.requests, rest.result)
  {
    JobStepsApply(w, cfg, n, jobs[0]);
  }

  /** A run over a listing extended by one job: the run over the listing, then, unless it failed, the new job's step. */
  lemma {:induction false} ChainThenStep(step: (nat, Job) -> Step<()>, n: nat, jobs: seq<Job>, job: Job)
    ensures var p := Chain(step, n, jobs);
      var last := step(n + |p.requests|, job);
      Chain(step, n, jobs + [job])
        == if p.result.Err? then p else Step(p.requests + last.requests, last.result)
    decreases |jobs|
  {
    if jobs == [] {
      var last := step(n, job);
      assert jobs + [job] == [job] && [job][0] == job && [job][1..] == [];
      assert Chain(step, n, jobs) == Step([], Ok(()));
      assert Chain(step, n + |last.requests|, []) == Step([], Ok(()));
      assert [] + last.requests == last.requests && last.requests + [] == last.requests;
      if last.result.Ok? {
        OkUnit(last.result);
      }
    } else {
      var first := step(n, jobs[0]);
      assert (jobs + [job])[0] == jobs[0] && (jobs + [job])[1..] == jobs[1..] + [job];
      if first.result.Ok? {
        ChainThenStep(step, n + |first.requests|, jobs[1..], job);
        var rest := Chain(step, n + |first.requests|, jobs[1..]);
        var last := step(n + |first.requests| + |rest.requests|, job);
        assert (first.requests + rest.requests) + last.requests == first.requests + (rest.requests + last.requests);
      }
    }
  }

  /** Runs of two step functions that agree on every job agree. */
  lemma {:induction false} ChainSameSteps(f: (nat, Job) -> Step<()>, g: (nat, Job) -> Step<()>, n: nat, jobs: seq<Job>)
    requires forall m: nat, job: Job :: f(m, job) == g(m, job)
    ensures Chain(f, n, jobs) == Chain(g, n, jobs)
    decreases |jobs|
  {
    if jobs != [] {
      ChainSameSteps(f, g, n + |f(n, jobs[0]).requests|, jobs[1..]);
    }
  }

  /** Once a run has failed, the jobs listed after that point change nothing: they issue no request. */
  lemma {:induction false} ChainStopsAfterError(step: (nat, Job) -> Step<()>, n: nat, jobs: seq<Job>, more: seq<Job>)
    requires Chain(step, n, jobs).result.Err?
    ensures Chain(step, n, jobs + more) == Chain(step, n, jobs)
    decreases |jobs|
  {
    var first := step(n, jobs[0]);
    assert (jobs + more)[0] == jobs[0] && (jobs + more)[1..] == jobs[1..] + more;
    if first.result.Ok? {
      ChainStopsAfterError(step, n + |first.requests|, jobs[1..], more);
    }
  }

  /** One iteration of the watcher's endless loop, without the sleep: list the jobs, then run a pass over them. */
  function PollStep(w: World, cfg: Config, n: nat): Step<()> {
    var r := K.ListJobs;
    match w.reply(n, r)
    case ExecFailed(message) => Step([r], Err(KubectlFailed(message)))
    case Printed(text) =>
      match w.decodeJobs(text)
      case None => Step([r], Err(MalformedJson))
      case Some(jobs) =>
        var pass := PassStep(w, cfg, n + 1, jobs);
        Step([r] + pass.requests, pass.result)
  }

  /** The deletions among `reqs`, in order. */
  function Deletes(reqs: seq<K.Request>): seq<Target> {
    if reqs == [] then []
    else
      (if reqs[0].DeleteJob? then [Target(reqs[0].job, reqs[0].namespace)] else [])
      + Deletes(reqs[1..])
  }

  /** The deletion requests for a sequence of targets. */
  function DeleteRequests(ts: seq<Target>): (reqs: seq<K.Request>)
    ensures |reqs| == |ts|
    ensures forall i :: 0 <= i < |ts| ==> reqs[i] == K.DeleteJob(ts[i].name, ts[i].namespace)
    ensures Deletes(reqs) == ts
  {
    if ts == [] then []
    else
      var reqs := [K.DeleteJob(ts[0].name, ts[0].namespace)] + DeleteRequests(ts[1..]);
      assert reqs[1..] == DeleteRequests(ts[1..]);
      reqs
  }

  /**
   * Whether the reply to `r`, issued as the n-th invocation, ends the pass:
   * a failed run, a listing that does not decode, or a pod listing (made to
   * fetch logs) without any pod.
   */
  predicate Fatal(w: World, n: nat, r: K.Request) {
    match w.reply(n, r)
    case ExecFailed(_) => true
    case Printed(text) =>
      (r.ListPods? && (w.decodePods(text).None? || w.decodePods(text).value == []))
      || (r.ListJobs? && w.decodeJobs(text).None?)
  }

  /** The requests stop exactly at the first fatal reply: none before the last request, and the last one fatal iff the result is an error. */
  predicate StopsAtFirstFatal<T>(w: World, n: nat, s: Step<T>) {
    (forall i :: 0 <= i < |s.requests| - 1 ==> !Fatal(w, n + i, s.requests[i]))
    && (s.result.Err? <==> |s.requests| > 0 && Fatal(w, n + |s.requests| - 1, s.requests[|s.requests| - 1]))
  }

  /** The deletions of consecutive request sequences follow one another. */
  lemma {:induction false} DeletesAppend(a: seq<K.Request>, b: seq<K.Request>)
    ensures Deletes(a + b) == Deletes(a) + Deletes(b)
    decreases |a|
  {
    if a == [] {
      assert a + b == b;
    } else {
      var head := if a[0].DeleteJob? then [Target(a[0].job, a[0].namespace)] else [];
      assert (a + b)[0] == a[0] && (a + b)[1..] == a[1..] + b;
      DeletesAppend(a[1..], b);
      calc {
        Deletes(a + b);
        head + Deletes(a[1..] + b);
        head + (Deletes(a[1..]) + Deletes(b));
        (head + Deletes(a[1..])) + Deletes(b);
        Deletes(a) + Deletes(b);
      }
    }
  }

  /**
   * Fetching a job's logs lists the pods with selector `job-name=<job>` in
   * the job's namespace, then asks for the logs of the first pod listed; with
   * no pod listed it stops with NoPod. It deletes nothing and stops exactly
   * at the first fatal reply.
   */
  lemma LogsFromFirstPod(w: World, n: nat, job: string, namespace: string)
    ensures var s := LogsStep(w, n, job, namespace);
      var list := K.ListPods(JobSelector(job), namespace);
      1 <= |s.requests| <= 2 && s.requests[0] == list
      && (match w.reply(n, list)
          case ExecFailed(m) => s == Step([list], Err(KubectlFailed(m)))
          case Printed(text) =>
            match w.decodePods(text)
            case None => s == Step([list], Err(MalformedJson))
            case Some(names) =>
              if names == [] then s == Step([list], Err(NoPod))
              else (s.requests == [list, K.FetchLogs(names[0], namespace)]
                    && (s.result.Ok? <==> w.reply(n + 1, K.FetchLogs(names[0], namespace)).Printed?)))
      && Deletes(s.requests) == []
      && StopsAtFirstFatal(w, n, s)
  {
    var s := LogsStep(w, n, job, namespace);
    var list := K.ListPods(JobSelector(job), namespace);
    assert Deletes([list]) == [];
    var pods := PodsStep(w, n, JobSelector(job), namespace);
    if pods.result.Ok? && pods.result.value != [] {
      var fetch := K.FetchLogs(pods.result.value[0], namespace);
      assert s.requests == [list] + [fetch];
      assert Deletes([fetch]) == [] by {
        assert [fetch][1..] == [];
      }
      DeletesAppend([list], [fetch]);
    }
  }

  /** Deleting a job issues exactly its delete request, and fails exactly when that run fails. */
  lemma DeleteIssuesOneRequest(w: World, n: nat, job: string, namespace: string)
    ensures var s := DeleteStep(w, n, job, namespace);
      s.requests == [K.DeleteJob(job, namespace)]
      && (s.result.Err? <==> w.reply(n, K.DeleteJob(job, namespace)).ExecFailed?)
      && Deletes(s.requests) == [Target(job, namespace)]
      && StopsAtFirstFatal(w, n, s)
  {
    assert [K.DeleteJob(job, namespace)][1..] == [];
  }

  /**
   * The requests for one job: none for a kept job; the deletion alone
   * without log printing; with it the pod listing first and, when all goes
   * well, the log fetch and then the deletion.
   */
  lemma JobRequests(w: World, cfg: Config, n: nat, job: Job)
    ensures var s := JobStep(w, cfg, n, job);
      var marked := MarkedForCleanup(job, cfg.succeedThreshold, cfg.failThreshold);
      (!marked ==> s == Step([], Ok(())))
      && (marked && !cfg.printLogs ==> s.requests == [K.DeleteJob(job.name, job.namespace)])
      && (marked && cfg.printLogs ==>
            |s.requests| > 0 && s.requests[0] == K.ListPods(JobSelector(job.name), job.namespace)
            && (s.result.Ok? ==>
                  |s.requests| == 3 && s.requests[1].FetchLogs? && s.requests[1].namespace == job.namespace
                  && s.requests[2] == K.DeleteJob(job.name, job.namespace)))
  {
    if MarkedForCleanup(job, cfg.succeedThreshold, cfg.failThreshold) {
      if cfg.printLogs {
        LogsFromFirstPod(w, n, job.name, job.namespace);
        var logs := LogsStep(w, n, job.name, job.namespace);
        if logs.result.Ok? {
          DeleteIssuesOneRequest(w, n + |logs.requests|, job.name, job.namespace);
        }
      } else {
        DeleteIssuesOneRequest(w, n, job.name, job.namespace);
      }
    }
  }

  /** For one job: it is deleted only when marked, and always when marked and no call fails. */
  lemma JobDeletes(w: World, cfg: Config, n: nat, job: Job)
    ensures var s := JobStep(w, cfg, n, job);
      var marked := MarkedForCleanup(job, cfg.succeedThreshold, cfg.failThreshold);
      (s.result.Ok? ==> Deletes(s.requests) == Targets([job], cfg.succeedThreshold, cfg.failThreshold))
      && (s.result.Err? ==> marked && Deletes(s.requests) <= [TargetOf(job)])
      && (!cfg.printLogs ==> OnlyDeletes(s.requests))
  {
    assert [job][1..] == [];
    if MarkedForCleanup(job, cfg.succeedThreshold, cfg.failThreshold) {
      if cfg.printLogs {
        LogsFromFirstPod(w, n, job.name, job.namespace);
        var logs := LogsStep(w, n, job.name, job.namespace);
        if logs.result.Ok? {
          var d := DeleteStep(w, n + |logs.requests|, job.name, job.namespace);
          DeleteIssuesOneRequest(w, n + |logs.requests|, job.name, job.namespace);
          DeletesAppend(logs.requests, d.requests);
        }
      } else {
        DeleteIssuesOneRequest(w, n, job.name, job.namespace);
      }
    }
  }

  /** The requests of `a` then `b` stop at the first fatal reply when `a` does without error and `b` does. */
  lemma {:induction false} StopsAtFirstFatalAppend<T, U>(w: World, n: nat, a: Step<T>, b: Step<U>)
    requires StopsAtFirstFatal(w, n, a) && a.result.Ok?
    requires StopsAtFirstFatal(w, n + |a.requests|, b)
    ensures StopsAtFirstFatal(w, n, Step(a.requests + b.requests, b.result))
  {
    var all := a.requests + b.requests;
    if a.requests != [] {
      assert !Fatal(w, n + |a.requests| - 1, a.requests[|a.requests| - 1]);
    }
    forall i | 0 <= i < |all| - 1
      ensures !Fatal(w, n + i, all[i])
    {
      if i < |a.requests| {
        assert all[i] == a.requests[i];
      } else {
        assert all[i] == b.requests[i - |a.requests|];
      }
    }
    if b.requests != [] {
      assert all[|all| - 1] == b.requests[|b.requests| - 1];
    } else {
      assert all == a.requests;
    }
  }

  /** For one job: its requests stop exactly at the first fatal reply. */
  lemma JobStopsAtFirstFatal(w: World, cfg: Config, n: nat, job: Job)
    ensures StopsAtFirstFatal(w, n, JobStep(w, cfg, n, job))
  {
    if MarkedForCleanup(job, cfg.succeedThreshold, cfg.failThreshold) {
      if cfg.printLogs {
        LogsFromFirstPod(w, n, job.name, job.namespace);
        var logs := LogsStep(w, n, job.name, job.namespace);
        if logs.result.Ok? {
          var d := DeleteStep(w, n + |logs.requests|, job.name, job.namespace);
          DeleteIssuesOneRequest(w, n + |logs.requests|, job.name, job.namespace);
          StopsAtFirstFatalAppend(w, n, logs, d);
        }
      } else {
        DeleteIssuesOneRequest(w, n, job.name, job.namespace);
      }
    }
  }

  /**
   * The deletions a pass requests: always a prefix of the jobs marked for
   * cleanup, in listing order, each with the job's own name and namespace;
   * all of them when the pass ends without error.
   */
  lemma PassDeletes(w: World, cfg: Config, n: nat, jobs: seq<Job>)
    ensures var s := PassStep(w, cfg, n, jobs);
      Deletes(s.requests) <= Targets(jobs, cfg.succeedThreshold, cfg.failThreshold)
      && (s.result.Ok? ==> Deletes(s.requests) == Targets(jobs, cfg.succeedThreshold, cfg.failThreshold))
  {
    forall m: nat, job: Job
      ensures DeletesOnlyTarget(JobSteps(w, cfg)(m, job), job, cfg.succeedThreshold, cfg.failThreshold)
    {
      JobStepsApply(w, cfg, m, job);
      JobDeletes(w, cfg, m, job);
    }
    ChainDeletes(JobSteps(w, cfg), cfg.succeedThreshold, cfg.failThreshold, n, jobs);
  }

  /**
   * What one job's step deletes: the job itself when it is marked and the
   * step succeeds, nothing when it is kept; a failing step belongs to a
   * marked job and deletes at most that job.
   */
  predicate DeletesOnlyTarget(s: Step<()>, job: Job, succeedThreshold: int, failThreshold: int) {
    (s.result.Ok? ==> Deletes(s.requests) == Targets([job], succeedThreshold, failThreshold))
    && (s.result.Err? ==> MarkedForCleanup(job, succeedThreshold, failThreshold) && Deletes(s.requests) <= [TargetOf(job)])
  }

  /** A run of steps that each delete only their own marked job deletes a prefix of the marked jobs, all of them if it succeeds. */
  lemma {:induction false} ChainDeletes(step: (nat, Job) -> Step<()>, st: int, ft: int, n: nat, jobs: seq<Job>)
    requires forall m: nat, job: Job :: DeletesOnlyTarget(step(m, job), job, st, ft)
    ensures var s := Chain(step, n, jobs);
      Deletes(s.requests) <= Targets(jobs, st, ft)
      && (s.result.Ok? ==> Deletes(s.requests) == Targets(jobs, st, ft))
    decreases |jobs|
  {
    if jobs != [] {
      var s := Chain(step, n, jobs);
      var first := step(n, jobs[0]);
      assert DeletesOnlyTarget(first, jobs[0], st, ft);
      var head, tail := Targets([jobs[0]], st, ft), Targets(jobs[1..], st, ft);
      assert Targets(jobs, st, ft) == head + tail by {
        assert [jobs[0]][1..] == [];
      }
      if first.result.Err? {
        assert head == [TargetOf(jobs[0])] by {
          assert [jobs[0]][1..] == [];
        }
        PrefixThenMore(Deletes(s.requests), head, tail);
      } else {
        var rest := Chain(step, n + |first.requests|, jobs[1..]);
        assert s == Step(first.requests + rest.requests, rest.result);
        ChainDeletes(step, st, ft, n + |first.requests|, jobs[1..]);
        DeletesAppend(first.requests, rest.requests);
        assert Deletes(s.requests) == head + Deletes(rest.requests);
        PrefixAfterSame(head, Deletes(rest.requests), tail);
      }
    }
  }

  /** Without log printing a pass requests nothing but deletions. */
  lemma {:induction false} PassOnlyDeletes(w: World, cfg: Config, n: nat, jobs: seq<Job>)
    requires !cfg.printLogs
    ensures OnlyDeletes(PassStep(w, cfg, n, jobs).requests)
    decreases |jobs|
  {
    if jobs != [] {
      var first := JobStep(w, cfg, n, jobs[0]);
      PassStepFirst(w, cfg, n, jobs);
      JobDeletes(w, cfg, n, jobs[0]);
      if first.result.Ok? {
        var rest := PassStep(w, cfg, n + |first.requests|, jobs[1..]);
        PassOnlyDeletes(w, cfg, n + |first.requests|, jobs[1..]);
        OnlyDeletesAppend(first.requests, rest.requests);
      }
    }
  }

  /** Every request of `reqs` is a deletion. */
  predicate OnlyDeletes(reqs: seq<K.Request>) {
    forall i :: 0 <= i < |reqs| ==> reqs[i].DeleteJob?
  }

  lemma OnlyDeletesAppend(a: seq<K.Request>, b: seq<K.Request>)
    requires OnlyDeletes(a) && OnlyDeletes(b)
    ensures OnlyDeletes(a + b)
  {
    forall i | 0 <= i < |a + b|
      ensures (a + b)[i].DeleteJob?
    {
      if i >= |a| {
        assert (a + b)[i] == b[i - |a|];
      }
    }
  }

  lemma PrefixThenMore<T>(a: seq<T>, b: seq<T>, c: seq<T>)
    requires a <= b
    ensures a <= b + c
  {
    assert (b + c)[..|b|] == b;
  }

  lemma PrefixAfterSame<T>(a: seq<T>, b: seq<T>, c: seq<T>)
    requires b <= c
    ensures a + b <= a + c
  {
    assert (a + c)[..|a + b|] == a + b;
  }

  /** A pass stops exactly at the first fatal reply: no request follows it and none precedes it. */
  lemma {:induction false} PassStopsAtFirstFatal(w: World, cfg: Config, n: nat, jobs: seq<Job>)
    ensures StopsAtFirstFatal(w, n, PassStep(w, cfg, n, jobs))
    decreases |jobs|
  {
    if jobs != [] {
      var s := PassStep(w, cfg, n, jobs);
      var first := JobStep(w, cfg, n, jobs[0]);
      PassStepFirst(w, cfg, n, jobs);
      JobStopsAtFirstFatal(w, cfg, n, jobs[0]);
      if first.result.Err? {
        assert s == first;
      } else {
        var rest := PassStep(w, cfg, n + |first.requests|, jobs[1..]);
        assert s == Step(first.requests + rest.requests, rest.result);
        PassStopsAtFirstFatal(w, cfg, n + |first.requests|, jobs[1..]);
        StopsAtFirstFatalAppend(w, n, first, rest);
      }
    }
  }

  /**
   * Against a cluster where every kubectl run succeeds, a pass without log
   * printing requests exactly the deletions of the marked jobs, in listing
   * order, and ends without error.
   */
  lemma {:induction false} PassOnHealthyCluster(w: World, cfg: Config, n: nat, jobs: seq<Job>)
    requires forall m: nat, r: K.Request :: w.reply(m, r).Printed?
    requires !cfg.printLogs
    ensures PassStep(w, cfg, n, jobs)
      == Step(DeleteRequests(Targets(jobs, cfg.succeedThreshold, cfg.failThreshold)), Ok(()))
    decreases |jobs|
  {
    if jobs != [] {
      var first := JobStep(w, cfg, n, jobs[0]);
      PassStepFirst(w, cfg, n, jobs);
      PassOnHealthyCluster(w, cfg, n + |first.requests|, jobs[1..]);
      var ts := Targets(jobs[1..], cfg.succeedThreshold, cfg.failThreshold);
      if MarkedForCleanup(jobs[0], cfg.succeedThreshold, cfg.failThreshold) {
        assert w.reply(n, K.DeleteJob(jobs[0].name, jobs[0].namespace)).Printed?;
        assert DeleteRequests([TargetOf(jobs[0])] + ts)[1..] == DeleteRequests(ts) by {
          assert ([TargetOf(jobs[0])] + ts)[1..] == ts;
        }
      }
    }
  }

  /**
   * The watcher as built, against a cluster where every kubectl run
   * succeeds: a pass deletes, in listing order, exactly the listed jobs that
   * have a succeeded or a failed pod, and no other job.
   */
  lemma BuiltInPass(w: World, n: nat, jobs: seq<Job>)
    requires forall m: nat, r: K.Request :: w.reply(m, r).Printed?
    ensures var s := PassStep(w, BuiltIn, n, jobs);
      s.result == Ok(()) && s.requests == DeleteRequests(Targets(jobs, SucceedThreshold, FailThreshold))
    ensures forall t :: t in Deletes(PassStep(w, BuiltIn, n, jobs).requests) <==>
      exists i :: 0 <= i < |jobs| && TargetOf(jobs[i]) == t && (jobs[i].succeeded > 0 || jobs[i].failed > 0)
  {
    PassOnHealthyCluster(w, BuiltIn, n, jobs);
    forall t
      ensures t in Deletes(PassStep(w, BuiltIn, n, jobs).requests) <==>
        exists i :: 0 <= i < |jobs| && TargetOf(jobs[i]) == t && (jobs[i].succeeded > 0 || jobs[i].failed > 0)
    {
      TargetsMembership(jobs, SucceedThreshold, FailThreshold, t);
      forall i | 0 <= i < |jobs|
        ensures MarkedForCleanup(jobs[i], SucceedThreshold, FailThreshold) <==> jobs[i].succeeded > 0 || jobs[i].failed > 0
      {
        BuiltInThresholds(jobs[i]);
      }
    }
  }

  /** Two listings that agree on every job's name, namespace and success and failure counts give the same pass: `active` plays no part. */
  lemma {:induction false} PassIgnoresActive(w: World, cfg: Config, n: nat, jobs: seq<Job>, others: seq<Job>)
    requires |jobs| == |others|
    requires forall i :: 0 <= i < |jobs| ==>
      jobs[i].name == others[i].name && jobs[i].namespace == others[i].namespace
      && jobs[i].succeeded == others[i].succeeded && jobs[i].failed == others[i].failed
    ensures PassStep(w, cfg, n, jobs) == PassStep(w, cfg, n, others)
    decreases |jobs|
  {
    if jobs != [] {
      DecisionFromCounters(jobs[0], others[0], cfg.succeedThreshold, cfg.failThreshold);
      var first := JobStep(w, cfg, n, jobs[0]);
      assert first == JobStep(w, cfg, n, others[0]);
      PassStepFirst(w, cfg, n, jobs);
      PassStepFirst(w, cfg, n, others);
      PassIgnoresActive(w, cfg, n + |first.requests|, jobs[1..], others[1..]);
    }
  }

  /**
   * A poll lists the jobs of every namespace first, then issues the requests
   * of one pass over the decoded listing; an empty listing requests nothing
   * more, and the deletions are a prefix of the marked jobs, all of them when
   * the poll succeeds.
   */
  lemma PollDeletes(w: World, cfg: Config, n: nat)
    ensures var s := PollStep(w, cfg, n);
      s.requests != [] && s.requests[0] == K.ListJobs
      && (w.reply(n, K.ListJobs).ExecFailed? || w.decodeJobs(w.reply(n, K.ListJobs).text).None? ==>
            s.requests == [K.ListJobs] && s.result.Err?)
      && (w.reply(n, K.ListJobs).Printed? && w.decodeJobs(w.reply(n, K.ListJobs).text).Some? ==>
            var jobs := w.decodeJobs(w.reply(n, K.ListJobs).text).value;
            s.requests[1..] == PassStep(w, cfg, n + 1, jobs).requests
            && Deletes(s.requests) <= Targets(jobs, cfg.succeedThreshold, cfg.failThreshold)
            && (s.result.Ok? ==> Deletes(s.requests) == Targets(jobs, cfg.succeedThreshold, cfg.failThreshold))
            && (jobs == [] ==> s == Step([K.ListJobs], Ok(()))))
  {
    var s := PollStep(w, cfg, n);
    if w.reply(n, K.ListJobs).Printed? && w.decodeJobs(w.reply(n, K.ListJobs).text).Some? {
      var jobs := w.decodeJobs(w.reply(n, K.ListJobs).text).value;
      var pass := PassStep(w, cfg, n + 1, jobs);
      PassDeletes(w, cfg, n + 1, jobs);
      DeletesAppend([K.ListJobs], pass.requests);
      assert ([K.ListJobs] + pass.requests)[1..] == pass.requests;
      assert Deletes([K.ListJobs]) == [];
    }
  }

  /** A poll stops exactly at the first fatal reply, the job listing included. */
  lemma PollStopsAtFirstFatal(w: World, cfg: Config, n: nat)
    ensures StopsAtFirstFatal(w, n, PollStep(w, cfg, n))
  {
    var list := Step([K.ListJobs], Ok(()));
    if w.reply(n, K.ListJobs).Printed? && w.decodeJobs(w.reply(n, K.ListJobs).text).Some? {
      var jobs := w.decodeJobs(w.reply(n, K.ListJobs).text).value;
      assert StopsAtFirstFatal(w, n, list);
      PassStopsAtFirstFatal(w, cfg, n + 1, jobs);
      StopsAtFirstFatalAppend(w, n, list, PassStep(w, cfg, n + 1, jobs));
    }
  }
}
