/**
 * The watcher as it runs: a cluster handle whose methods invoke
 * `/bin/kubectl`, as `kubectl`, `getPods`, `getLogs`, `deleteJob` and the
 * body of `main`'s endless loop do. Each method is proved to issue exactly
 * the requests, and return exactly the result, of the matching function of
 * module Reconciler, in the world that runs each request as the argument
 * vector `Kubectl.Argv` builds for it.
 */
module Watcher {
  import opened Words
  import opened Results
  import opened Cleanup
  import K = Kubectl
  import opened Reconciler

  /**
   * What the watcher reads at start-up and the cluster it talks to: the
   * control-plane URL and the service-account token, the outcome of the n-th
   * run of `/bin/kubectl` with a given argument vector, and the JSON
   * decoding of the job and pod listings.
   */
  datatype Env = Env(
    url: string,
    token: string,
    run: (nat, seq<string>) -> Output,
    decodeJobs: string -> Option<seq<Job>>,
    decodePods: string -> Option<seq<string>>)

  /** The world of `env`: a request's outcome is that of running its argument vector. */
  function WorldOf(env: Env): (w: World)
    ensures forall n: nat, r: K.Request :: w.reply(n, r) == Run(env, n, K.Argv(r, env.token, env.url))
    ensures w.decodeJobs == env.decodeJobs && w.decodePods == env.decodePods
  {
    World((n: nat, r: K.Request) => env.run(n, K.Argv(r, env.token, env.url)), env.decodeJobs, env.decodePods)
  }

  /** The outcome of the n-th run of `/bin/kubectl` with arguments `argv`. */
  function Run(env: Env, n: nat, argv: seq<string>): Output {
    env.run(n, argv)
  }

  /** Concatenation regroups; stated apart so that the loop of `Reconcile` uses it as one fact. */
  lemma Associative<T>(a: seq<T>, b: seq<T>, c: seq<T>)
    ensures (a + b) + c == a + (b + c)
  {
  }

  class Cluster {
    const env: Env
    /** The thresholds and the log switch, fixed for the life of the watcher. */
    const cfg: Config
    /** The world the requests of this cluster are answered in. */
    ghost const world: World
    /** The loop body in this world and configuration: `JobStep` with both fixed. */
    ghost const jobStep: (nat, Job) -> Step<()>
    /** The requests issued so far, one per run of `/bin/kubectl`, in order. */
    var trace: seq<K.Request>

    /**
     * The world answers each request as running its argument vector does,
     * with the environment's decoders, and `jobStep` is the loop body.
     */
    ghost predicate Valid() {
      world.decodeJobs == env.decodeJobs && world.decodePods == env.decodePods
      && (forall n: nat, r: K.Request {:trigger Run(env, n, K.Argv(r, env.token, env.url))} ::
            world.reply(n, r) == Run(env, n, K.Argv(r, env.token, env.url)))
      && (forall n: nat, job: Job {:trigger JobStep(world, cfg, n, job)} ::
            jobStep(n, job) == JobStep(world, cfg, n, job))
    }

    constructor(env: Env, cfg: Config)
      ensures this.env == env && this.cfg == cfg && Valid() && trace == []
    {
      this.env := env;
      this.cfg := cfg;
      world := WorldOf(env);
      jobStep := JobSteps(WorldOf(env), cfg);
      trace := [];
      new;
      assert world == WorldOf(env);
      forall n: nat, job: Job
        ensures jobStep(n, job) == JobStep(world, cfg, n, job)
      {
        JobStepsApply(world, cfg, n, job);
      }
    }

    /**
     * `kubectl`: assemble the command line, split it into words and run
     * `/bin/kubectl` with them as the next invocation.
     */
    method Kubectl(r: K.Request) returns (out: Output)
      requires Valid()
      modifies this
      ensures trace == old(trace) + [r]
      ensures out == world.reply(|old(trace)|, r)
    {
      var command, namespace, tojson := K.Command(r), K.NamespaceOf(r), K.ToJson(r);
      var fullCmd := command + " " + (K.TokenPrefix + env.token) + " " + (K.ServerPrefix + env.url) + " " + K.TlsFlag;
      if namespace == "" {
        fullCmd := fullCmd + " " + K.AllNamespaces;
      } else {
        fullCmd := fullCmd + " " + (K.NamespacePrefix + namespace);
      }
      if tojson {
        fullCmd := fullCmd + " " + K.OutputFlag + " " + K.Json;
      }
      assert fullCmd == K.CommandLine(command, env.token, env.url, namespace, tojson);
      var cmdParts := Fields(fullCmd);
      assert cmdParts == K.Argv(r, env.token, env.url);
      out := Run(env, |trace|, cmdParts);
      trace := trace + [r];
    }

    /** `getPods`: list the pods matching `selector` in `namespace` and decode the listing. */
    method GetPods(selector: string, namespace: string) returns (res: Result<seq<string>, Failure>)
      requires Valid()
      modifies this
      ensures var s := PodsStep(world, |old(trace)|, selector, namespace);
        trace == old(trace) + s.requests && res == s.result
    {
      var out := Kubectl(K.ListPods(selector, namespace));
      match out
      case ExecFailed(message) =>
        res := Err(KubectlFailed(message));
      case Printed(text) =>
        match env.decodePods(text)
        case None =>
          res := Err(MalformedJson);
        case Some(pods) =>
          res := Ok(pods);
    }

    /** `getLogs`: list the pods of `job` and fetch the logs of the first one. */
    method GetLogs(job: string, namespace: string) returns (res: Result<string, Failure>)
      requires Valid()
      modifies this
      ensures var s := LogsStep(world, |old(trace)|, job, namespace);
        trace == old(trace) + s.requests && res == s.result
    {
      var pods := GetPods(JobSelector(job), namespace);
      if pods.Err? {
        return Err(pods.error);
      }
      if pods.value == [] {
        return Err(NoPod);
      }
      var out := Kubectl(K.FetchLogs(pods.value[0], namespace));
      match out
      case ExecFailed(message) =>
        res := Err(KubectlFailed(message));
      case Printed(text) =>
        res := Ok(text);
    }

    /** `deleteJob`: delete `job` from `namespace`. */
    method DeleteJob(job: string, namespace: string) returns (res: Result<(), Failure>)
      requires Valid()
      modifies this
      ensures var s := DeleteStep(world, |old(trace)|, job, namespace);
        trace == old(trace) + s.requests && res == s.result
    {
      var out := Kubectl(K.DeleteJob(job, namespace));
      match out
      case ExecFailed(message) =>
        res := Err(KubectlFailed(message));
      case Printed(_) =>
        res := Ok(());
    }

    /** The body of the loop for one job: decide, optionally fetch the logs, delete. */
    method HandleJob(job: Job) returns (res: Result<(), Failure>)
      requires Valid()
      modifies this
      ensures var s := JobStep(world, cfg, |old(trace)|, job);
        trace == old(trace) + s.requests && res == s.result
    {
      var cleanup := Decide(job, cfg.succeedThreshold, cfg.failThreshold).Cleanup?;
      if !cleanup {
        return Ok(());
      }
      if cfg.printLogs {
        var logs := GetLogs(job.name, job.namespace);
        if logs.Err? {
          return Err(logs.error);
        }
      }
      res := DeleteJob(job.name, job.namespace);
    }

    /** One pass over a job listing, in listing order; the first error ends it. */
    method Reconcile(jobs: seq<Job>) returns (res: Result<(), Failure>)
      requires Valid()
      modifies this
      ensures var s := PassStep(world, cfg, |old(trace)|, jobs);
        trace == old(trace) + s.requests && res == s.result
    {
      ghost var n0 := |trace|;
      var i := 0;
      while i < |jobs|
        invariant 0 <= i <= |jobs|
        invariant var p := Chain(jobStep, n0, jobs[..i]);
          p.result.Ok? && trace == old(trace) + p.requests
        decreases |jobs| - i
      {
        ghost var p := Chain(jobStep, n0, jobs[..i]);
        ChainThenStep(jobStep, n0, jobs[..i], jobs[i]);
        assert jobs[..i + 1] == jobs[..i] + [jobs[i]];
        var r := HandleJob(jobs[i]);
        ghost var last := jobStep(n0 + |p.requests|, jobs[i]);
        Associative(old(trace), p.requests, last.requests);
        if r.Err? {
          ChainStopsAfterError(jobStep, n0, jobs[..i + 1], jobs[i + 1..]);
          assert jobs[..i + 1] + jobs[i + 1..] == jobs;
          ChainSameSteps(jobStep, JobSteps(world, cfg), n0, jobs);
          return r;
        }
        i := i + 1;
      }
      assert jobs[..i] == jobs;
      OkUnit(Chain(jobStep, n0, jobs).result);
      ChainSameSteps(jobStep, JobSteps(world, cfg), n0, jobs);
      return Ok(());
    }

    /** One iteration of the watcher's endless loop: list the jobs of every namespace, then one pass. */
    method Poll() returns (res: Result<(), Failure>)
      requires Valid()
      modifies this
      ensures var s := PollStep(world, cfg, |old(trace)|);
        trace == old(trace) + s.requests && res == s.result
    {
      var out := Kubectl(K.ListJobs);
      match out
      case ExecFailed(message) =>
        res := Err(KubectlFailed(message));
      case Printed(text) =>
        match env.decodeJobs(text)
        case None =>
          res := Err(MalformedJson);
        case Some(jobs) =>
          res := Reconcile(jobs);
    }
  }
}
