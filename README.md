# KubeJobWatcher in Dafny

KubeJobWatcher is a small Kubernetes controller written in Go (`main.go`).
Every ten seconds it lists all jobs of the cluster with `/bin/kubectl`. It
decides for each job whether it is finished, which means its success count
has reached one threshold or its failure count has reached another. It can
fetch the logs of a finished job's first pod, and then it deletes the job.
Any failing call ends the process.

This project models that core and proves properties of it. There are six
modules, one per file:

- `Words` (`words.dfy`) models Go's `strings.Fields` and `unicode.IsSpace`,
  which split the assembled kubectl command line into an argument vector.
- `Kubectl` (`kubectl.dfy`) models the four requests the watcher makes:
  list jobs, list pods, fetch logs, delete a job. It gives the command string
  each caller formats and the argument vector `kubectl` builds from it. That
  vector holds the credentials, TLS flag, namespace scope and output format.
- `Cleanup` (`cleanup.dfy`) models a job as its name, namespace and three
  counters. It holds the cleanup `switch` and the jobs a listing marks for
  deletion.
- `Reconciler` (`reconciler.dfy`) is the behaviour as pure functions.
  `PodsStep`, `LogsStep` and `DeleteStep` model `getPods`, `getLogs` and
  `deleteJob`. `JobStep` is the loop body and `PassStep` the loop over a
  listing. `PollStep` is one iteration of `main`'s endless loop. Each
  function gives the requests issued, in order, and the result.

  Outcomes come from a `World` that answers the n-th kubectl invocation.
  `World` also holds the JSON decoders. Every lemma holds for every world.
- `Watcher` (`watcher.dfy`) is the running program. It has the class
  `Cluster`, whose methods `Kubectl`, `GetPods`, `GetLogs`, `DeleteJob`,
  `HandleJob`, `Reconcile` and `Poll` perform these operations. A method
  records each request in the field `trace` as it invokes kubectl, and is
  proved to issue exactly the requests of its step function and return
  exactly its result. The world there runs each request with the argument
  vector `Kubectl.Argv` builds for it.
- `Results` (`results.dfy`) holds `Option` and `Result`.

The Go globals `kubeURL` and `kubeToken` and the constants `succeedThreshhold`,
`failThreshhold` and `printLogs` become parameters: the fields of `Env` and
`Config` respectively. `Reconciler.BuiltIn` is the configuration the program
is compiled with: thresholds 1 and 1, no log printing.

Some behaviour of the code is easy to misread; the model does what the code
does:

- With log printing on, a finished job whose pod listing is empty makes
  `getLogs` index `pods.Items[0]` (main.go:171) and panic, so the process
  dies before the job is deleted. The model ends the pass with the error
  `NoPod`, and nothing is deleted after it.
- Every kubectl error on deletion is fatal (main.go:259-262), a job that is
  already gone ("not found") included, and so it is in the model.
- `getLogs` lists pods in the job's own namespace (main.go:165, 147), not
  in every namespace as the job listing does. Only for a job whose
  namespace is empty does `kubectl` turn that into `--all-namespaces`
  (main.go:126-127), and so does the model.
- In `main`, the job listing passes `string(tokenBytes)` as the token where
  the other calls pass `kubeToken`. Both hold the same text, so the model
  uses `Env.token` for all four.

## Model

| member | source | states |
|---|---|---|
| Kubectl.CommandLine | main.go:120-133 | the command, `--token=<t>`, `--server=<u>` and the TLS flag, then `--all-namespaces` or `--namespace=<ns>`, then `-o json` when asked for; its properties are stated by `Args`, `ArgsLayout`, `ArgsNamespace` and `ArgsEnding` |
| Kubectl.Argv | main.go:119-135 | the argument vector of one request: the words of its command line; `ArgvOfRequest` states it word by word for each request |
| Kubectl.Command | main.go:144 | the command strings of main.go:144, 171, 187 and 216; `ListJobsWords`, `ListPodsWords`, `FetchLogsWords` and `DeleteJobWords` state the words each splits into |
| Kubectl.NamespaceFlag | main.go:126-130 | the argument that scopes a command: `--all-namespaces` for the empty namespace, `--namespace=<ns>` otherwise; placed and proved unique by `ArgsNamespace` |
| Kubectl.NamespaceOf | main.go:147 | the namespace each call site passes to `kubectl` (main.go:147, 174, 190, and the empty one at 216); `ArgvOfRequest` states the resulting flag per request |
| Kubectl.ToJson | main.go:148 | the `tojson` argument each call site passes (true at main.go:148 and 216, false at 175 and 191); `ArgvOfRequest` states which requests end in `-o json` |
| Words.IsSpace | main.go:135 | Go's `unicode.IsSpace`: the Latin-1 white space and the other Unicode White_Space code points at which `strings.Fields` splits |
| Words.Word | main.go:135 | the first word of a string is a prefix without white space, cut only at a white-space character |
| Words.Fields | main.go:135 | `strings.Fields` yields only non-empty arguments without white space |
| Words.WordBeforeSpace | main.go:135 | text appended after white space does not change the first word |
| Words.FieldsAround | main.go:135 | two strings joined by one white-space character split into the words of the first, then those of the second |
| Words.FieldsOfWord | main.go:135 | a word splits into exactly itself |
| Words.WordWhole | main.go:135 | a string without white space is its own first word |
| Words.FieldsUnwords | main.go:135 | splitting words joined by single blanks gives back the same words |
| Kubectl.Args | main.go:119-135 | every argument passed to kubectl is non-empty and free of white space |
| Kubectl.ArgsLayout | main.go:119-135 | the arguments are the command's words, then `--token=<t>`, `--server=<u>`, `--insecure-skip-tls-verify=true`, the namespace flag, then `-o json` exactly when JSON is asked for |
| Kubectl.ArgsEnding | main.go:131-133 | with JSON requested the last two arguments are `-o json`; otherwise the last argument is the namespace flag; for a namespace without white space the arguments end in `-o json` exactly when JSON is requested |
| Kubectl.ArgsNamespace | main.go:126-130 | exactly one argument scopes the command, the one right after the TLS flag: an empty namespace gives `--all-namespaces` and no `--namespace=` argument; any other gives `--namespace=<ns>` and not `--all-namespaces` |
| Kubectl.SuffixNamespace | main.go:126-130 | in the assembled layout the namespace flag sits right after the TLS flag and no other argument scopes the command |
| Kubectl.FieldsThenWord | main.go:120-133 | appending a blank and one word to the command line adds exactly that argument |
| Kubectl.FieldsThenFour | main.go:120-130 | the four flags appended after the command become four arguments in order |
| Kubectl.ListJobsWords | main.go:216 | `get jobs` splits into the words `get`, `jobs` |
| Kubectl.ListPodsWords | main.go:144 | the pod listing command splits into `get`, `pods`, `-a`, `--selector=<selector>` |
| Kubectl.FetchLogsWords | main.go:171 | the log fetch command splits into `logs`, `<pod>` |
| Kubectl.DeleteJobWords | main.go:187 | the deletion command splits into `delete`, `job`, `<job>` |
| Kubectl.ArgvOfRequest | main.go:119-135 | the full argument vector of each of the four requests, word by word; the job listing spans all namespaces and asks for JSON; the pod listing also asks for JSON, scoped to its namespace; log fetch and deletion do not ask for JSON |
| Cleanup.Decide | main.go:235-243 | a job is cleaned up iff succeeded ≥ success threshold or failed ≥ failure threshold; the reason is "succeeded" iff the first case holds and "failed" iff only the second does |
| Cleanup.DecisionFromCounters | main.go:227-243 | the decision depends only on the success and failure counts (not on `active`, name or namespace), so it is reproducible |
| Cleanup.BuiltInThresholds | main.go:17-18 | with the built-in thresholds of 1, a job is kept iff it has neither succeeded nor failed |
| Cleanup.DecisionExamples | main.go:235-243 | concrete cases: one success, one failure, only active, success and failure together |
| Cleanup.Targets | main.go:227-245 | at most one deletion target per listed job |
| Cleanup.TargetsMembership | main.go:227-245 | a target is listed iff some listed job with that name and namespace is marked |
| Cleanup.TargetsEmpty | main.go:227-245 | no targets iff no job of the listing is marked (in particular for an empty listing) |
| Reconciler.JobSelector | main.go:165 | the label selector `job-name=<job>` of a job's pods; `LogsFromFirstPod` states that the log fetch lists pods with it |
| Reconciler.PodsStep | main.go:141-161 | `getPods`: one pod listing, failing when the run fails or its output does not decode; `LogsFromFirstPod` states it as used by `getLogs` |
| Reconciler.LogsStep | main.go:163-182 | `getLogs`; stated by `LogsFromFirstPod` |
| Reconciler.DeleteStep | main.go:184-198 | `deleteJob`; stated by `DeleteIssuesOneRequest` |
| Reconciler.JobStep | main.go:235-262 | the loop body for one job; stated by `JobRequests`, `JobDeletes` and `JobStopsAtFirstFatal` |
| Reconciler.Chain | main.go:227-263 | running a step per job in listing order, each numbered after the invocations before it, until the first error; stated by `ChainThenStep`, `ChainStopsAfterError` and `ChainDeletes` |
| Reconciler.PassStep | main.go:227-263 | the loop over the listed jobs; stated by `PassDeletes`, `PassStopsAtFirstFatal`, `PassOnlyDeletes`, `PassOnHealthyCluster` and `PassIgnoresActive` |
| Reconciler.PollStep | main.go:215-263 | one iteration of `main`'s loop; stated by `PollDeletes` and `PollStopsAtFirstFatal` |
| Reconciler.DeleteRequests | main.go:259 | one deletion request per target, in order, with the target's name and namespace; its deletions are the targets |
| Reconciler.DeletesAppend | main.go:227-262 | the deletions of consecutive request sequences are concatenated |
| Reconciler.LogsFromFirstPod | main.go:163-182 | fetching logs first lists pods with selector `job-name=<job>` in the job's namespace, then fetches the logs of the first pod listed; a failed or undecodable listing, or no pod, ends it with that error; it deletes nothing and stops at the first fatal reply |
| Reconciler.DeleteIssuesOneRequest | main.go:184-198 | deleting issues exactly `delete job <job>` in the job's namespace and fails iff that run fails |
| Reconciler.JobRequests | main.go:245-262 | a kept job issues nothing; without log printing a marked job issues only its deletion; with it, the pod listing comes first and, on success, the log fetch and then the deletion |
| Reconciler.JobDeletes | main.go:245-262 | one job's step requests that job's deletion only if it is marked, and always does when it is marked and the step succeeds; a failing step belongs to a marked job and requests at most that job's deletion; without log printing only deletions are issued |
| Reconciler.JobStopsAtFirstFatal | main.go:250-262 | one job's requests stop exactly at the first fatal reply |
| Reconciler.StopsAtFirstFatalAppend | main.go:227-262 | a successful run followed by one that stops at its first fatal reply stops at the first fatal reply |
| Reconciler.ChainThenStep | main.go:227-262 | the pass over a listing extended by one job is the pass over the listing followed, unless it failed, by the new job's step |
| Reconciler.ChainSameSteps | main.go:227-262 | passes whose per-job steps agree are equal |
| Reconciler.ChainStopsAfterError | main.go:250-262 | once a pass has failed, later jobs issue no request |
| Reconciler.ChainDeletes | main.go:227-262 | when each step deletes at most its own marked job, a pass deletes a prefix of the marked jobs, and all of them when it succeeds |
| Reconciler.PassDeletes | main.go:227-262 | a pass deletes a prefix of the marked jobs in listing order, with their own names and namespaces, and exactly the marked jobs when no call fails |
| Reconciler.PassOnlyDeletes | main.go:245-262 | without log printing a pass issues only deletions |
| Reconciler.PassStopsAtFirstFatal | main.go:227-262 | no request follows the first fatal reply, none precedes it, and the pass fails iff its last request was fatal |
| Reconciler.PassOnHealthyCluster | main.go:227-262 | when every kubectl run succeeds and logs are not printed, a pass issues exactly the deletions of the marked jobs, in order, and succeeds |
| Reconciler.BuiltInPass | main.go:17-19 | with the built-in configuration and every kubectl run succeeding, a pass issues only deletions, in listing order, and succeeds; a job is deleted iff some listed job with its name and namespace has a succeeded or a failed pod |
| Reconciler.PassIgnoresActive | main.go:227-243 | listings that differ only in `active` counts give the same pass |
| Reconciler.PollDeletes | main.go:215-262 | a poll first lists the jobs; a failed or undecodable listing ends it there; otherwise the pass over the decoded jobs follows, deleting a prefix of the marked jobs, and all of them when the poll succeeds; an empty listing issues nothing more and succeeds |
| Reconciler.PollStopsAtFirstFatal | main.go:215-262 | a poll, job listing included, stops exactly at the first fatal reply |
| Watcher.Cluster.constructor | main.go:200-214 | a new cluster has the given environment and configuration and has issued nothing |
| Watcher.Cluster.Kubectl | main.go:119-139 | the command line built step by step is split and run as the next invocation; the request is appended to the trace and its outcome returned |
| Watcher.Cluster.GetPods | main.go:141-161 | issues the requests of `PodsStep` and returns its result |
| Watcher.Cluster.GetLogs | main.go:163-182 | issues the requests of `LogsStep` and returns its result |
| Watcher.Cluster.DeleteJob | main.go:184-198 | issues the requests of `DeleteStep` and returns its result |
| Watcher.Cluster.HandleJob | main.go:235-262 | issues the requests of `JobStep` and returns its result |
| Watcher.Cluster.Reconcile | main.go:227-263 | the loop issues the requests of `PassStep` over the listing and returns its result, stopping at the first error |
| Watcher.Cluster.Poll | main.go:215-263 | one iteration issues the requests of `PollStep` and returns its result |

## Left out

- Running `/bin/kubectl` is not modelled. Its outcome for the n-th
  invocation with a given argument vector is the parameter `Env.run`. Its
  output is text rather than bytes. `Watcher.WorldOf` turns `Env.run` into
  the `World` of module Reconciler, answering each request as running the
  argument vector `Kubectl.Argv` builds for it.
- JSON decoding (`json.Unmarshal` into `jobList` and `podList`) is not
  modelled; it is the parameters `decodeJobs` and `decodePods`. A job is
  reduced to its name, namespace and three counters, and a pod listing to
  the pod names in order. The other fields of the Go structs play no part in
  the core.
- Start-up is not modelled: reading `KUBERNETES_SERVICE_HOST` and
  `KUBERNETES_SERVICE_PORT`, formatting the URL, reading the token file, and
  the fatal exits when these fail. The URL and token are given in `Env`.
- The ten-second sleep and the endless loop are not modelled. `Poll` is one
  iteration.
- Logging is not modelled: the per-job `log.Printf` line, the "getting
  logs" and "deleting job" lines, and printing the fetched logs. The
  fetched logs are computed and dropped.
- `log.Fatal` and the index-out-of-range panic are not modelled as process
  exits. They are an `Err` result that ends the pass with no later request.
- Counters are unbounded integers. The Go code only compares them, so no
  overflow can arise.
- Characters are Unicode code points. Go's `strings.Fields` decodes UTF-8
  bytes, so invalid UTF-8 sequences are not modelled.
- Kubectl.ArgsLayout: stated only for a token, URL and namespace without
  white space. With white space in them the arguments are still words
  (`Kubectl.Args`), but their exact layout is not stated.
- Kubectl.ArgsNamespace: stated only for a token, URL and namespace
  without white space, and a command none of whose words is a namespace
  flag.
- Kubectl.ArgsEnding: the namespace flag is named as the last argument
  without JSON, and the ending is tied to JSON in both directions, only for
  a namespace without white space.
- Kubectl.ArgvOfRequest: stated only when the names in a request are words
  and the credentials hold no white space.
