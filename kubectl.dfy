/**
 * The command lines the watcher hands to `/bin/kubectl`: the four requests it
 * makes of the cluster, the command string each one starts from, and the
 * argument vector that `kubectl` in main.go builds from a command string by
 * appending the credentials, the namespace scope and the output format and
 * then splitting the result into words.
 */
module Kubectl {
  import opened Words

  /** One invocation of kubectl, as the watcher means it. */
  datatype Request =
    | ListJobs                                      // `get jobs` across all namespaces, as JSON
    | ListPods(selector: string, namespace: string) // `get pods -a --selector=<selector>`, as JSON
    | FetchLogs(pod: string, namespace: string)     // `logs <pod>`
    | DeleteJob(job: string, namespace: string)     // `delete job <job>`

  /** The command string each caller formats before calling `kubectl`. */
  function Command(r: Request): string {
    match r
    case ListJobs => "get jobs"
    case ListPods(selector, _) => "get pods -a --selector=" + selector
    case FetchLogs(pod, _) => "logs " + pod
    case DeleteJob(job, _) => "delete job " + job
  }

  /** The namespace a request is scoped to; the job listing passes the empty one. */
  function NamespaceOf(r: Request): string {
    match r
    case ListJobs => ""
    case ListPods(_, namespace) => namespace
    case FetchLogs(_, namespace) => namespace
    case DeleteJob(_, namespace) => namespace
  }

  /** Whether the caller asks for JSON output: only the two listings do. */
  predicate ToJson(r: Request) {
    r.ListJobs? || r.ListPods?
  }

  // The words of the command strings and of the arguments `kubectl` appends.
  const Get: string := "get"
  const Jobs: string := "jobs"
  const Pods: string := "pods"
  const ShowAll: string := "-a"
  const SelectorPrefix: string := "--selector="
  const Logs: string := "logs"
  const Delete: string := "delete"
  const Job: string := "job"
  const OutputFlag: string := "-o"
  const Json: string := "json"
  const TokenPrefix: string := "--token="
  const ServerPrefix: string := "--server="
  const TlsFlag: string := "--insecure-skip-tls-verify=true"
  const AllNamespaces: string := "--all-namespaces"
  const NamespacePrefix: string := "--namespace="

  /** The argument that scopes a command: every namespace when none is named. */
  function NamespaceFlag(namespace: string): string {
    if namespace == "" then AllNamespaces else NamespacePrefix + namespace
  }

  /** Whether an argument scopes the command to one or all namespaces. */
  predicate IsNamespaceFlag(a: string) {
    a == AllNamespaces || NamespacePrefix <= a
  }

  /**
   * The full command line `kubectl` assembles before splitting it: the
   * command, the credentials and the TLS flag, then the namespace scope,
   * then the output format.
   */
  function CommandLine(command: string, token: string, url: string, namespace: string, tojson: bool): string {
    var base := command + " " + (TokenPrefix + token) + " " + (ServerPrefix + url) + " " + TlsFlag;
    var scoped := base + " " + NamespaceFlag(namespace);
    if tojson then scoped + " " + OutputFlag + " " + Json else scoped
  }

  /** The argument vector passed to `/bin/kubectl`: the words of the command line. */
  function Args(command: string, token: string, url: string, namespace: string, tojson: bool): (args: seq<string>)
    ensures forall i :: 0 <= i < |args| ==> IsWord(args[i])
  {
    Fields(CommandLine(command, token, url, namespace, tojson))
  }

  /** The argument vector of one request. */
  function Argv(r: Request, token: string, url: string): seq<string> {
    Args(Command(r), token, url, NamespaceOf(r), ToJson(r))
  }

  /** The arguments that follow the command's own words when nothing appended holds white space. */
  function Suffix(token: string, url: string, namespace: string, tojson: bool): seq<string> {
    [TokenPrefix + token, ServerPrefix + url, TlsFlag, NamespaceFlag(namespace)]
    + (if tojson then [OutputFlag, Json] else [])
  }

  /** Splitting `a + " " + w` for a word `w` adds `w` after the words of `a`. */
  lemma FieldsThenWord(a: string, w: string)
    requires IsWord(w)
    ensures Fields(a + " " + w) == Fields(a) + [w]
  {
    assert a + " " + w == a + [' '] + w;
    FieldsAround(a, ' ', w);
    FieldsOfWord(w);
  }

  /** A flag glued to a value without white space is one word. */
  lemma FlagWord(flag: string, v: string)
    requires IsWord(flag) && NoSpace(v)
    ensures IsWord(flag + v)
  {
  }

  lemma TlsFlagIsWord() ensures IsWord(TlsFlag) {}
  lemma AllNamespacesIsWord() ensures IsWord(AllNamespaces) {}
  lemma NamespacePrefixIsWord() ensures IsWord(NamespacePrefix) {}
  lemma CredentialPrefixesAreWords() ensures IsWord(TokenPrefix) && IsWord(ServerPrefix) {}
  lemma LiteralWords()
    ensures IsWord(Get) && IsWord(Jobs) && IsWord(Pods) && IsWord(ShowAll) && IsWord(SelectorPrefix)
    ensures IsWord(Logs) && IsWord(Delete) && IsWord(Job) && IsWord(OutputFlag) && IsWord(Json)
  {}

  /** The namespace flag is one word when the namespace holds no white space. */
  lemma NamespaceFlagIsWord(namespace: string)
    requires NoSpace(namespace)
    ensures IsWord(NamespaceFlag(namespace))
  {
    if namespace == "" {
      AllNamespacesIsWord();
    } else {
      NamespacePrefixIsWord();
      FlagWord(NamespacePrefix, namespace);
    }
  }

  /** Four words appended with blanks after `a` follow the words of `a`. */
  lemma FieldsThenFour(a: string, t: string, s: string, tls: string, nf: string)
    requires IsWord(t) && IsWord(s) && IsWord(tls) && IsWord(nf)
    ensures Fields(a + " " + t + " " + s + " " + tls + " " + nf) == Fields(a) + [t, s, tls, nf]
  {
    var a1 := a + " " + t;
    var a2 := a1 + " " + s;
    var a3 := a2 + " " + tls;
    FieldsThenWord(a, t);
    FieldsThenWord(a1, s);
    FieldsThenWord(a2, tls);
    FieldsThenWord(a3, nf);
    assert Fields(a) + [t] + [s] + [tls] + [nf] == Fields(a) + [t, s, tls, nf];
  }

  /** Asking for JSON appends exactly the two words `-o`, `json`. */
  lemma FieldsOfJson(scoped: string)
    ensures Fields(scoped + " " + OutputFlag + " " + Json) == Fields(scoped) + [OutputFlag, Json]
  {
    LiteralWords();
    FieldsThenWord(scoped, OutputFlag);
    FieldsThenWord(scoped + " " + OutputFlag, Json);
  }

  /**
   * The layout of the arguments: the words of the command, then the token,
   * the server and the TLS flag, then the namespace flag, then `-o json` when
   * JSON is asked for, provided the token, the URL and the namespace hold no
   * white space.
   */
  lemma {:induction false} ArgsLayout(command: string, token: string, url: string, namespace: string, tojson: bool)
    requires NoSpace(token) && NoSpace(url) && NoSpace(namespace)
    ensures Args(command, token, url, namespace, tojson) == Fields(command) + Suffix(token, url, namespace, tojson)
  {
    var scoped := command + " " + (TokenPrefix + token) + " " + (ServerPrefix + url) + " " + TlsFlag + " " + NamespaceFlag(namespace);
    CredentialPrefixesAreWords();
    FlagWord(TokenPrefix, token);
    FlagWord(ServerPrefix, url);
    TlsFlagIsWord();
    NamespaceFlagIsWord(namespace);
    FieldsThenFour(command, TokenPrefix + token, ServerPrefix + url, TlsFlag, NamespaceFlag(namespace));
    if tojson {
      FieldsOfJson(scoped);
    }
  }

  /**
   * With JSON output the arguments always end in `-o`, `json`; without it
   * they end in the namespace flag when the namespace holds no white space,
   * so for such a namespace they end in `-o`, `json` exactly when JSON is
   * asked for.
   */
  lemma {:induction false} ArgsEnding(command: string, token: string, url: string, namespace: string, tojson: bool)
    ensures var args := Args(command, token, url, namespace, tojson);
      tojson ==> |args| >= 2 && args[|args| - 2..] == [OutputFlag, Json]
    ensures var args := Args(command, token, url, namespace, tojson);
      !tojson && NoSpace(namespace) ==> |args| >= 1 && args[|args| - 1] == NamespaceFlag(namespace)
    ensures var args := Args(command, token, url, namespace, tojson);
      NoSpace(namespace) ==> (tojson <==> |args| >= 2 && args[|args| - 2..] == [OutputFlag, Json])
  {
    var base := command + " " + (TokenPrefix + token) + " " + (ServerPrefix + url) + " " + TlsFlag;
    var scoped := base + " " + NamespaceFlag(namespace);
    if tojson {
      FieldsOfJson(scoped);
    } else if NoSpace(namespace) {
      NamespaceFlagIsWord(namespace);
      FieldsThenWord(base, NamespaceFlag(namespace));
      assert NamespaceFlag(namespace)[0] == '-' != Json[0];
    }
  }

  /**
   * Exactly one argument scopes the command, the namespace flag right after
   * the TLS flag: `--all-namespaces` for the empty namespace and
   * `--namespace=<namespace>` otherwise, never the other one, provided the
   * command's own words are not namespace flags.
   */
  lemma {:induction false} ArgsNamespace(command: string, token: string, url: string, namespace: string, tojson: bool)
    requires NoSpace(token) && NoSpace(url) && NoSpace(namespace)
    requires forall i :: 0 <= i < |Fields(command)| ==> !IsNamespaceFlag(Fields(command)[i])
    ensures var args := Args(command, token, url, namespace, tojson);
      namespace == "" ==> AllNamespaces in args && forall i :: 0 <= i < |args| ==> !(NamespacePrefix <= args[i])
    ensures var args := Args(command, token, url, namespace, tojson);
      namespace != "" ==> NamespacePrefix + namespace in args && AllNamespaces !in args
    ensures var args := Args(command, token, url, namespace, tojson);
      var k := |Fields(command)| + 3;
      k < |args| && args[k] == NamespaceFlag(namespace)
      && forall i :: 0 <= i < |args| && IsNamespaceFlag(args[i]) ==> i == k
  {
    ArgsLayout(command, token, url, namespace, tojson);
    SuffixNamespace(Fields(command), token, url, namespace, tojson);
  }

  /** Among a command's words followed by the appended arguments, the namespace flag is the only one that scopes the command. */
  lemma {:induction false} SuffixNamespace(words: seq<string>, token: string, url: string, namespace: string, tojson: bool)
    requires forall i :: 0 <= i < |words| ==> !IsNamespaceFlag(words[i])
    ensures var args := words + Suffix(token, url, namespace, tojson);
      namespace == "" ==> AllNamespaces in args && forall i :: 0 <= i < |args| ==> !(NamespacePrefix <= args[i])
    ensures var args := words + Suffix(token, url, namespace, tojson);
      namespace != "" ==> NamespacePrefix + namespace in args && AllNamespaces !in args
    ensures var args := words + Suffix(token, url, namespace, tojson);
      args[|words| + 3] == NamespaceFlag(namespace)
      && forall i :: 0 <= i < |args| && IsNamespaceFlag(args[i]) ==> i == |words| + 3
  {
    var args := words + Suffix(token, url, namespace, tojson);
    var k := |words|;
    assert args[k + 3] == NamespaceFlag(namespace);
    forall i | 0 <= i < |args| && i != k + 3
      ensures !IsNamespaceFlag(args[i])
    {
      if i < k {
        assert args[i] == words[i];
      } else {
        NotNamespaceFlag(args[i], token, url);
      }
    }
    if namespace == "" {
      forall i | 0 <= i < |args| ensures !(NamespacePrefix <= args[i]) {
        if i == k + 3 {
          assert args[i][2] == 'a';
        }
      }
    } else {
      forall i | 0 <= i < |args| ensures args[i] != AllNamespaces {
        if i == k + 3 {
          assert args[i][2] == 'n';
        }
      }
    }
  }

  /** None of the arguments appended besides the namespace flag scopes the command. */
  lemma NotNamespaceFlag(a: string, token: string, url: string)
    requires a in [TokenPrefix + token, ServerPrefix + url, TlsFlag, OutputFlag, Json]
    ensures !IsNamespaceFlag(a)
  {
    assert |a| >= 3 ==> a[2] != 'n' && a[2] != 'a';
  }

  /** A phrase of words separated by single blanks splits back into those words. */
  lemma Phrase2(a: string, b: string)
    requires IsWord(a) && IsWord(b)
    ensures Fields(a + " " + b) == [a, b]
  {
    FieldsOfWord(a);
    FieldsThenWord(a, b);
  }

  lemma Phrase3(a: string, b: string, c: string)
    requires IsWord(a) && IsWord(b) && IsWord(c)
    ensures Fields(a + " " + b + " " + c) == [a, b, c]
  {
    Phrase2(a, b);
    FieldsThenWord(a + " " + b, c);
  }

  /** Each command string is its words joined by single blanks. */
  lemma ListJobsSpelled()
    ensures Command(ListJobs) == Get + " " + Jobs
  {
  }

  lemma ListPodsSpelled(selector: string, namespace: string)
    ensures Command(ListPods(selector, namespace)) == Get + " " + Pods + " " + ShowAll + " " + (SelectorPrefix + selector)
  {
    var lead := Get + " " + Pods + " " + ShowAll + " ";
    assert lead + SelectorPrefix == "get pods -a --selector=";
  }

  lemma FetchLogsSpelled(pod: string, namespace: string)
    ensures Command(FetchLogs(pod, namespace)) == Logs + " " + pod
  {
  }

  lemma DeleteJobSpelled(job: string, namespace: string)
    ensures Command(DeleteJob(job, namespace)) == Delete + " " + Job + " " + job
  {
    assert Delete + " " + Job + " " == "delete job ";
  }

  /** The words of each command string, when the names in it are words. */
  lemma ListJobsWords()
    ensures Fields(Command(ListJobs)) == [Get, Jobs]
  {
    LiteralWords();
    Phrase2(Get, Jobs);
    ListJobsSpelled();
  }

  lemma ListPodsWords(selector: string, namespace: string)
    requires NoSpace(selector)
    ensures Fields(Command(ListPods(selector, namespace))) == [Get, Pods, ShowAll, SelectorPrefix + selector]
  {
    LiteralWords();
    FlagWord(SelectorPrefix, selector);
    FieldsThenWord(Get + " " + Pods + " " + ShowAll, SelectorPrefix + selector);
    Phrase3(Get, Pods, ShowAll);
    ListPodsSpelled(selector, namespace);
  }

  lemma FetchLogsWords(pod: string, namespace: string)
    requires IsWord(pod)
    ensures Fields(Command(FetchLogs(pod, namespace))) == [Logs, pod]
  {
    LiteralWords();
    Phrase2(Logs, pod);
    FetchLogsSpelled(pod, namespace);
  }

  lemma DeleteJobWords(job: string, namespace: string)
    requires IsWord(job)
    ensures Fields(Command(DeleteJob(job, namespace))) == [Delete, Job, job]
  {
    LiteralWords();
    Phrase3(Delete, Job, job);
    DeleteJobSpelled(job, namespace);
  }

  /**
   * The argument vectors of the four requests, word by word, when the names
   * in them are words and the credentials hold no white space.
   */
  lemma {:induction false} ArgvOfRequest(r: Request, token: string, url: string)
    requires NoSpace(token) && NoSpace(url) && NoSpace(NamespaceOf(r))
    requires r.ListPods? ==> NoSpace(r.selector)
    requires r.FetchLogs? ==> IsWord(r.pod)
    requires r.DeleteJob? ==> IsWord(r.job)
    ensures Argv(r, token, url) == match r
      case ListJobs => [Get, Jobs] + Suffix(token, url, "", true)
      case ListPods(selector, ns) => [Get, Pods, ShowAll, SelectorPrefix + selector] + Suffix(token, url, ns, true)
      case FetchLogs(pod, ns) => [Logs, pod] + Suffix(token, url, ns, false)
      case DeleteJob(job, ns) => [Delete, Job, job] + Suffix(token, url, ns, false)
  {
    ArgsLayout(Command(r), token, url, NamespaceOf(r), ToJson(r));
    match r
    case ListJobs => ListJobsWords();
    case ListPods(selector, ns) => ListPodsWords(selector, ns);
    case FetchLogs(pod, ns) => FetchLogsWords(pod, ns);
    case DeleteJob(job, ns) => DeleteJobWords(job, ns);
  }
}
