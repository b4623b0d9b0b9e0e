/**
 The slice of the Kubernetes core API the reconcilers use, as scripted
 replies and a trace of issued calls. A connection attempt issues its calls
 one after another; the reply to the call at position `i` of the trace is
 `claimReply(i)` for a claim call and `podReply(i)` for a pod call.
 */
module ClusterApi {
  import opened Outcome
  import opened JavaText
  import opened Platform

  /** A call's outcome: the returned object, or an `ApiException` with its HTTP status code. */
  datatype Reply<+T> = Accepted(body: T) | Rejected(code: int)

  /** A persistent volume claim as read back: its requested storage, None when the request is missing. */
  datatype Claim = Claim(storage: Option<real>)

  /**
   A pod as read back: the limits of its first container (None when the
   container declares no limits map), its IP and its phase.
   */
  datatype Pod = Pod(limits: Option<map<string, real>>, podIp: JString, phase: JString)

  datatype EnvVar = EnvVar(name: string, value: string)

  /** The single container of a provisioned pod. */
  datatype Container = Container(
    name: string,
    image: string,
    imagePullPolicy: string,
    requests: map<string, string>,
    limits: map<string, string>,
    containerPort: int,
    env: seq<EnvVar>,
    mountVolume: string,
    mountPath: string)

  /** The pod object the workload reconciler submits. */
  datatype PodManifest = PodManifest(
    apiVersion: string,
    kind: string,
    name: string,
    labels: map<string, string>,
    restartPolicy: string,
    fsGroup: int,
    container: Container,
    volumeName: string,
    claimName: string)

  /** The calls the reconcilers issue, all in one namespace. */
  datatype Call =
    | ReadClaim(namespace: string, name: string)
    | CreateClaim(namespace: string, name: string, size: string, accessMode: string)
    | ReplaceClaim(namespace: string, name: string, size: string)
    | ReadPod(namespace: string, name: string)
    | DeletePod(namespace: string, name: string)
    | CreatePod(namespace: string, manifest: PodManifest)

  /** The scripted cluster: the reply to each call, by the call's position in the trace. */
  datatype Api = Api(claimReply: nat -> Reply<Claim>, podReply: nat -> Reply<Pod>)

  /** What a step of a connection attempt produced, with the trace of every call issued so far. */
  datatype Run<+T> = Run(result: Result<T, Failure>, trace: seq<Call>)

  const NotFound := 404

  /** Polls of the pod while waiting for it to terminate (lines 328 and 408). */
  const TerminationPolls := 30

  /**
   The termination wait: read the pod at most `budget` times, stopping at
   the first read answered 404. Other errors are swallowed and the loop
   goes on; when the budget runs out the wait ends silently.
   */
  function AwaitPodGone(api: Api, namespace: string, pod: string, t: seq<Call>, budget: nat): (r: seq<Call>)
    ensures |t| <= |r| <= |t| + budget && r[..|t|] == t
    ensures forall i | |t| <= i < |r| :: r[i] == ReadPod(namespace, pod)
    ensures forall i | |t| <= i < |r| - 1 :: api.podReply(i) != Rejected(NotFound)
    ensures |r| < |t| + budget ==> |t| < |r| && api.podReply(|r| - 1) == Rejected(NotFound)
    ensures budget > 0 ==> |t| < |r|
    decreases budget
  {
    if budget == 0 then t
    else
      var t1 := t + [ReadPod(namespace, pod)];
      if api.podReply(|t|) == Rejected(NotFound) then t1
      else AwaitPodGone(api, namespace, pod, t1, budget - 1)
  }

  /**
   The calls at positions `from` up to `to` of `trace` are a finished
   termination wait: between one and `TerminationPolls` reads of the pod,
   none but the last answered 404, and the wait stopped either on a 404 or
   because the polls ran out.
   */
  predicate TerminationObserved(api: Api, namespace: string, pod: string, trace: seq<Call>, from: nat, to: nat) {
    && from < to <= from + TerminationPolls
    && to <= |trace|
    && (forall i | from <= i < to :: trace[i] == ReadPod(namespace, pod))
    && (forall i | from <= i < to - 1 :: api.podReply(i) != Rejected(NotFound))
    && (api.podReply(to - 1) == Rejected(NotFound) || to == from + TerminationPolls)
  }

  /** The termination wait with its full budget is a finished termination wait. */
  lemma AwaitPodGoneObserves(api: Api, namespace: string, pod: string, t: seq<Call>)
    ensures TerminationObserved(api, namespace, pod, AwaitPodGone(api, namespace, pod, t, TerminationPolls),
                                |t|, |AwaitPodGone(api, namespace, pod, t, TerminationPolls)|)
  {
  }

  /** A trace that extends an extension of `t` extends `t`, and starts with the same call. */
  lemma PrefixChain(t: seq<Call>, u: seq<Call>, v: seq<Call>)
    requires |t| <= |u| && u[..|t|] == t
    requires |u| <= |v| && v[..|u|] == u
    ensures v[..|t|] == t
    ensures |t| > 0 ==> v[0] == t[0]
  {
    assert forall i | 0 <= i < |t| :: v[i] == u[i] == t[i];
  }
}
