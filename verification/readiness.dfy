/**
 The two waits that follow provisioning: `waitForPodIp` (K8sVNCConnection.java
 lines 478-488) polls the pod until it runs with an IP, and the port wait
 (lines 241-253) tries the VNC port until it accepts a connection. The
 pauses between attempts are not modelled; the connection attempts of the
 port wait are a given sequence of outcomes.
 */
module Readiness {
  import opened Outcome
  import opened JavaText
  import opened Platform
  import opened ClusterApi

  /** Reads of the pod before giving up on its IP. */
  const IpPolls := 60

  /** Connection attempts on the VNC port before giving up. */
  const PortProbes := 30

  /** The largest TCP port number; a socket address outside 0..MaxPort is refused. */
  const MaxPort := 65535

  predicate ValidPort(port: int) {
    0 <= port <= MaxPort
  }

  /** A pod is ready once it reports a non-empty IP and the phase is exactly `Running`. */
  predicate Ready(p: Pod) {
    NonEmpty(p.podIp) && p.phase == Str("Running")
  }

  /**
   The readiness test of line 482, seen through the wait: the first read
   ends the wait with an IP iff the pod reports phase exactly `Running` and
   a non-null, non-empty IP, and that IP is the answer.
   */
  lemma ReadyOnFirstRead(api: Api, namespace: string, pod: string, t: seq<Call>, p: Pod)
    requires api.podReply(|t|) == Accepted(p)
    ensures var r := WaitForPodIp(api, namespace, pod, t, IpPolls);
      (r.result.Ok? && |r.trace| == |t| + 1) <==> p.phase == Str("Running") && p.podIp.Str? && |p.podIp.chars| > 0
    ensures var r := WaitForPodIp(api, namespace, pod, t, IpPolls);
      r.result.Ok? && |r.trace| == |t| + 1 ==> r.result.value == p.podIp.chars
  {
    var r := WaitForPodIp(api, namespace, pod, t, IpPolls);
    if !Ready(p) && r.result.Ok? {
      assert PendingBetween(api, |t|, |r.trace| - 1);
    }
  }

  /** Every reply to the calls at positions `from` up to `to` was a pod that was not yet ready. */
  predicate PendingBetween(api: Api, from: nat, to: nat) {
    forall i | from <= i < to :: api.podReply(i).Accepted? && !Ready(api.podReply(i).body)
  }

  /**
   `waitForPodIp`: read the pod at most `budget` times and answer the IP of
   the first read that finds it ready. A failed read ends the wait with
   that failure; exhausting the budget is a timeout.
   */
  function WaitForPodIp(api: Api, namespace: string, pod: string, t: seq<Call>, budget: nat): (r: Run<string>)
    ensures |t| <= |r.trace| <= |t| + budget && r.trace[..|t|] == t
    ensures forall i | |t| <= i < |r.trace| :: r.trace[i] == ReadPod(namespace, pod)
    // every read before the last found the pod not yet ready
    ensures |t| < |r.trace| ==> PendingBetween(api, |t|, |r.trace| - 1)
    ensures r.result.Ok? ==>
      && |t| < |r.trace|
      && api.podReply(|r.trace| - 1).Accepted?
      && Ready(api.podReply(|r.trace| - 1).body)
      && api.podReply(|r.trace| - 1).body.podIp == Str(r.result.value)
    ensures r.result.Err? ==> r.result.error.IpTimeout? || r.result.error.ApiFailure?
    ensures r.result == Err(IpTimeout) <==> |r.trace| == |t| + budget && PendingBetween(api, |t|, |t| + budget)
    ensures r.result.Err? && r.result.error != IpTimeout ==>
      r.result.error.ApiFailure? && |t| < |r.trace| && api.podReply(|r.trace| - 1) == Rejected(r.result.error.code)
    decreases budget
  {
    if budget == 0 then Run(Err(IpTimeout), t)
    else
      var t1 := t + [ReadPod(namespace, pod)];
      match api.podReply(|t|)
      case Rejected(code) => Run(Err(ApiFailure(code)), t1)
      case Accepted(p) =>
        if Ready(p) then Run(Ok(p.podIp.chars), t1)
        else
          var r := WaitForPodIp(api, namespace, pod, t1, budget - 1);
          assert forall i | 0 <= i < |t1| :: r.trace[i] == r.trace[..|t1|][i];
          r
  }

  /** A read that finds the pod not yet ready leaves the rest of the wait to the remaining budget. */
  lemma PendingReadContinues(api: Api, namespace: string, pod: string, t: seq<Call>, budget: nat)
    requires budget > 0 && api.podReply(|t|).Accepted? && !Ready(api.podReply(|t|).body)
    ensures WaitForPodIp(api, namespace, pod, t, budget) == WaitForPodIp(api, namespace, pod, t + [ReadPod(namespace, pod)], budget - 1)
  {
  }

  /** A read that finds the pod ready ends the wait with its IP. */
  lemma ReadyReadAnswers(api: Api, namespace: string, pod: string, t: seq<Call>, budget: nat, p: Pod)
    requires budget > 0 && api.podReply(|t|) == Accepted(p) && Ready(p)
    ensures WaitForPodIp(api, namespace, pod, t, budget) == Run(Ok(p.podIp.chars), t + [ReadPod(namespace, pod)])
  {
  }

  /** One more call in front of a run of the same call. */
  lemma ReadsAppend(t: seq<Call>, c: Call, n: nat)
    ensures t + [c] + seq(n, _ => c) == t + seq(n + 1, _ => c)
  {
    assert [c] + seq(n, _ => c) == seq(n + 1, _ => c);
  }

  /** A pod that becomes ready on the read after `n` pending ones is found by that read. */
  lemma {:induction false} ReadyAfterPending(api: Api, namespace: string, pod: string, t: seq<Call>, budget: nat, n: nat, p: Pod)
    requires n < budget
    requires PendingBetween(api, |t|, |t| + n)
    requires api.podReply(|t| + n) == Accepted(p) && Ready(p)
    ensures WaitForPodIp(api, namespace, pod, t, budget) == Run(Ok(p.podIp.chars), t + seq(n + 1, _ => ReadPod(namespace, pod)))
    decreases n
  {
    var t1 := t + [ReadPod(namespace, pod)];
    if n > 0 {
      PendingReadContinues(api, namespace, pod, t, budget);
      ReadyAfterPending(api, namespace, pod, t1, budget - 1, n - 1, p);
      ReadsAppend(t, ReadPod(namespace, pod), n);
    } else {
      ReadyReadAnswers(api, namespace, pod, t, budget, p);
      assert t1 == t + seq(1, _ => ReadPod(namespace, pod));
    }
  }

  /**
   The port wait: the index of the first of `PortProbes` attempts that
   connects, or a timeout naming the pod. `connects(i)` is the outcome of
   attempt `i`.
   */
  method WaitForPort(connects: nat -> bool, podName: string) returns (r: Result<nat, Failure>)
    ensures r.Ok? ==> r.value < PortProbes && connects(r.value)
    ensures r.Ok? ==> forall j | 0 <= j < r.value :: !connects(j)
    ensures r.Err? ==> r.error == PortTimeout(podName)
    ensures r.Err? <==> forall j | 0 <= j < PortProbes :: !connects(j)
    // the loop agrees with the recursive definition below
    ensures r == FirstConnect(connects, podName, 0)
  {
    var i := 0;
    while i < PortProbes
      invariant 0 <= i <= PortProbes
      invariant forall j | 0 <= j < i :: !connects(j)
      invariant FirstConnect(connects, podName, 0) == FirstConnect(connects, podName, i)
    {
      if connects(i) {
        return Ok(i);
      }
      i := i + 1;
    }
    return Err(PortTimeout(podName));
  }

  /** The port wait as a recursive definition: the first attempt from `i` on that connects. */
  function FirstConnect(connects: nat -> bool, podName: string, i: nat): (r: Result<nat, Failure>)
    requires i <= PortProbes
    ensures r.Ok? ==> i <= r.value < PortProbes && connects(r.value) && forall j | i <= j < r.value :: !connects(j)
    ensures r.Err? <==> forall j | i <= j < PortProbes :: !connects(j)
    ensures r.Err? ==> r.error == PortTimeout(podName)
    decreases PortProbes - i
  {
    if i == PortProbes then Err(PortTimeout(podName))
    else if connects(i) then Ok(i)
    else FirstConnect(connects, podName, i + 1)
  }

  /** A port that opens on attempt `n` after `n` refusals is found there. */
  lemma PortOpensAfterRefusals(connects: nat -> bool, podName: string, n: nat)
    requires n < PortProbes && connects(n)
    requires forall j | 0 <= j < n :: !connects(j)
    ensures FirstConnect(connects, podName, 0) == Ok(n)
  {
  }
}
