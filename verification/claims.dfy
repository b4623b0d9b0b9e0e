/**
 The volume reconciler `ensurePvcExists` (K8sVNCConnection.java lines
 305-370): create the claim when it is missing, grow it when the request
 exceeds the current size, never shrink it.
 */
module ClaimReconciler {
  import opened Outcome
  import opened Platform
  import opened ClusterApi

  const AccessMode := "ReadWriteOnce"
  const Forbidden := 403
  const Unprocessable := 422

  /** The only calls the volume reconciler may issue for this claim and its dependent pod. */
  predicate ClaimCall(c: Call, namespace: string, claim: string, size: string, pod: string) {
    || c == ReadClaim(namespace, claim)
    || c == CreateClaim(namespace, claim, size, AccessMode)
    || c == ReplaceClaim(namespace, claim, size)
    || c == ReadPod(namespace, pod)
    || c == DeletePod(namespace, pod)
  }

  /** `u` extends `t` with calls the volume reconciler may issue. */
  predicate ClaimSteps(t: seq<Call>, u: seq<Call>, namespace: string, claim: string, size: string, pod: string) {
    |t| <= |u| && u[..|t|] == t && forall i | |t| <= i < |u| :: ClaimCall(u[i], namespace, claim, size, pod)
  }

  lemma ClaimStepsChain(t: seq<Call>, u: seq<Call>, w: seq<Call>, namespace: string, claim: string, size: string, pod: string)
    requires ClaimSteps(t, u, namespace, claim, size, pod) && ClaimSteps(u, w, namespace, claim, size, pod)
    ensures ClaimSteps(t, w, namespace, claim, size, pod)
    ensures forall i | 0 <= i < |u| :: w[i] == u[i]
  {
    assert forall i | 0 <= i < |u| :: w[i] == w[..|u|][i];
    assert forall i | 0 <= i < |t| :: u[i] == u[..|t|][i];
  }

  /** From position `from` on, `trace` holds a finished termination wait and then, at once, the resize. */
  predicate ResizedAfterWait(api: Api, namespace: string, claim: string, size: string, pod: string, trace: seq<Call>, from: nat) {
    exists g: nat :: TerminationObserved(api, namespace, pod, trace, from, g) && g < |trace| && trace[g] == ReplaceClaim(namespace, claim, size)
  }

  /** A finished wait, extended by a trace whose next call is the resize, is a wait followed by the resize. */
  lemma WaitThenResize(api: Api, namespace: string, claim: string, size: string, pod: string, waited: seq<Call>, trace: seq<Call>, from: nat)
    requires TerminationObserved(api, namespace, pod, waited, from, |waited|)
    requires |waited| < |trace| && trace[..|waited|] == waited && trace[|waited|] == ReplaceClaim(namespace, claim, size)
    ensures ResizedAfterWait(api, namespace, claim, size, pod, trace, from)
  {
    assert forall i | from <= i < |waited| :: trace[i] == waited[i];
    assert TerminationObserved(api, namespace, pod, trace, from, |waited|);
  }

  /** The outer handler (line 357): on 404 create the claim with the requested size, otherwise rethrow. */
  function OnApiError(lib: Library, api: Api, namespace: string, claim: string, size: string, code: int, t: seq<Call>): (r: Run<()>)
    ensures |t| <= |r.trace| <= |t| + 1 && r.trace[..|t|] == t
    ensures forall i | |t| <= i < |r.trace| :: r.trace[i] == CreateClaim(namespace, claim, size, AccessMode)
    ensures code != NotFound ==> r == Run(Err(ApiFailure(code)), t)
    ensures r.result.Ok? <==> code == NotFound && lib.quantity(size).Some? && api.claimReply(|t|).Accepted?
  {
    if code != NotFound then Run(Err(ApiFailure(code)), t)
    else if lib.quantity(size).None? then Run(Err(QuantityRejected(size)), t)
    else
      var t1 := t + [CreateClaim(namespace, claim, size, AccessMode)];
      match api.claimReply(|t|)
      case Accepted(_) => Run(Ok(()), t1)
      case Rejected(c) => Run(Err(ApiFailure(c)), t1)
  }

  /** The resize by replace (lines 342-354): 422 and 403 are tolerated, anything else goes to the outer handler. */
  function Replace(lib: Library, api: Api, namespace: string, claim: string, size: string, t: seq<Call>): (r: Run<()>)
    ensures |t| < |r.trace| <= |t| + 2 && r.trace[..|t|] == t
    ensures r.trace[|t|] == ReplaceClaim(namespace, claim, size)
    ensures forall i | |t| < i < |r.trace| :: r.trace[i] == CreateClaim(namespace, claim, size, AccessMode)
    ensures forall pod :: ClaimSteps(t, r.trace, namespace, claim, size, pod)
    ensures r.result.Ok? <==>
      || api.claimReply(|t|).Accepted?
      || api.claimReply(|t|) == Rejected(Unprocessable)
      || api.claimReply(|t|) == Rejected(Forbidden)
      || (api.claimReply(|t|) == Rejected(NotFound) && lib.quantity(size).Some? && api.claimReply(|t| + 1).Accepted?)
  {
    var t1 := t + [ReplaceClaim(namespace, claim, size)];
    match api.claimReply(|t|)
    case Accepted(_) => Run(Ok(()), t1)
    case Rejected(code) =>
      if code == Unprocessable || code == Forbidden then Run(Ok(()), t1)
      else OnApiError(lib, api, namespace, claim, size, code, t1)
  }

  /** Wait for the deleted pod to terminate, then resize the claim (lines 326-354). */
  function ReplaceOnceGone(lib: Library, api: Api, namespace: string, claim: string, size: string, pod: string, t: seq<Call>): (r: Run<()>)
    ensures |t| < |r.trace| <= |t| + 2 + TerminationPolls
    ensures ClaimSteps(t, r.trace, namespace, claim, size, pod)
    // the resize comes right after a finished termination wait
    ensures ResizedAfterWait(api, namespace, claim, size, pod, r.trace, |t|)
  {
    WaitThenReplace(lib, api, namespace, claim, size, pod, t);
    Replace(lib, api, namespace, claim, size, AwaitPodGone(api, namespace, pod, t, TerminationPolls))
  }

  lemma WaitThenReplace(lib: Library, api: Api, namespace: string, claim: string, size: string, pod: string, t: seq<Call>)
    ensures var r := Replace(lib, api, namespace, claim, size, AwaitPodGone(api, namespace, pod, t, TerminationPolls));
      && |t| < |r.trace| <= |t| + 2 + TerminationPolls
      && ClaimSteps(t, r.trace, namespace, claim, size, pod)
      && ResizedAfterWait(api, namespace, claim, size, pod, r.trace, |t|)
  {
    var waited := AwaitPodGone(api, namespace, pod, t, TerminationPolls);
    var r := Replace(lib, api, namespace, claim, size, waited);
    assert ClaimSteps(t, waited, namespace, claim, size, pod);
    assert ClaimSteps(waited, r.trace, namespace, claim, size, pod);
    ClaimStepsChain(t, waited, r.trace, namespace, claim, size, pod);
    AwaitPodGoneObserves(api, namespace, pod, t);
    WaitThenResize(api, namespace, claim, size, pod, waited, r.trace, |t|);
  }

  /**
   Expansion (lines 318-355): delete the pod that mounts the claim (a 404 is
   fine), wait for it to go, then replace the claim with the larger request.
   */
  function Expand(lib: Library, api: Api, namespace: string, claim: string, size: string, pod: string, t: seq<Call>): (r: Run<()>)
    ensures |t| < |r.trace| <= |t| + 3 + TerminationPolls
    ensures ClaimSteps(t, r.trace, namespace, claim, size, pod)
    ensures r.trace[|t|] == DeletePod(namespace, pod)
  {
    var t1 := t + [DeletePod(namespace, pod)];
    assert ClaimSteps(t, t1, namespace, claim, size, pod);
    match api.podReply(|t|)
    case Accepted(_) =>
      var r := ReplaceOnceGone(lib, api, namespace, claim, size, pod, t1);
      ClaimStepsChain(t, t1, r.trace, namespace, claim, size, pod);
      r
    case Rejected(code) =>
      if code == NotFound then
        var r := Replace(lib, api, namespace, claim, size, t1);
        assert ClaimSteps(t1, r.trace, namespace, claim, size, pod);
        ClaimStepsChain(t, t1, r.trace, namespace, claim, size, pod);
        r
      // rethrown, then rethrown again by the outer handler since it is not 404
      else Run(Err(ApiFailure(code)), t1)
  }

  /**
   What follows the deletion of the pod: a failure other than 404 ends the
   reconciler with no resize; a pod already gone is not waited for; after an
   accepted deletion only the termination wait stands before the resize.
   */
  lemma DeletionThenResize(lib: Library, api: Api, namespace: string, claim: string, size: string, pod: string, t: seq<Call>)
    ensures var r := Expand(lib, api, namespace, claim, size, pod, t);
      && (api.podReply(|t|).Rejected? && api.podReply(|t|).code != NotFound ==>
            r == Run(Err(ApiFailure(api.podReply(|t|).code)), t + [DeletePod(namespace, pod)]))
      && (api.podReply(|t|) == Rejected(NotFound) ==>
            |t| + 1 < |r.trace| && r.trace[|t| + 1] == ReplaceClaim(namespace, claim, size))
      && (api.podReply(|t|).Accepted? ==> ResizedAfterWait(api, namespace, claim, size, pod, r.trace, |t| + 1))
  {
  }

  /**
   `ensurePvcExists`: read the claim; a 404 creates it; an existing claim is
   expanded only when the requested size is numerically larger than its
   current request.
   */
  function EnsureClaim(lib: Library, api: Api, namespace: string, claim: string, size: string, pod: string, t: seq<Call>): (r: Run<()>)
    ensures |t| < |r.trace| <= |t| + 4 + TerminationPolls
    ensures ClaimSteps(t, r.trace, namespace, claim, size, pod)
    ensures r.trace[|t|] == ReadClaim(namespace, claim)
  {
    var t1 := t + [ReadClaim(namespace, claim)];
    match api.claimReply(|t|)
    case Rejected(code) => OnApiError(lib, api, namespace, claim, size, code, t1)
    case Accepted(existing) =>
      match lib.quantity(size)
      case None => Run(Err(QuantityRejected(size)), t1)
      case Some(requested) =>
        match existing.storage
        case None => Run(Err(NullDereference), t1)
        case Some(current) =>
          if requested > current then
            var r := Expand(lib, api, namespace, claim, size, pod, t1);
            assert ClaimSteps(t, t1, namespace, claim, size, pod);
            ClaimStepsChain(t, t1, r.trace, namespace, claim, size, pod);
            r
          else Run(Ok(()), t1)
  }

  /** A missing claim (read answered 404) is created with the requested size and access mode, and nothing else happens. */
  lemma MissingClaimIsCreated(lib: Library, api: Api, namespace: string, claim: string, size: string, pod: string, t: seq<Call>)
    requires api.claimReply(|t|) == Rejected(NotFound)
    requires lib.quantity(size).Some? && api.claimReply(|t| + 1).Accepted?
    ensures EnsureClaim(lib, api, namespace, claim, size, pod, t)
      == Run(Ok(()), t + [ReadClaim(namespace, claim), CreateClaim(namespace, claim, size, AccessMode)])
  {
  }

  /** Any other failure of the read is reported, with no further call. */
  lemma FailedReadIsReported(lib: Library, api: Api, namespace: string, claim: string, size: string, pod: string, t: seq<Call>, code: int)
    requires api.claimReply(|t|) == Rejected(code) && code != NotFound
    ensures EnsureClaim(lib, api, namespace, claim, size, pod, t)
      == Run(Err(ApiFailure(code)), t + [ReadClaim(namespace, claim)])
  {
  }

  /**
   An existing claim is only ever grown: when the requested size is not
   larger than the current one nothing is written and the pod is left alone;
   when it is larger the pod is deleted first and, unless the deletion
   failed, the claim is then resized.
   */
  lemma GrowsButNeverShrinks(lib: Library, api: Api, namespace: string, claim: string, size: string, pod: string, t: seq<Call>,
                             current: real, requested: real)
    requires api.claimReply(|t|) == Accepted(Claim(Some(current)))
    requires lib.quantity(size) == Some(requested)
    ensures var r := EnsureClaim(lib, api, namespace, claim, size, pod, t);
      && (requested <= current <==> r == Run(Ok(()), t + [ReadClaim(namespace, claim)]))
      && (requested > current <==> |r.trace| >= |t| + 2 && r.trace[|t| + 1] == DeletePod(namespace, pod))
      && (requested > current && (api.podReply(|t| + 1).Accepted? || api.podReply(|t| + 1) == Rejected(NotFound))
          ==> ReplaceClaim(namespace, claim, size) in r.trace[|t| + 2..])
  {
    var r := EnsureClaim(lib, api, namespace, claim, size, pod, t);
    var t1 := t + [ReadClaim(namespace, claim)];
    if requested > current {
      assert r == Expand(lib, api, namespace, claim, size, pod, t1);
      var t2 := t1 + [DeletePod(namespace, pod)];
      if api.podReply(|t1|).Accepted? {
        var waited := AwaitPodGone(api, namespace, pod, t2, TerminationPolls);
        var replaced := Replace(lib, api, namespace, claim, size, waited);
        assert r == replaced;
        assert replaced.trace[..|waited|] == waited;
        assert replaced.trace[|waited|] == ReplaceClaim(namespace, claim, size);
        assert r.trace[|t| + 2..][|waited| - |t| - 2] == ReplaceClaim(namespace, claim, size);
      } else if api.podReply(|t1|) == Rejected(NotFound) {
        assert r.trace[|t| + 2..][0] == r.trace[|t| + 2];
      }
    }
  }

  /** A resize the cluster refuses with 422 (the storage class cannot expand) is tolerated: the connection goes on. */
  lemma RefusedResizeIsTolerated(lib: Library, api: Api, namespace: string, claim: string, size: string, pod: string, t: seq<Call>,
                                 current: real, requested: real)
    requires api.claimReply(|t|) == Accepted(Claim(Some(current)))
    requires lib.quantity(size) == Some(requested) && requested > current
    requires api.podReply(|t| + 1) == Rejected(NotFound)
    requires api.claimReply(|t| + 2) == Rejected(Unprocessable)
    ensures EnsureClaim(lib, api, namespace, claim, size, pod, t)
      == Run(Ok(()), t + [ReadClaim(namespace, claim), DeletePod(namespace, pod), ReplaceClaim(namespace, claim, size)])
  {
  }

  /**
   An example of the termination wait: the deletion is accepted and the
   first poll already answers 404, so the resize follows that one poll.
   `DeletionThenResize` states the general case, where the wait may also
   end after 30 polls without the pod ever being seen gone.
   */
  lemma ResizeWaitsForTermination(lib: Library, api: Api, namespace: string, claim: string, size: string, pod: string, t: seq<Call>,
                                  current: real, requested: real)
    requires api.claimReply(|t|) == Accepted(Claim(Some(current)))
    requires lib.quantity(size) == Some(requested) && requested > current
    requires api.podReply(|t| + 1).Accepted? && api.podReply(|t| + 2) == Rejected(NotFound)
    requires api.claimReply(|t| + 3).Accepted?
    ensures EnsureClaim(lib, api, namespace, claim, size, pod, t)
      == Run(Ok(()), t + [ReadClaim(namespace, claim), DeletePod(namespace, pod), ReadPod(namespace, pod), ReplaceClaim(namespace, claim, size)])
  {
  }
}
