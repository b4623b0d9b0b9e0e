/**
 `connect` (K8sVNCConnection.java lines 111-277) as one function: the
 enablement gate, resolution and validation, name derivation, the two
 reconcilers, the two waits, and the configuration finally handed to the
 proxy. The proxy socket itself is not modelled; the result is the
 configuration the tunnel would be opened with.
 */
module Connector {
  import opened Outcome
  import opened JavaText
  import opened Attributes
  import opened Platform
  import opened ClusterApi
  import opened Resolver
  import opened Naming
  import opened ClaimReconciler
  import opened PodReconciler
  import opened Readiness

  /**
   How a failure raised inside the `try` of `connect` (lines 142-276) leaves
   it: Guacamole errors unchanged, anything else wrapped as a server error.
   The missing-configuration failure happens before the `try` and is not
   passed through here.
   */
  datatype Raised = Rethrown(failure: Failure) | Wrapped(failure: Failure)

  function Raise(f: Failure): (e: Raised)
    ensures e.failure == f
    ensures e.Rethrown? <==> IsGuacamoleError(f)
  {
    if IsGuacamoleError(f) then Rethrown(f) else Wrapped(f)
  }

  /** The configuration of the proxied VNC session (lines 256-262): the pod's IP, the port text verbatim and the password. */
  function SessionConfiguration(ip: string, s: Spec): (cfg: Configuration)
    ensures cfg.protocol == Str("vnc")
    ensures cfg.parameters.Keys == {"hostname", "port", "password"}
    ensures cfg.parameters["hostname"] == Str(ip)
    ensures cfg.parameters["port"] == Str(s.portText) && cfg.parameters["password"] == Str(s.password)
  {
    Configuration(Str("vnc"), map["hostname" := Str(ip), "port" := Str(s.portText), "password" := Str(s.password)])
  }

  /** What the workload reconciler is asked for, from the resolved spec, the derived names and the raw user id. */
  function PodRequestFor(s: Spec, names: ResourceNames, userId: string): (q: PodRequest)
    ensures q.namespace == s.namespace && q.podName == names.pod && q.claimName == names.claim
    ensures q.password == s.password && q.image == s.image && q.vncPort == s.portText
    ensures q.containerUser == names.user && q.cpu == s.cpu && q.memory == s.memory
    ensures q.userId == userId
  {
    PodRequest(s.namespace, names.pod, names.claim, s.password, s.image, s.portText, names.user, s.cpu, s.memory, userId)
  }

  /** Provisioning is requested for this connection, as `connect` decides it (lines 126-131). */
  predicate Requested(c: Connection) {
    c.configuration.Some? && IsEnabled(GetAttributes(c), c.configuration.value.parameters)
  }

  /** The spec `connect` resolves for a connection that has a configuration. */
  function SpecOf(lib: Library, settings: Settings, c: Connection): Result<Spec, Failure>
    requires c.configuration.Some?
  {
    Resolve(lib, settings, c.configuration.value.parameters, GetAttributes(c))
  }

  /** The `i`-th connection attempt on `port` of `host` succeeds. */
  predicate Probe(reachable: (string, int, nat) -> bool, host: string, port: int, i: nat) {
    reachable(host, port, i)
  }

  /** Some attempt of the port wait succeeds. */
  predicate PortOpens(reachable: (string, int, nat) -> bool, host: string, port: int) {
    exists k | 0 <= k < PortProbes :: Probe(reachable, host, port, k)
  }

  /** The session a pod answered ready with an IP on the last call of `trace`. */
  predicate ReadyAtEnd(api: Api, trace: seq<Call>, s: Spec, names: ResourceNames, cfg: Configuration) {
    && |trace| > 0
    && trace[|trace| - 1] == ReadPod(s.namespace, names.pod)
    && api.podReply(|trace| - 1).Accepted? && Ready(api.podReply(|trace| - 1).body)
    && cfg == SessionConfiguration(api.podReply(|trace| - 1).body.podIp.chars, s)
  }

  /** A session is up: the last call found the pod ready, `cfg` points at its IP, and the VNC port there opened. */
  predicate SessionUp(api: Api, reachable: (string, int, nat) -> bool, trace: seq<Call>, s: Spec, names: ResourceNames, cfg: Configuration) {
    && ReadyAtEnd(api, trace, s, names, cfg)
    && ValidPort(s.port)
    && PortOpens(reachable, api.podReply(|trace| - 1).body.podIp.chars, s.port)
  }

  /**
   The two waits (lines 236-253): the pod's IP, then the VNC port on that IP.
   A port outside 0..65535 makes the first attempt's socket address throw,
   which ends the wait at once.
   */
  function AwaitSession(api: Api, reachable: (string, int, nat) -> bool, s: Spec, names: ResourceNames, t: seq<Call>): (r: Run<Configuration>)
    ensures |t| <= |r.trace| && r.trace[..|t|] == t
    ensures r.result.Ok? ==> SessionUp(api, reachable, r.trace, s, names, r.result.value)
    ensures !ValidPort(s.port) ==> r.result.Err? && (r.result.error.PortOutOfRange? || r.result.error.IpTimeout? || r.result.error.ApiFailure?)
  {
    var addressed := WaitForPodIp(api, s.namespace, names.pod, t, IpPolls);
    match addressed.result
    case Err(f) => Run(Err(f), addressed.trace)
    case Ok(ip) =>
      if !ValidPort(s.port) then Run(Err(PortOutOfRange(s.port)), addressed.trace)
      else match FirstConnect((i: nat) => reachable(ip, s.port, i), names.pod, 0)
      case Err(f) => Run(Err(f), addressed.trace)
      case Ok(k) =>
        assert Probe(reachable, ip, s.port, k);
        Run(Ok(SessionConfiguration(ip, s)), addressed.trace)
  }

  /**
   An out-of-range port never reaches a connection attempt: once the IP wait
   succeeds the session fails with `PortOutOfRange`; an IP-wait failure
   passes through unchanged.
   */
  lemma OutOfRangePortFails(api: Api, reachable: (string, int, nat) -> bool, s: Spec, names: ResourceNames, t: seq<Call>)
    requires !ValidPort(s.port)
    ensures var w := WaitForPodIp(api, s.namespace, names.pod, t, IpPolls);
            var r := AwaitSession(api, reachable, s, names, t);
            && (w.result.Ok? ==> r == Run(Err(PortOutOfRange(s.port)), w.trace))
            && (w.result.Err? ==> r == Run(Err(w.result.error), w.trace))
  { }

  /** Whichever way an out-of-range port fails, `connect` wraps the failure as a server error. */
  lemma OutOfRangePortWrapped(api: Api, reachable: (string, int, nat) -> bool, s: Spec, names: ResourceNames, t: seq<Call>)
    requires !ValidPort(s.port)
    ensures Raise(AwaitSession(api, reachable, s, names, t).result.error).Wrapped?
  {
  }

  /** The pod, then the waits (lines 233-253). */
  function StartPod(lib: Library, api: Api, reachable: (string, int, nat) -> bool, s: Spec, names: ResourceNames, userId: string, t: seq<Call>): (r: Run<Configuration>)
    ensures |t| <= |r.trace| && r.trace[..|t|] == t
    ensures r.result.Ok? ==> SessionUp(api, reachable, r.trace, s, names, r.result.value)
  {
    var podded := EnsurePod(lib, api, PodRequestFor(s, names, userId), t);
    match podded.result
    case Err(f) => Run(Err(f), podded.trace)
    case Ok(_) =>
      var r := AwaitSession(api, reachable, s, names, podded.trace);
      PrefixChain(t, podded.trace, r.trace);
      r
  }

  /**
   The cluster part of `connect` (lines 229-262), for a resolved spec:
   volume, pod, IP, port. `reachable(host, port, i)` is the outcome of the
   `i`-th connection attempt on the VNC port.
   */
  function Provision(lib: Library, api: Api, reachable: (string, int, nat) -> bool, s: Spec, names: ResourceNames, userId: string): (r: Run<Configuration>)
    ensures |r.trace| > 0 && r.trace[0] == ReadClaim(s.namespace, names.claim)
    ensures r.result.Ok? ==> SessionUp(api, reachable, r.trace, s, names, r.result.value)
  {
    var claimed := EnsureClaim(lib, api, s.namespace, names.claim, s.pvcSize, names.pod, []);
    match claimed.result
    case Err(f) => Run(Err(f), claimed.trace)
    case Ok(_) =>
      var r := StartPod(lib, api, reachable, s, names, userId, claimed.trace);
      PrefixChain(claimed.trace, r.trace, r.trace);
      r
  }

  /**
   `connect`: a connection without configuration fails at once, with a null
   dereference at line 115 that precedes the `try` and so escapes unwrapped
   (`Raise` does not apply to it); one that
   does not request provisioning is forwarded with its stored configuration
   and no cluster call; otherwise the spec is resolved and validated before
   any call, and the cluster part runs.
   */
  function Connect(lib: Library, settings: Settings, c: Connection, userId: string, api: Api, reachable: (string, int, nat) -> bool): (r: Run<Configuration>)
    ensures c.configuration.None? ==> r == Run(Err(NullDereference), [])
    ensures c.configuration.Some? && !Requested(c) ==> r == Run(Ok(c.configuration.value), [])
    ensures Requested(c) && SpecOf(lib, settings, c).Err? ==> r == Run(Err(SpecOf(lib, settings, c).error), [])
    ensures Requested(c) && SpecOf(lib, settings, c).Ok? ==>
      var s := SpecOf(lib, settings, c).value;
      var names := DeriveNames(userId, c.identifier);
      && |r.trace| > 0 && r.trace[0] == ReadClaim(s.namespace, names.claim)
      && (r.result.Ok? ==> ReadyAtEnd(api, r.trace, s, names, r.result.value))
    // a cluster call is issued only for a connection that requests provisioning with a valid spec
    ensures |r.trace| > 0 ==> Requested(c) && SpecOf(lib, settings, c).Ok?
  {
    match c.configuration
    case None => Run(Err(NullDereference), [])
    case Some(cfg) =>
      if !IsEnabled(GetAttributes(c), cfg.parameters) then Run(Ok(cfg), [])
      else match Resolve(lib, settings, cfg.parameters, GetAttributes(c))
        case Err(f) => Run(Err(f), [])
        case Ok(s) => Provision(lib, api, reachable, s, DeriveNames(userId, c.identifier), userId)
  }

  /** A pod found ready after `n` pending reads, whose port opens at the first attempt, yields its session. */
  lemma SessionAfterPending(api: Api, reachable: (string, int, nat) -> bool, s: Spec, names: ResourceNames, t: seq<Call>, n: nat, running: Pod)
    requires n < IpPolls && PendingBetween(api, |t|, |t| + n)
    requires api.podReply(|t| + n) == Accepted(running) && Ready(running)
    requires ValidPort(s.port) && reachable(running.podIp.chars, s.port, 0)
    ensures AwaitSession(api, reachable, s, names, t)
      == Run(Ok(SessionConfiguration(running.podIp.chars, s)), t + seq(n + 1, _ => ReadPod(s.namespace, names.pod)))
  {
    var ip := running.podIp.chars;
    ReadyAfterPending(api, s.namespace, names.pod, t, IpPolls, n, running);
    PortOpensAfterRefusals((i: nat) => reachable(ip, s.port, i), names.pod, 0);
  }

  /**
   A port the integer parser accepts but no socket address can carry: once
   the pod is found ready, the first connection attempt throws, and the
   failure leaves `connect` wrapped as a server error rather than as the
   port-wait timeout.
   */
  lemma PortOutOfRangeFailsAtOnce(api: Api, reachable: (string, int, nat) -> bool, s: Spec, names: ResourceNames, t: seq<Call>, n: nat, running: Pod)
    requires n < IpPolls && PendingBetween(api, |t|, |t| + n)
    requires api.podReply(|t| + n) == Accepted(running) && Ready(running)
    requires !ValidPort(s.port)
    ensures AwaitSession(api, reachable, s, names, t) == Run(Err(PortOutOfRange(s.port)), t + seq(n + 1, _ => ReadPod(s.namespace, names.pod)))
    ensures Raise(AwaitSession(api, reachable, s, names, t).result.error) == Wrapped(PortOutOfRange(s.port))
  {
    ReadyAfterPending(api, s.namespace, names.pod, t, IpPolls, n, running);
  }

  /** A connection that requests provisioning with a valid spec runs the cluster part for its derived names. */
  lemma ConnectRunsProvision(lib: Library, settings: Settings, c: Connection, userId: string, api: Api, reachable: (string, int, nat) -> bool)
    ensures Requested(c) && SpecOf(lib, settings, c).Ok? ==>
      Connect(lib, settings, c, userId, api, reachable)
        == Provision(lib, api, reachable, SpecOf(lib, settings, c).value, DeriveNames(userId, c.identifier), userId)
  {
  }

  /** Once the volume claim is in place, the pod comes next, after the claim's calls. */
  lemma ProvisionAfterClaim(lib: Library, api: Api, reachable: (string, int, nat) -> bool, s: Spec, names: ResourceNames, userId: string, t: seq<Call>)
    requires EnsureClaim(lib, api, s.namespace, names.claim, s.pvcSize, names.pod, []) == Run(Ok(()), t)
    ensures Provision(lib, api, reachable, s, names, userId) == StartPod(lib, api, reachable, s, names, userId, t)
  {
  }

  /** Once the pod is in place, the waits come next, after the pod's calls. */
  lemma StartPodAfterPod(lib: Library, api: Api, reachable: (string, int, nat) -> bool, s: Spec, names: ResourceNames, userId: string,
                         t: seq<Call>)
    ensures var podded := EnsurePod(lib, api, PodRequestFor(s, names, userId), t);
      podded.result.Ok? ==> StartPod(lib, api, reachable, s, names, userId, t) == AwaitSession(api, reachable, s, names, podded.trace)
  {
  }

  /**
   A returning user: the claim is already large enough and the pod's limits
   match, so provisioning reads the claim, reads the pod, finds it running
   on the next read, and forwards the session with no write to the cluster.
   */
  lemma ReturningUserReconnects(lib: Library, api: Api, reachable: (string, int, nat) -> bool, s: Spec, names: ResourceNames, userId: string,
                                current: real, requested: real, existing: Pod, running: Pod)
    requires api.claimReply(0) == Accepted(Claim(Some(current)))
    requires lib.quantity(s.pvcSize) == Some(requested) && requested <= current
    requires api.podReply(1) == Accepted(existing)
    requires Honours(lib, existing.limits, "cpu", s.cpu) && Honours(lib, existing.limits, "memory", s.memory)
    requires api.podReply(2) == Accepted(running) && Ready(running)
    requires ValidPort(s.port) && reachable(running.podIp.chars, s.port, 0)
    ensures Provision(lib, api, reachable, s, names, userId)
      == Run(Ok(SessionConfiguration(running.podIp.chars, s)),
             [ReadClaim(s.namespace, names.claim), ReadPod(s.namespace, names.pod), ReadPod(s.namespace, names.pod)])
  {
    var q := PodRequestFor(s, names, userId);
    var t1 := [ReadClaim(s.namespace, names.claim)];
    var t2 := t1 + [ReadPod(s.namespace, names.pod)];
    GrowsButNeverShrinks(lib, api, s.namespace, names.claim, s.pvcSize, names.pod, [], current, requested);
    assert [] + t1 == t1;
    ProvisionAfterClaim(lib, api, reachable, s, names, userId, t1);
    MatchingPodIsKept(lib, api, q, t1, existing);
    StartPodAfterPod(lib, api, reachable, s, names, userId, t1);
    SessionAfterPending(api, reachable, s, names, t2, 0, running);
    assert t2 + seq(1, _ => ReadPod(s.namespace, names.pod))
      == [ReadClaim(s.namespace, names.claim), ReadPod(s.namespace, names.pod), ReadPod(s.namespace, names.pod)];
  }

  /**
   A first connection: claim and pod are both missing, so both are created;
   the pod is pending for `n` reads and then runs, and the session is
   forwarded to its IP.
   */
  lemma FirstConnectionProvisions(lib: Library, api: Api, reachable: (string, int, nat) -> bool, s: Spec, names: ResourceNames, userId: string,
                                  m: PodManifest, created: Pod, n: nat, running: Pod)
    requires api.claimReply(0) == Rejected(NotFound)
    requires lib.quantity(s.pvcSize).Some? && api.claimReply(1).Accepted?
    requires api.podReply(2) == Rejected(NotFound)
    requires ManifestFor(lib, PodRequestFor(s, names, userId)) == Ok(m) && api.podReply(3) == Accepted(created)
    requires n < IpPolls && PendingBetween(api, 4, 4 + n)
    requires api.podReply(4 + n) == Accepted(running) && Ready(running)
    requires ValidPort(s.port) && reachable(running.podIp.chars, s.port, 0)
    ensures Provision(lib, api, reachable, s, names, userId)
      == Run(Ok(SessionConfiguration(running.podIp.chars, s)),
             [ ReadClaim(s.namespace, names.claim), CreateClaim(s.namespace, names.claim, s.pvcSize, AccessMode),
               ReadPod(s.namespace, names.pod), CreatePod(s.namespace, m) ]
             + seq(n + 1, _ => ReadPod(s.namespace, names.pod)))
  {
    var q := PodRequestFor(s, names, userId);
    var t2 := [ReadClaim(s.namespace, names.claim), CreateClaim(s.namespace, names.claim, s.pvcSize, AccessMode)];
    var t4 := t2 + [ReadPod(s.namespace, names.pod), CreatePod(s.namespace, m)];
    MissingClaimIsCreated(lib, api, s.namespace, names.claim, s.pvcSize, names.pod, []);
    assert [] + t2 == t2;
    ProvisionAfterClaim(lib, api, reachable, s, names, userId, t2);
    MissingPodIsCreated(lib, api, q, t2, m, created);
    StartPodAfterPod(lib, api, reachable, s, names, userId, t2);
    SessionAfterPending(api, reachable, s, names, t4, n, running);
  }
}
