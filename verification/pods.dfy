/**
 The workload reconciler `ensurePodExists` (K8sVNCConnection.java lines
 372-476): keep a pod whose resource limits already match the request,
 recreate one whose limits drifted, create one that is missing.
 */
module PodReconciler {
  import opened Outcome
  import opened JavaText
  import opened Platform
  import opened ClusterApi

  const ContainerUid := "1000"
  const ContainerName := "vnc-container"
  const HomeVolume := "home-dir"
  const Resolution := "1280x800"
  const ColourDepth := "24"

  /** Everything the reconciler is given by `connect`. */
  datatype PodRequest = PodRequest(
    namespace: string,
    podName: string,
    claimName: string,
    password: string,
    image: string,
    vncPort: string,
    containerUser: string,
    cpu: string,
    memory: string,
    userId: string)

  function HomeDir(user: string): string {
    "/home/" + user
  }

  /** The value of the first variable called `name`, if any. */
  function EnvLookup(env: seq<EnvVar>, name: string): (r: Option<string>)
    ensures r.Some? <==> exists i | 0 <= i < |env| :: env[i].name == name
    ensures r.Some? ==> exists i | 0 <= i < |env| :: env[i] == EnvVar(name, r.value)
  {
    if |env| == 0 then None
    else if env[0].name == name then Some(env[0].value)
    else
      var r := EnvLookup(env[1..], name);
      assert forall i | 1 <= i < |env| :: env[i] == env[1..][i - 1];
      r
  }

  predicate DistinctNames(env: seq<EnvVar>) {
    forall i, j | 0 <= i < j < |env| :: env[i].name != env[j].name
  }

  /** In a list without repeated names, the lookup finds each variable's own value. */
  lemma {:induction false} LookupFindsEach(env: seq<EnvVar>, i: nat)
    requires DistinctNames(env) && i < |env|
    ensures EnvLookup(env, env[i].name) == Some(env[i].value)
  {
    if i > 0 {
      assert env[0].name != env[i].name;
      assert DistinctNames(env[1..]) by {
        assert forall j | 0 <= j < |env[1..]| :: env[1..][j] == env[j + 1];
      }
      LookupFindsEach(env[1..], i - 1);
    }
  }

  /** The resource requests (and, identically, limits) of a new pod: a setting is present exactly when it is non-empty. */
  function Resources(cpu: string, memory: string): (r: map<string, string>)
    ensures "cpu" in r <==> |cpu| > 0
    ensures "memory" in r <==> |memory| > 0
    ensures "cpu" in r ==> r["cpu"] == cpu
    ensures "memory" in r ==> r["memory"] == memory
    ensures forall k | k in r :: k == "cpu" || k == "memory"
  {
    var withCpu: map<string, string> := if |cpu| > 0 then map["cpu" := cpu] else map[];
    if |memory| > 0 then withCpu["memory" := memory] else withCpu
  }

  /** The pod submitted for a request, given its already parsed port. */
  function BuildManifest(q: PodRequest, port: int): (m: PodManifest)
    ensures m.apiVersion == "v1" && m.kind == "Pod" && m.name == q.podName
    ensures m.labels == map["user" := q.userId]
    ensures m.restartPolicy == "Always" && m.fsGroup == 1000
    ensures m.container.name == ContainerName && m.container.image == q.image
    ensures m.container.imagePullPolicy == "IfNotPresent"
    ensures m.container.requests == m.container.limits == Resources(q.cpu, q.memory)
    ensures m.container.containerPort == port
    // the home directory is the mounted claim
    ensures m.container.mountVolume == m.volumeName && m.claimName == q.claimName
    ensures m.container.mountPath == HomeDir(q.containerUser)
    ensures |m.container.env| == 8
  {
    var home := HomeDir(q.containerUser);
    var resources := Resources(q.cpu, q.memory);
    var c := Container(ContainerName, q.image, "IfNotPresent", resources, resources, port, Environment(q), HomeVolume, home);
    PodManifest("v1", "Pod", q.podName, map["user" := q.userId], "Always", 1000, c, HomeVolume, q.claimName)
  }

  /** The names of the container's environment variables, in the order they are declared. */
  const EnvNames: seq<string> :=
    ["VNC_PW", "VNC_PASSWORD", "VNC_USER", "VNC_UID", "VNC_GID", "VNC_RESOLUTION", "VNC_COL_DEPTH", "HOME"]

  /** The environment of the VNC container (lines 460-468). */
  function Environment(q: PodRequest): (env: seq<EnvVar>)
    ensures |env| == |EnvNames| && forall i | 0 <= i < |env| :: env[i].name == EnvNames[i]
    ensures DistinctNames(env)
  {
    [ EnvVar("VNC_PW", q.password),
      EnvVar("VNC_PASSWORD", q.password),
      EnvVar("VNC_USER", q.containerUser),
      EnvVar("VNC_UID", ContainerUid),
      EnvVar("VNC_GID", ContainerUid),
      EnvVar("VNC_RESOLUTION", Resolution),
      EnvVar("VNC_COL_DEPTH", ColourDepth),
      EnvVar("HOME", HomeDir(q.containerUser)) ]
  }

  /**
   What the container finds in its environment: no variable twice, the
   home directory where the claim is mounted, both spellings of the
   password variable carrying the password, and the fixed uid, gid,
   resolution and colour depth.
   */
  lemma ManifestEnvironment(q: PodRequest, port: int)
    ensures var m := BuildManifest(q, port);
      var env := m.container.env;
      && DistinctNames(env)
      && EnvLookup(env, "HOME") == Some(m.container.mountPath)
      && EnvLookup(env, "VNC_PW") == Some(q.password)
      && EnvLookup(env, "VNC_PASSWORD") == Some(q.password)
      && EnvLookup(env, "VNC_USER") == Some(q.containerUser)
      && EnvLookup(env, "VNC_UID") == Some(ContainerUid)
      && EnvLookup(env, "VNC_GID") == Some(ContainerUid)
      && EnvLookup(env, "VNC_RESOLUTION") == Some(Resolution)
      && EnvLookup(env, "VNC_COL_DEPTH") == Some(ColourDepth)
  {
    var env := Environment(q);
    assert DistinctNames(env);
    LookupFindsEach(env, 0);
    LookupFindsEach(env, 1);
    LookupFindsEach(env, 2);
    LookupFindsEach(env, 3);
    LookupFindsEach(env, 4);
    LookupFindsEach(env, 5);
    LookupFindsEach(env, 6);
    LookupFindsEach(env, 7);
  }

  /** The variables are declared in a fixed order, independent of the request. */
  lemma ManifestEnvironmentOrder(q: PodRequest, port: int)
    ensures var env := BuildManifest(q, port).container.env;
      |env| == |EnvNames| && forall i | 0 <= i < |env| :: env[i].name == EnvNames[i]
  {
  }

  /**
   The manifest for a request (lines 423-470): each non-empty resource
   setting must parse as a quantity (CPU first, then memory) and the port
   must parse as an integer.
   */
  function ManifestFor(lib: Library, q: PodRequest): (r: Result<PodManifest, Failure>)
    ensures r.Ok? <==>
      && (|q.cpu| > 0 ==> lib.quantity(q.cpu).Some?)
      && (|q.memory| > 0 ==> lib.quantity(q.memory).Some?)
      && lib.parseInt(q.vncPort).Some?
    ensures r.Ok? ==> r.value == BuildManifest(q, lib.parseInt(q.vncPort).value)
    ensures |q.cpu| > 0 && lib.quantity(q.cpu).None? ==> r == Err(QuantityRejected(q.cpu))
  {
    if |q.cpu| > 0 && lib.quantity(q.cpu).None? then Err(QuantityRejected(q.cpu))
    else if |q.memory| > 0 && lib.quantity(q.memory).None? then Err(QuantityRejected(q.memory))
    else match lib.parseInt(q.vncPort)
      case None => Err(InvalidPort(q.vncPort))
      case Some(port) => Ok(BuildManifest(q, port))
  }

  /** A non-empty setting is honoured by the limits when they hold exactly its parsed value under `key`. */
  predicate Honours(lib: Library, limits: Option<map<string, real>>, key: string, text: string) {
    |text| == 0 || (limits.Some? && lib.quantity(text).Some? && key in limits.value && limits.value[key] == lib.quantity(text).value)
  }

  /**
   The comparison the drift check makes, against the limits map: an empty
   setting is always honoured; a non-empty one is honoured iff the check
   finds no difference, which is the case for a map holding exactly its
   parsed value.
   */
  lemma HonoursIffNoDifference(lib: Library, limits: Option<map<string, real>>, key: string, text: string)
    ensures |text| == 0 ==> Honours(lib, limits, key, text)
    ensures |text| > 0 ==> (Honours(lib, limits, key, text) <==> LimitDiffers(lib, limits, key, text) == Ok(false))
    ensures lib.quantity(text).Some? ==> Honours(lib, Some(map[key := lib.quantity(text).value]), key, text)
  {
  }

  /**
   Whether the limit under `key` differs from the requested text: the
   limits map is read first (a missing map is a null dereference), then the
   text is parsed; a missing entry differs from everything.
   */
  function LimitDiffers(lib: Library, limits: Option<map<string, real>>, key: string, text: string): (r: Result<bool, Failure>)
    requires |text| > 0
    ensures limits.None? ==> r == Err(NullDereference)
    ensures limits.Some? && lib.quantity(text).None? ==> r == Err(QuantityRejected(text))
    ensures r.Ok? <==> limits.Some? && lib.quantity(text).Some?
    ensures r.Ok? ==> (r.value <==> !Honours(lib, limits, key, text))
  {
    match limits
    case None => Err(NullDereference)
    case Some(m) =>
      match lib.quantity(text)
      case None => Err(QuantityRejected(text))
      case Some(requested) => Ok(key !in m || m[key] != requested)
  }

  /**
   The drift check (lines 381-401): CPU first; memory is looked at only
   when the CPU limit matched.
   */
  function NeedsRecreation(lib: Library, existing: Pod, cpu: string, memory: string): (r: Result<bool, Failure>)
    ensures r.Ok? ==> (r.value <==> !(Honours(lib, existing.limits, "cpu", cpu) && Honours(lib, existing.limits, "memory", memory)))
    ensures |cpu| == 0 && |memory| == 0 ==> r == Ok(false)
    ensures existing.limits.None? && (|cpu| > 0 || |memory| > 0) ==> r == Err(NullDereference)
    ensures r.Err? ==> r.error == NullDereference || r.error == QuantityRejected(cpu) || r.error == QuantityRejected(memory)
    // a CPU mismatch decides, whatever the memory setting
    ensures |cpu| > 0 && existing.limits.Some? && lib.quantity(cpu).Some? && !Honours(lib, existing.limits, "cpu", cpu) ==> r == Ok(true)
  {
    var cpuDiffers := if |cpu| > 0 then LimitDiffers(lib, existing.limits, "cpu", cpu) else Ok(false);
    match cpuDiffers
    case Err(f) => Err(f)
    case Ok(true) => Ok(true)
    case Ok(false) =>
      if |memory| > 0 then LimitDiffers(lib, existing.limits, "memory", memory) else Ok(false)
  }

  /** The only calls the workload reconciler issues: reads and deletes of its pod, and creation of a pod of that name. */
  predicate PodCall(c: Call, q: PodRequest) {
    || c == ReadPod(q.namespace, q.podName)
    || c == DeletePod(q.namespace, q.podName)
    || (c.CreatePod? && c.namespace == q.namespace && c.manifest.name == q.podName)
  }

  /** `u` extends `t` with calls the workload reconciler may issue. */
  predicate PodSteps(t: seq<Call>, u: seq<Call>, q: PodRequest) {
    |t| <= |u| && u[..|t|] == t && forall i | |t| <= i < |u| :: PodCall(u[i], q)
  }

  lemma PodStepsChain(t: seq<Call>, u: seq<Call>, w: seq<Call>, q: PodRequest)
    requires PodSteps(t, u, q) && PodSteps(u, w, q)
    ensures PodSteps(t, w, q)
    ensures forall i | 0 <= i < |u| :: w[i] == u[i]
  {
    assert forall i | 0 <= i < |u| :: w[i] == w[..|u|][i];
    assert forall i | 0 <= i < |t| :: u[i] == u[..|t|][i];
  }

  /** Pod creation (lines 418-475): build the manifest, submit it, answer the created pod. */
  function Create(lib: Library, api: Api, q: PodRequest, t: seq<Call>): (r: Run<Pod>)
    ensures |t| <= |r.trace| <= |t| + 1 && PodSteps(t, r.trace, q)
    ensures |r.trace| == |t| + 1 <==> ManifestFor(lib, q).Ok?
    ensures |r.trace| == |t| + 1 ==> r.trace[|t|] == CreatePod(q.namespace, ManifestFor(lib, q).value)
    ensures r.result.Ok? <==> ManifestFor(lib, q).Ok? && api.podReply(|t|).Accepted?
    ensures r.result.Ok? ==> r.result.value == api.podReply(|t|).body
  {
    match ManifestFor(lib, q)
    case Err(f) => Run(Err(f), t)
    case Ok(m) =>
      var t1 := t + [CreatePod(q.namespace, m)];
      match api.podReply(|t|)
      case Accepted(created) => Run(Ok(created), t1)
      case Rejected(code) => Run(Err(ApiFailure(code)), t1)
  }

  /**
   From position `from` on, `trace` holds a finished termination wait and
   then, at once, the creation of the pod when its manifest can be built,
   and nothing more.
   */
  predicate CreatedAfterWait(lib: Library, api: Api, q: PodRequest, trace: seq<Call>, from: nat) {
    exists g: nat | g <= |trace| :: TerminationObserved(api, q.namespace, q.podName, trace, from, g)
      && (ManifestFor(lib, q).Ok? ==> |trace| == g + 1 && trace[g] == CreatePod(q.namespace, ManifestFor(lib, q).value))
      && (ManifestFor(lib, q).Err? ==> |trace| == g)
  }

  /** Wait for the deleted pod to terminate, then create the replacement (lines 406-418). */
  function CreateOnceGone(lib: Library, api: Api, q: PodRequest, t: seq<Call>): (r: Run<Pod>)
    ensures |t| <= |r.trace| <= |t| + 1 + TerminationPolls
    ensures PodSteps(t, r.trace, q)
    ensures CreatedAfterWait(lib, api, q, r.trace, |t|)
  {
    WaitThenCreate(lib, api, q, t);
    Create(lib, api, q, AwaitPodGone(api, q.namespace, q.podName, t, TerminationPolls))
  }

  lemma WaitThenCreate(lib: Library, api: Api, q: PodRequest, t: seq<Call>)
    ensures var r := Create(lib, api, q, AwaitPodGone(api, q.namespace, q.podName, t, TerminationPolls));
      && |t| <= |r.trace| <= |t| + 1 + TerminationPolls
      && PodSteps(t, r.trace, q)
      && CreatedAfterWait(lib, api, q, r.trace, |t|)
  {
    var waited := AwaitPodGone(api, q.namespace, q.podName, t, TerminationPolls);
    var r := Create(lib, api, q, waited);
    assert PodSteps(t, waited, q);
    PodStepsChain(t, waited, r.trace, q);
    AwaitPodGoneObserves(api, q.namespace, q.podName, t);
    assert forall i | |t| <= i < |waited| :: r.trace[i] == waited[i];
    assert TerminationObserved(api, q.namespace, q.podName, r.trace, |t|, |waited|);
  }

  /** Recreation: delete the drifted pod (a 404 is fine), wait for it to go, create it anew. */
  function Recreate(lib: Library, api: Api, q: PodRequest, t: seq<Call>): (r: Run<Pod>)
    ensures |t| < |r.trace| <= |t| + 2 + TerminationPolls
    ensures PodSteps(t, r.trace, q)
    ensures r.trace[|t|] == DeletePod(q.namespace, q.podName)
  {
    var t1 := t + [DeletePod(q.namespace, q.podName)];
    assert PodSteps(t, t1, q);
    match api.podReply(|t|)
    case Accepted(_) =>
      var r := CreateOnceGone(lib, api, q, t1);
      PodStepsChain(t, t1, r.trace, q);
      r
    case Rejected(code) =>
      if code == NotFound then
        var r := Create(lib, api, q, t1);
        PodStepsChain(t, t1, r.trace, q);
        r
      else Run(Err(ApiFailure(code)), t1)
  }

  /**
   What follows the deletion of a drifted pod: a failure other than 404 ends
   the reconciler with no creation; a pod already gone is created at once;
   after an accepted deletion only the termination wait stands before the
   creation.
   */
  lemma DeletionThenCreate(lib: Library, api: Api, q: PodRequest, t: seq<Call>)
    ensures var r := Recreate(lib, api, q, t);
      && (api.podReply(|t|).Rejected? && api.podReply(|t|).code != NotFound ==>
            r == Run(Err(ApiFailure(api.podReply(|t|).code)), t + [DeletePod(q.namespace, q.podName)]))
      && (api.podReply(|t|) == Rejected(NotFound) && ManifestFor(lib, q).Ok? ==>
            |r.trace| == |t| + 2 && r.trace[|t| + 1] == CreatePod(q.namespace, ManifestFor(lib, q).value))
      && (api.podReply(|t|) == Rejected(NotFound) && ManifestFor(lib, q).Err? ==> |r.trace| == |t| + 1)
      && (api.podReply(|t|).Accepted? ==> CreatedAfterWait(lib, api, q, r.trace, |t| + 1))
  {
  }

  /**
   `ensurePodExists`: read the pod; a 404 creates it; an existing pod is
   kept when its limits honour the request and recreated otherwise.
   */
  function EnsurePod(lib: Library, api: Api, q: PodRequest, t: seq<Call>): (r: Run<Pod>)
    ensures |t| < |r.trace| <= |t| + 3 + TerminationPolls
    ensures PodSteps(t, r.trace, q)
    ensures r.trace[|t|] == ReadPod(q.namespace, q.podName)
    // an existing pod is returned only when it needs no recreation
    ensures r.result.Ok? && |r.trace| == |t| + 1 ==>
      api.podReply(|t|) == Accepted(r.result.value) && NeedsRecreation(lib, r.result.value, q.cpu, q.memory) == Ok(false)
    // otherwise a pod was created, by the last call
    ensures r.result.Ok? && |r.trace| > |t| + 1 ==> r.trace[|r.trace| - 1].CreatePod?
  {
    var t1 := t + [ReadPod(q.namespace, q.podName)];
    assert PodSteps(t, t1, q);
    match api.podReply(|t|)
    case Rejected(code) =>
      if code == NotFound then
        var r := Create(lib, api, q, t1);
        PodStepsChain(t, t1, r.trace, q);
        r
      else Run(Err(ApiFailure(code)), t1)
    case Accepted(existing) =>
      match NeedsRecreation(lib, existing, q.cpu, q.memory)
      case Err(f) => Run(Err(f), t1)
      case Ok(recreate) =>
        if !recreate then Run(Ok(existing), t1)
        else
          var r := Recreate(lib, api, q, t1);
          PodStepsChain(t, t1, r.trace, q);
          r
  }

  lemma CreateAccepted(lib: Library, api: Api, q: PodRequest, t: seq<Call>, m: PodManifest, created: Pod)
    requires ManifestFor(lib, q) == Ok(m) && api.podReply(|t|) == Accepted(created)
    ensures Create(lib, api, q, t) == Run(Ok(created), t + [CreatePod(q.namespace, m)])
  {
  }

  /** A pod whose limits honour both settings is kept as it is: one read, no write. */
  lemma MatchingPodIsKept(lib: Library, api: Api, q: PodRequest, t: seq<Call>, existing: Pod)
    requires api.podReply(|t|) == Accepted(existing)
    requires Honours(lib, existing.limits, "cpu", q.cpu) && Honours(lib, existing.limits, "memory", q.memory)
    ensures EnsurePod(lib, api, q, t) == Run(Ok(existing), t + [ReadPod(q.namespace, q.podName)])
  {
  }

  /** A missing pod is created from the request's manifest. */
  lemma MissingPodIsCreated(lib: Library, api: Api, q: PodRequest, t: seq<Call>, m: PodManifest, created: Pod)
    requires api.podReply(|t|) == Rejected(NotFound)
    requires ManifestFor(lib, q) == Ok(m) && api.podReply(|t| + 1) == Accepted(created)
    ensures EnsurePod(lib, api, q, t) == Run(Ok(created), t + [ReadPod(q.namespace, q.podName), CreatePod(q.namespace, m)])
  {
    var t1 := t + [ReadPod(q.namespace, q.podName)];
    assert EnsurePod(lib, api, q, t) == Create(lib, api, q, t1);
    CreateAccepted(lib, api, q, t1, m, created);
    assert t1 + [CreatePod(q.namespace, m)] == t + [ReadPod(q.namespace, q.podName), CreatePod(q.namespace, m)];
  }

  /** Any other failure of the read is reported, with no further call. */
  lemma FailedPodReadIsReported(lib: Library, api: Api, q: PodRequest, t: seq<Call>, code: int)
    requires api.podReply(|t|) == Rejected(code) && code != NotFound
    ensures EnsurePod(lib, api, q, t) == Run(Err(ApiFailure(code)), t + [ReadPod(q.namespace, q.podName)])
  {
  }

  /**
   A pod whose CPU limit drifted is deleted and created anew; here the
   deletion finds it already gone, so there is no wait.
   */
  lemma DriftedPodIsRecreated(lib: Library, api: Api, q: PodRequest, t: seq<Call>, existing: Pod, m: PodManifest, created: Pod)
    requires api.podReply(|t|) == Accepted(existing)
    requires existing.limits.Some? && |q.cpu| > 0 && lib.quantity(q.cpu).Some?
    requires !Honours(lib, existing.limits, "cpu", q.cpu)
    requires api.podReply(|t| + 1) == Rejected(NotFound)
    requires ManifestFor(lib, q) == Ok(m) && api.podReply(|t| + 2) == Accepted(created)
    ensures EnsurePod(lib, api, q, t)
      == Run(Ok(created), t + [ReadPod(q.namespace, q.podName), DeletePod(q.namespace, q.podName), CreatePod(q.namespace, m)])
  {
    var t1 := t + [ReadPod(q.namespace, q.podName)];
    CpuDriftDecides(lib, existing, q.cpu, q.memory);
    DriftLeadsToRecreate(lib, api, q, t, existing);
    RecreateWithoutWait(lib, api, q, t1, m, created);
    assert t1 + [DeletePod(q.namespace, q.podName), CreatePod(q.namespace, m)]
      == t + [ReadPod(q.namespace, q.podName), DeletePod(q.namespace, q.podName), CreatePod(q.namespace, m)];
  }

  lemma CpuDriftDecides(lib: Library, existing: Pod, cpu: string, memory: string)
    requires existing.limits.Some? && |cpu| > 0 && lib.quantity(cpu).Some?
    requires !Honours(lib, existing.limits, "cpu", cpu)
    ensures NeedsRecreation(lib, existing, cpu, memory) == Ok(true)
  {
  }

  lemma RecreateWithoutWait(lib: Library, api: Api, q: PodRequest, t: seq<Call>, m: PodManifest, created: Pod)
    requires api.podReply(|t|) == Rejected(NotFound)
    requires ManifestFor(lib, q) == Ok(m) && api.podReply(|t| + 1) == Accepted(created)
    ensures Recreate(lib, api, q, t) == Run(Ok(created), t + [DeletePod(q.namespace, q.podName), CreatePod(q.namespace, m)])
  {
    var t1 := t + [DeletePod(q.namespace, q.podName)];
    assert Recreate(lib, api, q, t) == Create(lib, api, q, t1);
    CreateAccepted(lib, api, q, t1, m, created);
    assert t1 + [CreatePod(q.namespace, m)] == t + [DeletePod(q.namespace, q.podName), CreatePod(q.namespace, m)];
  }

  /**
   An example of the termination wait: the deletion is accepted and the
   first poll already answers 404, so the creation follows that one poll.
   `DeletionThenCreate` states the general case, where the wait may also
   end after 30 polls without the pod ever being seen gone.
   */
  lemma RecreationWaitsForTermination(lib: Library, api: Api, q: PodRequest, t: seq<Call>, existing: Pod, m: PodManifest, created: Pod)
    requires api.podReply(|t|) == Accepted(existing)
    requires NeedsRecreation(lib, existing, q.cpu, q.memory) == Ok(true)
    requires api.podReply(|t| + 1).Accepted? && api.podReply(|t| + 2) == Rejected(NotFound)
    requires ManifestFor(lib, q) == Ok(m) && api.podReply(|t| + 3) == Accepted(created)
    ensures EnsurePod(lib, api, q, t) == Run(Ok(created),
      t + [ReadPod(q.namespace, q.podName), DeletePod(q.namespace, q.podName), ReadPod(q.namespace, q.podName), CreatePod(q.namespace, m)])
  {
    var t1 := t + [ReadPod(q.namespace, q.podName)];
    RecreateAfterOnePoll(lib, api, q, t1, m, created);
    DriftLeadsToRecreate(lib, api, q, t, existing);
    assert t1 + [DeletePod(q.namespace, q.podName), ReadPod(q.namespace, q.podName), CreatePod(q.namespace, m)]
      == t + [ReadPod(q.namespace, q.podName), DeletePod(q.namespace, q.podName), ReadPod(q.namespace, q.podName), CreatePod(q.namespace, m)];
  }

  lemma DriftLeadsToRecreate(lib: Library, api: Api, q: PodRequest, t: seq<Call>, existing: Pod)
    requires api.podReply(|t|) == Accepted(existing)
    requires NeedsRecreation(lib, existing, q.cpu, q.memory) == Ok(true)
    ensures EnsurePod(lib, api, q, t) == Recreate(lib, api, q, t + [ReadPod(q.namespace, q.podName)])
  {
  }

  lemma RecreateAfterOnePoll(lib: Library, api: Api, q: PodRequest, t: seq<Call>, m: PodManifest, created: Pod)
    requires api.podReply(|t|).Accepted? && api.podReply(|t| + 1) == Rejected(NotFound)
    requires ManifestFor(lib, q) == Ok(m) && api.podReply(|t| + 2) == Accepted(created)
    ensures Recreate(lib, api, q, t) == Run(Ok(created),
      t + [DeletePod(q.namespace, q.podName), ReadPod(q.namespace, q.podName), CreatePod(q.namespace, m)])
  {
    var t1 := t + [DeletePod(q.namespace, q.podName)];
    var t2 := t1 + [ReadPod(q.namespace, q.podName)];
    assert AwaitPodGone(api, q.namespace, q.podName, t1, TerminationPolls) == t2;
    CreateAccepted(lib, api, q, t2, m, created);
    assert CreateOnceGone(lib, api, q, t1) == Run(Ok(created), t2 + [CreatePod(q.namespace, m)]);
    assert t2 + [CreatePod(q.namespace, m)]
      == t + [DeletePod(q.namespace, q.podName), ReadPod(q.namespace, q.podName), CreatePod(q.namespace, m)];
  }

  /** A half-CPU limit does not honour a request for one CPU, so such a pod is recreated. */
  lemma HalfCpuDrifts(lib: Library, existing: Pod)
    requires lib.quantity("1") == Some(1.0)
    requires existing.limits == Some(map["cpu" := 0.5, "memory" := 2147483648.0])
    ensures NeedsRecreation(lib, existing, "1", "2Gi") == Ok(true)
  {
  }

  /** The limits a pod built from `m` reports once running: each limit's text, parsed. */
  function ReportedLimits(lib: Library, m: PodManifest): map<string, real> {
    map k | k in m.container.limits && lib.quantity(m.container.limits[k]).Some? :: lib.quantity(m.container.limits[k]).value
  }

  /**
   Creation and the drift check agree: a pod created for a request, read
   back on the next connection, is kept rather than recreated.
   */
  lemma CreatedPodIsKept(lib: Library, q: PodRequest, m: PodManifest, podIp: JString, phase: JString)
    requires ManifestFor(lib, q) == Ok(m)
    ensures NeedsRecreation(lib, Pod(Some(ReportedLimits(lib, m)), podIp, phase), q.cpu, q.memory) == Ok(false)
  {
    var limits := ReportedLimits(lib, m);
    assert |q.cpu| > 0 ==> "cpu" in m.container.limits && "cpu" in limits;
    assert |q.memory| > 0 ==> "memory" in m.container.limits && "memory" in limits;
  }
}
