# Kubernetes VNC provisioning for Guacamole, modelled in Dafny

The extension wraps the VNC connections of a Guacamole connection directory.
When a user opens a connection that has Kubernetes provisioning enabled, the
wrapper does the following, in order:

1. It resolves the desired desktop from four sources: the connection's
   attributes, its parameters, the Guacamole properties and the process
   environment.
2. It validates the desktop.
3. It derives a pod name and a volume-claim name from the user and the
   connection.
4. It makes sure the persistent volume claim exists and is large enough.
5. It makes sure a pod with the requested CPU and memory limits exists.
6. It waits for the pod to run with an IP, then for its VNC port to open.
7. It hands the proxy a VNC configuration that points at the pod.

The user context also does two things:

- It adds a provisioning form to the connection attribute schema.
- It wraps or unwraps connections as they pass through the directory.

Modules, one per file:

| module | file | what it holds |
|---|---|---|
| `Outcome` | `outcome.dfy` | `Option` and `Result` |
| `JavaText` | `text.dfy` | nullable strings, ASCII case mapping, `equalsIgnoreCase` |
| `Patterns` | `patterns.dfy` | the three validation regexes, with a match semantics, and the character scans proved equal to them |
| `Attributes` | `attributes.dfy` | stored connections, and how the provisioning keys are mirrored between attributes and parameters |
| `Platform` | `platform.dfy` | the opaque library parsers, the properties and environment as maps, and the failure kinds |
| `Resolver` | `resolver.dfy` | settings precedence, the port parse, validation |
| `Naming` | `naming.dfy` | pod and claim names |
| `ClusterApi` | `cluster.dfy` | the Kubernetes calls as a trace with scripted replies by trace position, and the termination wait |
| `ClaimReconciler` | `claims.dfy` | `ensurePvcExists` |
| `PodReconciler` | `pods.dfy` | `ensurePodExists` and the pod manifest |
| `Readiness` | `readiness.dfy` | `waitForPodIp` and the port wait |
| `Connector` | `connector.dfy` | `connect` as a whole |
| `UserContext` | `usercontext.dfy` | `getConnectionAttributes` and the wrapping connection directory |

The two source files are:

- `K8sVNCConnection.java` = `src/main/java/org/apache/guacamole/auth/k8s/connection/K8sVNCConnection.java`
- `K8sVNCUserContext.java` = `src/main/java/org/apache/guacamole/auth/k8s/K8sVNCUserContext.java`

The table below cites both by their full path.

## Two behaviours worth knowing

- **Attribute precedence.** In `getAttributes` (lines 59-80), the comment at
  line 64 says the provisioning parameters are mirrored into the attributes
  only when the attributes do not already hold them. The code at line 73
  does something else:
  - it `put`s every non-null `k8s-vnc-*` parameter over the stored
    attribute;
  - so when both are set, the parameter wins.
  - The model follows the `put`. `Resolver.EnabledFromStoredState` states
    the consequence for the enablement switch.
- **Name derivation is not injective.** Under a default locale that maps
  ASCII letters the ASCII way, two different (user, connection)
  pairs can get the same pod name and the same claim name:
  - identifiers that differ only in punctuation collide;
  - identifiers that differ only in ASCII case collide;
  - identifiers that differ only in where the `-` between user and
    connection falls collide.
  - `Naming.NamesCollideOnPunctuation`, `Naming.NamesCollideOnCase` and
    `Naming.NamesCollideOnBoundary` prove this.
  - In addition, a connection identifier that ends in a non-alphanumeric
    character yields a pod name that is not a valid label
    (`Naming.PodNameIsLabel`).
- **Out-of-range ports.** A port text that parses to a number outside
  0..65535 gets past the parse. The socket address at line 244 then throws
  an `IllegalArgumentException` on the first attempt. That exception is not
  an I/O error, so the port wait does not retry it. `connect` then wraps it
  as a server error carrying only the message.

## Model

| member | source | states |
|---|---|---|
| JavaText.LowerAscii | src/main/java/org/apache/guacamole/auth/k8s/connection/K8sVNCConnection.java:221 | Lower-casing maps exactly the ASCII capitals, each 32 code points up, and never yields a capital. |
| JavaText.EqualsIgnoreCaseLowered | src/main/java/org/apache/guacamole/auth/k8s/connection/K8sVNCConnection.java:126-127 | `equalsIgnoreCase` holds iff the argument is not null and both strings lower to the same text. |
| JavaText.TrueSpellings | src/main/java/org/apache/guacamole/auth/k8s/connection/K8sVNCConnection.java:126-127 | `true`, `TRUE`, `True` and `tRuE` count as true. Null, the empty text, `yes`, `1` and `true ` with a trailing space do not. |
| Attributes.MirrorInto | src/main/java/org/apache/guacamole/auth/k8s/connection/K8sVNCConnection.java:69-75 | The mirroring loop overwrites exactly the listed keys that have a non-null source value. Every other entry of the target is kept. |
| Attributes.GetAttributes | src/main/java/org/apache/guacamole/auth/k8s/connection/K8sVNCConnection.java:59-80 | The wrapper's attribute view. A non-null provisioning parameter replaces the stored attribute of that name. Every other attribute reads as stored. Without a configuration, the stored attributes are returned unchanged. |
| Attributes.SetAttributes | src/main/java/org/apache/guacamole/auth/k8s/connection/K8sVNCConnection.java:83-108 | The new attribute map is stored. Provisioning keys with a non-null value are copied into the parameters. No other parameter, and neither the protocol nor the identifier, changes. |
| Attributes.MirrorRoundTrip | src/main/java/org/apache/guacamole/auth/k8s/connection/K8sVNCConnection.java:59-108 | Writing attributes and reading them back returns each non-provisioning key and each non-null provisioning key as written. A provisioning key written as null reads back as the stored parameter. |
| Resolver.GetParam | src/main/java/org/apache/guacamole/auth/k8s/connection/K8sVNCConnection.java:279-284 | A non-empty parameter is the answer as stored. An absent, null or empty parameter yields the default, so with a non-null default the answer is never null. |
| Resolver.EnvValue | src/main/java/org/apache/guacamole/auth/k8s/connection/K8sVNCConnection.java:294-296 | The environment fallback is present iff the variable named after the property is set and non-empty, and then it is that value. |
| Resolver.GetProperty | src/main/java/org/apache/guacamole/auth/k8s/connection/K8sVNCConnection.java:286-303 | A defined property is the answer. Otherwise the non-empty environment variable is, else the default. A non-null default never gives null. |
| Resolver.GetBoolProperty | src/main/java/org/apache/guacamole/auth/k8s/connection/K8sVNCConnection.java:286-303 | A defined property is parsed, and the environment is not consulted. Otherwise a non-empty environment variable is parsed, else the default applies. Text the parser rejects fails as `PropertyRejected` naming the property. |
| Resolver.EnabledIffLoweredTrue | src/main/java/org/apache/guacamole/auth/k8s/connection/K8sVNCConnection.java:125-127 | Provisioning is requested iff the attribute or the parameter `k8s-vnc-enabled`, lowered, reads exactly `true`. A null value and every other text leave it off. |
| Resolver.EnvVarName | src/main/java/org/apache/guacamole/auth/k8s/connection/K8sVNCConnection.java:293-294 | The fallback variable name has the property's length. It has `_` exactly where the property has `-` or `_`, every other character is the property's character upper-cased, and it has no lower-case letter. |
| Resolver.PasswordEnvVarName | src/main/java/org/apache/guacamole/auth/k8s/connection/K8sVNCConnection.java:293-295 | The password property falls back to `K8S_VNC_PASSWORD`. |
| Resolver.Merge | src/main/java/org/apache/guacamole/auth/k8s/connection/K8sVNCConnection.java:143-179 | A merge fails in exactly two ways, in this order: a skip-TLS property or environment text the boolean parser rejects (`PropertyRejected`), then a port text the integer parser rejects (`InvalidPort` with that text). Otherwise it succeeds, and the recorded port is the parse of the recorded port text. |
| Resolver.AttributesWin | src/main/java/org/apache/guacamole/auth/k8s/connection/K8sVNCConnection.java:168-179 | An attribute key that is present decides its setting, even with a null value. Skip-TLS follows a non-null attribute only. |
| Resolver.ParametersBeatProperties | src/main/java/org/apache/guacamole/auth/k8s/connection/K8sVNCConnection.java:143-166 | Without an attribute, a non-empty parameter decides, under the parameter's own name (`k8s-namespace`, `k8s-pvc-size`, `vnc-password`, `vnc-port`). |
| Resolver.PropertiesBeatEnvironment | src/main/java/org/apache/guacamole/auth/k8s/connection/K8sVNCConnection.java:286-291 | Without an attribute or a usable parameter, a defined property decides. For skip-TLS, the property's parsed boolean decides. |
| Resolver.EnvironmentBeatsDefaults | src/main/java/org/apache/guacamole/auth/k8s/connection/K8sVNCConnection.java:293-300 | Without an attribute, a parameter or a property, the non-empty environment variable named after the property decides. This holds for every text setting and for skip-TLS, whose variable is parsed as a boolean. |
| Resolver.DefaultsLast | src/main/java/org/apache/guacamole/auth/k8s/connection/K8sVNCConnection.java:143-175 | With no properties and no environment, the unset settings take their defaults (`default`, the stock image, `1Gi`, CPU `1`, `2Gi`, port `5901`, TLS verified), and the password and endpoint stay null. |
| Resolver.AttributesOnlyTiers | src/main/java/org/apache/guacamole/auth/k8s/connection/K8sVNCConnection.java:143-175 | For any properties and environment, CPU and memory come only from the attributes (else `1` and `2Gi`) and the port only from the parameter (else `5901`). Two merges that differ only in their settings agree on all three. |
| Resolver.Validate | src/main/java/org/apache/guacamole/auth/k8s/connection/K8sVNCConnection.java:181-202 | Acceptance holds iff all six checks pass. Each check, reached with all earlier ones passed, decides the outcome when it fails: a null namespace, CPU, memory or volume size is a null dereference, an invalid one is reported with its text, then a missing password, then a missing image. Every setting is carried over unchanged into a spec that satisfies `ValidSpec`. |
| Resolver.Resolve | src/main/java/org/apache/guacamole/auth/k8s/connection/K8sVNCConnection.java:143-202 | A resolved spec satisfies every syntax and non-emptiness invariant, and its port is the parse of its port text. |
| Resolver.EnabledFromStoredState | src/main/java/org/apache/guacamole/auth/k8s/connection/K8sVNCConnection.java:123-127 | Provisioning is on iff the stored parameter is `true` (any case), or the parameter is null and the stored attribute is `true`. |
| Patterns.LeadingDigits | src/main/java/org/apache/guacamole/auth/k8s/connection/K8sVNCConnection.java:184-188 | The length of the longest all-digit prefix: every character before it is a digit and the next one is not. |
| Patterns.NamespaceScanIsPattern | src/main/java/org/apache/guacamole/auth/k8s/connection/K8sVNCConnection.java:182 | The namespace scan accepts exactly the strings the namespace regex matches as a whole. |
| Patterns.CpuScanIsPattern | src/main/java/org/apache/guacamole/auth/k8s/connection/K8sVNCConnection.java:184 | The CPU scan accepts exactly the language of the CPU regex. |
| Patterns.QuantityScanIsPattern | src/main/java/org/apache/guacamole/auth/k8s/connection/K8sVNCConnection.java:186-188 | The quantity scan accepts exactly the language of the memory and volume-size regex. |
| Patterns.NamespaceExamples | src/main/java/org/apache/guacamole/auth/k8s/connection/K8sVNCConnection.java:182-183 | `Invalid_NS` is refused and `team-a1` is accepted. |
| Patterns.CpuRejects | src/main/java/org/apache/guacamole/auth/k8s/connection/K8sVNCConnection.java:184-185 | `abc` and the fractional millicore `1.5m` are refused. |
| Patterns.CpuAccepts | src/main/java/org/apache/guacamole/auth/k8s/connection/K8sVNCConnection.java:184 | `500m`, `1.5` and `2` are accepted. |
| Patterns.QuantityRejects | src/main/java/org/apache/guacamole/auth/k8s/connection/K8sVNCConnection.java:186-189 | `2Gig` and a bare `2048` are refused. |
| Patterns.QuantityAccepts | src/main/java/org/apache/guacamole/auth/k8s/connection/K8sVNCConnection.java:186 | `2Gi` and `10K` are accepted. |
| Naming.Sanitize | src/main/java/org/apache/guacamole/auth/k8s/connection/K8sVNCConnection.java:221 | Length is kept and the output uses only `[-a-z0-9]`. A position becomes `-` iff its character is not an ASCII letter or digit. Lower-case letters and digits are kept and capitals are lowered. |
| Naming.DeriveNames | src/main/java/org/apache/guacamole/auth/k8s/connection/K8sVNCConnection.java:221-227 | Pod and claim share the suffix `<user>-<connection>` behind distinct prefixes, so they never coincide. Both use only label characters. |
| Naming.SanitizeCollision | src/main/java/org/apache/guacamole/auth/k8s/connection/K8sVNCConnection.java:221 | Two identifiers sanitize alike iff they have equal length and agree position by position up to ASCII case, except where both characters are non-alphanumeric. |
| Naming.SanitizeIdempotent | src/main/java/org/apache/guacamole/auth/k8s/connection/K8sVNCConnection.java:221 | Sanitizing a sanitized name changes nothing. |
| Naming.NullConnectionIsDefault | src/main/java/org/apache/guacamole/auth/k8s/connection/K8sVNCConnection.java:224-225 | A null connection identifier and the identifier `default` give the same names. |
| Naming.NamesCollideOnPunctuation | src/main/java/org/apache/guacamole/auth/k8s/connection/K8sVNCConnection.java:225-227 | Connections `a.b` and `a_b` of one user share pod and claim. |
| Naming.NamesCollideOnCase | src/main/java/org/apache/guacamole/auth/k8s/connection/K8sVNCConnection.java:221-227 | Users `Alice` and `alice` share pod and claim. |
| Naming.NamesCollideOnBoundary | src/main/java/org/apache/guacamole/auth/k8s/connection/K8sVNCConnection.java:221-227 | User `u-v` with connection `w` and user `u` with connection `v-w` share pod and claim, though their container users differ. |
| Naming.SameInputsSameNames | src/main/java/org/apache/guacamole/auth/k8s/connection/K8sVNCConnection.java:221-227 | Names depend only on the sanitized user and the connection suffix. |
| Naming.PodNameIsLabel | src/main/java/org/apache/guacamole/auth/k8s/connection/K8sVNCConnection.java:225-227 | Pod and claim names have label syntax (no length limit) iff the connection identifier is null or ends in an ASCII letter or digit. |
| ClusterApi.AwaitPodGone | src/main/java/org/apache/guacamole/auth/k8s/connection/K8sVNCConnection.java:406-416 | The termination wait issues only reads of the pod, at most 30 of them. It stops early exactly when a read answers 404, and other errors are swallowed. |
| ClusterApi.AwaitPodGoneObserves | src/main/java/org/apache/guacamole/auth/k8s/connection/K8sVNCConnection.java:406-416 | The wait is a run of pod reads starting where it was called. None but the last answered 404, and the last answered 404 unless all 30 polls were spent. |
| ClaimReconciler.OnApiError | src/main/java/org/apache/guacamole/auth/k8s/connection/K8sVNCConnection.java:357-369 | Only a 404 leads to a creation, with the requested size and `ReadWriteOnce`. Any other code is rethrown with no call. |
| ClaimReconciler.Replace | src/main/java/org/apache/guacamole/auth/k8s/connection/K8sVNCConnection.java:342-354 | The resize succeeds iff it is accepted, refused with 422 or 403, or answered 404 followed by an accepted creation of a claim whose size parses. |
| ClaimReconciler.Expand | src/main/java/org/apache/guacamole/auth/k8s/connection/K8sVNCConnection.java:318-355 | Expansion starts by deleting the pod. It issues only calls on this claim and this pod, and at most 33 of them. |
| ClaimReconciler.ReplaceOnceGone | src/main/java/org/apache/guacamole/auth/k8s/connection/K8sVNCConnection.java:326-354 | The termination wait issues only reads of the pod, at most 30. It ends on the first 404 or after the 30th poll, and the resize follows immediately. |
| ClaimReconciler.DeletionThenResize | src/main/java/org/apache/guacamole/auth/k8s/connection/K8sVNCConnection.java:321-345 | A deletion failure other than 404 ends the reconciler with that code and no resize. A 404 leads straight to the resize. After an accepted deletion, only pod reads stand before the resize: at most 30 of them, ending on a 404 or at the 30th. |
| ClaimReconciler.EnsureClaim | src/main/java/org/apache/guacamole/auth/k8s/connection/K8sVNCConnection.java:305-370 | The reconciler starts with a read of the claim and touches only this claim and its pod. It stays within 34 calls. |
| ClaimReconciler.MissingClaimIsCreated | src/main/java/org/apache/guacamole/auth/k8s/connection/K8sVNCConnection.java:357-365 | A claim that answers 404 is created, and nothing else happens. |
| ClaimReconciler.FailedReadIsReported | src/main/java/org/apache/guacamole/auth/k8s/connection/K8sVNCConnection.java:366-368 | Any other read failure is reported with its code, with no further call. |
| ClaimReconciler.GrowsButNeverShrinks | src/main/java/org/apache/guacamole/auth/k8s/connection/K8sVNCConnection.java:311-345 | A request no larger than the current size is a no-op after the read. A larger one deletes the pod first and, unless the deletion fails, resizes the claim. |
| ClaimReconciler.RefusedResizeIsTolerated | src/main/java/org/apache/guacamole/auth/k8s/connection/K8sVNCConnection.java:346-350 | A 422 refusal of the resize still lets the connection proceed. |
| ClaimReconciler.ResizeWaitsForTermination | src/main/java/org/apache/guacamole/auth/k8s/connection/K8sVNCConnection.java:321-345 | An example: when the deletion is accepted and the first poll answers 404, the resize follows that one poll. |
| PodReconciler.Resources | src/main/java/org/apache/guacamole/auth/k8s/connection/K8sVNCConnection.java:431-439 | A resource entry is present iff its setting is non-empty, and then it holds that setting. There are no other entries. |
| PodReconciler.Environment | src/main/java/org/apache/guacamole/auth/k8s/connection/K8sVNCConnection.java:460-468 | The container gets eight variables with distinct names, in the declared order. |
| PodReconciler.BuildManifest | src/main/java/org/apache/guacamole/auth/k8s/connection/K8sVNCConnection.java:441-474 | The manifest carries the fixed pod fields and the user label. Requests equal limits equal `Resources`. The claim is mounted at the user's home directory. |
| PodReconciler.ManifestEnvironment | src/main/java/org/apache/guacamole/auth/k8s/connection/K8sVNCConnection.java:460-471 | No variable is declared twice. `HOME` is the mount path, both password variables carry the password, and uid, gid, resolution and colour depth have their fixed values. |
| PodReconciler.ManifestEnvironmentOrder | src/main/java/org/apache/guacamole/auth/k8s/connection/K8sVNCConnection.java:460-468 | The eight variables appear in declaration order. |
| PodReconciler.LookupFindsEach | src/main/java/org/apache/guacamole/auth/k8s/connection/K8sVNCConnection.java:460-468 | In an environment without repeated names, looking a name up finds that variable's value. |
| PodReconciler.ManifestFor | src/main/java/org/apache/guacamole/auth/k8s/connection/K8sVNCConnection.java:431-459 | A manifest is built iff every non-empty resource setting parses as a quantity and the port parses. A bad CPU setting is the reported error. |
| PodReconciler.LimitDiffers | src/main/java/org/apache/guacamole/auth/k8s/connection/K8sVNCConnection.java:383-399 | A missing limits map is a null dereference, and unparsable text is rejected. Otherwise a limit differs iff it does not hold the parsed value. |
| PodReconciler.HonoursIffNoDifference | src/main/java/org/apache/guacamole/auth/k8s/connection/K8sVNCConnection.java:382-399 | An empty setting is never checked. A non-empty one is honoured iff the drift check finds no difference, and a limits map holding exactly the parsed value honours it. |
| PodReconciler.NeedsRecreation | src/main/java/org/apache/guacamole/auth/k8s/connection/K8sVNCConnection.java:379-401 | Recreation is needed iff a non-empty setting is not honoured by the pod's limits. A CPU mismatch decides without looking at memory. |
| PodReconciler.Create | src/main/java/org/apache/guacamole/auth/k8s/connection/K8sVNCConnection.java:426-475 | A create call is issued iff the manifest can be built, and it carries that manifest. Success returns the created pod. |
| PodReconciler.Recreate | src/main/java/org/apache/guacamole/auth/k8s/connection/K8sVNCConnection.java:402-426 | Recreation starts by deleting the pod, touches only this pod, and stays within 32 calls. |
| PodReconciler.CreateOnceGone | src/main/java/org/apache/guacamole/auth/k8s/connection/K8sVNCConnection.java:406-418 | The termination wait issues only reads of the pod, at most 30. It ends on the first 404 or after the 30th poll, and the creation, when the manifest can be built, follows immediately. |
| PodReconciler.DeletionThenCreate | src/main/java/org/apache/guacamole/auth/k8s/connection/K8sVNCConnection.java:402-426 | A deletion failure other than 404 ends the reconciler with that code and no creation. A 404 leads straight to the creation. After an accepted deletion, only pod reads stand before the creation: at most 30 of them, ending on a 404 or at the 30th. |
| PodReconciler.EnsurePod | src/main/java/org/apache/guacamole/auth/k8s/connection/K8sVNCConnection.java:372-476 | The reconciler starts with a read of the pod. An existing pod is returned only if it needs no recreation. Any other success ends with the creation of a pod. |
| PodReconciler.MatchingPodIsKept | src/main/java/org/apache/guacamole/auth/k8s/connection/K8sVNCConnection.java:417-419 | A pod whose limits honour the request is kept after one read and no write. |
| PodReconciler.MissingPodIsCreated | src/main/java/org/apache/guacamole/auth/k8s/connection/K8sVNCConnection.java:421-475 | A pod that answers 404 is created from the request's manifest. |
| PodReconciler.FailedPodReadIsReported | src/main/java/org/apache/guacamole/auth/k8s/connection/K8sVNCConnection.java:421-423 | Any other read failure is reported, with no further call. |
| PodReconciler.DriftedPodIsRecreated | src/main/java/org/apache/guacamole/auth/k8s/connection/K8sVNCConnection.java:382-404 | A CPU-drifted pod is deleted and created anew. If the deletion answers 404, creation follows at once. |
| PodReconciler.RecreationWaitsForTermination | src/main/java/org/apache/guacamole/auth/k8s/connection/K8sVNCConnection.java:402-416 | An example: when the deletion is accepted and the first poll answers 404, the creation follows that one poll. |
| PodReconciler.HalfCpuDrifts | src/main/java/org/apache/guacamole/auth/k8s/connection/K8sVNCConnection.java:384-389 | A pod limited to half a CPU is recreated for a request of one CPU. |
| PodReconciler.CreatedPodIsKept | src/main/java/org/apache/guacamole/auth/k8s/connection/K8sVNCConnection.java:379-439 | Creation and the drift check agree: a pod created for a request is kept when it is read back for the same request. |
| Readiness.WaitForPodIp | src/main/java/org/apache/guacamole/auth/k8s/connection/K8sVNCConnection.java:478-488 | The wait issues only reads of the pod, and every read before the last found it not ready. A returned IP is the non-empty IP of a `Running` pod on the last read. A timeout happens iff all 60 reads found it pending. |
| Readiness.ReadyOnFirstRead | src/main/java/org/apache/guacamole/auth/k8s/connection/K8sVNCConnection.java:480-484 | The first read ends the wait with an IP iff the pod reports phase exactly `Running` and a non-null, non-empty IP. That IP is the answer. |
| Readiness.ReadyAfterPending | src/main/java/org/apache/guacamole/auth/k8s/connection/K8sVNCConnection.java:478-488 | A pod that becomes ready after `n` pending reads is found by read `n+1`, with exactly those reads issued. |
| Readiness.FirstConnect | src/main/java/org/apache/guacamole/auth/k8s/connection/K8sVNCConnection.java:241-253 | The answer is the first attempt that connects. The wait times out iff none of the 30 attempts does. |
| Readiness.WaitForPort | src/main/java/org/apache/guacamole/auth/k8s/connection/K8sVNCConnection.java:241-253 | The loop answers the first successful attempt, or `PortTimeout` naming the pod iff all 30 fail. It agrees with `FirstConnect`. |
| Readiness.PortOpensAfterRefusals | src/main/java/org/apache/guacamole/auth/k8s/connection/K8sVNCConnection.java:241-250 | A port that opens after `n` refusals is found on attempt `n`. |
| Connector.Raise | src/main/java/org/apache/guacamole/auth/k8s/connection/K8sVNCConnection.java:271-276 | Guacamole errors are rethrown unchanged. These are the validation failures (lines 182-202), a skip-TLS text the boolean property parser rejects, and the port-wait timeout (line 252). Every other failure is wrapped as a server error that keeps only its message, with no cause chained: an unparsable port (line 166), an out-of-range port (line 244), a refused quantity, an API error, the IP timeout (line 487) and a null dereference. |
| Connector.SessionConfiguration | src/main/java/org/apache/guacamole/auth/k8s/connection/K8sVNCConnection.java:257-262 | The proxied configuration is VNC with exactly `hostname` (the pod IP), `port` (the port text verbatim) and `password`. |
| Connector.PodRequestFor | src/main/java/org/apache/guacamole/auth/k8s/connection/K8sVNCConnection.java:233-234 | The pod reconciler gets the resolved settings, the derived names, and the raw user id for the label. |
| Connector.AwaitSession | src/main/java/org/apache/guacamole/auth/k8s/connection/K8sVNCConnection.java:236-262 | A session is returned only for a pod found ready on the last call, pointing at its IP, with a port inside 0..65535, after the VNC port there opened. An out-of-range port always fails, and not as a Guacamole error. |
| Connector.StartPod | src/main/java/org/apache/guacamole/auth/k8s/connection/K8sVNCConnection.java:233-253 | The pod step, then the waits. The trace extends the one given, and a session is returned only under the same readiness and port conditions. |
| Connector.OutOfRangePortFails | src/main/java/org/apache/guacamole/auth/k8s/connection/K8sVNCConnection.java:241-250 | With a port outside 0..65535, no connection attempt is made. After a successful IP wait the session fails with `PortOutOfRange`, and an IP-wait failure passes through unchanged. |
| Connector.OutOfRangePortWrapped | src/main/java/org/apache/guacamole/auth/k8s/connection/K8sVNCConnection.java:244-276 | The failure caused by an out-of-range port leaves `connect` wrapped as a server error, never rethrown. |
| Connector.PortOutOfRangeFailsAtOnce | src/main/java/org/apache/guacamole/auth/k8s/connection/K8sVNCConnection.java:236-276 | A pod ready after `n` pending reads with an out-of-range port fails right after the `n+1` reads, wrapped as a server error. |
| Connector.Provision | src/main/java/org/apache/guacamole/auth/k8s/connection/K8sVNCConnection.java:229-262 | The cluster part starts with a read of the claim, and a session is returned only under the same readiness conditions. |
| Connector.Connect | src/main/java/org/apache/guacamole/auth/k8s/connection/K8sVNCConnection.java:111-277 | A missing configuration fails at once with a null dereference, before the `try`, so it is not wrapped. A connection that does not request provisioning is forwarded unchanged with no cluster call. An invalid spec fails before any cluster call. A cluster call happens only for a requested connection with a valid spec, and the first call reads the claim. |
| Connector.ConnectRunsProvision | src/main/java/org/apache/guacamole/auth/k8s/connection/K8sVNCConnection.java:123-237 | A requested connection with a valid spec runs the cluster part under the names derived from its user and identifier. |
| Connector.SessionAfterPending | src/main/java/org/apache/guacamole/auth/k8s/connection/K8sVNCConnection.java:236-262 | A pod ready after `n` pending reads, with a valid port that opens at once, gives exactly that session after `n+1` reads. |
| Connector.ReturningUserReconnects | src/main/java/org/apache/guacamole/auth/k8s/connection/K8sVNCConnection.java:229-262 | When the claim is large enough and the pod already matches and runs, the session follows three reads and no write. |
| Connector.FirstConnectionProvisions | src/main/java/org/apache/guacamole/auth/k8s/connection/K8sVNCConnection.java:229-262 | On a first connection the calls are claim read, claim create, pod read, pod create, then polls until the pod runs. The session points at that pod. |
| UserContext.ProvisioningForm | src/main/java/org/apache/guacamole/auth/k8s/K8sVNCUserContext.java:57-67 | The form is named `K8S_POD_PROVISIONING`. It has one field per provisioning key, in mirroring order. The enable and skip-TLS fields are true/false choices and the rest are text. |
| UserContext.WithoutProvisioning | src/main/java/org/apache/guacamole/auth/k8s/K8sVNCUserContext.java:54 | The removal keeps exactly the forms not named like the provisioning form (ignoring case). A list without such a form is unchanged. |
| UserContext.WithoutProvisioningConcat | src/main/java/org/apache/guacamole/auth/k8s/K8sVNCUserContext.java:54 | Removal distributes over concatenation, so the kept forms keep their order. |
| UserContext.ConnectionAttributes | src/main/java/org/apache/guacamole/auth/k8s/K8sVNCUserContext.java:49-69 | The current provisioning form comes last and is the only provisioning form in the list. Before it stand exactly the host's other forms. |
| UserContext.ConnectionAttributesIdempotent | src/main/java/org/apache/guacamole/auth/k8s/K8sVNCUserContext.java:49-69 | Applying the extension to its own output changes nothing. |
| UserContext.ForeignFormsKept | src/main/java/org/apache/guacamole/auth/k8s/K8sVNCUserContext.java:49-69 | A host without a provisioning form keeps all its forms in order, with the new form appended. |
| UserContext.StaleFormReplaced | src/main/java/org/apache/guacamole/auth/k8s/K8sVNCUserContext.java:52-57 | A stale provisioning form, in any case and with any fields, is dropped wherever it stood. |
| UserContext.DirectoryGet | src/main/java/org/apache/guacamole/auth/k8s/K8sVNCUserContext.java:78-87 | The answer is null iff the identifier is absent. A connection is wrapped iff it has a configuration with protocol exactly `vnc`, and the wrapper carries the user. Unwrapping gives back the stored connection. |
| UserContext.Underlying | src/main/java/org/apache/guacamole/auth/k8s/K8sVNCUserContext.java:89-108 | `update` and `add` pass on the delegate of a wrapper, and any other connection as it is. |
| UserContext.Found | src/main/java/org/apache/guacamole/auth/k8s/K8sVNCUserContext.java:116-124 | Every entry answers some asked identifier, and every present identifier's entry is included. |
| UserContext.FoundConcat | src/main/java/org/apache/guacamole/auth/k8s/K8sVNCUserContext.java:116-124 | Looking up a concatenation is looking up each list in turn. |
| UserContext.AllFoundInOrder | src/main/java/org/apache/guacamole/auth/k8s/K8sVNCUserContext.java:116-124 | When every identifier is present, position `i` holds the entry of identifier `i`. |
| UserContext.GetAll | src/main/java/org/apache/guacamole/auth/k8s/K8sVNCUserContext.java:116-124 | The loop returns the entries of the present identifiers, in the order asked, skipping absent ones. It agrees with `Found`. |

## Left out

- The Kubernetes client setup (lines 204-219): API endpoint, TLS verification and the fallback that forces TLS off. The endpoint and skip-TLS settings are resolved but not used further, because no client is modelled.
- The proxy socket and tunnel (lines 132-137 and 264-269). The model returns the configuration the tunnel would be opened with.
- The pauses between polls and connection attempts (`Thread.sleep`). Elapsed time is not modelled; only the number of attempts is.
- Parsing of quantities, integers and boolean properties. These belong to the client library and the Java runtime, so they are passed in as opaque functions that may reject their input. For example, whether `10K` is accepted by `Quantity` is left to the supplied parser.
- `LocalEnvironment` and `System.getenv`. The property file and the process environment are passed in as maps.
- Exception message text and logging. A wrapped failure records which failure it was, standing in for the message text.
- `getActiveConnections` and `getLastActive`. They are constant stubs.
- The authentication provider, the property declarations and the user-context constructor. These are glue around the core.
- Concurrency: two connection attempts racing on the same pod or claim.
- Sanitize and EqualsIgnoreCase: case mapping is ASCII only. Java's `toLowerCase` also maps some non-ASCII characters, for example the Kelvin sign to `k`, and can change a string's length.
- Naming.Sanitize: the model assumes a default locale that maps ASCII letters the ASCII way. `toLowerCase()` at lines 221 and 225 takes no locale. Under a Turkish or Azerbaijani default locale, `I` lowers to a dotless `ı`, which the sanitizer then turns into `-`. The user `Ivan` would then give `vnc--van-…` rather than `vnc-ivan-…`. The collision lemmas hold only under this assumption.
- Resolver.EnvVarName: the same default-locale assumption for `toUpperCase()` at line 294. Under a Turkish or Azerbaijani default locale, `i` upper-cases to a dotted `İ`. `k8s-vnc-image` and `k8s-vnc-skip-tls-verify` would then fall back to differently named variables. `equalsIgnoreCase` does not depend on the locale.
- Null objects the cluster could return: a null pod status, a null container list, a null resources object and a null claim spec. A claim whose storage request is missing and a pod without a limits map are modelled.
- A null user identifier, a null attribute map passed to `setAttributes`, a null form list from the host, and a null identifier passed to `get` or `getAll`.
- UserContext.Underlying: what the host directory itself does on `update` and `add` is not modelled. The contract states only which connection is passed on.
- Connector.ReturningUserReconnects and Connector.FirstConnectionProvisions are stated for `Provision`. `Connector.ConnectRunsProvision` links them to `Connect`.
- Connector.Connect states readiness (`ReadyAtEnd`) for a successful connection. The port-open part is stated for `Provision`, which `Connect` runs.
