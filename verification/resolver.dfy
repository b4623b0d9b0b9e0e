/**
 Resolution of the desired desktop from the connection's parameters and
 attributes, the Guacamole properties and the process environment, and its
 validation (K8sVNCConnection.connect, lines 126-202, with getParam and
 getProperty, lines 279-303).
 */
module Resolver {
  import opened Outcome
  import opened JavaText
  import opened Patterns
  import opened Attributes
  import opened Platform

  const DefaultNamespace := "default"
  const DefaultImage := "guacamole-k8s-vnc:latest"
  const DefaultPvcSize := "1Gi"
  const DefaultCpu := "1"
  const DefaultMemory := "2Gi"
  const DefaultPort := "5901"

  /** The desktop a connection asks for, after merging and validation. */
  datatype Spec = Spec(
    namespace: string,
    password: string,
    image: string,
    pvcSize: string,
    endpoint: JString,
    skipTls: bool,
    cpu: string,
    memory: string,
    portText: string,
    port: int)

  /** The merged settings before validation; any of the strings may still be null. */
  datatype Draft = Draft(
    namespace: JString,
    password: JString,
    image: JString,
    pvcSize: JString,
    endpoint: JString,
    skipTls: bool,
    cpu: JString,
    memory: JString,
    portText: string,
    port: int)

  /** The invariants every resolved spec satisfies. */
  predicate ValidSpec(s: Spec) {
    && IsNamespace(s.namespace)
    && IsCpu(s.cpu)
    && IsQuantity(s.memory)
    && IsQuantity(s.pvcSize)
    && |s.password| > 0
    && |s.image| > 0
  }

  /** Provisioning is requested when the attribute or the parameter `k8s-vnc-enabled` is `true`, ignoring case. */
  predicate IsEnabled(attrs: StrMap, params: StrMap) {
    IsTrue(Get(attrs, EnabledKey)) || IsTrue(Get(params, EnabledKey))
  }

  /**
   The enablement gate: provisioning is requested iff the attribute or the
   parameter, lowered, reads exactly `true`; null and every other text
   leave it off.
   */
  lemma EnabledIffLoweredTrue(attrs: StrMap, params: StrMap)
    ensures IsEnabled(attrs, params) <==>
      (Get(attrs, EnabledKey).Str? && LowerString(Get(attrs, EnabledKey).chars) == "true")
      || (Get(params, EnabledKey).Str? && LowerString(Get(params, EnabledKey).chars) == "true")
  {
    EqualsIgnoreCaseLowered("true", Get(attrs, EnabledKey));
    EqualsIgnoreCaseLowered("true", Get(params, EnabledKey));
    assert LowerString("true") == "true";
  }

  /** `getParam`: the parameter when it is non-null and non-empty, otherwise the default. */
  function GetParam(params: StrMap, name: string, default: JString): (r: JString)
    ensures NonEmpty(Get(params, name)) ==> r == Get(params, name)
    // an absent, null or empty parameter yields the default
    ensures !NonEmpty(Get(params, name)) ==> r == default
    ensures default.Str? ==> r.Str?
  {
    var v := Get(params, name);
    if NonEmpty(v) then v else default
  }

  /**
   The environment variable consulted for a property: its name upper-cased,
   with `-` replaced by `_`; the default locale is assumed to upper-case
   ASCII letters the ASCII way.
   */
  function EnvVarName(property: string): (r: string)
    ensures |r| == |property|
    ensures forall i | 0 <= i < |r| :: r[i] == '_' <==> property[i] == '-' || property[i] == '_'
    ensures forall i | 0 <= i < |r| :: !('a' <= r[i] <= 'z')
    ensures forall i | 0 <= i < |r| && property[i] != '-' :: r[i] == UpperAscii(property[i])
  {
    seq(|property|, i requires 0 <= i < |property| => if property[i] == '-' then '_' else UpperAscii(property[i]))
  }

  /** The environment variable's value, when it is set and non-empty. */
  function EnvValue(settings: Settings, property: string): (r: Option<string>)
    ensures r.Some? <==> EnvVarName(property) in settings.environment && settings.environment[EnvVarName(property)] != ""
    ensures r.Some? ==> r.value == settings.environment[EnvVarName(property)] && |r.value| > 0
  {
    var name := EnvVarName(property);
    if name in settings.environment && settings.environment[name] != "" then Some(settings.environment[name]) else None
  }

  /** `getProperty` for a string property: the property, else the non-empty environment variable, else the default. */
  function GetProperty(settings: Settings, property: string, default: JString): (r: JString)
    ensures property in settings.properties ==> r == Str(settings.properties[property])
    ensures property !in settings.properties && EnvValue(settings, property).Some? ==> r == Str(EnvValue(settings, property).value)
    ensures property !in settings.properties && EnvValue(settings, property).None? ==> r == default
    // a string property never makes the answer null when the default is not null
    ensures default.Str? ==> r.Str?
  {
    if property in settings.properties then Str(settings.properties[property])
    else match EnvValue(settings, property)
      case Some(v) => Str(v)
      case None => default
  }

  /** `getProperty` for a boolean property; text the parser rejects is an error. */
  function GetBoolProperty(lib: Library, settings: Settings, property: string, default: bool): (r: Result<bool, Failure>)
    ensures r.Err? ==> r.error == PropertyRejected(property)
    // a defined property is parsed and the environment is not consulted
    ensures property in settings.properties ==> (r.Ok? <==> lib.parseBool(settings.properties[property]).Some?)
    ensures property in settings.properties && r.Ok? ==> Some(r.value) == lib.parseBool(settings.properties[property])
    ensures property !in settings.properties && EnvValue(settings, property).Some? ==>
      (r.Ok? <==> lib.parseBool(EnvValue(settings, property).value).Some?)
      && (r.Ok? ==> Some(r.value) == lib.parseBool(EnvValue(settings, property).value))
    ensures property !in settings.properties && EnvValue(settings, property).None? ==> r == Ok(default)
  {
    var text := if property in settings.properties then Some(settings.properties[property]) else EnvValue(settings, property);
    match text
    case None => Ok(default)
    case Some(t) =>
      match lib.parseBool(t)
      case None => Err(PropertyRejected(property))
      case Some(b) => Ok(b)
  }

  /**
   Lines 144-179: the parameter / property / environment / default tier,
   the port parse, then the attribute overrides. `attrs` is the wrapper's
   view of the attributes (see GetAttributes).
   */
  function Merge(lib: Library, settings: Settings, params: StrMap, attrs: StrMap): (r: Result<Draft, Failure>)
    ensures r.Ok? ==> lib.parseInt(r.value.portText) == Some(r.value.port)
    // exactly two failures, in this order: a rejected skip-TLS text, then an unparsable port
    ensures GetBoolProperty(lib, settings, SkipTlsKey, false).Err? ==> r == Err(PropertyRejected(SkipTlsKey))
    ensures GetBoolProperty(lib, settings, SkipTlsKey, false).Ok? && lib.parseInt(GetParam(params, "vnc-port", Str(DefaultPort)).chars).None? ==>
      r == Err(InvalidPort(GetParam(params, "vnc-port", Str(DefaultPort)).chars))
    ensures r.Ok? <==> GetBoolProperty(lib, settings, SkipTlsKey, false).Ok? && lib.parseInt(GetParam(params, "vnc-port", Str(DefaultPort)).chars).Some?
  {
    var namespace := GetParam(params, "k8s-namespace", GetProperty(settings, "k8s-vnc-namespace", Str(DefaultNamespace)));
    var password := GetParam(params, "vnc-password", GetProperty(settings, "k8s-vnc-password", Null));
    var image := GetParam(params, "k8s-vnc-image", GetProperty(settings, "k8s-vnc-image", Str(DefaultImage)));
    var pvcSize := GetParam(params, "k8s-pvc-size", GetProperty(settings, "k8s-vnc-pvc-size", Str(DefaultPvcSize)));
    var endpoint := GetParam(params, "k8s-vnc-endpoint", GetProperty(settings, "k8s-vnc-endpoint", Null));
    match GetBoolProperty(lib, settings, SkipTlsKey, false)
    case Err(f) => Err(f)
    case Ok(skipDefault) =>
      var skipTls := IsTrue(GetParam(params, SkipTlsKey, Str(if skipDefault then "true" else "false")));
      var portText := GetParam(params, "vnc-port", Str(DefaultPort)).chars;
      match lib.parseInt(portText)
      case None => Err(InvalidPort(portText))
      case Some(port) =>
        var skipAttr := Get(attrs, SkipTlsKey);
        Ok(Draft(
          namespace := GetOrDefault(attrs, "k8s-vnc-namespace", namespace),
          password := password,
          image := GetOrDefault(attrs, "k8s-vnc-image", image),
          pvcSize := GetOrDefault(attrs, "k8s-vnc-pvc-size", pvcSize),
          endpoint := GetOrDefault(attrs, "k8s-vnc-endpoint", endpoint),
          skipTls := if skipAttr.Str? then IsTrue(skipAttr) else skipTls,
          cpu := GetOrDefault(attrs, "k8s-vnc-cpu", Str(DefaultCpu)),
          memory := GetOrDefault(attrs, "k8s-vnc-memory", Str(DefaultMemory)),
          portText := portText,
          port := port))
  }

  predicate NamespaceOk(x: JString) { x.Str? && IsNamespace(x.chars) }
  predicate CpuOk(x: JString) { x.Str? && IsCpu(x.chars) }
  predicate QuantityOk(x: JString) { x.Str? && IsQuantity(x.chars) }

  /**
   Lines 182-202: namespace, CPU, memory and volume size are checked in that
   order against their syntax, then the password and the image must be
   non-empty; the first failing check decides the error. A null setting fails
   its check by dereferencing null.
   */
  function Validate(d: Draft): (r: Result<Spec, Failure>)
    ensures r.Ok? <==>
      NamespaceOk(d.namespace) && CpuOk(d.cpu) && QuantityOk(d.memory) && QuantityOk(d.pvcSize)
      && NonEmpty(d.password) && NonEmpty(d.image)
    ensures r.Ok? ==> ValidSpec(r.value)
    ensures r.Ok? ==>
      && Str(r.value.namespace) == d.namespace && Str(r.value.cpu) == d.cpu
      && Str(r.value.memory) == d.memory && Str(r.value.pvcSize) == d.pvcSize
      && Str(r.value.password) == d.password && Str(r.value.image) == d.image
      && r.value.endpoint == d.endpoint && r.value.skipTls == d.skipTls
      && r.value.portText == d.portText && r.value.port == d.port
    // each check, reached with every earlier one passed, decides the outcome when it fails
    ensures d.namespace.Null? ==> r == Err(NullDereference)
    ensures d.namespace.Str? && !IsNamespace(d.namespace.chars) ==> r == Err(InvalidNamespace(d.namespace.chars))
    ensures NamespaceOk(d.namespace) && d.cpu.Null? ==> r == Err(NullDereference)
    ensures NamespaceOk(d.namespace) && d.cpu.Str? && !IsCpu(d.cpu.chars) ==> r == Err(InvalidCpu(d.cpu.chars))
    ensures NamespaceOk(d.namespace) && CpuOk(d.cpu) && d.memory.Null? ==> r == Err(NullDereference)
    ensures NamespaceOk(d.namespace) && CpuOk(d.cpu) && d.memory.Str? && !IsQuantity(d.memory.chars) ==>
      r == Err(InvalidMemory(d.memory.chars))
    ensures NamespaceOk(d.namespace) && CpuOk(d.cpu) && QuantityOk(d.memory) && d.pvcSize.Null? ==> r == Err(NullDereference)
    ensures NamespaceOk(d.namespace) && CpuOk(d.cpu) && QuantityOk(d.memory) && d.pvcSize.Str? && !IsQuantity(d.pvcSize.chars) ==>
      r == Err(InvalidPvcSize(d.pvcSize.chars))
    ensures NamespaceOk(d.namespace) && CpuOk(d.cpu) && QuantityOk(d.memory) && QuantityOk(d.pvcSize) && !NonEmpty(d.password) ==>
      r == Err(MissingPassword)
    ensures (NamespaceOk(d.namespace) && CpuOk(d.cpu) && QuantityOk(d.memory) && QuantityOk(d.pvcSize)
             && NonEmpty(d.password) && !NonEmpty(d.image)) ==> r == Err(MissingImage)
    ensures r.Err? && r.error.InvalidCpu? ==> NamespaceOk(d.namespace) && Str(r.error.cpu) == d.cpu
    ensures r.Err? && r.error.InvalidMemory? ==> NamespaceOk(d.namespace) && CpuOk(d.cpu)
    ensures r.Err? && r.error.InvalidPvcSize? ==> NamespaceOk(d.namespace) && CpuOk(d.cpu) && QuantityOk(d.memory)
    ensures r.Err? && r.error.MissingPassword? ==>
      NamespaceOk(d.namespace) && CpuOk(d.cpu) && QuantityOk(d.memory) && QuantityOk(d.pvcSize)
    ensures r.Err? && r.error.MissingImage? ==>
      NamespaceOk(d.namespace) && CpuOk(d.cpu) && QuantityOk(d.memory) && QuantityOk(d.pvcSize) && NonEmpty(d.password)
    ensures r.Err? ==>
      r.error.NullDereference? || r.error.InvalidNamespace? || r.error.InvalidCpu? || r.error.InvalidMemory?
      || r.error.InvalidPvcSize? || r.error.MissingPassword? || r.error.MissingImage?
  {
    if d.namespace.Null? then Err(NullDereference)
    else if !IsNamespace(d.namespace.chars) then Err(InvalidNamespace(d.namespace.chars))
    else if d.cpu.Null? then Err(NullDereference)
    else if !IsCpu(d.cpu.chars) then Err(InvalidCpu(d.cpu.chars))
    else if d.memory.Null? then Err(NullDereference)
    else if !IsQuantity(d.memory.chars) then Err(InvalidMemory(d.memory.chars))
    else if d.pvcSize.Null? then Err(NullDereference)
    else if !IsQuantity(d.pvcSize.chars) then Err(InvalidPvcSize(d.pvcSize.chars))
    else if !NonEmpty(d.password) then Err(MissingPassword)
    else if !NonEmpty(d.image) then Err(MissingImage)
    else Ok(Spec(d.namespace.chars, d.password.chars, d.image.chars, d.pvcSize.chars, d.endpoint,
                 d.skipTls, d.cpu.chars, d.memory.chars, d.portText, d.port))
  }

  /** The whole resolution: merge, then validate. */
  function Resolve(lib: Library, settings: Settings, params: StrMap, attrs: StrMap): (r: Result<Spec, Failure>)
    ensures r.Ok? ==> ValidSpec(r.value) && lib.parseInt(r.value.portText) == Some(r.value.port)
  {
    match Merge(lib, settings, params, attrs)
    case Err(f) => Err(f)
    case Ok(d) => Validate(d)
  }

  // ---------------------------------------------------------------------
  // Precedence of the configuration tiers.

  /** A present attribute key decides its setting, even when its value is null; skip-TLS follows a non-null attribute. */
  lemma AttributesWin(lib: Library, settings: Settings, params: StrMap, attrs: StrMap)
    requires Merge(lib, settings, params, attrs).Ok?
    ensures var d := Merge(lib, settings, params, attrs).value;
      && ("k8s-vnc-namespace" in attrs ==> d.namespace == attrs["k8s-vnc-namespace"])
      && ("k8s-vnc-image" in attrs ==> d.image == attrs["k8s-vnc-image"])
      && ("k8s-vnc-pvc-size" in attrs ==> d.pvcSize == attrs["k8s-vnc-pvc-size"])
      && ("k8s-vnc-endpoint" in attrs ==> d.endpoint == attrs["k8s-vnc-endpoint"])
      && ("k8s-vnc-cpu" in attrs ==> d.cpu == attrs["k8s-vnc-cpu"])
      && ("k8s-vnc-memory" in attrs ==> d.memory == attrs["k8s-vnc-memory"])
      && (Get(attrs, SkipTlsKey).Str? ==> d.skipTls == IsTrue(Get(attrs, SkipTlsKey)))
  {
  }

  /**
   Without an attribute, a non-null, non-empty parameter decides its
   setting. The namespace and volume-size parameters are named
   `k8s-namespace` and `k8s-pvc-size`; the password and the port have no
   attribute at all.
   */
  lemma ParametersBeatProperties(lib: Library, settings: Settings, params: StrMap, attrs: StrMap)
    requires Merge(lib, settings, params, attrs).Ok?
    ensures var d := Merge(lib, settings, params, attrs).value;
      && ("k8s-vnc-namespace" !in attrs && NonEmpty(Get(params, "k8s-namespace")) ==> d.namespace == Get(params, "k8s-namespace"))
      && (NonEmpty(Get(params, "vnc-password")) ==> d.password == Get(params, "vnc-password"))
      && ("k8s-vnc-image" !in attrs && NonEmpty(Get(params, "k8s-vnc-image")) ==> d.image == Get(params, "k8s-vnc-image"))
      && ("k8s-vnc-pvc-size" !in attrs && NonEmpty(Get(params, "k8s-pvc-size")) ==> d.pvcSize == Get(params, "k8s-pvc-size"))
      && ("k8s-vnc-endpoint" !in attrs && NonEmpty(Get(params, "k8s-vnc-endpoint")) ==> d.endpoint == Get(params, "k8s-vnc-endpoint"))
      && (Get(attrs, SkipTlsKey).Null? && NonEmpty(Get(params, SkipTlsKey)) ==> d.skipTls == IsTrue(Get(params, SkipTlsKey)))
      && (NonEmpty(Get(params, "vnc-port")) ==> Str(d.portText) == Get(params, "vnc-port"))
  {
  }

  /** The environment variable the password property falls back to. */
  lemma PasswordEnvVarName()
    ensures EnvVarName("k8s-vnc-password") == "K8S_VNC_PASSWORD"
  {
    var p := "k8s-vnc-password";
    assert forall i | 0 <= i < |p| :: EnvVarName(p)[i] == "K8S_VNC_PASSWORD"[i];
  }

  /** Without an attribute or a usable parameter, a property defined in `guacamole.properties` decides. */
  lemma PropertiesBeatEnvironment(lib: Library, settings: Settings, params: StrMap, attrs: StrMap)
    requires Merge(lib, settings, params, attrs).Ok?
    ensures var d := Merge(lib, settings, params, attrs).value;
      var props := settings.properties;
      && (("k8s-vnc-namespace" !in attrs && !NonEmpty(Get(params, "k8s-namespace")) && "k8s-vnc-namespace" in props)
            ==> d.namespace == Str(props["k8s-vnc-namespace"]))
      && ((!NonEmpty(Get(params, "vnc-password")) && "k8s-vnc-password" in props)
            ==> d.password == Str(props["k8s-vnc-password"]))
      && (("k8s-vnc-image" !in attrs && !NonEmpty(Get(params, "k8s-vnc-image")) && "k8s-vnc-image" in props)
            ==> d.image == Str(props["k8s-vnc-image"]))
      && (("k8s-vnc-pvc-size" !in attrs && !NonEmpty(Get(params, "k8s-pvc-size")) && "k8s-vnc-pvc-size" in props)
            ==> d.pvcSize == Str(props["k8s-vnc-pvc-size"]))
      && (("k8s-vnc-endpoint" !in attrs && !NonEmpty(Get(params, "k8s-vnc-endpoint")) && "k8s-vnc-endpoint" in props)
            ==> d.endpoint == Str(props["k8s-vnc-endpoint"]))
      && ((Get(attrs, SkipTlsKey).Null? && !NonEmpty(Get(params, SkipTlsKey)) && SkipTlsKey in props)
            ==> Some(d.skipTls) == lib.parseBool(props[SkipTlsKey]))
  {
  }

  /**
   Without an attribute, a usable parameter or a property, the non-empty
   environment variable named after the property decides.
   */
  lemma EnvironmentBeatsDefaults(lib: Library, settings: Settings, params: StrMap, attrs: StrMap)
    requires Merge(lib, settings, params, attrs).Ok?
    ensures var d := Merge(lib, settings, params, attrs).value;
      var props := settings.properties;
      var env := settings.environment;
      && (("k8s-vnc-namespace" !in attrs && !NonEmpty(Get(params, "k8s-namespace")) && "k8s-vnc-namespace" !in props
            && EnvVarName("k8s-vnc-namespace") in env && env[EnvVarName("k8s-vnc-namespace")] != "")
            ==> d.namespace == Str(env[EnvVarName("k8s-vnc-namespace")]))
      && ((!NonEmpty(Get(params, "vnc-password")) && "k8s-vnc-password" !in props
            && EnvVarName("k8s-vnc-password") in env && env[EnvVarName("k8s-vnc-password")] != "")
            ==> d.password == Str(env[EnvVarName("k8s-vnc-password")]))
      && (("k8s-vnc-image" !in attrs && !NonEmpty(Get(params, "k8s-vnc-image")) && "k8s-vnc-image" !in props
            && EnvVarName("k8s-vnc-image") in env && env[EnvVarName("k8s-vnc-image")] != "")
            ==> d.image == Str(env[EnvVarName("k8s-vnc-image")]))
      && (("k8s-vnc-pvc-size" !in attrs && !NonEmpty(Get(params, "k8s-pvc-size")) && "k8s-vnc-pvc-size" !in props
            && EnvVarName("k8s-vnc-pvc-size") in env && env[EnvVarName("k8s-vnc-pvc-size")] != "")
            ==> d.pvcSize == Str(env[EnvVarName("k8s-vnc-pvc-size")]))
      && (("k8s-vnc-endpoint" !in attrs && !NonEmpty(Get(params, "k8s-vnc-endpoint")) && "k8s-vnc-endpoint" !in props
            && EnvVarName("k8s-vnc-endpoint") in env && env[EnvVarName("k8s-vnc-endpoint")] != "")
            ==> d.endpoint == Str(env[EnvVarName("k8s-vnc-endpoint")]))
      && ((Get(attrs, SkipTlsKey).Null? && !NonEmpty(Get(params, SkipTlsKey)) && SkipTlsKey !in props
            && EnvValue(settings, SkipTlsKey).Some?)
            ==> Some(d.skipTls) == lib.parseBool(EnvValue(settings, SkipTlsKey).value))
  {
  }

  /**
   With no attribute, parameter, property or environment variable the
   hard-coded defaults apply. `AttributesOnlyTiers` states the CPU, memory
   and port clauses for any properties and environment.
   */
  lemma DefaultsLast(lib: Library, settings: Settings, params: StrMap, attrs: StrMap)
    requires Merge(lib, settings, params, attrs).Ok?
    requires settings.properties == map[] && settings.environment == map[]
    ensures var d := Merge(lib, settings, params, attrs).value;
      && ("k8s-vnc-namespace" !in attrs && !NonEmpty(Get(params, "k8s-namespace")) ==> d.namespace == Str(DefaultNamespace))
      && (!NonEmpty(Get(params, "vnc-password")) ==> d.password == Null)
      && ("k8s-vnc-image" !in attrs && !NonEmpty(Get(params, "k8s-vnc-image")) ==> d.image == Str(DefaultImage))
      && ("k8s-vnc-pvc-size" !in attrs && !NonEmpty(Get(params, "k8s-pvc-size")) ==> d.pvcSize == Str(DefaultPvcSize))
      && ("k8s-vnc-endpoint" !in attrs && !NonEmpty(Get(params, "k8s-vnc-endpoint")) ==> d.endpoint == Null)
      && (Get(attrs, SkipTlsKey).Null? && !NonEmpty(Get(params, SkipTlsKey)) ==> !d.skipTls)
      && (!NonEmpty(Get(params, "vnc-port")) ==> d.portText == DefaultPort)
      && ("k8s-vnc-cpu" !in attrs ==> d.cpu == Str(DefaultCpu))
      && ("k8s-vnc-memory" !in attrs ==> d.memory == Str(DefaultMemory))
  {
  }

  /**
   CPU and memory come only from the attributes, and the port only from the
   parameter: for any properties and environment, a missing attribute gives
   the hard-coded CPU and memory and a missing port parameter gives the
   default port, and two merges that differ only in their settings agree on
   all three.
   */
  lemma AttributesOnlyTiers(lib: Library, settings: Settings, other: Settings, params: StrMap, attrs: StrMap)
    requires Merge(lib, settings, params, attrs).Ok? && Merge(lib, other, params, attrs).Ok?
    ensures var d := Merge(lib, settings, params, attrs).value;
      && ("k8s-vnc-cpu" !in attrs ==> d.cpu == Str(DefaultCpu))
      && ("k8s-vnc-memory" !in attrs ==> d.memory == Str(DefaultMemory))
      && (!NonEmpty(Get(params, "vnc-port")) ==> d.portText == DefaultPort)
    ensures var d := Merge(lib, settings, params, attrs).value;
      var e := Merge(lib, other, params, attrs).value;
      d.cpu == e.cpu && d.memory == e.memory && d.portText == e.portText && d.port == e.port
  {
  }

  /**
   Enablement as seen from the stored connection: because the wrapper's
   attribute view lets a non-null `k8s-vnc-enabled` parameter overwrite the
   attribute, a stored attribute `true` counts only while no such parameter
   exists.
   */
  lemma EnabledFromStoredState(c: Connection)
    requires c.configuration.Some?
    ensures var params := c.configuration.value.parameters;
      IsEnabled(GetAttributes(c), params) <==>
        IsTrue(Get(params, EnabledKey)) || (Get(params, EnabledKey).Null? && IsTrue(Get(c.attributes, EnabledKey)))
  {
  }
}
