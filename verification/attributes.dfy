/**
 Connections as the host session broker stores them, and the attribute /
 parameter mirroring the provisioning wrapper adds on top
 (K8sVNCConnection.getAttributes and setAttributes).
 */
module Attributes {
  import opened Outcome
  import opened JavaText

  /** A Java `Map<String, String>`: a key may be absent, or present with a null value. */
  type StrMap = map<string, JString>

  /** `m.get(key)`. */
  function Get(m: StrMap, key: string): JString {
    if key in m then m[key] else Null
  }

  /** `m.getOrDefault(key, default)`: a key present with a null value yields null. */
  function GetOrDefault(m: StrMap, key: string, default: JString): JString {
    if key in m then m[key] else default
  }

  /** A stored connection configuration: protocol name and parameters. */
  datatype Configuration = Configuration(protocol: JString, parameters: StrMap)

  /** A connection of the host directory; `configuration` is None when it has none. */
  datatype Connection = Connection(identifier: JString, configuration: Option<Configuration>, attributes: StrMap)

  const EnabledKey := "k8s-vnc-enabled"
  const SkipTlsKey := "k8s-vnc-skip-tls-verify"

  /** The eight provisioning keys, each both an attribute name and a parameter name. */
  const MirrorKeys: seq<string> := [
    EnabledKey, "k8s-vnc-namespace", "k8s-vnc-cpu", "k8s-vnc-memory",
    "k8s-vnc-pvc-size", "k8s-vnc-image", "k8s-vnc-endpoint", SkipTlsKey
  ]

  /**
   Copies into `target` every key of `keys` whose value in `source` is
   non-null, overwriting what `target` held; the loop shared by both
   mirroring directions.
   */
  function MirrorInto(target: StrMap, source: StrMap, keys: seq<string>): (r: StrMap)
    ensures forall k :: k in r <==> k in target || (k in keys && Get(source, k).Str?)
    ensures forall k | k in keys && Get(source, k).Str? :: r[k] == source[k]
    ensures forall k | k in target && !(k in keys && Get(source, k).Str?) :: r[k] == target[k]
    decreases |keys|
  {
    if keys == [] then target
    else
      var k := keys[0];
      var next := if Get(source, k).Str? then target[k := source[k]] else target;
      MirrorInto(next, source, keys[1..])
  }

  /**
   The wrapper's `getAttributes`: the delegate's attributes, with every
   provisioning key overwritten by its configuration parameter when that
   parameter is non-null.
   */
  function GetAttributes(c: Connection): (r: StrMap)
    ensures c.configuration.None? ==> r == c.attributes
    ensures c.configuration.Some? ==>
      forall k | k in MirrorKeys && Get(c.configuration.value.parameters, k).Str? ::
        k in r && r[k] == c.configuration.value.parameters[k]
    ensures forall k | !(k in MirrorKeys && c.configuration.Some? && Get(c.configuration.value.parameters, k).Str?) ::
      (k in r <==> k in c.attributes) && Get(r, k) == Get(c.attributes, k)
  {
    match c.configuration
    case None => c.attributes
    case Some(cfg) => MirrorInto(c.attributes, cfg.parameters, MirrorKeys)
  }

  /**
   The wrapper's `setAttributes`: the delegate stores the new attribute map,
   and every provisioning key with a non-null attribute value is copied into
   the configuration parameters. Other parameters, the protocol and the
   identifier are untouched.
   */
  function SetAttributes(c: Connection, attrs: StrMap): (r: Connection)
    ensures r.attributes == attrs
    ensures r.identifier == c.identifier
    ensures r.configuration.Some? <==> c.configuration.Some?
    ensures c.configuration.Some? ==>
      var before := c.configuration.value;
      var after := r.configuration.value;
      && after.protocol == before.protocol
      && before.parameters.Keys <= after.parameters.Keys
      && (forall k | k in MirrorKeys && Get(attrs, k).Str? :: Get(after.parameters, k) == Get(attrs, k))
      && (forall k | !(k in MirrorKeys && Get(attrs, k).Str?) ::
            (k in after.parameters <==> k in before.parameters) && Get(after.parameters, k) == Get(before.parameters, k))
  {
    match c.configuration
    case None => c.(attributes := attrs)
    case Some(cfg) =>
      c.(attributes := attrs,
         configuration := Some(cfg.(parameters := MirrorInto(cfg.parameters, attrs, MirrorKeys))))
  }

  /**
   Writing attributes through the wrapper and reading them back returns what
   was written for every non-provisioning key and for every provisioning key
   written with a non-null value; a provisioning key written as null or left
   out reads back as the stored parameter when there is one.
   */
  lemma MirrorRoundTrip(c: Connection, attrs: StrMap)
    requires c.configuration.Some?
    ensures var back := GetAttributes(SetAttributes(c, attrs));
      var stored := c.configuration.value.parameters;
      && (forall k | k in MirrorKeys && Get(attrs, k).Str? :: Get(back, k) == Get(attrs, k))
      && (forall k | k !in MirrorKeys :: (k in back <==> k in attrs) && Get(back, k) == Get(attrs, k))
      && (forall k | k in MirrorKeys && Get(attrs, k).Null? && Get(stored, k).Str? :: Get(back, k) == Get(stored, k))
      && (forall k | k in MirrorKeys && Get(attrs, k).Null? && Get(stored, k).Null? ::
            (k in back <==> k in attrs) && Get(back, k) == Null)
  {
  }
}
