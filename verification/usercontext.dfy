/**
 The user context of the extension (K8sVNCUserContext.java): the attribute
 schema it advertises for connections, and the connection directory that
 wraps every VNC connection of the host directory in the provisioning
 connection and unwraps it again on the way back.
 */
module UserContext {
  import opened Outcome
  import opened JavaText
  import opened Attributes

  /** A field of an attribute form: free text, or one of a fixed list of options. */
  datatype FieldType = Text | Enumerated(options: seq<string>)

  datatype Field = Field(name: string, kind: FieldType)

  /** An attribute form; the host may hand over a form whose name is null. */
  datatype Form = Form(name: JString, fields: seq<Field>)

  const ProvisioningFormName := "K8S_POD_PROVISIONING"

  const BooleanOptions: seq<string> := ["true", "false"]

  /** A form the extension treats as its own: the name matches ignoring case. */
  predicate IsProvisioning(f: Form) {
    EqualsIgnoreCase(ProvisioningFormName, f.name)
  }

  /**
   The form the extension adds (lines 57-67): one field per provisioning
   key, in the order the wrapper mirrors them; the two switches are
   true/false choices and the rest free text.
   */
  function ProvisioningForm(): (f: Form)
    ensures f.name == Str(ProvisioningFormName) && IsProvisioning(f)
    ensures |f.fields| == |MirrorKeys|
    ensures forall i | 0 <= i < |MirrorKeys| :: f.fields[i].name == MirrorKeys[i]
    ensures forall i | 0 <= i < |MirrorKeys| ::
      f.fields[i].kind == (if MirrorKeys[i] in {EnabledKey, SkipTlsKey} then Enumerated(BooleanOptions) else Text)
  {
    Form(Str(ProvisioningFormName), seq(|MirrorKeys|, i requires 0 <= i < |MirrorKeys| =>
      Field(MirrorKeys[i], if MirrorKeys[i] in {EnabledKey, SkipTlsKey} then Enumerated(BooleanOptions) else Text)))
  }

  /** `removeIf` with the provisioning test: the other forms, in their order. */
  function WithoutProvisioning(forms: seq<Form>): (r: seq<Form>)
    ensures |r| <= |forms|
    ensures forall f :: f in r <==> f in forms && !IsProvisioning(f)
    ensures (forall i | 0 <= i < |forms| :: !IsProvisioning(forms[i])) ==> r == forms
  {
    if forms == [] then []
    else
      var rest := WithoutProvisioning(forms[1..]);
      assert forms == [forms[0]] + forms[1..];
      if IsProvisioning(forms[0]) then rest else [forms[0]] + rest
  }

  /** Removal works form by form: it distributes over concatenation, so the kept forms stay in order. */
  lemma {:induction false} WithoutProvisioningConcat(a: seq<Form>, b: seq<Form>)
    ensures WithoutProvisioning(a + b) == WithoutProvisioning(a) + WithoutProvisioning(b)
    decreases |a|
  {
    if a != [] {
      assert (a + b)[1..] == a[1..] + b;
      WithoutProvisioningConcat(a[1..], b);
    } else {
      assert a + b == b;
    }
  }

  /**
   `getConnectionAttributes` (lines 49-69): the host's forms without any
   form named like the provisioning form, followed by the current
   provisioning form.
   */
  function ConnectionAttributes(inherited: seq<Form>): (r: seq<Form>)
    ensures |r| > 0 && r[|r| - 1] == ProvisioningForm()
    // the provisioning form appears exactly once, at the end
    ensures forall i | 0 <= i < |r| - 1 :: !IsProvisioning(r[i])
    ensures forall f :: f in r[..|r| - 1] <==> f in inherited && !IsProvisioning(f)
  {
    var r := WithoutProvisioning(inherited) + [ProvisioningForm()];
    assert r[..|r| - 1] == WithoutProvisioning(inherited);
    assert forall i | 0 <= i < |r| - 1 :: r[i] in WithoutProvisioning(inherited);
    r
  }

  /** Asking again, with the extended list as the inherited one, changes nothing. */
  lemma ConnectionAttributesIdempotent(inherited: seq<Form>)
    ensures ConnectionAttributes(ConnectionAttributes(inherited)) == ConnectionAttributes(inherited)
  {
    WithoutProvisioningConcat(WithoutProvisioning(inherited), [ProvisioningForm()]);
    assert WithoutProvisioning([ProvisioningForm()]) == [];
  }

  /** A host that advertises no provisioning form keeps all its forms, in order, with the new one appended. */
  lemma ForeignFormsKept(inherited: seq<Form>)
    requires forall i | 0 <= i < |inherited| :: !IsProvisioning(inherited[i])
    ensures ConnectionAttributes(inherited) == inherited + [ProvisioningForm()]
  {
  }

  /** A stale provisioning form, whatever the case of its name and whatever its fields, is replaced. */
  lemma StaleFormReplaced(before: seq<Form>, stale: Form, after: seq<Form>)
    requires IsProvisioning(stale)
    ensures ConnectionAttributes(before + [stale] + after) == ConnectionAttributes(before + after)
  {
    var kept := WithoutProvisioning(before + [stale] + after);
    assert WithoutProvisioning([stale]) == [];
    calc {
      kept;
      { WithoutProvisioningConcat(before + [stale], after); }
      WithoutProvisioning(before + [stale]) + WithoutProvisioning(after);
      { WithoutProvisioningConcat(before, [stale]); }
      WithoutProvisioning(before) + WithoutProvisioning(after);
      { WithoutProvisioningConcat(before, after); }
      WithoutProvisioning(before + after);
    }
  }

  /** The host's connection directory, by identifier; an absent key is a `get` answering null. */
  type Directory = map<string, Connection>

  /**
   What the wrapping directory hands out: a host connection unchanged, or a
   host connection wrapped in the provisioning connection of the user.
   */
  datatype Entry = Plain(connection: Connection) | Provisioned(delegate: Connection, userId: string)

  /** A connection the directory wraps: it has a configuration whose protocol is exactly `vnc`. */
  predicate IsVnc(c: Connection) {
    c.configuration.Some? && c.configuration.value.protocol == Str("vnc")
  }

  /** `K8sConnectionDirectory.get` (lines 78-87). */
  function DirectoryGet(dir: Directory, userId: string, id: string): (r: Option<Entry>)
    ensures r.None? <==> id !in dir
    ensures r.Some? ==> Underlying(r.value) == dir[id]
    ensures r.Some? ==> (r.value.Provisioned? <==> IsVnc(dir[id]))
    ensures r.Some? && r.value.Provisioned? ==> r.value.userId == userId
  {
    if id !in dir then None
    else if IsVnc(dir[id]) then Some(Provisioned(dir[id], userId))
    else Some(Plain(dir[id]))
  }

  /**
   The connection `update` and `add` (lines 90-108) pass on to the host
   directory: the wrapped connection for a provisioning connection, the
   connection itself otherwise. With the second clause of `DirectoryGet`,
   a connection read and stored back reaches the host unchanged.
   */
  function Underlying(e: Entry): (c: Connection)
    ensures e.Provisioned? ==> c == e.delegate
    ensures e.Plain? ==> c == e.connection
  {
    match e
    case Plain(c) => c
    case Provisioned(d, _) => d
  }

  /** `getAll` as a definition: the entries of the identifiers found, in the order asked, skipping the others. */
  function Found(dir: Directory, userId: string, ids: seq<string>): (r: seq<Entry>)
    ensures |r| <= |ids|
    ensures forall e | e in r :: exists id | id in ids :: DirectoryGet(dir, userId, id) == Some(e)
    ensures forall id | id in ids && id in dir :: DirectoryGet(dir, userId, id).value in r
    decreases |ids|
  {
    if ids == [] then []
    else
      var init := ids[..|ids| - 1];
      var last := ids[|ids| - 1];
      assert ids == init + [last];
      var rest := Found(dir, userId, init);
      match DirectoryGet(dir, userId, last)
      case None => rest
      case Some(e) => rest + [e]
  }

  /** Looking up a concatenation of identifier lists is looking up each list in turn. */
  lemma {:induction false} FoundConcat(dir: Directory, userId: string, a: seq<string>, b: seq<string>)
    ensures Found(dir, userId, a + b) == Found(dir, userId, a) + Found(dir, userId, b)
    decreases |b|
  {
    if b == [] {
      assert a + b == a;
    } else {
      var b' := b[..|b| - 1];
      assert (a + b)[..|a + b| - 1] == a + b';
      assert (a + b)[|a + b| - 1] == b[|b| - 1];
      FoundConcat(dir, userId, a, b');
    }
  }

  /** When every identifier is present the answer has one entry per identifier, position for position. */
  lemma {:induction false} AllFoundInOrder(dir: Directory, userId: string, ids: seq<string>)
    requires forall i | 0 <= i < |ids| :: ids[i] in dir
    ensures |Found(dir, userId, ids)| == |ids|
    ensures forall i | 0 <= i < |ids| :: Found(dir, userId, ids)[i] == DirectoryGet(dir, userId, ids[i]).value
    decreases |ids|
  {
    if ids != [] {
      var init := ids[..|ids| - 1];
      AllFoundInOrder(dir, userId, init);
      var prefix := Found(dir, userId, init);
      var all := Found(dir, userId, ids);
      assert all == prefix + [DirectoryGet(dir, userId, ids[|ids| - 1]).value];
      forall i | 0 <= i < |ids|
        ensures all[i] == DirectoryGet(dir, userId, ids[i]).value
      {
        if i < |init| {
          assert all[i] == prefix[i] && ids[i] == init[i];
        }
      }
    }
  }

  /** `K8sConnectionDirectory.getAll` (lines 116-124): look each identifier up and keep the non-null answers. */
  method GetAll(dir: Directory, userId: string, ids: seq<string>) returns (connections: seq<Entry>)
    ensures connections == Found(dir, userId, ids)
    ensures |connections| <= |ids|
    ensures forall e | e in connections :: exists id | id in ids :: DirectoryGet(dir, userId, id) == Some(e)
    ensures forall id | id in ids && id in dir :: DirectoryGet(dir, userId, id).value in connections
  {
    connections := [];
    var i := 0;
    while i < |ids|
      invariant 0 <= i <= |ids|
      invariant connections == Found(dir, userId, ids[..i])
    {
      assert ids[..i + 1][..i] == ids[..i];
      var conn := DirectoryGet(dir, userId, ids[i]);
      if conn.Some? {
        connections := connections + [conn.value];
      }
      i := i + 1;
    }
    assert ids[..|ids|] == ids;
  }
}
