/**
 Derivation of the pod and volume-claim names from the user and the
 connection (K8sVNCConnection.java lines 221-227).
 */
module Naming {
  import opened JavaText
  import opened Patterns

  /** A character that survives sanitization (after ASCII lower-casing). */
  predicate IsAsciiAlnum(c: char) {
    IsLowerAlnum(LowerAscii(c))
  }

  /**
   `s.toLowerCase().replaceAll("[^a-z0-9]", "-")`, with ASCII case mapping:
   the default locale is assumed to lower ASCII letters the ASCII way.
   */
  function Sanitize(s: string): (r: string)
    ensures |r| == |s|
    ensures AllIn(LabelChar, r)
    ensures forall i | 0 <= i < |s| :: (r[i] == '-' <==> !IsAsciiAlnum(s[i]))
    ensures forall i | 0 <= i < |s| && IsLowerAlnum(s[i]) :: r[i] == s[i]
    ensures forall i | 0 <= i < |s| && IsUpperAscii(s[i]) :: r[i] as int == s[i] as int + 32
  {
    seq(|s|, i requires 0 <= i < |s| => if IsAsciiAlnum(s[i]) then LowerAscii(s[i]) else '-')
  }

  /** The names of the resources that belong to one (user, connection) pair. */
  datatype ResourceNames = ResourceNames(user: string, pod: string, claim: string)

  /** The sanitized connection identifier; a null identifier becomes `default`. */
  function ConnectionSuffix(connectionId: JString): string {
    match connectionId
    case Null => "default"
    case Str(id) => Sanitize(id)
  }

  /**
   `user` is the sanitized user identifier (also the container user), `pod`
   is `vnc-<user>-<connection>` and `claim` is `pvc-<user>-<connection>`.
   */
  function DeriveNames(userId: string, connectionId: JString): (r: ResourceNames)
    ensures r.user == Sanitize(userId)
    ensures |r.pod| == |r.claim| == |userId| + |ConnectionSuffix(connectionId)| + 5
    ensures r.pod[..4] == "vnc-" && r.claim[..4] == "pvc-"
    ensures r.pod[4..] == r.claim[4..] == r.user + "-" + ConnectionSuffix(connectionId)
    ensures r.pod != r.claim
    ensures AllIn(LabelChar, r.pod) && AllIn(LabelChar, r.claim)
  {
    var u := Sanitize(userId);
    var c := ConnectionSuffix(connectionId);
    var suffix := u + "-" + c;
    assert AllIn(LabelChar, c);
    AllInConcat(LabelChar, u, "-");
    AllInConcat(LabelChar, u + "-", c);
    AllInConcat(LabelChar, "vnc-", suffix);
    AllInConcat(LabelChar, "pvc-", suffix);
    var r := ResourceNames(u, "vnc-" + suffix, "pvc-" + suffix);
    assert r.pod[0] != r.claim[0];
    r
  }

  /** Two characters the sanitizer maps to the same output character. */
  predicate SanitizeAlike(a: char, b: char) {
    if IsAsciiAlnum(a) || IsAsciiAlnum(b) then LowerAscii(a) == LowerAscii(b) else true
  }

  /**
   Exactly which identifiers collide: those of equal length whose characters
   agree position by position up to ASCII case, except where both are
   outside `[A-Za-z0-9]`.
   */
  lemma SanitizeCollision(s: string, t: string)
    ensures Sanitize(s) == Sanitize(t) <==> |s| == |t| && forall i | 0 <= i < |s| :: SanitizeAlike(s[i], t[i])
  {
    if Sanitize(s) == Sanitize(t) {
      forall i | 0 <= i < |s| ensures SanitizeAlike(s[i], t[i]) {
        assert Sanitize(s)[i] == Sanitize(t)[i];
      }
    }
  }

  /** Sanitizing twice is sanitizing once. */
  lemma SanitizeIdempotent(s: string)
    ensures Sanitize(Sanitize(s)) == Sanitize(s)
  {
  }

  /** A null connection identifier and the identifier `default` name the same resources. */
  lemma NullConnectionIsDefault(userId: string)
    ensures DeriveNames(userId, Null) == DeriveNames(userId, Str("default"))
  {
    assert Sanitize("default") == "default";
  }

  /**
   Derivation is not injective: identifiers that differ only in characters
   outside `[A-Za-z0-9]` or in case collide, and so do pairs that differ in
   where the user/connection boundary falls.
   */
  lemma NamesCollideOnPunctuation()
    ensures DeriveNames("alice", Str("a.b")) == DeriveNames("alice", Str("a_b"))
  {
    SanitizeCollision("a.b", "a_b");
    SameInputsSameNames("alice", Str("a.b"), "alice", Str("a_b"));
  }

  lemma NamesCollideOnCase()
    ensures DeriveNames("Alice", Str("7")) == DeriveNames("alice", Str("7"))
  {
    SanitizeCollision("Alice", "alice");
    SameInputsSameNames("Alice", Str("7"), "alice", Str("7"));
  }

  /**
   Users `u-v` and `u` share the pod and the claim of connections `w` and
   `v-w`, though their container users differ.
   */
  lemma NamesCollideOnBoundary(u: string, v: string, w: string)
    requires AllIn(LabelChar, u) && AllIn(LabelChar, v) && AllIn(LabelChar, w)
    ensures DeriveNames(u + "-" + v, Str(w)).pod == DeriveNames(u, Str(v + "-" + w)).pod
    ensures DeriveNames(u + "-" + v, Str(w)).claim == DeriveNames(u, Str(v + "-" + w)).claim
    ensures DeriveNames(u + "-" + v, Str(w)).user != DeriveNames(u, Str(v + "-" + w)).user
  {
    SanitizeKeepsJoin(u, v);
    SanitizeKeepsJoin(v, w);
    SanitizeKeepsLabels(u);
    SanitizeKeepsLabels(w);
    assert (u + "-" + v) + "-" + w == u + "-" + (v + "-" + w);
    SameSuffixSameNames(u + "-" + v, Str(w), u, Str(v + "-" + w));
  }

  /** Pairs whose user and connection identifiers sanitize alike get the same names. */
  lemma SameInputsSameNames(userA: string, connectionA: JString, userB: string, connectionB: JString)
    requires Sanitize(userA) == Sanitize(userB) && ConnectionSuffix(connectionA) == ConnectionSuffix(connectionB)
    ensures DeriveNames(userA, connectionA) == DeriveNames(userB, connectionB)
  {
    SameSuffixSameNames(userA, connectionA, userB, connectionB);
  }

  /** Pairs whose sanitized user and connection join to the same text get the same pod and claim. */
  lemma SameSuffixSameNames(userA: string, connectionA: JString, userB: string, connectionB: JString)
    requires Sanitize(userA) + "-" + ConnectionSuffix(connectionA) == Sanitize(userB) + "-" + ConnectionSuffix(connectionB)
    ensures DeriveNames(userA, connectionA).pod == DeriveNames(userB, connectionB).pod
    ensures DeriveNames(userA, connectionA).claim == DeriveNames(userB, connectionB).claim
  {
    NamesSpelledOut(userA, connectionA);
    NamesSpelledOut(userB, connectionB);
  }

  /** A string already made of `[-a-z0-9]` is left as it is. */
  lemma SanitizeKeepsLabels(s: string)
    requires AllIn(LabelChar, s)
    ensures Sanitize(s) == s
  {
    assert forall i | 0 <= i < |s| :: InClass(LabelChar, s[i]);
  }

  /** Two such strings joined by `-` are left as they are too. */
  lemma SanitizeKeepsJoin(a: string, b: string)
    requires AllIn(LabelChar, a) && AllIn(LabelChar, b)
    ensures Sanitize(a + "-" + b) == a + "-" + b
  {
    AllInConcat(LabelChar, a, "-");
    AllInConcat(LabelChar, a + "-", b);
    SanitizeKeepsLabels(a + "-" + b);
  }

  /** The two names written out as concatenations. */
  lemma NamesSpelledOut(userId: string, connectionId: JString)
    ensures DeriveNames(userId, connectionId).pod == "vnc-" + Sanitize(userId) + "-" + ConnectionSuffix(connectionId)
    ensures DeriveNames(userId, connectionId).claim == "pvc-" + Sanitize(userId) + "-" + ConnectionSuffix(connectionId)
  {
    var r := DeriveNames(userId, connectionId);
    assert r.pod == r.pod[..4] + r.pod[4..];
    assert r.claim == r.claim[..4] + r.claim[4..];
  }

  /**
   The derived pod name is a valid RFC 1123 label (section 2.1 of RFC 1123,
   the same syntax the namespace is checked against, without the length
   limit) exactly when the connection identifier is null or ends in an ASCII
   letter or digit; otherwise the name ends in `-` and Kubernetes would
   reject it. The claim name has the same suffix and behaves alike.
   */
  lemma {:induction false} PodNameIsLabel(userId: string, connectionId: JString)
    ensures var r := DeriveNames(userId, connectionId);
      IsNamespace(r.pod) && IsNamespace(r.claim) <==>
        connectionId.Null? || (|connectionId.chars| > 0 && IsAsciiAlnum(connectionId.chars[|connectionId.chars| - 1]))
  {
    var r := DeriveNames(userId, connectionId);
    var c := ConnectionSuffix(connectionId);
    NamesSpelledOut(userId, connectionId);
    assert r.pod[|r.pod| - 1] == r.claim[|r.claim| - 1];
    if |c| == 0 {
      assert r.pod[|r.pod| - 1] == '-';
    } else {
      assert r.pod[|r.pod| - 1] == c[|c| - 1];
      if connectionId.Str? {
        assert IsLowerAlnum(c[|c| - 1]) <==> IsAsciiAlnum(connectionId.chars[|c| - 1]);
      }
    }
  }
}
