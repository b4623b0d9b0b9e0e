/**
 The three regular expressions `connect` validates its settings with
 (K8sVNCConnection.java lines 182-189), written twice: once as regular
 expression values with the usual whole-string matching semantics (Java's
 `String.matches`), and once as the direct character scans the resolver
 uses. The lemmas at the end prove that each scan accepts exactly the
 language of its regular expression.
 */
module Patterns {
  import opened JavaText

  /** Character classes appearing in the source's regular expressions. */
  datatype CharClass =
    | Digit          // [0-9]
    | LowerAlnum     // [a-z0-9]
    | LabelChar      // [-a-z0-9]
    | OneOf(chars: string)

  predicate InClass(k: CharClass, c: char) {
    match k
    case Digit => IsDigit(c)
    case LowerAlnum => IsLowerAlnum(c)
    case LabelChar => IsLabelChar(c)
    case OneOf(cs) => c in cs
  }

  /** Every character of `s` is in class `k`. */
  predicate AllIn(k: CharClass, s: string) {
    forall i | 0 <= i < |s| :: InClass(k, s[i])
  }

  datatype Regex =
    | Epsilon
    | Class(k: CharClass)
    | Concat(left: Regex, right: Regex)
    | Union(left: Regex, right: Regex)
    | Star(body: Regex)

  /** `r+` */
  function Plus(r: Regex): Regex {
    Concat(r, Star(r))
  }

  /** `r?` */
  function Opt(r: Regex): Regex {
    Union(r, Epsilon)
  }

  /** `s` as a whole belongs to the language of `r`. */
  ghost predicate Matches(r: Regex, s: string)
    decreases r, |s|
  {
    match r
    case Epsilon => s == []
    case Class(k) => |s| == 1 && InClass(k, s[0])
    case Concat(a, b) => exists i :: 0 <= i <= |s| && Matches(a, s[..i]) && Matches(b, s[i..])
    case Union(a, b) => Matches(a, s) || Matches(b, s)
    case Star(a) => s == [] || exists i :: 0 < i <= |s| && Matches(a, s[..i]) && Matches(Star(a), s[i..])
  }

  /** `[0-9]+` */
  const DigitsPattern: Regex := Plus(Class(Digit))

  /** `^[a-z0-9]([-a-z0-9]*[a-z0-9])?$`, the namespace syntax. */
  const NamespacePattern: Regex :=
    Concat(Class(LowerAlnum), Opt(Concat(Star(Class(LabelChar)), Class(LowerAlnum))))

  /** `^[0-9]+m?$|^[0-9]+(\.[0-9]+)?$`, the CPU syntax. */
  const CpuPattern: Regex :=
    Union(Concat(DigitsPattern, Opt(Class(OneOf("m")))),
          Concat(DigitsPattern, Opt(Concat(Class(OneOf(".")), DigitsPattern))))

  /** `^[0-9]+[KMGTPE]i?$`, the memory and volume-size syntax. */
  const QuantityPattern: Regex :=
    Concat(Concat(DigitsPattern, Class(OneOf("KMGTPE"))), Opt(Class(OneOf("i"))))

  /** Length of the longest prefix of `s` made of decimal digits. */
  function LeadingDigits(s: string): (n: nat)
    ensures n <= |s|
    ensures AllIn(Digit, s[..n])
    ensures n < |s| ==> !IsDigit(s[n])
  {
    if |s| == 0 || !IsDigit(s[0]) then 0
    else
      var m := LeadingDigits(s[1..]);
      assert s[..m + 1] == [s[0]] + s[1..][..m];
      m + 1
  }

  /** Scan for the namespace syntax: a non-empty run of `[-a-z0-9]` that starts and ends with `[a-z0-9]`. */
  predicate IsNamespace(s: string) {
    && |s| > 0
    && IsLowerAlnum(s[0])
    && IsLowerAlnum(s[|s| - 1])
    && AllIn(LabelChar, s)
  }

  /** Scan for the CPU syntax: digits, then nothing, an `m`, or a dot and more digits. */
  predicate IsCpu(s: string) {
    var n := LeadingDigits(s);
    && 0 < n
    && (|| n == |s|
        || (n + 1 == |s| && s[n] == 'm')
        || (n + 1 < |s| && s[n] == '.' && AllIn(Digit, s[n + 1..])))
  }

  /** Scan for the quantity syntax: digits, one of `KMGTPE`, then an optional `i`. */
  predicate IsQuantity(s: string) {
    var n := LeadingDigits(s);
    && 0 < n < |s|
    && s[n] in "KMGTPE"
    && (n + 1 == |s| || (n + 2 == |s| && s[n + 1] == 'i'))
  }

  lemma AllInConcat(k: CharClass, a: string, b: string)
    requires AllIn(k, a) && AllIn(k, b)
    ensures AllIn(k, a + b)
  {
    forall i | 0 <= i < |a + b| ensures InClass(k, (a + b)[i]) {
      if i >= |a| {
        assert (a + b)[i] == b[i - |a|];
      }
    }
  }

  // ---------------------------------------------------------------------
  // Helper facts about the regular-expression semantics.

  lemma ConcatIntro(a: Regex, b: Regex, s: string, i: nat)
    requires i <= |s| && Matches(a, s[..i]) && Matches(b, s[i..])
    ensures Matches(Concat(a, b), s)
  {
  }

  lemma ConcatElim(a: Regex, b: Regex, s: string) returns (i: nat)
    requires Matches(Concat(a, b), s)
    ensures i <= |s| && Matches(a, s[..i]) && Matches(b, s[i..])
  {
    i :| 0 <= i <= |s| && Matches(a, s[..i]) && Matches(b, s[i..]);
  }

  lemma {:induction false} StarOfClass(k: CharClass, s: string)
    ensures Matches(Star(Class(k)), s) <==> AllIn(k, s)
    decreases |s|
  {
    if s != [] {
      StarOfClass(k, s[1..]);
      assert s[..1] == [s[0]];
      if AllIn(k, s) {
        assert AllIn(k, s[1..]);
        assert Matches(Class(k), s[..1]) && Matches(Star(Class(k)), s[1..]);
      }
      if Matches(Star(Class(k)), s) {
        var i :| 0 < i <= |s| && Matches(Class(k), s[..i]) && Matches(Star(Class(k)), s[i..]);
        assert i == 1;
        forall j | 0 <= j < |s| ensures InClass(k, s[j]) {
          if j > 0 {
            assert s[j] == s[1..][j - 1];
          }
        }
      }
    }
  }

  lemma PlusOfClass(k: CharClass, s: string)
    ensures Matches(Plus(Class(k)), s) <==> |s| > 0 && AllIn(k, s)
  {
    if Matches(Plus(Class(k)), s) {
      var i := ConcatElim(Class(k), Star(Class(k)), s);
      assert i == 1;
      StarOfClass(k, s[1..]);
      forall j | 0 <= j < |s| ensures InClass(k, s[j]) {
        if j > 0 {
          assert s[j] == s[1..][j - 1];
        }
      }
    }
    if |s| > 0 && AllIn(k, s) {
      StarOfClass(k, s[1..]);
      assert s[..1] == [s[0]];
      ConcatIntro(Class(k), Star(Class(k)), s, 1);
    }
  }

  /** A prefix of digits followed by a non-digit (or the end) is the whole leading digit run. */
  lemma LeadingDigitsAt(s: string, i: nat)
    requires i <= |s| && AllIn(Digit, s[..i])
    requires i < |s| ==> !IsDigit(s[i])
    ensures LeadingDigits(s) == i
  {
    var n := LeadingDigits(s);
    assert forall j | 0 <= j < i :: s[..i][j] == s[j];
    assert forall j | 0 <= j < n :: s[..n][j] == s[j];
  }

  /** `c?` matches the empty string and the one-character string `c` only. */
  lemma OptionalChar(c: char, s: string)
    ensures Matches(Opt(Class(OneOf([c]))), s) <==> s == [] || s == [c]
  {
    if s == [c] {
      assert Matches(Class(OneOf([c])), s);
    }
  }

  lemma LeadingDigitsOfDigits(s: string)
    requires AllIn(Digit, s)
    ensures LeadingDigits(s) == |s|
  {
    assert s[..|s|] == s;
    LeadingDigitsAt(s, |s|);
  }

  // ---------------------------------------------------------------------
  // Each scan decides exactly its regular expression.

  lemma NamespaceScanIsPattern(s: string)
    ensures IsNamespace(s) <==> Matches(NamespacePattern, s)
  {
    var tail := Concat(Star(Class(LabelChar)), Class(LowerAlnum));
    if IsNamespace(s) {
      assert s[..1] == [s[0]];
      var rest := s[1..];
      if rest != [] {
        var k := |rest| - 1;
        assert AllIn(LabelChar, rest[..k]) by {
          forall j | 0 <= j < k ensures IsLabelChar(rest[..k][j]) {
            assert rest[..k][j] == s[j + 1];
          }
        }
        StarOfClass(LabelChar, rest[..k]);
        assert rest[k..] == [s[|s| - 1]];
        ConcatIntro(Star(Class(LabelChar)), Class(LowerAlnum), rest, k);
      }
      assert Matches(Opt(tail), rest);
      ConcatIntro(Class(LowerAlnum), Opt(tail), s, 1);
    }
    if Matches(NamespacePattern, s) {
      var i := ConcatElim(Class(LowerAlnum), Opt(tail), s);
      assert i == 1 && IsLowerAlnum(s[0]);
      var rest := s[1..];
      if rest == [] {
        assert |s| == 1;
      } else {
        assert Matches(tail, rest);
        var k := ConcatElim(Star(Class(LabelChar)), Class(LowerAlnum), rest);
        assert k == |rest| - 1;
        StarOfClass(LabelChar, rest[..k]);
        assert IsLowerAlnum(s[|s| - 1]) by {
          assert rest[k..][0] == s[|s| - 1];
        }
        forall j | 0 <= j < |s| ensures IsLabelChar(s[j]) {
          if 0 < j < |s| - 1 {
            assert s[j] == rest[..k][j - 1];
          }
        }
      }
    }
  }

  lemma CpuScanIsPattern(s: string)
    ensures IsCpu(s) <==> Matches(CpuPattern, s)
  {
    var milli := Opt(Class(OneOf("m")));
    var fraction := Concat(Class(OneOf(".")), DigitsPattern);
    var n := LeadingDigits(s);
    if IsCpu(s) {
      PlusOfClass(Digit, s[..n]);
      if n == |s| {
        assert Matches(milli, s[n..]);
        ConcatIntro(DigitsPattern, milli, s, n);
      } else if n + 1 == |s| && s[n] == 'm' {
        assert s[n..] == ['m'];
        assert Matches(milli, s[n..]);
        ConcatIntro(DigitsPattern, milli, s, n);
      } else {
        var rest := s[n..];
        assert rest[..1] == ['.'];
        assert rest[1..] == s[n + 1..];
        PlusOfClass(Digit, rest[1..]);
        ConcatIntro(Class(OneOf(".")), DigitsPattern, rest, 1);
        assert Matches(Opt(fraction), rest);
        ConcatIntro(DigitsPattern, Opt(fraction), s, n);
      }
    }
    if Matches(CpuPattern, s) {
      if Matches(Concat(DigitsPattern, milli), s) {
        var i := ConcatElim(DigitsPattern, milli, s);
        PlusOfClass(Digit, s[..i]);
        OptionalChar('m', s[i..]);
        if i < |s| {
          assert s[i] == s[i..][0];
        }
        LeadingDigitsAt(s, i);
      } else {
        var i := ConcatElim(DigitsPattern, Opt(fraction), s);
        PlusOfClass(Digit, s[..i]);
        var rest := s[i..];
        if rest != [] {
          var j := ConcatElim(Class(OneOf(".")), DigitsPattern, rest);
          assert j == 1 && rest[0] == '.';
          assert s[i] == '.';
          assert rest[1..] == s[i + 1..];
          PlusOfClass(Digit, s[i + 1..]);
        }
        LeadingDigitsAt(s, i);
      }
    }
  }

  lemma QuantityScanIsPattern(s: string)
    ensures IsQuantity(s) <==> Matches(QuantityPattern, s)
  {
    var unit := Class(OneOf("KMGTPE"));
    var binary := Opt(Class(OneOf("i")));
    var n := LeadingDigits(s);
    if IsQuantity(s) {
      PlusOfClass(Digit, s[..n]);
      var head := s[..n + 1];
      assert head[..n] == s[..n];
      assert head[n..] == [s[n]];
      ConcatIntro(DigitsPattern, unit, head, n);
      if n + 1 < |s| {
        assert s[n + 1..] == ['i'];
      }
      OptionalChar('i', s[n + 1..]);
      ConcatIntro(Concat(DigitsPattern, unit), binary, s, n + 1);
    }
    if Matches(QuantityPattern, s) {
      var k := ConcatElim(Concat(DigitsPattern, unit), binary, s);
      var head := s[..k];
      var i := ConcatElim(DigitsPattern, unit, head);
      assert i == k - 1;
      assert head[..i] == s[..i];
      PlusOfClass(Digit, s[..i]);
      assert s[i] == head[i..][0];
      assert s[i] in "KMGTPE";
      LeadingDigitsAt(s, i);
      OptionalChar('i', s[k..]);
      if k < |s| {
        assert s[k] == s[k..][0];
      }
    }
  }

  /** Sample namespaces, decided against the regular expression. */
  lemma NamespaceExamples()
    ensures !Matches(NamespacePattern, "Invalid_NS")
    ensures Matches(NamespacePattern, "team-a1")
  {
    assert !IsLowerAlnum('I');
    NamespaceScanIsPattern("Invalid_NS");
    NamespaceScanIsPattern("team-a1");
  }

  /** CPU examples: letters and a fractional millicore are refused. */
  lemma CpuRejects()
    ensures !Matches(CpuPattern, "abc") && !Matches(CpuPattern, "1.5m")
  {
    LeadingDigitsAt("abc", 0);
    CpuScanIsPattern("abc");
    LeadingDigitsAt("1.5m", 1);
    assert !IsDigit("1.5m"[2..][1]);
    CpuScanIsPattern("1.5m");
  }

  /** CPU examples: plain cores, millicores and decimal cores pass. */
  lemma CpuAccepts()
    ensures Matches(CpuPattern, "500m") && Matches(CpuPattern, "1.5") && Matches(CpuPattern, "2")
  {
    LeadingDigitsAt("500m", 3);
    CpuScanIsPattern("500m");
    LeadingDigitsAt("1.5", 1);
    CpuScanIsPattern("1.5");
    LeadingDigitsAt("2", 1);
    CpuScanIsPattern("2");
  }

  /** Quantity examples: a suffix is required, and nothing may follow its optional `i`. */
  lemma QuantityRejects()
    ensures !Matches(QuantityPattern, "2Gig") && !Matches(QuantityPattern, "2048")
  {
    LeadingDigitsAt("2Gig", 1);
    QuantityScanIsPattern("2Gig");
    LeadingDigitsAt("2048", 4);
    QuantityScanIsPattern("2048");
  }

  /** Quantity examples: a binary or a decimal suffix passes. */
  lemma QuantityAccepts()
    ensures Matches(QuantityPattern, "2Gi") && Matches(QuantityPattern, "10K")
  {
    LeadingDigitsAt("2Gi", 1);
    QuantityScanIsPattern("2Gi");
    LeadingDigitsAt("10K", 2);
    QuantityScanIsPattern("10K");
  }
}
