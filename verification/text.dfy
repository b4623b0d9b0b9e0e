/**
 Java strings and the few string operations the extension relies on:
 null-able references, ASCII case mapping and `equalsIgnoreCase`.
 Case mapping is modelled over ASCII only.
 */
module JavaText {

  /** A Java `String` reference: null, or a character sequence. */
  datatype JString = Null | Str(chars: string)

  predicate IsDigit(c: char) {
    '0' <= c <= '9'
  }

  predicate IsUpperAscii(c: char) {
    'A' <= c <= 'Z'
  }

  /** The character class `[a-z0-9]`. */
  predicate IsLowerAlnum(c: char) {
    'a' <= c <= 'z' || IsDigit(c)
  }

  /** The character class `[-a-z0-9]` of RFC 1123 host-name labels. */
  predicate IsLabelChar(c: char) {
    IsLowerAlnum(c) || c == '-'
  }

  /** `Character.toLowerCase` restricted to ASCII. */
  function LowerAscii(c: char): (d: char)
    ensures IsUpperAscii(c) ==> 'a' <= d <= 'z' && d as int - c as int == 32
    ensures !IsUpperAscii(c) ==> d == c
    ensures !IsUpperAscii(d)
  {
    if IsUpperAscii(c) then (c as int + 32) as char else c
  }

  /** `Character.toUpperCase` restricted to ASCII. */
  function UpperAscii(c: char): (d: char)
    ensures 'a' <= c <= 'z' ==> IsUpperAscii(d) && c as int - d as int == 32
    ensures !('a' <= c <= 'z') ==> d == c
  {
    if 'a' <= c <= 'z' then (c as int - 32) as char else c
  }

  /** `s.equalsIgnoreCase(t)` for non-null strings. */
  predicate SameIgnoringCase(s: string, t: string) {
    |s| == |t| && forall i | 0 <= i < |s| :: LowerAscii(s[i]) == LowerAscii(t[i])
  }

  /** `literal.equalsIgnoreCase(x)`: false when `x` is null. */
  predicate EqualsIgnoreCase(literal: string, x: JString) {
    x.Str? && SameIgnoringCase(literal, x.chars)
  }

  /** A string with every ASCII capital lowered. */
  function LowerString(s: string): (r: string)
    ensures |r| == |s| && forall i | 0 <= i < |s| :: r[i] == LowerAscii(s[i])
  {
    seq(|s|, i requires 0 <= i < |s| => LowerAscii(s[i]))
  }

  /**
   `equalsIgnoreCase` against an independent reference: two strings are
   equal ignoring case iff their lowered forms are equal, and null equals
   nothing.
   */
  lemma EqualsIgnoreCaseLowered(literal: string, x: JString)
    ensures EqualsIgnoreCase(literal, x) <==> x.Str? && LowerString(literal) == LowerString(x.chars)
  {
    if x.Str? && |x.chars| == |literal| {
      if SameIgnoringCase(literal, x.chars) {
        assert LowerString(literal) == LowerString(x.chars);
      }
      if LowerString(literal) == LowerString(x.chars) {
        forall i | 0 <= i < |literal| ensures LowerAscii(literal[i]) == LowerAscii(x.chars[i]) {
          assert LowerString(literal)[i] == LowerString(x.chars)[i];
        }
      }
    } else if x.Str? {
      assert |LowerString(literal)| != |LowerString(x.chars)|;
    }
  }

  /** The spellings `"true".equalsIgnoreCase` accepts and a few it refuses. */
  lemma TrueSpellings()
    ensures IsTrue(Str("true")) && IsTrue(Str("TRUE")) && IsTrue(Str("True")) && IsTrue(Str("tRuE"))
    ensures !IsTrue(Null) && !IsTrue(Str("")) && !IsTrue(Str("yes")) && !IsTrue(Str("1")) && !IsTrue(Str("true "))
  {
    assert LowerAscii('T') == 't' && LowerAscii('R') == 'r' && LowerAscii('U') == 'u' && LowerAscii('E') == 'e';
    assert LowerAscii('y') == 'y';
    assert LowerAscii('1') == '1';
  }

  /** `"true".equalsIgnoreCase(x)`. */
  predicate IsTrue(x: JString) {
    EqualsIgnoreCase("true", x)
  }

  /** `x != null && !x.isEmpty()`. */
  predicate NonEmpty(x: JString) {
    x.Str? && |x.chars| > 0
  }
}
