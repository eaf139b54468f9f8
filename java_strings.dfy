/**
 * The parts of `java.lang.String`, `java.lang.Boolean` and commons-lang `StringUtils`
 * that the film query relies on, restricted to ASCII case mapping and ASCII whitespace.
 */
module JavaStrings {

  /** `Character.toUpperCase` on the ASCII range; every other character maps to itself. */
  function ToUpper(c: char): char {
    if 'a' <= c <= 'z' then (c as int - 32) as char else c
  }

  /** `Character.toLowerCase` on the ASCII range; every other character maps to itself. */
  function ToLower(c: char): char {
    if 'A' <= c <= 'Z' then (c as int + 32) as char else c
  }

  /** The string with every character lowered. */
  function Lowered(s: string): string {
    seq(|s|, i requires 0 <= i < |s| => ToLower(s[i]))
  }

  /** The per-character test of `String.regionMatches(true, ...)`. */
  predicate CharEqualsIgnoreCase(a: char, b: char) {
    a == b || ToUpper(a) == ToUpper(b) || ToLower(ToUpper(a)) == ToLower(ToUpper(b))
  }

  /** `String.equalsIgnoreCase`: same length, and the characters agree pairwise ignoring case. */
  predicate EqualsIgnoreCase(a: string, b: string) {
    |a| == |b| && forall i :: 0 <= i < |a| ==> CharEqualsIgnoreCase(a[i], b[i])
  }

  lemma CharEqualsIgnoreCaseIsLowerEquality(a: char, b: char)
    ensures CharEqualsIgnoreCase(a, b) <==> ToLower(a) == ToLower(b)
  {
  }

  /** Ignoring case means comparing the lowered strings. */
  lemma EqualsIgnoreCaseIsLowerEquality(a: string, b: string)
    ensures EqualsIgnoreCase(a, b) <==> Lowered(a) == Lowered(b)
  {
    if |a| == |b| {
      forall i | 0 <= i < |a| {
        CharEqualsIgnoreCaseIsLowerEquality(a[i], b[i]);
      }
      if Lowered(a) == Lowered(b) {
        forall i | 0 <= i < |a| ensures CharEqualsIgnoreCase(a[i], b[i]) {
          assert Lowered(a)[i] == Lowered(b)[i];
        }
      }
    } else {
      assert |Lowered(a)| != |Lowered(b)|;
    }
  }

  /** Case-insensitive equality is an equivalence relation. */
  lemma EqualsIgnoreCaseIsEquivalence(a: string, b: string, c: string)
    ensures EqualsIgnoreCase(a, a)
    ensures EqualsIgnoreCase(a, b) ==> EqualsIgnoreCase(b, a)
    ensures EqualsIgnoreCase(a, b) && EqualsIgnoreCase(b, c) ==> EqualsIgnoreCase(a, c)
  {
    EqualsIgnoreCaseIsLowerEquality(a, a);
    EqualsIgnoreCaseIsLowerEquality(a, b);
    EqualsIgnoreCaseIsLowerEquality(b, a);
    EqualsIgnoreCaseIsLowerEquality(b, c);
    EqualsIgnoreCaseIsLowerEquality(a, c);
  }

  /** `Boolean.parseBoolean` of a non-null string. */
  predicate ParseBoolean(s: string) {
    EqualsIgnoreCase(s, "true")
  }

  /** `parseBoolean` accepts exactly the spellings of "true" in any case; everything else is false. */
  lemma ParseBooleanAcceptsOnlyTrue(s: string)
    ensures ParseBoolean(s) <==> Lowered(s) == "true"
  {
    EqualsIgnoreCaseIsLowerEquality(s, "true");
    assert Lowered("true") == "true";
  }

  /** `String.compareTo`: the difference of the first differing characters, else of the lengths. */
  function CompareTo(a: string, b: string): int {
    if |a| == 0 || |b| == 0 then |a| - |b|
    else if a[0] != b[0] then a[0] as int - b[0] as int
    else CompareTo(a[1..], b[1..])
  }

  /** `compareTo` is zero exactly on equal strings. */
  lemma {:induction false} CompareToZeroIffEqual(a: string, b: string)
    ensures CompareTo(a, b) == 0 <==> a == b
  {
    if |a| == 0 || |b| == 0 {
    } else if a[0] != b[0] {
    } else {
      CompareToZeroIffEqual(a[1..], b[1..]);
      if a[1..] == b[1..] {
        assert a == [a[0]] + a[1..] && b == [b[0]] + b[1..];
      }
    }
  }

  /** Swapping the operands negates `compareTo`. */
  lemma {:induction false} CompareToAntisymmetric(a: string, b: string)
    ensures CompareTo(b, a) == -CompareTo(a, b)
  {
    if |a| == 0 || |b| == 0 {
    } else if a[0] != b[0] {
    } else {
      CompareToAntisymmetric(a[1..], b[1..]);
    }
  }

  /** "Not after" under `compareTo` is transitive, so `compareTo` orders strings totally. */
  lemma {:induction false} CompareToTransitive(a: string, b: string, c: string)
    requires CompareTo(a, b) <= 0 && CompareTo(b, c) <= 0
    ensures CompareTo(a, c) <= 0
  {
    if |a| == 0 || |b| == 0 || |c| == 0 {
    } else if a[0] != b[0] || b[0] != c[0] {
    } else {
      CompareToTransitive(a[1..], b[1..], c[1..]);
    }
  }

  /** `Character.isWhitespace` on the ASCII range. */
  predicate IsWhitespace(c: char) {
    c == ' ' || '\t' <= c <= '\r' || '\U{1C}' <= c <= '\U{1F}'
  }

  /** `StringUtils.isBlank` of a non-null string: empty or whitespace only. */
  predicate IsBlank(s: string) {
    forall i :: 0 <= i < |s| ==> IsWhitespace(s[i])
  }
}
