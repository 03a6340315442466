/** The parts of `java.lang.String` that the mapping relies on:
    suffix tests, case mapping, `equalsIgnoreCase`, `compareTo` and
    `CASE_INSENSITIVE_ORDER`. Case mapping covers the ASCII letters only. */
module Strings {

  predicate EndsWith(s: string, suffix: string)
  {
    |suffix| <= |s| && s[|s| - |suffix|..] == suffix
  }

  /** `Character.toUpperCase` on the ASCII letters. */
  function UpperChar(c: char): char
  {
    if 'a' <= c <= 'z' then (c as int - 32) as char else c
  }

  /** `Character.toLowerCase` on the ASCII letters. */
  function LowerChar(c: char): char
  {
    if 'A' <= c <= 'Z' then (c as int + 32) as char else c
  }

  /** The key both case-insensitive comparisons of `String` reduce a character to:
      lower case of upper case. */
  function FoldChar(c: char): char
  {
    LowerChar(UpperChar(c))
  }

  function ToUpperCase(s: string): string
  {
    seq(|s|, i requires 0 <= i < |s| => UpperChar(s[i]))
  }

  function FoldCase(s: string): string
  {
    seq(|s|, i requires 0 <= i < |s| => FoldChar(s[i]))
  }

  /** `a.equalsIgnoreCase(b)`: same length and, position by position, the
      characters are equal, equal in upper case, or equal in lower case of upper case. */
  predicate EqualsIgnoreCase(a: string, b: string)
  {
    |a| == |b| &&
    forall i :: 0 <= i < |a| ==>
      a[i] == b[i] || UpperChar(a[i]) == UpperChar(b[i]) || FoldChar(a[i]) == FoldChar(b[i])
  }

  /** `a.compareTo(b)`: the difference of the first differing characters,
      else the difference of the lengths. */
  function CompareTo(a: string, b: string): int
  {
    if |a| == 0 || |b| == 0 then |a| - |b|
    else if a[0] != b[0] then a[0] as int - b[0] as int
    else CompareTo(a[1..], b[1..])
  }

  /** `String.CASE_INSENSITIVE_ORDER.compare(a, b)`, character by character as the JDK does it. */
  function CompareIgnoreCase(a: string, b: string): int
  {
    if |a| == 0 || |b| == 0 then |a| - |b|
    else if a[0] != b[0] && UpperChar(a[0]) != UpperChar(b[0]) && FoldChar(a[0]) != FoldChar(b[0])
    then FoldChar(a[0]) as int - FoldChar(b[0]) as int
    else CompareIgnoreCase(a[1..], b[1..])
  }

  lemma {:induction false} CompareToZero(a: string, b: string)
    ensures CompareTo(a, b) == 0 <==> a == b
  {
    if |a| != 0 && |b| != 0 && a[0] == b[0] {
      CompareToZero(a[1..], b[1..]);
      if a[1..] == b[1..] {
        assert a == [a[0]] + a[1..] && b == [b[0]] + b[1..];
      }
    }
  }

  lemma {:induction false} CompareToAntisymmetric(a: string, b: string)
    ensures CompareTo(a, b) == -CompareTo(b, a)
  {
    if |a| != 0 && |b| != 0 && a[0] == b[0] {
      CompareToAntisymmetric(a[1..], b[1..]);
    }
  }

  lemma {:induction false} CompareToTransitive(a: string, b: string, c: string)
    requires CompareTo(a, b) <= 0 && CompareTo(b, c) <= 0
    ensures CompareTo(a, c) <= 0
  {
    if |a| != 0 && |b| != 0 && |c| != 0 && a[0] == b[0] && b[0] == c[0] {
      CompareToTransitive(a[1..], b[1..], c[1..]);
    }
  }

  lemma CompareToTotal(a: string, b: string)
    ensures CompareTo(a, b) <= 0 || CompareTo(b, a) <= 0
  {
    CompareToAntisymmetric(a, b);
  }

  /** `CASE_INSENSITIVE_ORDER` is `compareTo` on the case-folded strings;
      so it inherits the total-preorder laws proved above. */
  lemma {:induction false} CompareIgnoreCaseIsFoldedCompareTo(a: string, b: string)
    ensures CompareIgnoreCase(a, b) == CompareTo(FoldCase(a), FoldCase(b))
  {
    if |a| != 0 && |b| != 0 {
      assert FoldCase(a)[1..] == FoldCase(a[1..]);
      assert FoldCase(b)[1..] == FoldCase(b[1..]);
      CompareIgnoreCaseIsFoldedCompareTo(a[1..], b[1..]);
    }
  }

  /** Two strings are `equalsIgnoreCase` exactly when `CASE_INSENSITIVE_ORDER` ranks them equal. */
  lemma EqualsIgnoreCaseIffCompareZero(a: string, b: string)
    ensures EqualsIgnoreCase(a, b) <==> CompareIgnoreCase(a, b) == 0
  {
    CompareIgnoreCaseIsFoldedCompareTo(a, b);
    CompareToZero(FoldCase(a), FoldCase(b));
    if EqualsIgnoreCase(a, b) {
      assert FoldCase(a) == FoldCase(b);
    }
    if FoldCase(a) == FoldCase(b) {
      forall i | 0 <= i < |a|
        ensures a[i] == b[i] || UpperChar(a[i]) == UpperChar(b[i]) || FoldChar(a[i]) == FoldChar(b[i])
      {
        assert FoldCase(a)[i] == FoldCase(b)[i];
      }
    }
  }
}
