/** Character classes of ASCII text as Python's `str` predicates see them, and
    the structure of a SWIFT code: the "XXX" headquarters suffix and the
    candidate headquarters code a branch derives from its first 8 characters. */
module Codes {

  predicate IsUpperLetter(c: char) { 'A' <= c <= 'Z' }
  predicate IsLowerLetter(c: char) { 'a' <= c <= 'z' }
  predicate IsLetter(c: char) { IsUpperLetter(c) || IsLowerLetter(c) }
  predicate IsDigit(c: char) { '0' <= c <= '9' }

  /** `str.isalpha`: non-empty and letters only. */
  predicate IsAlpha(s: string)
  {
    |s| > 0 && forall i :: 0 <= i < |s| ==> IsLetter(s[i])
  }

  /** `str.isalnum`: non-empty and letters or digits only. */
  predicate IsAlnum(s: string)
  {
    |s| > 0 && forall i :: 0 <= i < |s| ==> IsLetter(s[i]) || IsDigit(s[i])
  }

  /** `str.isupper`: at least one cased character and no lowercase one. */
  predicate IsUpper(s: string)
  {
    (exists i :: 0 <= i < |s| && IsLetter(s[i])) &&
    forall i :: 0 <= i < |s| ==> !IsLowerLetter(s[i])
  }

  function ToUpperChar(c: char): char
  {
    if IsLowerLetter(c) then (c as int - 32) as char else c
  }

  function ToLowerChar(c: char): char
  {
    if IsUpperLetter(c) then (c as int + 32) as char else c
  }

  /** `str.upper` on ASCII text. */
  function Upper(s: string): (r: string)
    ensures |r| == |s|
  {
    seq(|s|, i requires 0 <= i < |s| => ToUpperChar(s[i]))
  }

  /** `str.lower` on ASCII text. */
  function Lower(s: string): (r: string)
    ensures |r| == |s|
  {
    seq(|s|, i requires 0 <= i < |s| => ToLowerChar(s[i]))
  }

  /** Python's definition of `isupper` restated through case mapping: the text is
      unchanged by `upper()` (nothing lowercase) but changed by `lower()`
      (something cased). So `"!@"` and `""` are not upper, `"A1"` is. */
  lemma UpperIffCaseMappingFixes(s: string)
    ensures IsUpper(s) <==> (Upper(s) == s && Lower(s) != s)
  {
    if IsUpper(s) {
      assert Upper(s) == s by {
        forall i | 0 <= i < |s| ensures Upper(s)[i] == s[i] { }
      }
      var i :| 0 <= i < |s| && IsLetter(s[i]);
      assert Lower(s)[i] != s[i];
    }
    if Upper(s) == s && Lower(s) != s {
      forall i | 0 <= i < |s| ensures !IsLowerLetter(s[i]) {
        assert Upper(s)[i] == s[i];
      }
      var i :| 0 <= i < |s| && Lower(s)[i] != s[i];
      assert IsLetter(s[i]);
    }
  }

  const HQ_SUFFIX: string := "XXX"

  /** `str.endswith("XXX")`. */
  predicate EndsWithXXX(s: string)
  {
    |s| >= 3 && s[|s| - 3..] == HQ_SUFFIX
  }

  /** Python's `s[-3:]`: the last three characters, or all of a shorter text. */
  function Last3(s: string): string
  {
    if |s| >= 3 then s[|s| - 3..] else s
  }

  /** Comparing the slice `s[-3:]` with "XXX" is the same as `endswith("XXX")`,
      also for texts shorter than three characters. */
  lemma Last3IsSuffixTest(s: string)
    ensures Last3(s) == HQ_SUFFIX <==> EndsWithXXX(s)
  {
  }

  /** `code[:8] + "XXX"`: the first 8 characters (all of a shorter code) and "XXX". */
  function PotentialHq(code: string): (r: string)
    ensures EndsWithXXX(r)
    ensures |code| >= 8 ==> |r| == 11 && r[..8] == code[..8]
    ensures |code| <= 8 ==> r == code + HQ_SUFFIX
  {
    var p := if |code| <= 8 then code else code[..8];
    assert (p + HQ_SUFFIX)[|p + HQ_SUFFIX| - 3..] == HQ_SUFFIX;
    p + HQ_SUFFIX
  }

  /** A code is its own candidate headquarters exactly when it is an 11-character
      code ending in "XXX". */
  lemma PotentialHqFixedPoint(code: string)
    ensures PotentialHq(code) == code <==> (|code| == 11 && EndsWithXXX(code))
  {
    if |code| == 11 && EndsWithXXX(code) {
      assert code == code[..8] + code[8..];
    }
  }

  /** Codes sharing their first 8 characters have the same candidate headquarters. */
  lemma SamePrefixSameHq(a: string, b: string)
    requires |a| >= 8 && |b| >= 8 && a[..8] == b[..8]
    ensures PotentialHq(a) == PotentialHq(b)
  {
  }
}
