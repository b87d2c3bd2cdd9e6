/** The `check_*` validators of src/utils.py. Each is a pure check that either
    passes or rejects with its own error kind and detail text. */
module Validators {
  import opened Wrappers
  import opened Codes

  datatype CodeType = Swift | Iso2
  datatype TextType = SwiftCode | Iso2Code | CountryName

  const SWIFT_CODE_LEN: nat := 11
  const ISO2_CODE_LEN: nat := 2

  function CodeTypeName(t: CodeType): string
  {
    match t
    case Swift => "SWIFT"
    case Iso2 => "ISO2"
  }

  function ExpectedLength(t: CodeType): nat
  {
    match t
    case Swift => SWIFT_CODE_LEN
    case Iso2 => ISO2_CODE_LEN
  }

  /** The decimal text of ExpectedLength(t). */
  function ExpectedLengthText(t: CodeType): string
  {
    match t
    case Swift => "11"
    case Iso2 => "2"
  }

  function TextTypeName(t: TextType): string
  {
    match t
    case SwiftCode => "SWIFT code"
    case Iso2Code => "ISO2 code"
    case CountryName => "country name"
  }

  function LengthError(t: CodeType): Error
  {
    Error(ValidationError, CodeTypeName(t) + " code should consist of " + ExpectedLengthText(t) + " characters.")
  }

  const NotLettersError: Error := Error(ValidationError, "All characters in ISO2 code should be letters.")
  const NotAlphanumericError: Error := Error(ValidationError, "All characters in SWIFT code should be alphanumeric.")

  function NotUpperError(t: TextType): Error
  {
    Error(ValidationError, "All characters in " + TextTypeName(t) + " should be uppercase.")
  }

  const NotFoundError: Error := Error(NotFound, "Item does not exist.")
  const HeadquarterMismatchError: Error :=
    Error(ValidationError, "Headquarter's SWIFT codes must end with XXX and branches' cannot and with XXX.")

  /** check_code_length: the code must have 11 (SWIFT) or 2 (ISO2) characters. */
  function CheckCodeLength(code: string, t: CodeType): (r: Outcome)
    ensures r.Reject? <==> |code| != ExpectedLength(t)
    ensures r.Reject? ==> r.error == LengthError(t)
  {
    if |code| != ExpectedLength(t) then Reject(LengthError(t)) else Pass
  }

  /** check_if_alpha: rejects the empty code and any code with a non-letter. */
  function CheckIfAlpha(code: string): (r: Outcome)
    ensures r.Pass? <==> |code| > 0 && forall i :: 0 <= i < |code| ==> IsLetter(code[i])
    ensures r.Reject? ==> r.error == NotLettersError
  {
    if !IsAlpha(code) then Reject(NotLettersError) else Pass
  }

  /** check_if_alphanumeric: rejects the empty code and any code with a
      character that is neither a letter nor a digit. */
  function CheckIfAlphanumeric(code: string): (r: Outcome)
    ensures r.Reject? <==> |code| == 0 || exists i :: 0 <= i < |code| && !IsLetter(code[i]) && !IsDigit(code[i])
    ensures r.Reject? ==> r.error == NotAlphanumericError
  {
    if !IsAlnum(code) then Reject(NotAlphanumericError) else Pass
  }

  /** check_if_upper: rejects text with a lowercase letter or with no letter at all. */
  function CheckIfUpper(text: string, t: TextType): (r: Outcome)
    ensures r.Reject? <==>
      (exists i :: 0 <= i < |text| && IsLowerLetter(text[i])) ||
      (forall i :: 0 <= i < |text| ==> !IsLetter(text[i]))
    ensures r.Reject? ==> r.error == NotUpperError(t)
  {
    if !IsUpper(text) then Reject(NotUpperError(t)) else Pass
  }

  /** check_if_exists_in_db: rejects exactly when the looked-up object is absent. */
  function CheckIfExists<T>(obj: Option<T>): (r: Outcome)
    ensures r.Reject? <==> obj.None?
    ensures r.Reject? ==> r.error == NotFoundError
  {
    if obj.None? then Reject(NotFoundError) else Pass
  }

  /** check_if_proper_headquarter_or_branch: the code ends in "XXX" exactly
      when the bank is a headquarters; both mismatches give the same error. */
  function CheckIfProperHeadquarterOrBranch(swiftCode: string, isHeadquarter: bool): (r: Outcome)
    ensures r.Reject? <==> EndsWithXXX(swiftCode) != isHeadquarter
    ensures r.Reject? ==> r.error == HeadquarterMismatchError
  {
    var last3 := Last3(swiftCode);
    Last3IsSuffixTest(swiftCode);
    if (last3 == HQ_SUFFIX && !isHeadquarter) || (last3 != HQ_SUFFIX && isHeadquarter) then
      Reject(HeadquarterMismatchError)
    else
      Pass
  }

  /** The character-class check of a code type: letters for ISO2, letters
      or digits for SWIFT. */
  function CheckCharset(code: string, t: CodeType): Outcome
  {
    match t
    case Swift => CheckIfAlphanumeric(code)
    case Iso2 => CheckIfAlpha(code)
  }

  function CaseTextType(t: CodeType): TextType
  {
    match t
    case Swift => SwiftCode
    case Iso2 => Iso2Code
  }

  /** The checks a single code goes through, in the service's order:
      length, then character class, then case. */
  function ValidateCode(code: string, t: CodeType): Outcome
  {
    Then(CheckCodeLength(code, t), Then(CheckCharset(code, t), CheckIfUpper(code, CaseTextType(t))))
  }

  /** What ValidateCode accepts: exactly the codes of the right length made of
      uppercase letters (and, for SWIFT, digits) with at least one letter. */
  lemma ValidateCodeAccepts(code: string, t: CodeType)
    ensures ValidateCode(code, t).Pass? <==>
      && |code| == ExpectedLength(t)
      && (forall i :: 0 <= i < |code| ==> IsUpperLetter(code[i]) || (t == Swift && IsDigit(code[i])))
      && (exists i :: 0 <= i < |code| && IsUpperLetter(code[i]))
  {
    if ValidateCode(code, t).Pass? {
      assert IsUpper(code);
      var i :| 0 <= i < |code| && IsLetter(code[i]);
      assert IsUpperLetter(code[i]);
    }
  }

  /** The first failing check decides the error: a wrong length is reported as
      such whatever the characters are, a bad character class before any case
      problem. */
  lemma ValidateCodeReportsFirstFailure(code: string, t: CodeType)
    ensures |code| != ExpectedLength(t) ==> ValidateCode(code, t) == Reject(LengthError(t))
    ensures |code| == ExpectedLength(t) && CheckCharset(code, t).Reject? ==>
      ValidateCode(code, t) == Reject(if t == Swift then NotAlphanumericError else NotLettersError)
    ensures |code| == ExpectedLength(t) && CheckCharset(code, t).Pass? && !IsUpper(code) ==>
      ValidateCode(code, t) == Reject(NotUpperError(CaseTextType(t)))
  {
  }

  /** All the detail texts are different, so the caller can tell every failure
      reason apart. */
  lemma ErrorTextsDistinct()
    ensures LengthError(Swift).detail != LengthError(Iso2).detail
    ensures NotLettersError.detail != NotAlphanumericError.detail
    ensures forall u: TextType, v: TextType :: u != v ==> NotUpperError(u) != NotUpperError(v)
    ensures forall t: CodeType, u: TextType ::
      LengthError(t) != NotUpperError(u) && LengthError(t) != NotLettersError && LengthError(t) != NotAlphanumericError
  {
    forall u: TextType, v: TextType | u != v ensures NotUpperError(u) != NotUpperError(v) {
      // "All characters in " has 18 characters; the type names differ right after it
      assert NotUpperError(u).detail[18] != NotUpperError(v).detail[18];
    }
  }

  /** The headquarters check only looks at the last three characters: "XXX"
      anywhere else in the code does not matter. */
  lemma HeadquarterCheckReadsOnlySuffix(prefix1: string, prefix2: string, suffix: string, isHeadquarter: bool)
    requires |suffix| == 3
    ensures CheckIfProperHeadquarterOrBranch(prefix1 + suffix, isHeadquarter) ==
            CheckIfProperHeadquarterOrBranch(prefix2 + suffix, isHeadquarter)
  {
    assert (prefix1 + suffix)[|prefix1 + suffix| - 3..] == suffix;
    assert (prefix2 + suffix)[|prefix2 + suffix| - 3..] == suffix;
  }

  /** The worked cases: an over-long lower-case code fails on its length, "!@"
      fails on its letters before its case, "pl" fails on its case, and the
      headquarters check accepts "AAAAAAAAXXX" and refuses "AAAAAAAA123" as
      a headquarters. */
  lemma ValidationScenarios()
    ensures ValidateCode("wrongswiftcode", Swift) == Reject(LengthError(Swift))
    ensures ValidateCode("!@", Iso2) == Reject(NotLettersError)
    ensures ValidateCode("P#", Iso2) == Reject(NotLettersError)
    ensures ValidateCode("pl", Iso2) == Reject(NotUpperError(Iso2Code))
    ensures ValidateCode("PL", Iso2) == Pass
    ensures CheckIfProperHeadquarterOrBranch("AAAAAAAAXXX", true) == Pass
    ensures CheckIfProperHeadquarterOrBranch("AAAAAAAA123", true) == Reject(HeadquarterMismatchError)
    ensures CheckIfProperHeadquarterOrBranch("AAAAAAAAXXX", false) == Reject(HeadquarterMismatchError)
  {
    assert !IsLetter("!@"[0]);
    assert !IsLetter("P#"[1]);
    assert IsLowerLetter("pl"[0]);
    assert IsUpperLetter("PL"[0]);
    assert "AAAAAAAAXXX"[8..] == HQ_SUFFIX;
    assert "AAAAAAAA123"[8..] != HQ_SUFFIX by { assert "AAAAAAAA123"[8] == '1'; }
  }
}
