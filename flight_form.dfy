/** The flight-number form on the client: normalisation, the format check
    `/^[A-Z]{2,3}\d{1,4}$/`, and the form's two pieces of state. */
module Form {
  import opened Wrappers
  import opened Ascii
  import Tracking

  const RequiredMessage: string := "Flight number is required"
  const FormatMessage: string := "Please enter a valid flight number (e.g., AA123, UA456)"

  /** The submitted value: trimmed, then upper-cased. It is the key the
      server derives from the same input. */
  function NormalizeInput(raw: string): (flightNumber: string)
    ensures flightNumber == Tracking.NormalizeKey(raw)
    ensures forall i :: 0 <= i < |flightNumber| ==> !IsLower(flightNumber[i])
  {
    UpperCommutesWithTrim(raw);
    ToUpper(Trim(raw))
  }

  /** `s` is `p` capital letters followed by nothing but digits. */
  predicate LettersThenDigits(s: string, p: nat) {
    && p <= |s|
    && (forall i :: 0 <= i < p ==> IsUpperLetter(s[i]))
    && (forall i :: p <= i < |s| ==> IsDigit(s[i]))
  }

  /** What the regular expression `^[A-Z]{2,3}\d{1,4}$` accepts. */
  ghost predicate MatchesFlightNumberPattern(s: string) {
    exists p: nat :: 2 <= p <= 3 && p + 1 <= |s| <= p + 4 && LettersThenDigits(s, p)
  }

  /** How many capital letters `s` starts with. */
  function LeadingLetters(s: string): (n: nat)
    ensures n <= |s|
    ensures forall i :: 0 <= i < n ==> IsUpperLetter(s[i])
    ensures n < |s| ==> !IsUpperLetter(s[n])
  {
    if s != [] && IsUpperLetter(s[0]) then 1 + LeadingLetters(s[1..]) else 0
  }

  /** The format check as the client runs it: the capital-letter run is
      2 or 3 long and is followed by 1 to 4 characters, all digits. */
  predicate IsValidFlightNumber(s: string)
    ensures IsValidFlightNumber(s) ==>
              3 <= |s| <= 7 && forall i :: 0 <= i < |s| ==> IsUpperLetter(s[i]) || IsDigit(s[i])
  {
    var n := LeadingLetters(s);
    2 <= n <= 3 && n + 1 <= |s| <= n + 4 && forall i :: n <= i < |s| ==> IsDigit(s[i])
  }

  /** The check accepts exactly what the regular expression accepts. */
  lemma ValidIffMatchesPattern(s: string)
    ensures IsValidFlightNumber(s) <==> MatchesFlightNumberPattern(s)
  {
    var n := LeadingLetters(s);
    if IsValidFlightNumber(s) {
      assert LettersThenDigits(s, n);
    }
    if MatchesFlightNumberPattern(s) {
      var p: nat :| 2 <= p <= 3 && p + 1 <= |s| <= p + 4 && LettersThenDigits(s, p);
      assert !IsUpperLetter(s[p]) by { assert IsDigit(s[p]); }
      assert n == p;
    }
  }

  /** What `handleSubmit` decides: the required-field error for blank
      input, the format error for a malformed number, otherwise the
      normalised number to submit. */
  function ValidateSubmission(raw: string): (r: Result<string, string>)
    ensures r.Success? <==> MatchesFlightNumberPattern(NormalizeInput(raw))
    ensures r.Success? ==> r.value == NormalizeInput(raw)
    ensures NormalizeInput(raw) == [] ==> r == Failure(RequiredMessage)
    ensures NormalizeInput(raw) != [] && r.Failure? ==> r == Failure(FormatMessage)
  {
    var flightNumber := NormalizeInput(raw);
    ValidIffMatchesPattern(flightNumber);
    if flightNumber == [] then Failure(RequiredMessage)
    else if !IsValidFlightNumber(flightNumber) then Failure(FormatMessage)
    else Success(flightNumber)
  }

  /** An accepted number is 3 to 7 characters, none of them whitespace. */
  lemma AcceptedNumberShape(raw: string)
    requires ValidateSubmission(raw).Success?
    ensures var n := ValidateSubmission(raw).value;
            3 <= |n| <= 7 && forall i :: 0 <= i < |n| ==> !IsWhitespace(n[i])
  {
    var n := ValidateSubmission(raw).value;
    ValidIffMatchesPattern(n);
    ValidNumberHasNoWhitespace(n);
  }

  lemma ValidNumberHasNoWhitespace(n: string)
    requires IsValidFlightNumber(n)
    ensures forall i :: 0 <= i < |n| ==> !IsWhitespace(n[i])
  {
    forall i | 0 <= i < |n|
      ensures !IsWhitespace(n[i])
    {
      assert IsUpperLetter(n[i]) || IsDigit(n[i]);
    }
  }

  /** An accepted number is already its own registry key: the server's
      normalisation leaves it unchanged. */
  lemma AcceptedNumberIsRegistryKey(raw: string)
    requires ValidateSubmission(raw).Success?
    ensures Tracking.NormalizeKey(ValidateSubmission(raw).value) == ValidateSubmission(raw).value
    ensures Tracking.IsNormalizedKey(ValidateSubmission(raw).value)
  {
    AcceptedNumberShape(raw);
    Tracking.NormalizeKeyIdempotent(raw);
    Tracking.NormalizeKeyGivesKey(raw);
  }

  /** The form's state: the text in the input and the error shown under it. */
  class FlightForm {
    var flightNumber: string
    var error: string

    constructor ()
      ensures flightNumber == [] && error == []
    {
      flightNumber := [];
      error := [];
    }

    /** `handleSubmit`: on success the normalised number goes to `onSubmit`
        (returned here) and the input is cleared; on failure the error is
        shown and the input kept. */
    method HandleSubmit() returns (submitted: Option<string>)
      modifies this
      ensures match ValidateSubmission(old(flightNumber))
              case Success(n) => submitted == Some(n) && flightNumber == [] && error == []
              case Failure(e) => submitted == None && error == e && flightNumber == old(flightNumber)
    {
      error := [];
      var decision := ValidateSubmission(flightNumber);
      match decision {
        case Failure(e) =>
          error := e;
          submitted := None;
        case Success(n) =>
          submitted := Some(n);
          flightNumber := [];
      }
    }

    /** `handleChange`: store the upper-cased input and clear the error. */
    method HandleChange(value: string)
      modifies this
      ensures flightNumber == ToUpper(value) && error == []
    {
      flightNumber := ToUpper(value);
      if error != [] {
        error := [];
      }
    }
  }
}
