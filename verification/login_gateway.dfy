/** The phone-number step of signing in (screens/LoginGatewayScreen.tsx):
    `handleSubmit` rejects the input unless it trims to something and matches
    `/^\+?[0-9]{10,15}$/`, and otherwise asks for a code for exactly the input. */
module LoginGateway {
  import opened Wrappers
  import Text

  const InvalidMobile := "Please enter a valid mobile number (e.g., +91XXXXXXXXXX or XXXXXXXXXX)."

  /** The pattern, read declaratively: ten to fifteen ASCII digits, or a `+`
      followed by ten to fifteen ASCII digits. */
  predicate IsMobileNumber(s: string)
  {
    || (10 <= |s| <= 15 && Text.AllDigits(s))
    || (11 <= |s| <= 16 && s[0] == '+' && Text.AllDigits(s[1..]))
  }

  /** The input without its leading `+`, if it has one: what `[0-9]{10,15}`
      must match. */
  function DigitsPart(s: string): (d: string)
    ensures s == d || s == "+" + d
  {
    if s != [] && s[0] == '+' then s[1..] else s
  }

  lemma DigitsPartExact(s: string)
    ensures IsMobileNumber(s) <==> 10 <= |DigitsPart(s)| <= 15 && Text.AllDigits(DigitsPart(s))
  {
    if s != [] && s[0] == '+' {
      assert !Text.AllDigits(s) by { assert !Text.IsDigit(s[0]); }
    }
  }

  /** `/^\+?[0-9]{10,15}$/.test(s)`, as the screen applies it to the untrimmed
      input: it accepts exactly the mobile numbers. */
  function MatchesPattern(s: string): (b: bool)
    ensures b <==> IsMobileNumber(s)
  {
    DigitsPartExact(s);
    10 <= |DigitsPart(s)| <= 15 && Text.AllDigits(DigitsPart(s))
  }

  /** What the pattern accepts is 10 to 16 characters long and holds no
      whitespace, so in particular it does not trim to nothing. */
  lemma AcceptedShape(input: string)
    ensures MatchesPattern(input) ==> 10 <= |input| <= 16
    ensures MatchesPattern(input) ==> forall i :: 0 <= i < |input| ==> !Text.IsWhitespace(input[i])
    ensures MatchesPattern(input) ==> Text.Trim(input) != []
  {
    if !MatchesPattern(input) {
      return;
    }
    var digits := DigitsPart(input);
    forall i | 0 <= i < |input|
      ensures !Text.IsWhitespace(input[i])
    {
      if input[0] == '+' && i > 0 {
        assert input[i] == digits[i - 1];
      }
    }
    Text.TrimEmptyIffWhitespace(input);
  }

  /** Where a successful submission leads: the code screen, carrying the number. */
  datatype Navigation = Navigation(path: string, mobileNumber: string)

  /** The screen after a submission: its error line and where it navigates, if anywhere. */
  datatype Screen = Screen(error: string, next: Option<Navigation>)

  /** `handleSubmit` on the text in the number field. */
  function Submit(input: string): (r: Screen)
    ensures r.next.Some? <==> IsMobileNumber(input)
    ensures r.next.None? ==> r.error == InvalidMobile
    ensures r.next.Some? ==> r.error == "" && r.next.value == Navigation("/otp", input)
    ensures r.next.Some? ==> 10 <= |input| <= 16
    ensures r.next.Some? ==> forall i :: 0 <= i < |input| ==> !Text.IsWhitespace(input[i])
  {
    AcceptedShape(input);
    if Text.Trim(input) == [] || !MatchesPattern(input) then
      Screen(InvalidMobile, None)
    else
      Screen("", Some(Navigation("/otp", input)))
  }

  /** Empty and whitespace-only input is rejected. */
  lemma BlankRejected(input: string)
    requires Text.AllWhitespace(input)
    ensures Submit(input) == Screen(InvalidMobile, None)
  {
    if input != [] {
      assert !Text.IsDigit(input[0]) && input[0] != '+';
    }
  }

  /** A valid number with a space around it is rejected, because the pattern is
      matched against the untrimmed input. */
  lemma PaddedNumberRejected(digits: string)
    requires 10 <= |digits| <= 15 && Text.AllDigits(digits)
    ensures Submit(digits).next.Some?
    ensures Submit(" " + digits).next.None?
    ensures Submit(digits + " ").next.None?
  {
    assert IsMobileNumber(digits);
    assert (" " + digits)[0] == ' ';
    assert (digits + " ")[|digits|] == ' ';
  }
}
