/** Submission of the add/edit vehicle form (screens/AddEditVehicleScreen.tsx):
    the required-fields check, the registration-number pattern
    `^[A-Z]{2}[\s-]?[0-9]{1,2}[\s-]?[A-Z]{1,2}[\s-]?[0-9]{1,4}$` (matched
    case-insensitively), the trim/upper-case normalisation, and the choice
    between adding and updating. */
module VehicleForm {
  import opened Wrappers
  import opened Types
  import Text

  /** What the form holds when submitted; an unset choice is `None` (`''`). */
  datatype Form = Form(
    nickname: string,
    registrationNumber: string,
    fuelType: Option<FuelType>,
    vehicleType: Option<VehicleType>)

  const MissingFields := "All fields are required."
  const BadRegistration := "Invalid registration number format. (e.g., MH 12 AB 1234)"

  // ---------------------------------------------------------------------------
  // The registration-number grammar

  /** `[\s-]` */
  predicate IsSeparator(c: char)
  {
    Text.IsWhitespace(c) || c == '-'
  }

  predicate AllLetters(s: string)
  {
    forall i :: 0 <= i < |s| ==> Text.IsLetter(s[i])
  }

  /** `[\s-]?` */
  predicate OptionalSeparator(s: string)
  {
    |s| <= 1 && (s == [] || IsSeparator(s[0]))
  }

  /** A registration number cut at the pattern's seven groups: the two-letter
      area code, a district number of one or two digits, a series of one or two
      letters and a number of one to four digits, each pair optionally
      separated by one whitespace character or hyphen. */
  datatype PlateParts = PlateParts(
    area: string, sep1: string, district: string, sep2: string,
    series: string, sep3: string, number: string)

  ghost predicate WellFormed(p: PlateParts)
  {
    && |p.area| == 2 && AllLetters(p.area)
    && OptionalSeparator(p.sep1)
    && 1 <= |p.district| <= 2 && Text.AllDigits(p.district)
    && OptionalSeparator(p.sep2)
    && 1 <= |p.series| <= 2 && AllLetters(p.series)
    && OptionalSeparator(p.sep3)
    && 1 <= |p.number| <= 4 && Text.AllDigits(p.number)
  }

  function Join(p: PlateParts): string
  {
    p.area + (p.sep1 + (p.district + (p.sep2 + (p.series + (p.sep3 + p.number)))))
  }

  /** The strings the pattern matches: the joins of well-formed parts. */
  ghost predicate MatchesPattern(s: string)
  {
    exists p :: WellFormed(p) && Join(p) == s
  }

  /** `s` cut in two: a prefix one pattern group consumes, and the rest. */
  datatype Cut = Cut(run: string, rest: string)

  /** Cuts off the longest prefix of `s` whose characters satisfy `p`. */
  function CutRun(s: string, p: char -> bool): (c: Cut)
    ensures c.run + c.rest == s
    ensures forall i :: 0 <= i < |c.run| ==> p(c.run[i])
    ensures c.rest == [] || !p(c.rest[0])
  {
    if s != [] && p(s[0]) then
      var c := CutRun(s[1..], p);
      assert s == [s[0]] + s[1..];
      Cut([s[0]] + c.run, c.rest)
    else Cut([], s)
  }

  /** Cuts off what `[\s-]?` consumes at the front of `s`. */
  function CutSeparator(s: string): (c: Cut)
    ensures c.run + c.rest == s
    ensures OptionalSeparator(c.run)
    ensures c.run == [] ==> s == [] || !IsSeparator(s[0])
  {
    if s != [] && IsSeparator(s[0]) then Cut(s[..1], s[1..]) else Cut([], s)
  }

  /** `regEx.test(s)`, matching the pattern left to right. Letters, digits and
      separators are disjoint classes, so each group takes exactly the longest
      run of its class and no backtracking is needed. Whatever it accepts is a
      well-formed cut of `s` into the pattern's groups; that it accepts every
      such string is `ParseComplete`. */
  function Parse(s: string): (r: Option<PlateParts>)
    ensures r.Some? ==> WellFormed(r.value) && Join(r.value) == s
  {
    if |s| < 2 || !Text.IsLetter(s[0]) || !Text.IsLetter(s[1]) then None
    else
      var c1 := CutSeparator(s[2..]);
      var d := CutRun(c1.rest, Text.IsDigit);
      var c2 := CutSeparator(d.rest);
      var l := CutRun(c2.rest, Text.IsLetter);
      var c3 := CutSeparator(l.rest);
      var n := CutRun(c3.rest, Text.IsDigit);
      if 1 <= |d.run| <= 2 && 1 <= |l.run| <= 2 && 1 <= |n.run| <= 4 && n.rest == [] then
        assert n.run + [] == n.run;
        assert s == s[..2] + s[2..];
        Some(PlateParts(s[..2], c1.run, d.run, c2.run, l.run, c3.run, n.run))
      else None
  }

  lemma ClassesDisjoint(c: char)
    ensures Text.IsDigit(c) ==> !Text.IsLetter(c) && !IsSeparator(c)
    ensures Text.IsLetter(c) ==> !IsSeparator(c)
  {
  }

  /** An optional separator in front of a string that does not start with one
      is cut off exactly. */
  lemma CutSeparatorOf(sep: string, rest: string)
    requires OptionalSeparator(sep)
    requires rest != [] && !IsSeparator(rest[0])
    ensures CutSeparator(sep + rest) == Cut(sep, rest)
  {
    if sep != [] {
      assert (sep + rest)[1..] == rest;
    }
  }

  /** A run of `p`-characters followed by something that does not continue it
      is cut off exactly. */
  lemma {:induction false} CutRunOf(x: string, y: string, p: char -> bool)
    requires forall i :: 0 <= i < |x| ==> p(x[i])
    requires y == [] || !p(y[0])
    ensures CutRun(x + y, p) == Cut(x, y)
  {
    if x != [] {
      assert (x + y)[1..] == x[1..] + y;
      CutRunOf(x[1..], y, p);
      assert [x[0]] + x[1..] == x;
    } else {
      assert x + y == y;
    }
  }

  /** The parser finds every match, cut the only way the pattern allows: a
      well-formed cut is recovered from its join. */
  lemma ParseComplete(p: PlateParts)
    requires WellFormed(p)
    ensures Parse(Join(p)) == Some(p)
  {
    var s := Join(p);
    var r4 := p.sep3 + p.number;
    var r3 := p.series + r4;
    var r2 := p.sep2 + r3;
    var r1 := p.district + r2;
    var r0 := p.sep1 + r1;
    assert s == p.area + r0;
    assert s[..2] == p.area && s[2..] == r0;
    ClassesDisjoint(p.district[0]);
    ClassesDisjoint(p.series[0]);
    ClassesDisjoint(p.number[0]);
    CutSeparatorOf(p.sep1, r1);
    assert r2 == [] || !Text.IsDigit(r2[0]) by {
      if p.sep2 != [] { ClassesDisjoint(p.sep2[0]); }
    }
    CutRunOf(p.district, r2, Text.IsDigit);
    CutSeparatorOf(p.sep2, r3);
    assert r4 == [] || !Text.IsLetter(r4[0]) by {
      if p.sep3 != [] { ClassesDisjoint(p.sep3[0]); }
    }
    CutRunOf(p.series, r4, Text.IsLetter);
    CutSeparatorOf(p.sep3, p.number);
    CutRunOf(p.number, [], Text.IsDigit);
    assert p.number + [] == p.number;
  }

  /** The parser accepts exactly the strings the pattern matches. */
  lemma ParseMatchesPattern(s: string)
    ensures Parse(s).Some? <==> MatchesPattern(s)
  {
    if MatchesPattern(s) {
      var p :| WellFormed(p) && Join(p) == s;
      ParseComplete(p);
    }
  }

  /** The example the form shows is accepted. */
  lemma ExampleAccepted()
    ensures MatchesPattern("MH 12 AB 1234")
    ensures Parse("MH 12 AB 1234").Some?
  {
    var p := PlateParts("MH", " ", "12", " ", "AB", " ", "1234");
    assert WellFormed(p);
    assert Join(p) == "MH 12 AB 1234";
    ParseComplete(p);
  }

  // ---------------------------------------------------------------------------
  // Normalisation keeps a valid number valid

  lemma AsciiUpperConcat(a: string, b: string)
    ensures Text.AsciiUpper(a + b) == Text.AsciiUpper(a) + Text.AsciiUpper(b)
  {
  }

  function UpperParts(p: PlateParts): PlateParts
  {
    PlateParts(Text.AsciiUpper(p.area), Text.AsciiUpper(p.sep1), Text.AsciiUpper(p.district),
               Text.AsciiUpper(p.sep2), Text.AsciiUpper(p.series), Text.AsciiUpper(p.sep3),
               Text.AsciiUpper(p.number))
  }

  /** Upper-casing a matching registration number gives a matching one. */
  lemma UpperKeepsMatch(s: string)
    requires MatchesPattern(s)
    ensures MatchesPattern(Text.AsciiUpper(s))
  {
    var p :| WellFormed(p) && Join(p) == s;
    var q := UpperParts(p);
    Text.AsciiUpperFacts(p.area);
    Text.AsciiUpperFacts(p.sep1);
    Text.AsciiUpperFacts(p.district);
    Text.AsciiUpperFacts(p.sep2);
    Text.AsciiUpperFacts(p.series);
    Text.AsciiUpperFacts(p.sep3);
    Text.AsciiUpperFacts(p.number);
    assert WellFormed(q);
    AsciiUpperConcat(p.sep3, p.number);
    AsciiUpperConcat(p.series, p.sep3 + p.number);
    AsciiUpperConcat(p.sep2, p.series + (p.sep3 + p.number));
    AsciiUpperConcat(p.district, p.sep2 + (p.series + (p.sep3 + p.number)));
    AsciiUpperConcat(p.sep1, p.district + (p.sep2 + (p.series + (p.sep3 + p.number))));
    AsciiUpperConcat(p.area, p.sep1 + (p.district + (p.sep2 + (p.series + (p.sep3 + p.number)))));
    assert Join(q) == Text.AsciiUpper(s);
  }

  // ---------------------------------------------------------------------------
  // Submission

  /** What submitting the form does: show an error, or save through the
      registry's add or update. */
  datatype Submission =
    | Rejected(message: string)
    | AddNew(data: VehicleData)
    | UpdateExisting(vehicle: Vehicle)

  /** The form lacks a required field: nickname or registration number is
      blank once trimmed, or a choice is unset. */
  predicate Incomplete(f: Form)
  {
    Text.AllWhitespace(f.nickname) || Text.AllWhitespace(f.registrationNumber)
    || f.fuelType.None? || f.vehicleType.None?
  }

  /** `handleSubmit` for the form `f` on a route whose `:id` parameter is
      `routeId`. The required-fields check comes first, then the pattern check
      on the trimmed registration number; a valid form is saved with a trimmed
      nickname and a trimmed, upper-cased registration number, through update
      when editing (a non-empty route id) and through add otherwise. Which forms
      are rejected with which message is `SubmitRejects`. */
  function Submit(f: Form, routeId: Option<string>): (r: Submission)
    ensures r.Rejected? ==> r.message in {MissingFields, BadRegistration}
    ensures r == Rejected(MissingFields) ==> Incomplete(f)
    ensures r == Rejected(BadRegistration) ==>
      !Incomplete(f) && !MatchesPattern(Text.Trim(f.registrationNumber))
    ensures r.UpdateExisting? <==> !r.Rejected? && routeId.Some? && routeId.value != ""
    ensures r.UpdateExisting? ==> r.vehicle.id == routeId.value
    ensures !r.Rejected? ==>
      var d := if r.AddNew? then r.data else VehicleData(r.vehicle.nickname, r.vehicle.registrationNumber, r.vehicle.fuelType, r.vehicle.vehicleType);
      && d.nickname == Text.Trim(f.nickname) && d.nickname != []
      && d.registrationNumber == Text.AsciiUpper(Text.Trim(f.registrationNumber))
      && MatchesPattern(Text.Trim(f.registrationNumber))
      && MatchesPattern(d.registrationNumber)
      && Some(d.fuelType) == f.fuelType && Some(d.vehicleType) == f.vehicleType
  {
    var nickname := Text.Trim(f.nickname);
    var registration := Text.Trim(f.registrationNumber);
    Text.TrimEmptyIffWhitespace(f.nickname);
    Text.TrimEmptyIffWhitespace(f.registrationNumber);
    if nickname == [] || registration == [] || f.fuelType.None? || f.vehicleType.None? then
      Rejected(MissingFields)
    else
      ParseMatchesPattern(registration);
      if Parse(registration).None? then
        Rejected(BadRegistration)
      else
        UpperKeepsMatch(registration);
        var data := VehicleData(nickname, Text.AsciiUpper(registration), f.fuelType.value, f.vehicleType.value);
        if routeId.Some? && routeId.value != "" then UpdateExisting(data.WithId(routeId.value))
        else AddNew(data)
  }

  /** The two error messages, each exactly when it applies: a missing field is
      reported whatever the registration number looks like, and the format
      error only for a complete form whose trimmed registration number the
      pattern rejects. */
  lemma SubmitRejects(f: Form, routeId: Option<string>)
    ensures Submit(f, routeId) == Rejected(MissingFields) <==> Incomplete(f)
    ensures Submit(f, routeId) == Rejected(BadRegistration) <==>
      !Incomplete(f) && !MatchesPattern(Text.Trim(f.registrationNumber))
  {
    Text.TrimEmptyIffWhitespace(f.nickname);
    Text.TrimEmptyIffWhitespace(f.registrationNumber);
    ParseMatchesPattern(Text.Trim(f.registrationNumber));
  }
}
