/**
 * Record UserRequest and its IsValid rule chain: name, last name, birthdate, login,
 * password, checked in that order; the first rule that fails decides the 400
 * message, and a request that passes them all gets code 100 (Continue).
 * The clock is a parameter: `now` stands for DateTime.Now. Lengths are .NET's
 * `string.Length`, counted in UTF-16 code units.
 */
module UserRequests {
  import opened Wrappers
  import opened Dates
  import opened Text
  import opened Responses
  import Http
  import UserResponseErrors

  /** Record UserRequest; strings are nullable in the source, hence Option. */
  datatype UserRequest = UserRequest(
    name: Option<string>,
    lastName: Option<string>,
    birthdate: DateTime,
    document: Option<string>,
    login: Option<string>,
    password: Option<string>)

  const NameMessage := "Informe um nome válido para o usuário."
  const LastNameMessage := "Informe um sobrenome válido para o usuário."
  const BirthdateMessage := "Informe uma data de nascimento válida para o usuário. Apenas maiores de 18 anos."
  const LoginMessage := "Login precisa conter ao menos 5 dígitos para o usuário."
  const PasswordMessage := "Password precisa conter ao menos 8 dígitos para o usuário."

  /** string.IsNullOrEmpty. */
  predicate IsNullOrEmpty(s: Option<string>) {
    s.None? || s.value == ""
  }

  /** The name and last-name rule: null, empty, or at most 2 UTF-16 code units. */
  predicate NameFails(s: Option<string>) {
    s.None? || s.value == "" || Utf16Length(s.value) <= 2
  }

  /** The birthdate rule: later than 18 years ago, or earlier than 100 years ago. */
  predicate BirthdateFails(birthdate: DateTime, now: DateTime) {
    After(birthdate, AddYears(now, -18)) || Before(birthdate, AddYears(now, -100))
  }

  /** The login rule: null, empty or shorter than 4 UTF-16 code units. */
  predicate LoginFails(s: Option<string>) {
    IsNullOrEmpty(s) || Utf16Length(s.value) < 4
  }

  predicate IsUpper(c: char) { 'A' <= c <= 'Z' }
  predicate IsLower(c: char) { 'a' <= c <= 'z' }
  predicate IsSpecial(c: char) { c in "#?!@$%^&*-" }

  /**
   * Whether the .NET pattern ^(?=.*?[A-Z])(?=.*?[a-z])(?=.*?[0-9])(?=.*?[#?!@$%^&*-]).{8,}$
   * matches `s`: `.` matches one UTF-16 code unit other than a line feed, and `$` also
   * matches before a final line feed, so the pattern matches exactly when `s`, less one
   * trailing line feed, is a single line of at least 8 code units holding an upper-case letter, a
   * lower-case letter, a digit and one of #?!@$%^&*-.
   */
  predicate PasswordPatternMatches(s: string) {
    var line := if |s| > 0 && s[|s| - 1] == '\n' then s[..|s| - 1] else s;
    && (forall i :: 0 <= i < |line| ==> line[i] != '\n')
    && Utf16Length(line) >= 8
    && (exists i :: 0 <= i < |line| && IsUpper(line[i]))
    && (exists i :: 0 <= i < |line| && IsLower(line[i]))
    && (exists i :: 0 <= i < |line| && IsDigit(line[i]))
    && (exists i :: 0 <= i < |line| && IsSpecial(line[i]))
  }

  /** The password rule as written: `IsNullOrEmpty(p) || p.Length < 8 && !regex.IsMatch(p)`. */
  predicate PasswordFails(s: Option<string>) {
    IsNullOrEmpty(s) || (Utf16Length(s.value) < 8 && !PasswordPatternMatches(s.value))
  }

  /** UserRequest.IsValid. */
  function IsValid(r: UserRequest, now: DateTime): (v: UserResponse)
    ensures v.data.None?
    ensures v.responseCode == Http.Continue || v.responseCode == Http.BadRequest
    ensures v.responseCode == Http.Continue ==> v == UserResponseWithCode(Http.Continue)
  {
    if NameFails(r.name) then UserResponseErrors.UserValidationErrorMessage(NameMessage)
    else if NameFails(r.lastName) then UserResponseErrors.UserValidationErrorMessage(LastNameMessage)
    else if BirthdateFails(r.birthdate, now) then UserResponseErrors.UserValidationErrorMessage(BirthdateMessage)
    else if LoginFails(r.login) then UserResponseErrors.UserValidationErrorMessage(LoginMessage)
    else if PasswordFails(r.password) then UserResponseErrors.UserValidationErrorMessage(PasswordMessage)
    else UserResponseWithCode(Http.Continue)
  }

  // ---------------------------------------------------------------------------
  // An independent statement of the chain: a list of rules checked in order.

  datatype Rule = NameRule | LastNameRule | BirthdateRule | LoginRule | PasswordRule

  const RuleOrder: seq<Rule> := [NameRule, LastNameRule, BirthdateRule, LoginRule, PasswordRule]

  predicate Fails(rule: Rule, r: UserRequest, now: DateTime) {
    match rule
    case NameRule => NameFails(r.name)
    case LastNameRule => NameFails(r.lastName)
    case BirthdateRule => BirthdateFails(r.birthdate, now)
    case LoginRule => LoginFails(r.login)
    case PasswordRule => PasswordFails(r.password)
  }

  function Message(rule: Rule): string {
    match rule
    case NameRule => NameMessage
    case LastNameRule => LastNameMessage
    case BirthdateRule => BirthdateMessage
    case LoginRule => LoginMessage
    case PasswordRule => PasswordMessage
  }

  /** The first rule of `rules` that `r` fails, if any. */
  function FirstFailure(rules: seq<Rule>, r: UserRequest, now: DateTime): (f: Option<Rule>)
    ensures f.None? <==> forall i :: 0 <= i < |rules| ==> !Fails(rules[i], r, now)
    ensures f.Some? ==> exists i :: 0 <= i < |rules| && rules[i] == f.value
                          && Fails(rules[i], r, now)
                          && forall j :: 0 <= j < i ==> !Fails(rules[j], r, now)
  {
    if rules == [] then None
    else if Fails(rules[0], r, now) then Some(rules[0])
    else
      var f := FirstFailure(rules[1..], r, now);
      assert f.Some? ==> exists i :: 1 <= i < |rules| && rules[i] == f.value
                           && Fails(rules[i], r, now)
                           && forall j :: 1 <= j < i ==> !Fails(rules[j], r, now);
      f
  }

  /**
   * IsValid answers with the message of the first failing rule in the order
   * name, last name, birthdate, login, password, and with Continue when none fails.
   */
  lemma {:induction false} IsValidReportsFirstFailure(r: UserRequest, now: DateTime)
    ensures IsValid(r, now) == match FirstFailure(RuleOrder, r, now)
                               case None => UserResponseWithCode(Http.Continue)
                               case Some(rule) => UserResponseErrors.UserValidationErrorMessage(Message(rule))
  {
    var t1, t2, t3, t4 := RuleOrder[1..], RuleOrder[2..], RuleOrder[3..], RuleOrder[4..];
    assert t1[1..] == t2 && t2[1..] == t3 && t3[1..] == t4 && t4[1..] == [];
    assert FirstFailure(RuleOrder, r, now) ==
      if Fails(NameRule, r, now) then Some(NameRule) else FirstFailure(t1, r, now);
    assert FirstFailure(t1, r, now) ==
      if Fails(LastNameRule, r, now) then Some(LastNameRule) else FirstFailure(t2, r, now);
    assert FirstFailure(t2, r, now) ==
      if Fails(BirthdateRule, r, now) then Some(BirthdateRule) else FirstFailure(t3, r, now);
    assert FirstFailure(t3, r, now) ==
      if Fails(LoginRule, r, now) then Some(LoginRule) else FirstFailure(t4, r, now);
    assert FirstFailure(t4, r, now) ==
      if Fails(PasswordRule, r, now) then Some(PasswordRule) else FirstFailure([], r, now);
  }

  /** Every failure is a 400 with the failing rule's message and no data; success is Continue, "" and no data. */
  lemma IsValidOutcomes(r: UserRequest, now: DateTime)
    ensures IsValid(r, now).responseCode == Http.Continue <==> forall rule :: !Fails(rule, r, now)
    ensures IsValid(r, now).responseCode == Http.Continue ==> IsValid(r, now).details == ""
    ensures IsValid(r, now).responseCode != Http.Continue ==>
              exists rule :: Fails(rule, r, now) && IsValid(r, now).details == Message(rule)
  {
    if IsValid(r, now).responseCode != Http.Continue {
      var rule :| rule in RuleOrder && Fails(rule, r, now) && IsValid(r, now).details == Message(rule) by {
        IsValidReportsFirstFailure(r, now);
      }
    }
  }

  // ---------------------------------------------------------------------------
  // The individual rules.

  /**
   * A bad name decides the answer whatever the other fields hold; 3 code units are
   * enough and 2 are not, so two characters beyond the Basic Multilingual Plane pass.
   */
  lemma NameRuleDecides(r: UserRequest, now: DateTime, s: string)
    ensures NameFails(r.name) ==> IsValid(r, now) == UserResponseErrors.UserValidationErrorMessage(NameMessage)
    ensures Utf16Length(s) == 3 ==> !NameFails(Some(s))
    ensures Utf16Length(s) <= 2 ==> NameFails(Some(s))
    ensures |s| == 2 && IsAstral(s[0]) && IsAstral(s[1]) ==> !NameFails(Some(s))
  {
    if |s| == 2 {
      assert s[..1][..0] == [];
    }
  }

  /**
   * Every length rule counts a character beyond the Basic Multilingual Plane twice:
   * two emoji make a valid name and login, and four ASCII characters and two emoji
   * a long enough password, while one emoji alone is still too short a name.
   */
  lemma NonBmpCountsTwice()
    ensures !NameFails(Some("\U{1F600}\U{1F600}"))
    ensures !LoginFails(Some("\U{1F600}\U{1F600}"))
    ensures !PasswordFails(Some("Ab1!\U{1F600}\U{1F600}"))
    ensures NameFails(Some("\U{1F600}"))
  {
    var e := "\U{1F600}\U{1F600}";
    assert e[..1][..0] == [] && e[..1] == ['\U{1F600}'];
    var p := "Ab1!\U{1F600}\U{1F600}";
    assert p[..5] == "Ab1!\U{1F600}" && p[..4] == "Ab1!";
    assert Utf16Length("Ab1!") == 4;
  }

  /** Both birthdate bounds are inclusive: exactly 18 and exactly 100 years back are accepted. */
  lemma BirthdateBoundsInclusive(now: DateTime, b: DateTime)
    ensures !BirthdateFails(AddYears(now, -18), now)
    ensures !BirthdateFails(AddYears(now, -100), now)
    ensures BirthdateFails(b, now) <==> Before(AddYears(now, -18), b) || Before(b, AddYears(now, -100))
  {
    FurtherBackIsBefore(now, 18, 100);
    BeforeTotal(AddYears(now, -18), AddYears(now, -100));
  }

  /** A 4-character login passes, although the message demands at least 5. */
  lemma FourCharacterLoginAccepted(s: string)
    requires Utf16Length(s) == 4
    ensures !LoginFails(Some(s))
    ensures LoginMessage == "Login precisa conter ao menos " + "5" + " dígitos para o usuário."
  {
  }

  /** The pattern itself demands 8 code units, so nothing shorter matches it. */
  lemma PatternNeedsEightCharacters(s: string)
    requires PasswordPatternMatches(s)
    ensures Utf16Length(s) >= 8
  {
  }

  /**
   * The regex never changes the outcome: the password rule fails exactly when the
   * password is null, empty or shorter than 8 code units.
   */
  lemma PasswordRuleIsLengthOnly(p: Option<string>)
    ensures PasswordFails(p) <==> p.None? || Utf16Length(p.value) < 8
  {
    if p.Some? && |p.value| < 8 && PasswordPatternMatches(p.value) {
      PatternNeedsEightCharacters(p.value);
    }
  }

  /** "D3f4u1t0" does not match the pattern (no special character) and still passes the rule. */
  lemma ComplexityNotEnforced()
    ensures !PasswordPatternMatches("D3f4u1t0")
    ensures !PasswordFails(Some("D3f4u1t0"))
  {
    var s := "D3f4u1t0";
    assert forall i :: 0 <= i < |s| ==> !IsSpecial(s[i]) && !IsAstral(s[i]);
  }

  // ---------------------------------------------------------------------------
  // The test fixtures, on any clock for which 2000-05-15 is an adult birthdate.

  const Birthdate2000 := DateTime(2000, 5, 15, 0)

  function Fixture(name: string, lastName: string, birthdate: DateTime, login: string, password: string): UserRequest {
    UserRequest(Some(name), Some(lastName), birthdate, Some(""), Some(login), Some(password))
  }

  /** The fixtures answer as the controller tests expect: one accepted request, one message per broken rule. */
  lemma FixturesAnswerAsTested(now: DateTime)
    requires !BirthdateFails(Birthdate2000, now)
    requires BirthdateFails(DateTime(2020, 5, 15, 0), now)
    ensures IsValid(UserRequest(Some("Fulano"), Some("Blevers"), Birthdate2000, Some("01234567890"), Some("tester"), Some("D3f4u1t0")), now).responseCode == Http.Continue
    ensures IsValid(Fixture("Fulano", "Blevers", Birthdate2000, "tester", "12345"), now).details == PasswordMessage
    ensures IsValid(Fixture("Fulano", "Blevers", Birthdate2000, "usr", "D3f4u1t0"), now).details == LoginMessage
    ensures IsValid(Fixture("Fulano", "Blevers", DateTime(2020, 5, 15, 0), "tester", "D3f4u1t0"), now).details == BirthdateMessage
    ensures IsValid(Fixture("Fulano", "Bu", Birthdate2000, "tester", "D3f4u1t0"), now).details == LastNameMessage
    ensures IsValid(Fixture("Ba", "Blevers", Birthdate2000, "tester", "D3f4u1t0"), now).details == NameMessage
  {
    ComplexityNotEnforced();
    PasswordRuleIsLengthOnly(Some("12345"));
  }
}
