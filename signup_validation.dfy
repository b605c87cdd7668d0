/**
 * The registration form's data and its per-field validators
 * (`validateEmail` and `validateField` of the sign-up component).
 */
module SignUpValidation {
  import opened Text

  /** The keys of the form's state: the twelve form fields, plus `terms`, which only the validation state has. */
  datatype Name =
    | FirstName | LastName | Email | Phone | Password | ConfirmPassword
    | UserType | Company | JobTitle | Experience | AgreeToTerms | AgreeToMarketing
    | Terms

  /** The two form fields rendered as checkboxes. */
  predicate IsCheckbox(n: Name) {
    n == AgreeToTerms || n == AgreeToMarketing
  }

  /** A field value: text inputs and radio buttons hold strings, checkboxes booleans. */
  datatype Value = Text(s: string) | Flag(b: bool)

  /** The registration draft (`formData`). */
  datatype Draft = Draft(
    firstName: string, lastName: string, email: string, phone: string,
    password: string, confirmPassword: string, userType: string, company: string,
    jobTitle: string, experience: string, agreeToTerms: bool, agreeToMarketing: bool)

  const InitialDraft: Draft := Draft("", "", "", "", "", "", "jobseeker", "", "", "", false, false)

  /** `formData[n]`. */
  function Get(d: Draft, n: Name): (v: Value)
    requires n != Terms
    ensures v.Flag? <==> IsCheckbox(n)
  {
    match n
    case FirstName => Text(d.firstName)
    case LastName => Text(d.lastName)
    case Email => Text(d.email)
    case Phone => Text(d.phone)
    case Password => Text(d.password)
    case ConfirmPassword => Text(d.confirmPassword)
    case UserType => Text(d.userType)
    case Company => Text(d.company)
    case JobTitle => Text(d.jobTitle)
    case Experience => Text(d.experience)
    case AgreeToTerms => Flag(d.agreeToTerms)
    case AgreeToMarketing => Flag(d.agreeToMarketing)
  }

  /** `{ ...d, [n]: v }`: the named field takes the new value and every other field keeps its own. */
  function Set(d: Draft, n: Name, v: Value): (r: Draft)
    requires n != Terms && (v.Flag? <==> IsCheckbox(n))
    ensures Get(r, n) == v
    ensures forall m :: m != n && m != Terms ==> Get(r, m) == Get(d, m)
  {
    match n
    case FirstName => d.(firstName := v.s)
    case LastName => d.(lastName := v.s)
    case Email => d.(email := v.s)
    case Phone => d.(phone := v.s)
    case Password => d.(password := v.s)
    case ConfirmPassword => d.(confirmPassword := v.s)
    case UserType => d.(userType := v.s)
    case Company => d.(company := v.s)
    case JobTitle => d.(jobTitle := v.s)
    case Experience => d.(experience := v.s)
    case AgreeToTerms => d.(agreeToTerms := v.b)
    case AgreeToMarketing => d.(agreeToMarketing := v.b)
  }

  /** One entry of the validation state. */
  datatype FieldValidation = FieldValidation(isValid: bool, message: string)

  const Ok: FieldValidation := FieldValidation(true, "")

  /** The keys of the validation state. */
  const Validated: set<Name> := {FirstName, LastName, Email, Phone, Password, ConfirmPassword, Company, Terms}

  const InitialValidation: map<Name, FieldValidation> := map n | n in Validated :: Ok

  // ---------------------------------------------------------------- email

  /** A character of the class `[^\s@]`. */
  predicate IsEmailChar(c: char) {
    !IsJsSpace(c) && c != '@'
  }

  predicate AllEmailChars(s: string) {
    forall k | 0 <= k < |s| :: IsEmailChar(s[k])
  }

  /** The string splits at `at` and `dot` as local part, '@', middle, '.', tail, each part non-empty and made of `[^\s@]`. */
  predicate EmailSplit(email: string, at: int, dot: int) {
    && 0 < at < |email| && at + 1 < dot < |email| - 1
    && email[at] == '@' && email[dot] == '.'
    && AllEmailChars(email[..at]) && AllEmailChars(email[at + 1..dot]) && AllEmailChars(email[dot + 1..])
  }

  /** `/^[^\s@]+@[^\s@]+\.[^\s@]+$/.test(email)`. */
  predicate ValidateEmail(email: string) {
    exists at, dot | 0 < at < |email| && at + 1 < dot < |email| - 1 :: EmailSplit(email, at, dot)
  }

  /** `at` is the position of the only '@' in `s`. */
  ghost predicate OnlyAtSign(s: string, at: int) {
    0 <= at < |s| && s[at] == '@' && forall k | 0 <= k < |s| && k != at :: s[k] != '@'
  }

  /** The domain after position `at` has a '.' that is neither its first nor its last character. */
  ghost predicate DomainHasInnerDot(s: string, at: int) {
    0 <= at && exists dot | at + 1 < dot < |s| - 1 :: s[dot] == '.'
  }

  /**
   * The same set of strings described without the regex: no whitespace,
   * exactly one '@' with something before it, and a '.' after the '@' that is
   * neither the first nor the last character of the domain.
   */
  ghost predicate EmailShape(s: string) {
    && (forall k | 0 <= k < |s| :: !IsJsSpace(s[k]))
    && exists at | 0 < at < |s| :: OnlyAtSign(s, at) && DomainHasInnerDot(s, at)
  }

  lemma EmailRegexIffShape(s: string)
    ensures ValidateEmail(s) <==> EmailShape(s)
  {
    if ValidateEmail(s) {
      var at, dot :| 0 < at < |s| && at + 1 < dot < |s| - 1 && EmailSplit(s, at, dot);
      forall k | 0 <= k < |s| && k != at && k != dot ensures IsEmailChar(s[k]) {
        if k < at {
          assert s[..at][k] == s[k];
        } else if k < dot {
          assert s[at + 1..dot][k - at - 1] == s[k];
        } else {
          assert s[dot + 1..][k - dot - 1] == s[k];
        }
      }
      assert OnlyAtSign(s, at);
      assert DomainHasInnerDot(s, at);
    }
    if EmailShape(s) {
      var at :| 0 < at < |s| && OnlyAtSign(s, at) && DomainHasInnerDot(s, at);
      var dot :| at + 1 < dot < |s| - 1 && s[dot] == '.';
      assert forall k | 0 <= k < |s| && k != at :: IsEmailChar(s[k]);
      assert AllEmailChars(s[..at]);
      assert AllEmailChars(s[at + 1..dot]);
      assert AllEmailChars(s[dot + 1..]);
      assert EmailSplit(s, at, dot);
    }
  }

  // ---------------------------------------------------------------- phone

  /** A character of the class `[\d\s\-()]`. */
  predicate IsPhoneChar(c: char) {
    '0' <= c <= '9' || IsJsSpace(c) || c == '-' || c == '(' || c == ')'
  }

  predicate AllPhoneChars(s: string) {
    forall k | 0 <= k < |s| :: IsPhoneChar(s[k])
  }

  /** `/^\+?[\d\s\-()]{10,}$/`, read as a regex: with or without a leading '+', ten or more class characters. */
  ghost predicate PhoneRegex(s: string) {
    (|s| >= 10 && AllPhoneChars(s)) || (|s| >= 11 && s[0] == '+' && AllPhoneChars(s[1..]))
  }

  /** The phone pattern test, deciding the optional '+' by the first character. */
  function MatchesPhone(s: string): bool {
    var digits := if |s| > 0 && s[0] == '+' then s[1..] else s;
    |digits| >= 10 && AllPhoneChars(digits)
  }

  /** Deciding the '+' by the first character matches the regex: '+' is not in the class. */
  lemma MatchesPhoneIffRegex(s: string)
    ensures MatchesPhone(s) <==> PhoneRegex(s)
  {
    if |s| > 0 && s[0] == '+' {
      assert !IsPhoneChar(s[0]);
    }
  }

  // ---------------------------------------------------------------- fields

  /** `firstName`/`lastName`: blank after trimming, then the untrimmed length. */
  function ValidateName(isFirst: bool, value: string): FieldValidation {
    if JsTrim(value) == "" then
      FieldValidation(false, if isFirst then "First name is required" else "Last name is required")
    else if |value| < 2 then
      FieldValidation(false, "Name must be at least 2 characters")
    else Ok
  }

  lemma ValidateNameSpec(isFirst: bool, value: string)
    ensures ValidateName(isFirst, value).isValid <==> !IsBlank(value, IsJsSpace) && |value| >= 2
    ensures IsBlank(value, IsJsSpace) ==>
      ValidateName(isFirst, value).message == if isFirst then "First name is required" else "Last name is required"
    ensures !IsBlank(value, IsJsSpace) && |value| < 2 ==>
      ValidateName(isFirst, value).message == "Name must be at least 2 characters"
  {
    TrimEmptyIffBlank(value, IsJsSpace);
  }

  function ValidateEmailField(value: string): FieldValidation {
    if JsTrim(value) == "" then FieldValidation(false, "Email is required")
    else if !ValidateEmail(value) then FieldValidation(false, "Please enter a valid email address")
    else Ok
  }

  lemma ValidateEmailFieldSpec(value: string)
    ensures ValidateEmailField(value).isValid <==> EmailShape(value)
    ensures IsBlank(value, IsJsSpace) ==> ValidateEmailField(value) == FieldValidation(false, "Email is required")
    ensures !IsBlank(value, IsJsSpace) && !EmailShape(value) ==>
      ValidateEmailField(value) == FieldValidation(false, "Please enter a valid email address")
  {
    TrimEmptyIffBlank(value, IsJsSpace);
    EmailRegexIffShape(value);
    if IsBlank(value, IsJsSpace) && |value| > 0 {
      assert IsJsSpace(value[0]) && !IsEmailChar(value[0]);
      assert !ValidateEmail(value);
    }
  }

  function ValidatePhone(value: string): FieldValidation {
    if value != "" && !MatchesPhone(value) then FieldValidation(false, "Please enter a valid phone number")
    else Ok
  }

  lemma ValidatePhoneSpec(value: string)
    ensures ValidatePhone(value).isValid <==> value == "" || PhoneRegex(value)
    ensures !ValidatePhone(value).isValid ==> ValidatePhone(value).message == "Please enter a valid phone number"
  {
    MatchesPhoneIffRegex(value);
  }

  /** The password is judged by the stored strength score, not by the value passed in. */
  function ValidatePassword(value: string, storedScore: nat): (r: FieldValidation)
    ensures r.isValid <==> value != "" && storedScore >= 3
    ensures value == "" ==> r.message == "Password is required"
    ensures value != "" && storedScore < 3 ==> r.message == "Password is too weak"
  {
    if value == "" then FieldValidation(false, "Password is required")
    else if storedScore < 3 then FieldValidation(false, "Password is too weak")
    else Ok
  }

  function ValidateConfirm(value: string, password: string): (r: FieldValidation)
    ensures r.isValid <==> value != "" && value == password
    ensures value == "" ==> r.message == "Please confirm your password"
    ensures value != "" && value != password ==> r.message == "Passwords don't match"
  {
    if value == "" then FieldValidation(false, "Please confirm your password")
    else if value != password then FieldValidation(false, "Passwords don't match")
    else Ok
  }

  function ValidateCompany(value: string, userType: string): FieldValidation {
    if userType == "employer" && JsTrim(value) == "" then FieldValidation(false, "Company name is required for employers")
    else Ok
  }

  lemma ValidateCompanySpec(value: string, userType: string)
    ensures !ValidateCompany(value, userType).isValid <==> userType == "employer" && IsBlank(value, IsJsSpace)
    ensures !ValidateCompany(value, userType).isValid ==>
      ValidateCompany(value, userType).message == "Company name is required for employers"
  {
    TrimEmptyIffBlank(value, IsJsSpace);
  }

  /**
   * `validateField(name, value)`, reading `formData.password`,
   * `formData.userType` and the stored strength score from the closure.
   * A valid result carries an empty message; an invalid one never does.
   */
  function ValidateField(name: Name, value: string, d: Draft, storedScore: nat): (r: FieldValidation)
    ensures r.isValid <==> r.message == ""
    ensures name !in {FirstName, LastName, Email, Phone, Password, ConfirmPassword, Company} ==> r == Ok
  {
    match name
    case FirstName => ValidateName(true, value)
    case LastName => ValidateName(false, value)
    case Email => ValidateEmailField(value)
    case Phone => ValidatePhone(value)
    case Password => ValidatePassword(value, storedScore)
    case ConfirmPassword => ValidateConfirm(value, d.password)
    case Company => ValidateCompany(value, d.userType)
    case _ => Ok
  }

  /** Names are checked on their untrimmed length: one letter after a space passes. */
  lemma NameLengthIsUntrimmed()
    ensures ValidateName(true, " a").isValid
    ensures !ValidateName(true, "a").isValid
  {
    ValidateNameSpec(true, " a");
    ValidateNameSpec(true, "a");
    assert !IsJsSpace(" a"[1]);
  }

  /** Examples of the email rule: a plain address passes; a missing dot, a second '@' or a trailing dot fails. */
  lemma EmailExamples()
    ensures ValidateEmail("a@b.c")
    ensures !ValidateEmail("a@bc") && !ValidateEmail("a@b@c.d") && !ValidateEmail("a@b.")
  {
    var ok := "a@b.c";
    assert ok[..1] == "a" && ok[1 + 1..3] == "b" && ok[3 + 1..] == "c";
    assert EmailSplit(ok, 1, 3);
    EmailRegexIffShape("a@b@c.d");
    var s := "a@b@c.d";
    assert s[1] == '@' && s[3] == '@';
  }
}
