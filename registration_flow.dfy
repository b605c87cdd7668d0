/**
 * The registration request from the sign-up form meeting the register
 * endpoint: which of the endpoint's checks a draft that passed the form's
 * own checks can still fail.
 */
module RegistrationFlow {
  import opened Wrappers
  import opened Text
  import opened SignUpValidation
  import opened SignUpForm
  import opened Users
  import AuthController

  /** The JSON body of the form's request as the endpoint reads it: five keys, none null. */
  function Body(p: RegisterPayload): (b: AuthController.Payload)
    ensures b.Keys == {"email", "password", "firstName", "lastName", "role"}
    ensures AuthController.Field(b, "email") == Some(p.email) && AuthController.Field(b, "password") == Some(p.password)
    ensures AuthController.Field(b, "firstName") == Some(p.firstName) && AuthController.Field(b, "lastName") == Some(p.lastName)
    ensures b["role"] == Some(p.role)
  {
    map["email" := Some(p.email), "password" := Some(p.password), "firstName" := Some(p.firstName),
        "lastName" := Some(p.lastName), "role" := Some(p.role)]
  }

  /** A valid email holds an '@', which Java's trim keeps, so the endpoint never finds it blank. */
  lemma ValidEmailNotJavaBlank(email: string)
    requires ValidateEmailField(email).isValid
    ensures JavaTrim(email) != ""
  {
    ValidateEmailFieldSpec(email);
    var at :| 0 < at < |email| && OnlyAtSign(email, at) && DomainHasInnerDot(email, at);
    assert !IsJavaTrimmable(email[at]);
    TrimEmptyIffBlank(email, IsJavaTrimmable);
  }

  /**
   * A draft that passes both steps gets past the endpoint's email, password
   * and role handling: the reply is a registration, a name refusal or the
   * duplicate-email refusal, and the role stored is the one the form chose.
   */
  lemma ValidDraftPassesEmailAndPasswordChecks(users: map<string, User>, d: Draft, score: nat, encode: string -> string)
    requires StepValid(d, score, 1) && StepValid(d, score, 2)
    ensures var r := AuthController.RegisterOutcome(users, Body(PayloadOf(d)), encode);
      r.reply == AuthController.Registered
      || r.reply == AuthController.Failure(400, "First name is required")
      || r.reply == AuthController.Failure(400, "Last name is required")
      || r.reply == AuthController.Failure(400, "Email already exists")
    ensures var r := AuthController.RegisterOutcome(users, Body(PayloadOf(d)), encode);
      r.saved.Some? ==> r.saved.value.role == Some(RoleOf(d.userType))
  {
    StepsGiveEmailAndPassword(d, score);
    var p := PayloadOf(d);
    var b := Body(p);
    assert "role" in b && b["role"] == Some(p.role);
    assert ToUpper(p.role) == p.role;
  }

  /** Steps 1 and 2 passing leave an email the endpoint does not find blank and a non-empty password. */
  lemma StepsGiveEmailAndPassword(d: Draft, score: nat)
    requires StepValid(d, score, 1) && StepValid(d, score, 2)
    ensures JavaTrim(d.email) != "" && d.password != ""
  {
    assert Email in StepFields(1, d.userType);
    assert Check(d, score, Email).isValid;
    ValidEmailNotJavaBlank(d.email);
    assert Password in StepFields(2, d.userType);
    assert Check(d, score, Password).isValid;
  }

  /**
   * The two sides trim different characters: a name of two control
   * characters is not blank to the form, which strips only whitespace, but
   * is blank to the endpoint, which strips every code up to U+0020.
   */
  lemma ControlCharacterNameAcceptedOnlyByForm()
    ensures ValidateName(true, "\U{1}\U{1}").isValid
    ensures AuthController.MissingOrBlank(Some("\U{1}\U{1}"))
  {
    ValidateNameSpec(true, "\U{1}\U{1}");
    assert !IsBlank("\U{1}\U{1}", IsJsSpace) by { assert !IsJsSpace("\U{1}\U{1}"[0]); }
    assert IsBlank("\U{1}\U{1}", IsJavaTrimmable);
    TrimEmptyIffBlank("\U{1}\U{1}", IsJavaTrimmable);
  }
}
