/**
 * The three-step registration form controller of the sign-up component:
 * the draft, the validation state, the stored strength, the step counter
 * and the handlers that change them.
 */
module SignUpForm {
  import opened Wrappers
  import opened Text
  import opened PasswordStrength
  import opened SignUpValidation

  /** The body of the registration request: exactly these five fields. */
  datatype RegisterPayload = RegisterPayload(email: string, password: string, firstName: string, lastName: string, role: string)

  /** How the registration request ended; the transport itself is not modelled. */
  datatype RegisterOutcome = Registered | Rejected

  /** An input's change event: its `name`, `value`, whether its `type` is "checkbox", and `checked`. */
  datatype ChangeEvent = ChangeEvent(name: Name, value: string, isCheckbox: bool, checked: bool)

  const TermsError: FieldValidation := FieldValidation(false, "Please agree to the terms and conditions")
  const RegistrationFailed: string := "Registration failed. Try again or use a different email."

  /** The role sent to the back end. */
  function RoleOf(userType: string): (role: string)
    ensures role == "EMPLOYER" <==> userType == "employer"
    ensures role == "USER" <==> userType != "employer"
  {
    if userType == "employer" then "EMPLOYER" else "USER"
  }

  function PayloadOf(d: Draft): RegisterPayload {
    RegisterPayload(d.email, d.password, d.firstName, d.lastName, RoleOf(d.userType))
  }

  /** The fields `validateStep` checks, in order: four on step 1, two or three on step 2, none otherwise. */
  function StepFields(step: int, userType: string): (fs: seq<Name>)
    ensures forall f :: f in fs ==> f in Validated && f != Terms && !IsCheckbox(f)
    ensures Company in fs <==> step == 2 && userType == "employer"
  {
    if step == 1 then [FirstName, LastName, Email, Phone]
    else if step == 2 then [Password, ConfirmPassword] + (if userType == "employer" then [Company] else [])
    else []
  }

  /** `validateField(f, formData[f])` for a text field. */
  function Check(d: Draft, score: nat, f: Name): FieldValidation
    requires f != Terms && !IsCheckbox(f)
  {
    ValidateField(f, Get(d, f).s, d, score)
  }

  /** Every field of the step validates. */
  predicate StepValid(d: Draft, score: nat, step: int) {
    forall f :: f in StepFields(step, d.userType) ==> Check(d, score, f).isValid
  }

  /** The validation state after checking a step: its fields refreshed, every other entry as before. */
  function Refreshed(base: map<Name, FieldValidation>, d: Draft, score: nat, step: int): (r: map<Name, FieldValidation>)
    ensures r.Keys == base.Keys + set f | f in StepFields(step, d.userType)
    ensures forall f :: f in StepFields(step, d.userType) ==> r[f] == Check(d, score, f)
    ensures forall f :: f in base && f !in StepFields(step, d.userType) ==> r[f] == base[f]
  {
    base + map f | f in StepFields(step, d.userType) :: Check(d, score, f)
  }

  /**
   * The validation state a submit leaves. Both step checks start from the
   * same snapshot of the state, and each stores its own result, so once
   * step 1 passes its refreshed entries are replaced by step 2's result.
   */
  function SubmitValidation(base: map<Name, FieldValidation>, d: Draft, score: nat): map<Name, FieldValidation> {
    if !StepValid(d, score, 1) then Refreshed(base, d, score, 1)
    else if !StepValid(d, score, 2) then Refreshed(base, d, score, 2)
    else if !d.agreeToTerms then Refreshed(base, d, score, 2)[Terms := TermsError]
    else Refreshed(base, d, score, 2)
  }

  /** `getStepProgress`: `((step - 1) / 2) * 100`. */
  function StepProgress(step: int): (r: real)
    ensures 1 <= step <= 3 ==> 0.0 <= r <= 100.0
    ensures r == 0.0 <==> step == 1
    ensures r == 50.0 <==> step == 2
    ensures r == 100.0 <==> step == 3
  {
    ((step - 1) as real / 2.0) * 100.0
  }

  class SignUp {
    var formData: Draft
    var validation: map<Name, FieldValidation>
    var passwordStrength: Strength
    var loading: bool
    var error: string
    var currentStep: int

    constructor ()
      ensures formData == InitialDraft && validation == InitialValidation
      ensures passwordStrength == Strength(0, Some("Very Weak"), Some("red"), [])
      ensures !loading && error == "" && currentStep == 1
    {
      formData := InitialDraft;
      validation := InitialValidation;
      passwordStrength := Strength(0, Some("Very Weak"), Some("red"), []);
      loading := false;
      error := "";
      currentStep := 1;
    }

    /** The strength effect: re-score a non-empty password, keep the old strength for an empty one. */
    method RefreshStrength()
      modifies this`passwordStrength
      ensures formData.password == "" ==> passwordStrength == old(passwordStrength)
      ensures formData.password != "" ==> passwordStrength.score == Score(formData.password)
      ensures formData.password != "" ==> passwordStrength.feedback == Feedback(formData.password)
      ensures formData.password != "" ==>
        passwordStrength.strength == Lookup(Labels, Score(formData.password))
        && passwordStrength.color == Lookup(Colors, Score(formData.password))
    {
      if formData.password != "" {
        passwordStrength := CheckPasswordStrength(formData.password);
      }
    }

    /**
     * `handleChange`: store the input's value (`checked` for a checkbox) under
     * its name, and clear that name's validation entry if it holds an error.
     */
    method HandleChange(e: ChangeEvent)
      requires e.name != Terms && (e.isCheckbox <==> IsCheckbox(e.name))
      modifies this`formData, this`validation
      ensures formData == Set(old(formData), e.name, if e.isCheckbox then Flag(e.checked) else Text(e.value))
      ensures e.name in old(validation) && !old(validation)[e.name].isValid ==> validation == old(validation)[e.name := Ok]
      ensures !(e.name in old(validation) && !old(validation)[e.name].isValid) ==> validation == old(validation)
    {
      formData := Set(formData, e.name, if e.isCheckbox then Flag(e.checked) else Text(e.value));
      if e.name in validation && !validation[e.name].isValid {
        validation := validation[e.name := Ok];
      }
    }

    /**
     * The body of `validateStep`: copy `base`, validate each of the step's
     * fields in turn, store each result and note any failure. Changes nothing.
     */
    method ComputeStep(base: map<Name, FieldValidation>, step: int) returns (newValidation: map<Name, FieldValidation>, isStepValid: bool)
      ensures newValidation == Refreshed(base, formData, passwordStrength.score, step)
      ensures isStepValid == StepValid(formData, passwordStrength.score, step)
    {
      var d, score := formData, passwordStrength.score;
      var fields := StepFields(step, d.userType);
      newValidation := base;
      isStepValid := true;
      var i := 0;
      while i < |fields|
        invariant 0 <= i <= |fields|
        invariant newValidation.Keys == base.Keys + set k | 0 <= k < i :: fields[k]
        invariant forall k :: 0 <= k < i ==> newValidation[fields[k]] == Check(d, score, fields[k])
        invariant forall f :: f in base && f !in fields[..i] ==> newValidation[f] == base[f]
        invariant isStepValid <==> forall k :: 0 <= k < i ==> Check(d, score, fields[k]).isValid
      {
        var field := fields[i];
        var fieldValidation := Check(d, score, field);
        newValidation := newValidation[field := fieldValidation];
        if !fieldValidation.isValid {
          isStepValid := false;
        }
        i := i + 1;
      }
      LoopMap(base, d, score, step, newValidation);
      LoopFlag(d, score, step, isStepValid);
    }

    /** `validateStep(step)`: store the refreshed state and report whether the step passed. */
    method ValidateStep(step: int) returns (isStepValid: bool)
      modifies this`validation
      ensures validation == Refreshed(old(validation), formData, passwordStrength.score, step)
      ensures isStepValid == StepValid(formData, passwordStrength.score, step)
    {
      var newValidation;
      newValidation, isStepValid := ComputeStep(validation, step);
      validation := newValidation;
    }

    /** `handleNext`: advance exactly when the current step validates. */
    method HandleNext()
      modifies this`validation, this`currentStep
      ensures validation == Refreshed(old(validation), formData, passwordStrength.score, old(currentStep))
      ensures currentStep == if StepValid(formData, passwordStrength.score, old(currentStep)) then old(currentStep) + 1 else old(currentStep)
    {
      var ok := ValidateStep(currentStep);
      if ok {
        currentStep := currentStep + 1;
      }
    }

    /** `handleBack`: unconditional; the draft is outside its frame. */
    method HandleBack()
      modifies this`currentStep
      ensures currentStep == old(currentStep) - 1
    {
      currentStep := currentStep - 1;
    }

    /**
     * `handleSubmit`: re-check steps 1 and 2, then the terms, and only then
     * send the registration request. Returns the request sent, if any.
     */
    method HandleSubmit(outcome: RegisterOutcome) returns (request: Option<RegisterPayload>)
      modifies this`validation, this`loading, this`error
      ensures request.Some? <==>
        StepValid(formData, passwordStrength.score, 1) && StepValid(formData, passwordStrength.score, 2) && formData.agreeToTerms
      ensures request.Some? ==> request.value == PayloadOf(formData)
      ensures validation == SubmitValidation(old(validation), formData, passwordStrength.score)
      ensures !loading
      ensures error == if request.Some? && outcome == Rejected then RegistrationFailed else ""
    {
      loading := true;
      error := "";
      var snapshot := validation;

      var afterStep1, step1Ok := ComputeStep(snapshot, 1);
      validation := afterStep1;
      if !step1Ok {
        loading := false;
        return None;
      }
      var afterStep2, step2Ok := ComputeStep(snapshot, 2);
      validation := afterStep2;
      if !step2Ok {
        loading := false;
        return None;
      }

      if !formData.agreeToTerms {
        validation := validation[Terms := TermsError];
        loading := false;
        return None;
      }

      request := Some(PayloadOf(formData));
      if outcome == Rejected {
        error := RegistrationFailed;
      }
      loading := false;
    }

    /** `getStepProgress`. */
    function GetStepProgress(): real
      reads this
    {
      StepProgress(currentStep)
    }
  }

  /** The map `ComputeStep`'s loop leaves after the last field is the refreshed state. */
  lemma LoopMap(base: map<Name, FieldValidation>, d: Draft, score: nat, step: int, m: map<Name, FieldValidation>)
    requires m.Keys == base.Keys + set k | 0 <= k < |StepFields(step, d.userType)| :: StepFields(step, d.userType)[k]
    requires forall k :: 0 <= k < |StepFields(step, d.userType)| ==>
      m[StepFields(step, d.userType)[k]] == Check(d, score, StepFields(step, d.userType)[k])
    requires forall f :: f in base && f !in StepFields(step, d.userType)[..|StepFields(step, d.userType)|] ==> m[f] == base[f]
    ensures m == Refreshed(base, d, score, step)
  {
    var fields := StepFields(step, d.userType);
    assert fields[..|fields|] == fields;
    assert (set k | 0 <= k < |fields| :: fields[k]) == set f | f in fields;
    var refreshed := map f | f in fields :: Check(d, score, f);
    forall k | 0 <= k < |fields|
      ensures m[fields[k]] == refreshed[fields[k]]
    {
    }
    OverlayAgrees(base, refreshed, fields, m);
  }

  /** A map that agrees with `upd` on the listed keys and with `base` elsewhere is `base` overlaid by `upd`. */
  lemma OverlayAgrees(base: map<Name, FieldValidation>, upd: map<Name, FieldValidation>, fields: seq<Name>,
                      m: map<Name, FieldValidation>)
    requires upd.Keys == set f | f in fields
    requires m.Keys == base.Keys + upd.Keys
    requires forall k :: 0 <= k < |fields| ==> m[fields[k]] == upd[fields[k]]
    requires forall f :: f in base && f !in fields ==> m[f] == base[f]
    ensures m == base + upd
  {
    forall f | f in m.Keys
      ensures m[f] == (base + upd)[f]
    {
      if f in fields {
        var k :| 0 <= k < |fields| && fields[k] == f;
      }
    }
  }

  /** The flag `ComputeStep`'s loop leaves after the last field says whether the step is valid. */
  lemma LoopFlag(d: Draft, score: nat, step: int, ok: bool)
    requires ok <==> forall k :: 0 <= k < |StepFields(step, d.userType)| ==> Check(d, score, StepFields(step, d.userType)[k]).isValid
    ensures ok == StepValid(d, score, step)
  {
    var fields := StepFields(step, d.userType);
    if ok {
      forall f | f in fields
        ensures Check(d, score, f).isValid
      {
        var k :| 0 <= k < |fields| && fields[k] == f;
      }
    }
  }

  /** An empty first name blocks step 1 and is reported as required. */
  lemma EmptyFirstNameBlocksStep1(base: map<Name, FieldValidation>, d: Draft, score: nat)
    requires d.firstName == ""
    ensures !StepValid(d, score, 1)
    ensures Refreshed(base, d, score, 1)[FirstName] == FieldValidation(false, "First name is required")
  {
    assert FirstName in StepFields(1, d.userType);
  }

  /**
   * With the password fields valid, step 2 passes exactly unless the user is
   * an employer with a blank company name.
   */
  lemma CompanyRequiredOnlyForEmployers(d: Draft, score: nat)
    requires Check(d, score, Password).isValid && Check(d, score, ConfirmPassword).isValid
    ensures StepValid(d, score, 2) <==> !(d.userType == "employer" && IsBlank(d.company, IsJsSpace))
  {
    ValidateCompanySpec(d.company, d.userType);
    var fields := StepFields(2, d.userType);
    if d.userType == "employer" {
      assert fields == [Password, ConfirmPassword, Company];
    } else {
      assert fields == [Password, ConfirmPassword];
    }
  }

  /** Steps other than 1 and 2 have nothing to check and change no entry. */
  lemma OtherStepsPass(base: map<Name, FieldValidation>, d: Draft, score: nat, step: int)
    requires step != 1 && step != 2
    ensures StepValid(d, score, step) && Refreshed(base, d, score, step) == base
  {
    assert StepFields(step, d.userType) == [];
  }

  /**
   * The terms error is raised only after both step checks pass, and a submit
   * never touches the terms entry otherwise.
   */
  lemma TermsErrorOnlyAfterStepChecks(base: map<Name, FieldValidation>, d: Draft, score: nat)
    requires Terms in base && base[Terms].isValid
    ensures !SubmitValidation(base, d, score)[Terms].isValid
      <==> StepValid(d, score, 1) && StepValid(d, score, 2) && !d.agreeToTerms
  {
    assert Terms !in StepFields(1, d.userType) && Terms !in StepFields(2, d.userType);
  }
}
