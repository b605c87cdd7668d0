/**
 * The post-a-job form: four text fields, an all-fields-required check,
 * the create call, and the error and success messages.
 */
module PostJob {
  import opened Wrappers
  import opened JobService

  const AllFieldsRequired: string := "All fields are required."
  const Posted: string := "Job posted successfully!"
  const PostFailed: string := "Failed to post job."

  const EmptyForm: JobForm := JobForm("", "", "", "")

  datatype Field = Title | Description | Company | Location

  /** The form with one field replaced. */
  function SetField(form: JobForm, f: Field, value: string): (r: JobForm)
    ensures f == Title ==> r == form.(title := value)
    ensures f == Description ==> r == form.(description := value)
    ensures f == Company ==> r == form.(company := value)
    ensures f == Location ==> r == form.(location := value)
  {
    match f
    case Title => form.(title := value)
    case Description => form.(description := value)
    case Company => form.(company := value)
    case Location => form.(location := value)
  }

  /** Every field is non-empty (an all-space value counts as filled). */
  predicate Complete(form: JobForm) {
    form.title != "" && form.description != "" && form.company != "" && form.location != ""
  }

  /** How the create call ended; a failure may carry the server's `message`. */
  datatype CreateOutcome = Created | Failed(serverMessage: Option<string>)

  /** The server's message when it is a non-empty string, the generic text otherwise. */
  function FailureMessage(serverMessage: Option<string>): (m: string)
    ensures m != ""
    ensures serverMessage.Some? && serverMessage.value != "" ==> m == serverMessage.value
    ensures serverMessage.None? || serverMessage.value == "" ==> m == PostFailed
  {
    if serverMessage.Some? && serverMessage.value != "" then serverMessage.value else PostFailed
  }

  class PostJobForm {
    var jobData: JobForm
    var loading: bool
    var error: string
    var success: string

    constructor ()
      ensures jobData == EmptyForm && !loading && error == "" && success == ""
    {
      jobData := EmptyForm;
      loading := false;
      error := "";
      success := "";
    }

    /** `handleChange`: replace the named field and clear both messages. */
    method HandleChange(f: Field, value: string)
      modifies this`jobData, this`error, this`success
      ensures jobData == SetField(old(jobData), f, value)
      ensures error == "" && success == ""
    {
      jobData := SetField(jobData, f, value);
      error := "";
      success := "";
    }

    /**
     * `handleSubmit`: clear the messages, refuse an incomplete form without
     * calling the server, otherwise send the form and report the outcome.
     * Returns the body sent, if any.
     */
    method HandleSubmit(outcome: CreateOutcome) returns (sent: Option<JobForm>)
      modifies this`jobData, this`loading, this`error, this`success
      ensures sent.Some? <==> Complete(old(jobData))
      ensures sent.Some? ==> sent.value == old(jobData)
      ensures !Complete(old(jobData)) ==> error == AllFieldsRequired && success == "" && jobData == old(jobData)
      ensures Complete(old(jobData)) && outcome.Created? ==> success == Posted && error == "" && jobData == EmptyForm
      ensures Complete(old(jobData)) && outcome.Failed? ==>
        error == FailureMessage(outcome.serverMessage) && success == "" && jobData == old(jobData)
      ensures (error, success) == MessagesAfter(old(jobData), outcome)
      ensures (error == "") != (success == "")
      ensures !loading
    {
      loading := true;
      error := "";
      success := "";
      if !Complete(jobData) {
        error := AllFieldsRequired;
        loading := false;
        return None;
      }
      sent := Some(jobData);
      match outcome {
        case Created =>
          success := Posted;
          jobData := EmptyForm;
        case Failed(serverMessage) =>
          error := FailureMessage(serverMessage);
      }
      loading := false;
    }
  }

  /** The error and success messages a submit of `form` leaves, given the server's answer. */
  function MessagesAfter(form: JobForm, outcome: CreateOutcome): (string, string) {
    if !Complete(form) then (AllFieldsRequired, "")
    else match outcome
      case Created => ("", Posted)
      case Failed(serverMessage) => (FailureMessage(serverMessage), "")
  }
}
