/**
 * The job list used by the results page: where its jobs come from (the
 * `jobs` prop, a search, or the full list) and which of its four screens
 * it renders.
 */
module JobList {
  import opened Wrappers
  import opened JobService

  const FetchFailed: string := "Failed to fetch jobs. Please try again later."

  /**
   * What `jobList` holds: an array, or a value stored as the call resolved
   * it, the client's whole response object, which is not an array.
   */
  datatype JobsValue = Array(items: seq<JobCard>) | ResponseObject(response: Response)

  /** A JavaScript string prop is truthy when it is present and non-empty. */
  predicate Truthy(s: Option<string>) {
    s.Some? && s.value != ""
  }

  /** Where the list comes from. */
  datatype Source = UseProp(jobs: JobsValue) | Fetch(call: Operation)

  /** Any `jobs` prop, even an empty array, is used as it is; otherwise a filter decides between search and the full list. */
  function SelectSource(jobs: Option<JobsValue>, titleFilter: Option<string>, locationFilter: Option<string>): (src: Source)
    ensures src.UseProp? <==> jobs.Some?
    ensures src.UseProp? ==> src.jobs == jobs.value
    ensures src.Fetch? && src.call.SearchJobs? <==> jobs.None? && (Truthy(titleFilter) || Truthy(locationFilter))
    ensures src.Fetch? && src.call.SearchJobs? ==> src.call == SearchJobs(titleFilter, locationFilter)
    ensures src.Fetch? && !src.call.SearchJobs? ==> src.call == GetAllJobs
  {
    if jobs.Some? then UseProp(jobs.value)
    else if Truthy(titleFilter) || Truthy(locationFilter) then Fetch(SearchJobs(titleFilter, locationFilter))
    else Fetch(GetAllJobs)
  }

  /**
   * The screen rendered. `RenderFailure` is what `jobList.map` does on a
   * response object: it is not a function there, so rendering throws.
   */
  datatype Screen = LoadingJobs | ErrorMessage(message: string) | NoJobs | Cards(items: seq<JobCard>) | RenderFailure

  /** Loading wins over an error, an error over the empty notice, the empty notice over the list. */
  function ScreenOf(loading: bool, error: Option<string>, jobList: JobsValue): (s: Screen)
    ensures s.LoadingJobs? <==> loading
    ensures s.ErrorMessage? <==> !loading && Truthy(error)
    ensures s.ErrorMessage? ==> s.message == error.value
    ensures s.NoJobs? <==> !loading && !Truthy(error) && jobList == Array([])
    ensures s.Cards? <==> !loading && !Truthy(error) && jobList.Array? && jobList.items != []
    ensures s.Cards? ==> s.items == jobList.items
  {
    if loading then LoadingJobs
    else if Truthy(error) then ErrorMessage(error.value)
    else match jobList
      case Array(items) => if |items| == 0 then NoJobs else Cards(items)
      case ResponseObject(_) => RenderFailure
  }

  class JobListComponent {
    var jobList: JobsValue
    var loading: bool
    var error: Option<string>

    constructor ()
      ensures jobList == Array([]) && loading && error.None?
    {
      jobList := Array([]);
      loading := true;
      error := None;
    }

    /**
     * The effect for new props: take a given list as it is and stop loading,
     * or start the fetch the filters select and return it.
     */
    method Effect(jobs: Option<JobsValue>, titleFilter: Option<string>, locationFilter: Option<string>) returns (call: Option<Operation>)
      modifies this`jobList, this`loading, this`error
      ensures call.None? <==> jobs.Some?
      ensures jobs.Some? ==> jobList == jobs.value && !loading && error == old(error)
      ensures jobs.None? ==> Fetch(call.value) == SelectSource(jobs, titleFilter, locationFilter)
      ensures jobs.None? ==> jobList == old(jobList) && loading && error.None?
    {
      match SelectSource(jobs, titleFilter, locationFilter)
      case UseProp(given) =>
        jobList := given;
        loading := false;
        call := None;
      case Fetch(op) =>
        loading := true;
        error := None;
        call := Some(op);
    }

    /** The fetch settles: the resolved value is stored whole, a failure sets the message; loading ends either way. */
    method FinishFetch(outcome: Option<Response>)
      modifies this`jobList, this`loading, this`error
      ensures outcome.Some? ==> jobList == ResponseObject(outcome.value) && error == old(error)
      ensures outcome.None? ==> jobList == old(jobList) && error == Some(FetchFailed)
      ensures !loading
    {
      if outcome.Some? {
        jobList := ResponseObject(outcome.value);
      } else {
        error := Some(FetchFailed);
      }
      loading := false;
    }

    function Render(): (s: Screen)
      reads this
      ensures s == ScreenOf(loading, error, jobList)
    {
      ScreenOf(loading, error, jobList)
    }
  }

  /** A list the component fetched itself never reaches the cards: rendering the stored response object fails. */
  lemma FetchedListNeverRendersCards(error: Option<string>, r: Response)
    requires !Truthy(error)
    ensures ScreenOf(false, error, ResponseObject(r)) == RenderFailure
  {
  }

  /** A failed fetch always shows its message, whatever list was there before. */
  lemma FailedFetchShowsMessage(jobList: JobsValue)
    ensures ScreenOf(false, Some(FetchFailed), jobList) == ErrorMessage(FetchFailed)
  {
  }
}
