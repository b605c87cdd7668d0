/**
 * The results page: it reads the two filters from the location's query,
 * always asks the API to search, and shows the job list only once the
 * search has finished without an error.
 */
module SearchResults {
  import opened Wrappers
  import opened UrlParams
  import opened JobService
  import Hero

  const SearchFailed: string := "Failed to fetch search results. Please try again."

  /** The filters read from `location.search`: each parameter's first value, `''` when it is missing or empty. */
  function ParseFilters(search: string): (filters: (string, string))
    ensures forall k :: FirstWith(Parse(search), "title", k) ==> filters.0 == Parse(search)[k].1
    ensures (forall k :: 0 <= k < |Parse(search)| ==> Parse(search)[k].0 != "title") ==> filters.0 == ""
    ensures forall k :: FirstWith(Parse(search), "location", k) ==> filters.1 == Parse(search)[k].1
    ensures (forall k :: 0 <= k < |Parse(search)| ==> Parse(search)[k].0 != "location") ==> filters.1 == ""
  {
    var params := Parse(search);
    (Get(params, "title").GetOr(""), Get(params, "location").GetOr(""))
  }

  /** A repeated parameter: the filter is its first value. */
  lemma RepeatedTitleKeepsFirst()
    ensures ParseFilters("?title=a&title=b") == ("a", "")
  {
    var ps := [("title", "a"), ("title", "b")];
    ParseSerialize(ps);
    SerializeRepeatedTitle();
    assert FirstWith(ps, "title", 0);
  }

  lemma SerializeRepeatedTitle()
    ensures Serialize([("title", "a"), ("title", "b")]) == "title=a&title=b"
  {
    var ps := [("title", "a"), ("title", "b")];
    EncodeTitle();
    assert Encode("a") == "a" && Encode("b") == "b";
    assert EncodePair(ps[0]) == "title" + "=" + "a" == "title=a";
    assert EncodePair(ps[1]) == "title" + "=" + "b" == "title=b";
    var pieces := seq(|ps|, k requires 0 <= k < |ps| => EncodePair(ps[k]));
    assert pieces == ["title=a", "title=b"];
    assert Join(pieces, '&') == "title=a" + "&" + Join(pieces[1..], '&');
    assert pieces[1..] == ["title=b"];
  }

  lemma EncodeTitle()
    ensures Encode("title") == "title"
  {
    assert Encode("e") == "e";
    assert Encode("le") == "le";
    assert Encode("tle") == "tle";
    assert Encode("itle") == "itle";
  }

  /** Reading back the query the landing page built gives the two inputs exactly, for every pair of strings. */
  lemma HeroQueryRoundTrip(title: string, location: string)
    ensures ParseFilters("?" + Serialize(Hero.SearchQuery(title, location))) == (title, location)
    ensures ParseFilters(Serialize(Hero.SearchQuery(title, location))) == (title, location)
  {
    ParseSerialize(Hero.SearchQuery(title, location));
  }

  /** What the page shows: each of the three blocks is rendered on its own condition. */
  datatype View = View(loadingBanner: bool, errorBanner: Option<string>, jobList: Option<(Option<Response>, string, string)>)

  class SearchResultsPage {
    /** The last successful response; `None` stands for the initial empty array. */
    var searchResults: Option<Response>
    var loading: bool
    var error: Option<string>
    var titleFilter: string
    var locationFilter: string

    constructor ()
      ensures searchResults.None? && loading && error.None? && titleFilter == "" && locationFilter == ""
    {
      searchResults := None;
      loading := true;
      error := None;
      titleFilter := "";
      locationFilter := "";
    }

    /**
     * The effect's synchronous part for a new `location.search`: store the
     * filters, mark the page loading, clear the error, and return the
     * search the page starts, which is made even when both filters are empty.
     */
    method StartSearch(search: string) returns (call: Operation)
      modifies this`titleFilter, this`locationFilter, this`loading, this`error
      ensures (titleFilter, locationFilter) == ParseFilters(search)
      ensures loading && error.None?
      ensures call == SearchJobs(Some(titleFilter), Some(locationFilter))
    {
      var filters := ParseFilters(search);
      titleFilter := filters.0;
      locationFilter := filters.1;
      loading := true;
      error := None;
      call := SearchJobs(Some(titleFilter), Some(locationFilter));
    }

    /** The search settles: store the whole response or the error message, then stop loading. */
    method FinishSearch(outcome: Option<Response>)
      modifies this`searchResults, this`error, this`loading
      ensures outcome.Some? ==> searchResults == outcome && error == old(error)
      ensures outcome.None? ==> searchResults == old(searchResults) && error == Some(SearchFailed)
      ensures !loading
    {
      if outcome.Some? {
        searchResults := outcome;
      } else {
        error := Some(SearchFailed);
      }
      loading := false;
    }

    function Render(): (v: View)
      reads this
      ensures v.jobList.Some? <==> !loading && error.None?
      ensures v.jobList.Some? ==> v.jobList.value == (searchResults, titleFilter, locationFilter)
      ensures v.loadingBanner == loading && v.errorBanner == error
    {
      View(loading, error, if !loading && error.None? then Some((searchResults, titleFilter, locationFilter)) else None)
    }
  }
}
