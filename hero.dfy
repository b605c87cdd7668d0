/**
 * The landing page's search box: two text inputs and the search button,
 * which navigates to the results page with a query built from the inputs.
 */
module Hero {
  import opened Wrappers
  import opened UrlParams

  /** The query `handleSearch` builds: a title pair when the title is non-empty, then a location pair likewise. */
  function SearchQuery(title: string, location: string): (params: seq<Pair>)
    ensures Get(params, "title") == if title != "" then Some(title) else None
    ensures Get(params, "location") == if location != "" then Some(location) else None
    ensures |params| == (if title != "" then 1 else 0) + (if location != "" then 1 else 0)
    ensures title != "" && location != "" ==> params[0].0 == "title" && params[1].0 == "location"
  {
    (if title != "" then [("title", title)] else []) + (if location != "" then [("location", location)] else [])
  }

  /** The navigation target for a query. */
  function SearchTarget(params: seq<Pair>): string {
    "/search?" + Serialize(params)
  }

  /** With both inputs empty the page navigates to the bare results path. */
  lemma EmptyInputsTarget()
    ensures SearchTarget(SearchQuery("", "")) == "/search?"
  {
    assert SearchQuery("", "") == [];
    assert Serialize([]) == [];
  }

  class HeroSearch {
    var title: string
    var location: string

    constructor ()
      ensures title == "" && location == ""
    {
      title := "";
      location := "";
    }

    /** The title input's change handler. */
    method SetTitle(value: string)
      modifies this`title
      ensures title == value
    {
      title := value;
    }

    /** The location input's change handler. */
    method SetLocation(value: string)
      modifies this`location
      ensures location == value
    {
      location := value;
    }

    /** `handleSearch`: append the non-empty inputs to a fresh parameter list and return the navigation target. */
    method HandleSearch() returns (target: string)
      ensures target == SearchTarget(SearchQuery(title, location))
    {
      var params := new SearchParams();
      if title != "" {
        params.Append("title", title);
      }
      assert params.entries == if title != "" then [("title", title)] else [];
      if location != "" {
        params.Append("location", location);
      }
      assert params.entries == SearchQuery(title, location);
      target := "/search?" + params.ToString();
    }
  }
}
