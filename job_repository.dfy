/**
 * The job search query: for each of title and location, a null or empty
 * filter puts no constraint on the job, and any other filter must occur,
 * ignoring case, inside the job's column; both conditions must hold.
 */
module JobRepository {
  import opened Wrappers
  import opened Text
  import opened JobEntity

  /** One of the query's two conditions. A null column never contains a non-empty filter. */
  predicate FieldMatches(column: Option<string>, filter: Option<string>) {
    filter.None? || filter.value == ""
    || (column.Some? && Contains(ToLower(column.value), ToLower(filter.value)))
  }

  predicate Matches(job: JobRow, title: Option<string>, location: Option<string>) {
    FieldMatches(job.title, title) && FieldMatches(job.location, location)
  }

  /** The stored jobs the query returns, by id. */
  function Search(table: map<int, JobRow>, title: Option<string>, location: Option<string>): (r: map<int, JobRow>)
    ensures forall id :: id in r <==> id in table && Matches(table[id], title, location)
    ensures forall id :: id in r ==> r[id] == table[id]
  {
    map id | id in table && Matches(table[id], title, location) :: table[id]
  }

  /** A non-empty filter matches exactly when the lower-cased column has the lower-cased filter at some position. */
  lemma NonEmptyFilterIsSubstring(column: Option<string>, filter: string)
    requires filter != ""
    ensures FieldMatches(column, Some(filter))
      <==> column.Some? && exists i :: OccursAt(ToLower(column.value), ToLower(filter), i)
  {
    if column.Some? {
      ContainsIff(ToLower(column.value), ToLower(filter));
    }
  }

  /** With both filters null or empty the search returns every stored job. */
  lemma EmptyFiltersReturnAll(table: map<int, JobRow>, title: Option<string>, location: Option<string>)
    requires title.None? || title.value == ""
    requires location.None? || location.value == ""
    ensures Search(table, title, location) == table
  {
  }

  /** A job whose title is null is never returned for a non-empty title filter, and likewise for location. */
  lemma NullColumnNeverMatches(job: JobRow, title: Option<string>, location: Option<string>)
    requires (job.title.None? && title.Some? && title.value != "")
      || (job.location.None? && location.Some? && location.value != "")
    ensures !Matches(job, title, location)
  {
  }

  lemma LowerOfUpper(s: string)
    ensures ToLower(ToUpper(s)) == ToLower(s)
  {
    var a, b := ToLower(ToUpper(s)), ToLower(s);
    assert |a| == |b|;
    forall k | 0 <= k < |s|
      ensures a[k] == b[k]
    {
      assert a[k] == LowerChar(UpperChar(s[k]));
    }
  }

  /** Case does not matter on either side: upper-casing the column or the filter leaves the outcome unchanged. */
  lemma MatchIgnoresCase(column: string, filter: string)
    ensures FieldMatches(Some(ToUpper(column)), Some(filter)) == FieldMatches(Some(column), Some(filter))
    ensures FieldMatches(Some(column), Some(ToUpper(filter))) == FieldMatches(Some(column), Some(filter))
  {
    LowerOfUpper(column);
    LowerOfUpper(filter);
    assert |ToUpper(filter)| == |filter|;
  }

  /** Adding a filter can only narrow the result. */
  lemma FilterNarrows(table: map<int, JobRow>, title: Option<string>, location: Option<string>)
    ensures Search(table, title, location).Keys <= Search(table, None, location).Keys
    ensures Search(table, title, location).Keys <= Search(table, title, None).Keys
  {
  }
}
