/**
 * The job REST controller over the jobs table: create, list, read, update,
 * delete and search. The table maps each stored id to its row; ids come
 * from an identity counter.
 */
module JobController {
  import opened Wrappers
  import opened JobEntity
  import opened JobRepository

  /** An HTTP reply: 200 with a body, 204, 400 or 404. */
  datatype Reply<T> = Ok(body: T) | NoContent | BadRequest | NotFound

  /** Every stored row carries its own key, and the counter is past every key. */
  ghost predicate WellFormed(table: map<int, JobRow>, nextId: int) {
    forall id :: id in table ==> table[id].id == Some(id) && id < nextId
  }

  /**
   * The row `save` stores and returns: a row whose id is already stored
   * replaces that row; any other row is inserted under the next identity
   * value.
   */
  function Saved(table: map<int, JobRow>, nextId: int, row: JobRow): (saved: JobRow)
    ensures saved.id.Some?
    ensures row.id.Some? && row.id.value in table ==> saved == row
    ensures !(row.id.Some? && row.id.value in table) ==> saved == row.(id := Some(nextId))
    ensures saved.(id := row.id) == row
  {
    if row.id.Some? && row.id.value in table then row else row.(id := Some(nextId))
  }

  /** Saving keeps the table well formed, and the saved row is then found under its id. */
  lemma SavePreservesWellFormed(table: map<int, JobRow>, nextId: int, row: JobRow)
    requires WellFormed(table, nextId)
    ensures var saved := Saved(table, nextId, row);
      var next := if row.id.Some? && row.id.value in table then nextId else nextId + 1;
      WellFormed(table[saved.id.value := saved], next)
      && table[saved.id.value := saved][saved.id.value] == saved
  {
  }

  /** A job after `updateJob`'s four setter calls: the stored id, the request's four text fields. */
  function Updated(stored: JobRow, details: JobRow): (r: JobRow)
    ensures r.id == stored.id
    ensures r.(id := details.id) == details
  {
    stored.(title := details.title, description := details.description, company := details.company, location := details.location)
  }

  /** Updating twice with the same details is the same as once, and the request's own id is ignored. */
  lemma UpdateIdempotent(stored: JobRow, details: JobRow, otherId: Option<int>)
    ensures Updated(Updated(stored, details), details) == Updated(stored, details)
    ensures Updated(stored, details.(id := otherId)) == Updated(stored, details)
  {
  }

  /** `findById`: a fresh entity carrying a stored row. */
  method Load(row: JobRow) returns (job: Job)
    ensures fresh(job) && job.Snapshot() == row
  {
    job := new Job.Empty();
    job.SetId(row.id);
    job.SetTitle(row.title);
    job.SetDescription(row.description);
    job.SetCompany(row.company);
    job.SetLocation(row.location);
  }

  class JobController {
    var table: map<int, JobRow>
    var nextId: int

    ghost predicate Valid()
      reads this
    {
      WellFormed(table, nextId)
    }

    constructor ()
      ensures table == map[] && Valid()
    {
      table := map[];
      nextId := 1;
    }

    /** `jobRepository.save(job)`. */
    method Save(row: JobRow) returns (saved: JobRow)
      requires Valid()
      modifies this
      ensures Valid()
      ensures saved == Saved(old(table), old(nextId), row)
      ensures table == old(table)[saved.id.value := saved]
      ensures nextId == if row.id.Some? && row.id.value in old(table) then old(nextId) else old(nextId) + 1
    {
      SavePreservesWellFormed(table, nextId, row);
      saved := Saved(table, nextId, row);
      if !(row.id.Some? && row.id.value in table) {
        nextId := nextId + 1;
      }
      table := table[saved.id.value := saved];
    }

    /** `createJob`: store the request body and return the saved job. */
    method CreateJob(job: JobRow) returns (saved: JobRow)
      requires Valid()
      modifies this
      ensures Valid()
      ensures saved == Saved(old(table), old(nextId), job)
      ensures table == old(table)[saved.id.value := saved]
    {
      saved := Save(job);
    }

    /** `getAllJobs`: every stored job. */
    method GetAllJobs() returns (jobs: set<JobRow>)
      ensures jobs == table.Values
    {
      jobs := table.Values;
    }

    /** `getJobById`: 200 with the job when the id is stored, 404 otherwise. */
    method GetJobById(id: int) returns (r: Reply<JobRow>)
      ensures id in table ==> r == Ok(table[id])
      ensures id !in table ==> r == NotFound
    {
      if id in table {
        r := Ok(table[id]);
      } else {
        r := NotFound;
      }
    }

    /**
     * `updateJob`: load the stored job, copy the request's four text fields
     * onto it through its setters and save it; 404 with nothing changed
     * when the id is not stored.
     */
    method UpdateJob(id: int, details: JobRow) returns (r: Reply<JobRow>)
      requires Valid()
      modifies this
      ensures Valid()
      ensures id in old(table) ==> r == Ok(Updated(old(table)[id], details))
      ensures id in old(table) ==> table == old(table)[id := Updated(old(table)[id], details)]
      ensures id !in old(table) ==> r == NotFound && table == old(table)
      ensures nextId == old(nextId)
    {
      if id !in table {
        return NotFound;
      }
      var job := Load(table[id]);
      job.SetTitle(details.title);
      job.SetDescription(details.description);
      job.SetCompany(details.company);
      job.SetLocation(details.location);
      assert job.Snapshot() == Updated(table[id], details);
      var saved := Save(job.Snapshot());
      r := Ok(saved);
    }

    /** `deleteJob`: 204 and the row removed when the id is stored, 404 with nothing changed otherwise. */
    method DeleteJob(id: int) returns (r: Reply<()>)
      requires Valid()
      modifies this`table
      ensures Valid()
      ensures id in old(table) ==> r == NoContent && table == old(table) - {id}
      ensures id !in old(table) ==> r == NotFound && table == old(table)
    {
      if id in table {
        table := table - {id};
        r := NoContent;
      } else {
        r := NotFound;
      }
    }

    /**
     * `searchJobs`: both query parameters are required (a missing one is a
     * 400), and the result is the search query over the table.
     */
    method SearchJobs(title: Option<string>, location: Option<string>) returns (r: Reply<map<int, JobRow>>)
      ensures title.None? || location.None? ==> r == BadRequest
      ensures title.Some? && location.Some? ==> r == Ok(Search(table, title, location))
    {
      if title.None? || location.None? {
        r := BadRequest;
      } else {
        r := Ok(Search(table, title, location));
      }
    }
  }
}
