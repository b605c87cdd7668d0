/**
 * The featured-jobs list: it loads every job once, shows each with display
 * defaults for missing fields, and keeps a set of saved job ids that a
 * heart button toggles.
 */
module FeaturedJobList {
  import opened Wrappers
  import opened JobService

  /** A job's `id` as the button passes it; a job without one passes `undefined`. */
  type JobKey = Option<int>

  /** A JavaScript `Set` of job keys. */
  class JsSet {
    var elems: set<JobKey>

    constructor ()
      ensures elems == {}
    {
      elems := {};
    }

    /** `new Set(other)`: a separate set with the same members. */
    constructor Copy(other: JsSet)
      ensures elems == other.elems
    {
      elems := other.elems;
    }

    predicate Has(x: JobKey)
      reads this
    {
      x in elems
    }

    method Add(x: JobKey)
      modifies this
      ensures elems == old(elems) + {x}
    {
      elems := elems + {x};
    }

    method Delete(x: JobKey)
      modifies this
      ensures elems == old(elems) - {x}
    {
      elems := elems - {x};
    }
  }

  /** The saved set after toggling `id`. */
  function Toggle(s: set<JobKey>, id: JobKey): (r: set<JobKey>)
    ensures id in r <==> id !in s
    ensures forall x :: x != id ==> (x in r <==> x in s)
  {
    if id in s then s - {id} else s + {id}
  }

  /** Toggling the same id twice restores the set. */
  lemma ToggleTwice(s: set<JobKey>, id: JobKey)
    ensures Toggle(Toggle(s, id), id) == s
  {
  }

  /** Toggles of two ids commute. */
  lemma TogglesCommute(s: set<JobKey>, a: JobKey, b: JobKey)
    ensures Toggle(Toggle(s, a), b) == Toggle(Toggle(s, b), a)
  {
  }

  /** A string field is shown when truthy, the fallback otherwise. */
  function OrDefault(v: Option<string>, fallback: string): (r: string)
    ensures v.Some? && v.value != "" ==> r == v.value
    ensures v.None? || v.value == "" ==> r == fallback
  {
    if v.Some? && v.value != "" then v.value else fallback
  }

  /** The text of one job card. */
  datatype CardText = CardText(
    title: Option<string>,
    company: string,
    description: Option<string>,
    location: string,
    salary: Option<string>,
    posted: string,
    jobType: string,
    saved: bool)

  function Display(job: JobCard, saved: set<JobKey>): (c: CardText)
    ensures c.company == OrDefault(job.company, "Not specified")
    ensures c.location == OrDefault(job.location, "Not specified")
    ensures c.posted == OrDefault(job.posted, "Recently posted")
    ensures c.jobType == OrDefault(job.jobType, "Full-time")
    ensures c.salary.Some? <==> job.salary.Some? && job.salary.value != ""
    ensures c.salary.Some? ==> c.salary == job.salary
    ensures c.saved <==> job.id in saved
    ensures c.title == job.title && c.description == job.description
  {
    CardText(
      job.title,
      OrDefault(job.company, "Not specified"),
      job.description,
      OrDefault(job.location, "Not specified"),
      if job.salary.Some? && job.salary.value != "" then job.salary else None,
      OrDefault(job.posted, "Recently posted"),
      OrDefault(job.jobType, "Full-time"),
      job.id in saved)
  }

  /** Every job the back end sends lacks salary, posted date and type, so those three always show their defaults. */
  lemma BackendJobsShowDefaults(job: JobCard, saved: set<JobKey>)
    requires job.salary.None? && job.posted.None? && job.jobType.None?
    ensures var c := Display(job, saved);
      c.salary.None? && c.posted == "Recently posted" && c.jobType == "Full-time"
  {
  }

  class FeaturedJobs {
    var jobs: seq<JobCard>
    var loading: bool
    var savedJobs: JsSet

    constructor ()
      ensures jobs == [] && loading && savedJobs.elems == {}
    {
      jobs := [];
      loading := true;
      savedJobs := new JsSet();
    }

    /** The mount effect's call: the full list, with no token. */
    method Mount() returns (call: Operation)
      ensures call == GetAllJobs
    {
      call := GetAllJobs;
    }

    /** The call settles: a response's body replaces the list, a failure keeps it; loading ends either way. */
    method FinishFetch(outcome: Option<Response>)
      modifies this`jobs, this`loading
      ensures outcome.Some? ==> jobs == outcome.value.data
      ensures outcome.None? ==> jobs == old(jobs)
      ensures !loading
    {
      if outcome.Some? {
        jobs := outcome.value.data;
      }
      loading := false;
    }

    /** `toggleSaveJob`: copy the set, add or delete the id in the copy, store the copy; the old set is untouched. */
    method ToggleSaveJob(jobId: JobKey)
      modifies this`savedJobs
      ensures fresh(savedJobs)
      ensures savedJobs.elems == Toggle(old(savedJobs.elems), jobId)
      ensures unchanged(old(savedJobs))
    {
      var newSavedJobs := new JsSet.Copy(savedJobs);
      if newSavedJobs.Has(jobId) {
        newSavedJobs.Delete(jobId);
      } else {
        newSavedJobs.Add(jobId);
      }
      savedJobs := newSavedJobs;
    }

    /** The spinner while loading, the cards afterwards. */
    function Render(): (cards: Option<seq<CardText>>)
      reads this, savedJobs
      ensures cards.None? <==> loading
      ensures cards.Some? ==> |cards.value| == |jobs|
      ensures cards.Some? ==> forall k :: 0 <= k < |jobs| ==> cards.value[k] == Display(jobs[k], savedJobs.elems)
    {
      var list, saved := jobs, savedJobs.elems;
      if loading then None else Some(seq(|list|, k requires 0 <= k < |list| => Display(list[k], saved)))
    }
  }
}
