/** The job entity: an identifier the database assigns and four text columns, each of which may be null. */
module JobEntity {
  import opened Wrappers

  /** The values of a job's columns at one moment; `None` is Java's null. */
  datatype JobRow = JobRow(
    id: Option<int>,
    title: Option<string>,
    description: Option<string>,
    company: Option<string>,
    location: Option<string>)

  const NullRow: JobRow := JobRow(None, None, None, None, None)

  class Job {
    var id: Option<int>
    var title: Option<string>
    var description: Option<string>
    var company: Option<string>
    var location: Option<string>

    /** The no-argument constructor: every field null. */
    constructor Empty()
      ensures Snapshot() == NullRow
    {
      id := None;
      title := None;
      description := None;
      company := None;
      location := None;
    }

    /** The four-argument constructor: the text fields as given, the id left null. */
    constructor (title: Option<string>, description: Option<string>, company: Option<string>, location: Option<string>)
      ensures Snapshot() == JobRow(None, title, description, company, location)
    {
      this.id := None;
      this.title := title;
      this.description := description;
      this.company := company;
      this.location := location;
    }

    function Snapshot(): JobRow
      reads this
    {
      JobRow(id, title, description, company, location)
    }

    function GetId(): Option<int>
      reads this
    {
      id
    }

    function GetTitle(): Option<string>
      reads this
    {
      title
    }

    function GetDescription(): Option<string>
      reads this
    {
      description
    }

    function GetCompany(): Option<string>
      reads this
    {
      company
    }

    function GetLocation(): Option<string>
      reads this
    {
      location
    }

    method SetId(value: Option<int>)
      modifies this`id
      ensures GetId() == value && Snapshot() == old(Snapshot()).(id := value)
    {
      id := value;
    }

    method SetTitle(value: Option<string>)
      modifies this`title
      ensures GetTitle() == value && Snapshot() == old(Snapshot()).(title := value)
    {
      title := value;
    }

    method SetDescription(value: Option<string>)
      modifies this`description
      ensures GetDescription() == value && Snapshot() == old(Snapshot()).(description := value)
    {
      description := value;
    }

    method SetCompany(value: Option<string>)
      modifies this`company
      ensures GetCompany() == value && Snapshot() == old(Snapshot()).(company := value)
    {
      company := value;
    }

    method SetLocation(value: Option<string>)
      modifies this`location
      ensures GetLocation() == value && Snapshot() == old(Snapshot()).(location := value)
    {
      location := value;
    }
  }
}
