/**
 * The front end's job API client: which request each operation sends, to
 * which URL, with which Authorization header and query parameters. The
 * transport itself is not modelled; an operation is the request it builds.
 */
module JobService {
  import opened Wrappers

  const DefaultBase: string := "http://localhost:8081/api/jobs"

  /** The job fields a form sends as the request body. */
  datatype JobForm = JobForm(title: string, description: string, company: string, location: string)

  /**
   * A job as the API returns it to the pages that list jobs; a field the
   * server leaves out or sends as null is `None`. The back end sends only
   * id, title, description, company and location.
   */
  datatype JobCard = JobCard(
    id: Option<int>,
    title: Option<string>,
    description: Option<string>,
    company: Option<string>,
    location: Option<string>,
    salary: Option<string>,
    posted: Option<string>,
    jobType: Option<string>)

  /** What a successful call resolves to: the client's response object, whose `data` holds the body. */
  datatype Response = Response(data: seq<JobCard>)

  datatype Verb = GET | POST | PUT | DELETE

  /**
   * A request as handed to the HTTP client. Query parameters keep JavaScript's
   * `undefined` as `None`, which the client leaves out of the query string.
   */
  datatype Request = Request(
    verb: Verb,
    url: string,
    authorization: Option<string>,
    withCredentials: bool,
    body: Option<JobForm>,
    params: seq<(string, Option<string>)>)

  /** The six operations of the client; `id` is the text the caller's value renders to. */
  datatype Operation =
    | GetAllJobs
    | GetJobById(id: string)
    | CreateJob(job: JobForm)
    | UpdateJob(id: string, job: JobForm)
    | DeleteJob(id: string)
    | SearchJobs(title: Option<string>, location: Option<string>)
  {
    /** The operations that address one job by its id. */
    predicate ById() {
      GetJobById? || UpdateJob? || DeleteJob?
    }

    /** The operations that carry the stored token. */
    predicate Authenticated() {
      !(GetAllJobs? || SearchJobs?)
    }
  }

  /** The API base: the environment setting when it is set and non-empty, the local server otherwise. */
  function BaseUrl(env: Option<string>): (base: string)
    ensures env.Some? && env.value != "" ==> base == env.value
    ensures env.None? || env.value == "" ==> base == DefaultBase
  {
    if env.Some? && env.value != "" then env.value else DefaultBase
  }

  /** The header value built from the stored token; a missing token is written out as `null`. */
  function Bearer(token: Option<string>): (h: string)
    ensures |h| >= 7 && h[..7] == "Bearer "
    ensures token.Some? ==> h[7..] == token.value
    ensures token.None? ==> h[7..] == "null"
  {
    "Bearer " + match token case Some(t) => t case None => "null"
  }

  /** The request an operation sends, given the environment setting and the token in storage. */
  function Build(env: Option<string>, token: Option<string>, op: Operation): (r: Request)
    ensures r.authorization.Some? <==> op.Authenticated()
    ensures r.authorization.Some? ==> r.authorization.value == Bearer(token) && r.withCredentials
    ensures r.body.Some? <==> op.CreateJob? || op.UpdateJob?
    ensures r.params != [] <==> op.SearchJobs?
    ensures r.verb == POST <==> op.CreateJob?
    ensures r.verb == PUT <==> op.UpdateJob?
    ensures r.verb == DELETE <==> op.DeleteJob?
    ensures op.GetAllJobs? || op.CreateJob? ==> r.url == BaseUrl(env)
  {
    var base := BaseUrl(env);
    var auth := Some(Bearer(token));
    match op
    case GetAllJobs => Request(GET, base, None, false, None, [])
    case GetJobById(id) => Request(GET, base + "/" + id, auth, true, None, [])
    case CreateJob(job) => Request(POST, base, auth, true, Some(job), [])
    case UpdateJob(id, job) => Request(PUT, base + "/" + id, auth, true, Some(job), [])
    case DeleteJob(id) => Request(DELETE, base + "/" + id, auth, true, None, [])
    case SearchJobs(title, location) => Request(GET, base + "/search", None, false, None, [("title", title), ("location", location)])
  }

  /** The id-addressed operations target the base, a slash and the id, so the id can be read back from the URL. */
  lemma ByIdTargetsIdPath(env: Option<string>, token: Option<string>, op: Operation)
    requires op.ById()
    ensures var r := Build(env, token, op);
      |r.url| > |BaseUrl(env)| && r.url[..|BaseUrl(env)|] == BaseUrl(env)
      && r.url[|BaseUrl(env)|] == '/' && r.url[|BaseUrl(env)| + 1..] == op.id
  {
  }

  /** A search always sends both parameters, in order, whatever their values, and no token. */
  lemma SearchSendsBothParams(env: Option<string>, token: Option<string>, title: Option<string>, location: Option<string>)
    ensures var r := Build(env, token, SearchJobs(title, location));
      r.verb == GET && r.url == BaseUrl(env) + "/search" && r.authorization.None?
      && |r.params| == 2 && r.params[0] == ("title", title) && r.params[1] == ("location", location)
  {
  }

  /** The request does not depend on the token exactly for the two public operations. */
  lemma TokenMattersOnlyWhenAuthenticated(env: Option<string>, t1: Option<string>, t2: Option<string>, op: Operation)
    requires Bearer(t1) != Bearer(t2)
    ensures Build(env, t1, op) == Build(env, t2, op) <==> !op.Authenticated()
  {
  }
}
