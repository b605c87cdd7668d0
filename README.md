# Job Portal — a verified Dafny model of its core

The Job Portal is a React front end with a Spring Boot back end. Job seekers
search and save job postings, employers post jobs, and both kinds of user
register and log in. This project models the logic those pieces carry:

- **Registration form** (`SignUp.jsx`): the password-strength scorer, the per-field validators, the three-step
  form with its step checks, navigation and progress value, and the submit gate with its registration payload.
- **Job search path**: the query the landing page builds (`Hero.jsx`) and the results page reads back
  (`SearchResults.jsx`), the API client's requests (`jobService.js`), the job list's data source and render
  precedence (`JobList.jsx`), and the back end's search predicate (`JobRepository.java`).
- **Job table** (`JobController.java` over `Job.java`): create, list, read, update, delete and search over a
  map from id to row.
- **Authentication back end**: login and register in `AuthController.java`, the principal lookup in
  `UserDetailsServiceImpl.java`, and the demo-account seeding in `JobportalApplication.java`.
- **Small client state**: the saved-jobs toggle and card defaults of `JobList.js`, and the post-a-job form of
  `PostJob.jsx`.

Stateful components are Dafny classes whose fields are the component's state variables. Each handler is a
method whose `ensures` gives the new state in terms of a specification function. Pure logic is functions and
lemmas. Network calls, the token store and the clock are parameters: a call's outcome is an input, and a
handler returns the request it sends. The password encoder, the authentication manager and the token issuer
are function-typed parameters.

One module per source file, in files of the same name. Three shared modules sit beside them:

- `Wrappers`: `Option`, which stands for JavaScript `null`/`undefined` and Java `null`.
- `Text`: ASCII trimming for both languages, case mapping and substring search.
- `UrlParams`: the browser's query-parameter list with its form-urlencoded serialiser and parser.

The module `RegistrationFlow` relates the form's request to the register endpoint.

## Model

| member | source | states |
|---|---|---|
| `PasswordStrength.CheckPasswordStrength` | jobportal-frontend/src/components/SignUp.jsx:7-30 | score is the number of met criteria, at most 5; feedback holds exactly the unmet requirements in the fixed order, 5 − score of them; the label and colour are the table entries at the score, absent exactly at score 5 |
| `PasswordStrength.ScoreAndFeedback` | jobportal-frontend/src/components/SignUp.jsx:8-24 | score ≤ 5, feedback length 5 − score, a requirement is listed iff its criterion is unmet |
| `PasswordStrength.CountPlusMissing` | jobportal-frontend/src/components/SignUp.jsx:8-24 | each criterion either scores a point or adds a feedback line, never both |
| `PasswordStrength.MissingNamesUnmet` | jobportal-frontend/src/components/SignUp.jsx:8-24 | a requirement text appears in the feedback iff its criterion is checked and unmet |
| `PasswordStrength.MoreCriteriaNoLowerScore` | jobportal-frontend/src/components/SignUp.jsx:8-24 | meeting a superset of criteria never lowers the score nor lengthens the feedback |
| `PasswordStrength.Lookup` | jobportal-frontend/src/components/SignUp.jsx:26-27 | array indexing yields the entry inside the table and `undefined` past its end |
| `PasswordStrength.LabelMissingOnlyAtFullScore` | jobportal-frontend/src/components/SignUp.jsx:26-27 | strength label and colour are undefined iff the score is 5 |
| `PasswordStrength.FullScoreExample` | jobportal-frontend/src/components/SignUp.jsx:7-30 | "Abc12345!" scores 5 and gets no label |
| `PasswordStrength.LowercaseOnlyExample` | jobportal-frontend/src/components/SignUp.jsx:7-30 | "abc" scores 1, "Weak", with the four other requirements in order |
| `SignUpValidation.Set` | jobportal-frontend/src/components/SignUp.jsx:86-89 | the named form field takes the new value, every other field keeps its value |
| `SignUpValidation.EmailRegexIffShape` | jobportal-frontend/src/components/SignUp.jsx:33-36 | the email pattern matches iff: no whitespace; exactly one '@' with a non-empty part before it; a '.' in the domain that is neither its first nor its last character |
| `SignUpValidation.EmailExamples` | jobportal-frontend/src/components/SignUp.jsx:33-36 | "a@b.c" matches; a missing dot, a second '@' and a trailing dot do not |
| `SignUpValidation.MatchesPhoneIffRegex` | jobportal-frontend/src/components/SignUp.jsx:133 | the phone check is the pattern: an optional '+' then at least ten digits, whitespace, '-', '(' or ')' |
| `SignUpValidation.ValidateNameSpec` | jobportal-frontend/src/components/SignUp.jsx:102-118 | a name is valid iff it is not blank and its untrimmed length is at least 2; blank gives "First/Last name is required", else a short one gives "Name must be at least 2 characters" |
| `SignUpValidation.NameLengthIsUntrimmed` | jobportal-frontend/src/components/SignUp.jsx:104-112 | " a" passes while "a" fails: the length test counts surrounding spaces |
| `SignUpValidation.ValidateEmailFieldSpec` | jobportal-frontend/src/components/SignUp.jsx:120-130 | valid iff the email shape holds; blank gives "Email is required", any other failure "Please enter a valid email address" |
| `SignUpValidation.ValidatePhoneSpec` | jobportal-frontend/src/components/SignUp.jsx:132-139 | valid iff empty or matching the phone pattern; otherwise "Please enter a valid phone number" |
| `SignUpValidation.ValidatePassword` | jobportal-frontend/src/components/SignUp.jsx:141-148 | valid iff non-empty and the stored score is at least 3; empty gives "Password is required", a low score "Password is too weak" |
| `SignUpValidation.ValidateConfirm` | jobportal-frontend/src/components/SignUp.jsx:150-157 | valid iff non-empty and exactly equal to the password; the two failure messages in that order |
| `SignUpValidation.ValidateCompanySpec` | jobportal-frontend/src/components/SignUp.jsx:159-166 | invalid iff the user is an employer and the company is blank, with the employer message |
| `SignUpValidation.ValidateField` | jobportal-frontend/src/components/SignUp.jsx:100-171 | a result is valid iff its message is empty; an unlisted field name is always valid |
| `SignUpForm.RoleOf` | jobportal-frontend/src/components/SignUp.jsx:243 | the role is "EMPLOYER" iff the user type is "employer", "USER" otherwise |
| `SignUpForm.StepFields` | jobportal-frontend/src/components/SignUp.jsx:177-194 | a step checks only validated text fields; the company is checked iff the step is 2 and the user is an employer |
| `SignUpForm.Refreshed` | jobportal-frontend/src/components/SignUp.jsx:173-198 | after a step check each of the step's fields holds its fresh result and every other entry is unchanged |
| `SignUpForm.StepProgress` | jobportal-frontend/src/components/SignUp.jsx:265-267 | progress is 0, 50 and 100 exactly on steps 1, 2 and 3, and within 0..100 on those steps |
| `SignUpForm.SignUp.constructor` | jobportal-frontend/src/components/SignUp.jsx:39-75 | the initial draft, validation state, strength, step 1, not loading, no error |
| `SignUpForm.SignUp.RefreshStrength` | jobportal-frontend/src/components/SignUp.jsx:78-82 | a non-empty password is re-scored: score, feedback, label and colour are those of the scorer; an empty one leaves the stored strength as it was |
| `SignUpForm.SignUp.HandleChange` | jobportal-frontend/src/components/SignUp.jsx:84-98 | only the named field changes (to `checked` for a checkbox); its validation entry is reset to valid only if it was invalid, all others untouched |
| `SignUpForm.SignUp.ComputeStep` | jobportal-frontend/src/components/SignUp.jsx:173-195 | the loop over the step's fields yields the refreshed state and whether every field passed |
| `SignUpForm.SignUp.ValidateStep` | jobportal-frontend/src/components/SignUp.jsx:173-198 | stores the refreshed state and returns whether the step is valid |
| `SignUpForm.SignUp.HandleNext` | jobportal-frontend/src/components/SignUp.jsx:200-204 | the step advances by one iff the current step is valid |
| `SignUpForm.SignUp.HandleBack` | jobportal-frontend/src/components/SignUp.jsx:206-208 | the step goes back by one, unconditionally, and nothing else changes |
| `SignUpForm.SignUp.HandleSubmit` | jobportal-frontend/src/components/SignUp.jsx:210-263 | a request is sent iff steps 1 and 2 are valid and the terms are accepted; it is exactly the five-field payload; the validation state is that of the last step check; loading ends false; a rejected request sets the failure message |
| `SignUpForm.EmptyFirstNameBlocksStep1` | jobportal-frontend/src/components/SignUp.jsx:177-183 | an empty first name makes step 1 invalid and is reported as "First name is required" |
| `SignUpForm.CompanyRequiredOnlyForEmployers` | jobportal-frontend/src/components/SignUp.jsx:184-193 | with valid passwords, step 2 fails iff the user is an employer with a blank company |
| `SignUpForm.OtherStepsPass` | jobportal-frontend/src/components/SignUp.jsx:173-198 | any step other than 1 and 2 is valid and changes no entry |
| `SignUpForm.TermsErrorOnlyAfterStepChecks` | jobportal-frontend/src/components/SignUp.jsx:217-232 | the terms entry becomes invalid iff both steps pass and the terms are not accepted |
| `UrlParams.SearchParams.Append` | jobportal-frontend/src/components/Hero.jsx:22-23 | a pair is added after the existing ones |
| `UrlParams.DecodeEncode` | jobportal-frontend/src/components/Hero.jsx:24 | decoding an encoded parameter gives back the original text, for every string |
| `UrlParams.ParseSerialize` | jobportal-frontend/src/components/Hero.jsx:21-24 | parsing a serialised parameter list, with or without its leading '?', gives the list back |
| `UrlParams.Get` | jobportal-frontend/src/components/SearchResults.jsx:16-17 | `get` finds a value iff some pair has the name, and then it is the value of the first pair with that name |
| `Hero.SearchQuery` | jobportal-frontend/src/components/Hero.jsx:20-23 | a title pair is present iff the title is non-empty, likewise the location; when both are present the title comes first |
| `Hero.EmptyInputsTarget` | jobportal-frontend/src/components/Hero.jsx:24 | with both inputs empty the target is "/search?" |
| `Hero.HeroSearch.constructor` | jobportal-frontend/src/components/Hero.jsx:16-17 | both inputs start empty |
| `Hero.HeroSearch.SetTitle` | jobportal-frontend/src/components/Hero.jsx:65 | the title input's change stores its value |
| `Hero.HeroSearch.SetLocation` | jobportal-frontend/src/components/Hero.jsx:75 | the location input's change stores its value |
| `Hero.HeroSearch.HandleSearch` | jobportal-frontend/src/components/Hero.jsx:20-25 | the target is "/search?" followed by the serialised query of the non-empty inputs |
| `SearchResults.ParseFilters` | jobportal-frontend/src/components/SearchResults.jsx:15-17 | each filter is the value of the first parameter of its name in the parsed query, '' when no parameter has that name |
| `SearchResults.RepeatedTitleKeepsFirst` | jobportal-frontend/src/components/SearchResults.jsx:16 | "?title=a&title=b" gives the title filter "a" and an empty location |
| `SearchResults.HeroQueryRoundTrip` | jobportal-frontend/src/components/Hero.jsx:20-25 | parsing the landing page's query the results page's way returns the two inputs exactly |
| `SearchResults.SearchResultsPage.constructor` | jobportal-frontend/src/components/SearchResults.jsx:8-12 | no results, loading, no error, empty filters |
| `SearchResults.SearchResultsPage.StartSearch` | jobportal-frontend/src/components/SearchResults.jsx:14-25 | the filters are the parsed values; loading with no error; a search with both filters is always started, even when both are empty |
| `SearchResults.SearchResultsPage.FinishSearch` | jobportal-frontend/src/components/SearchResults.jsx:24-32 | success stores the response; failure sets "Failed to fetch search results. Please try again."; loading ends false either way |
| `SearchResults.SearchResultsPage.Render` | jobportal-frontend/src/components/SearchResults.jsx:44-48 | the job list is rendered iff not loading and no error, with the stored results and filters |
| `JobService.BaseUrl` | jobportal-frontend/src/services/jobService.js:4 | the environment setting when set and non-empty, else "http://localhost:8081/api/jobs" |
| `JobService.Bearer` | jobportal-frontend/src/services/jobService.js:7-15 | the header is "Bearer " followed by the token, or by "null" when there is none |
| `JobService.Build` | jobportal-frontend/src/services/jobService.js:17-33 | POST exactly for create, PUT exactly for update, DELETE exactly for delete, GET otherwise; list-all and create target the bare base; the header is sent iff the operation is neither list-all nor search, always with credentials; a body iff create or update; query parameters iff search |
| `JobService.ByIdTargetsIdPath` | jobportal-frontend/src/services/jobService.js:18-21 | get, update and delete target the base, "/", and the id, which can be read back from the URL |
| `JobService.SearchSendsBothParams` | jobportal-frontend/src/services/jobService.js:29-32 | a search targets base + "/search" with exactly the title and location parameters, in that order, and no header |
| `JobService.TokenMattersOnlyWhenAuthenticated` | jobportal-frontend/src/services/jobService.js:7-21 | two different tokens give the same request iff the operation is public |
| `JobList.SelectSource` | jobportal-frontend/src/components/JobList.jsx:9-41 | any given `jobs` prop, even an empty array, is used without a fetch; otherwise search iff a filter is non-empty, else the full list |
| `JobList.ScreenOf` | jobportal-frontend/src/components/JobList.jsx:43-53 | loading wins, then a truthy error, then "No jobs found." exactly for an empty array, then the cards of a non-empty array |
| `JobList.JobListComponent.constructor` | jobportal-frontend/src/components/JobList.jsx:5-7 | an empty array, loading, no error |
| `JobList.JobListComponent.Effect` | jobportal-frontend/src/components/JobList.jsx:9-41 | a given list is stored and loading stops, with no call; otherwise loading starts, the error clears and the selected call is returned |
| `JobList.JobListComponent.FinishFetch` | jobportal-frontend/src/components/JobList.jsx:25-31 | success stores the resolved value whole; failure sets "Failed to fetch jobs. Please try again later."; loading ends false |
| `JobList.JobListComponent.Render` | jobportal-frontend/src/components/JobList.jsx:43-86 | the screen the state selects |
| `JobList.FetchedListNeverRendersCards` | jobportal-frontend/src/components/JobList.jsx:25 | a list fetched by the component itself is the response object, so rendering it fails instead of showing cards |
| `JobList.FailedFetchShowsMessage` | jobportal-frontend/src/components/JobList.jsx:26-31 | after a failure the error message is shown whatever list was held |
| `FeaturedJobList.JsSet.constructor` | jobportal-frontend/src/components/JobList.js:11 | the saved set starts empty |
| `FeaturedJobList.JsSet.Copy` | jobportal-frontend/src/components/JobList.js:27 | the copy has the same members as the original |
| `FeaturedJobList.JsSet.Add` | jobportal-frontend/src/components/JobList.js:31 | the id is added |
| `FeaturedJobList.JsSet.Delete` | jobportal-frontend/src/components/JobList.js:29 | the id is removed |
| `FeaturedJobList.Toggle` | jobportal-frontend/src/components/JobList.js:27-32 | the id is saved afterwards iff it was not before; every other id keeps its membership |
| `FeaturedJobList.ToggleTwice` | jobportal-frontend/src/components/JobList.js:26-34 | toggling the same id twice restores the set |
| `FeaturedJobList.TogglesCommute` | jobportal-frontend/src/components/JobList.js:26-34 | toggles of two ids give the same set in either order |
| `FeaturedJobList.OrDefault` | jobportal-frontend/src/components/JobList.js:85 | a truthy value is shown, the fallback otherwise |
| `FeaturedJobList.Display` | jobportal-frontend/src/components/JobList.js:72-124 | company and location fall back to "Not specified", posted to "Recently posted", type to "Full-time"; the salary line appears iff the salary is truthy; the heart is filled iff the id is saved |
| `FeaturedJobList.BackendJobsShowDefaults` | jobportal-frontend/src/components/JobList.js:108-122 | a job without salary, date and type shows no salary line, "Recently posted" and "Full-time" |
| `FeaturedJobList.FeaturedJobs.constructor` | jobportal-frontend/src/components/JobList.js:9-11 | no jobs, loading, an empty saved set |
| `FeaturedJobList.FeaturedJobs.Mount` | jobportal-frontend/src/components/JobList.js:13-15 | the mount effect requests the full list |
| `FeaturedJobList.FeaturedJobs.FinishFetch` | jobportal-frontend/src/components/JobList.js:16-23 | success stores the response body; failure keeps the list; loading ends false |
| `FeaturedJobList.FeaturedJobs.ToggleSaveJob` | jobportal-frontend/src/components/JobList.js:26-34 | a new set equal to the toggled old one is stored, and the old set object is not changed |
| `FeaturedJobList.FeaturedJobs.Render` | jobportal-frontend/src/components/JobList.js:36-141 | the spinner iff loading, otherwise one card per job, each as `Display` gives it |
| `PostJob.SetField` | jobportal-frontend/src/components/PostJob.jsx:19 | exactly the named field takes the value |
| `PostJob.FailureMessage` | jobportal-frontend/src/components/PostJob.jsx:53 | the server's message when it is a non-empty string, "Failed to post job." otherwise; never empty |
| `PostJob.PostJobForm.constructor` | jobportal-frontend/src/components/PostJob.jsx:6-14 | four empty fields, not loading, no messages |
| `PostJob.PostJobForm.HandleChange` | jobportal-frontend/src/components/PostJob.jsx:17-22 | only the named field changes, and both messages are cleared |
| `PostJob.PostJobForm.HandleSubmit` | jobportal-frontend/src/components/PostJob.jsx:24-57 | the form is sent iff all four fields are non-empty, else "All fields are required."; success sets "Job posted successfully!" and resets the form; failure sets the failure message and keeps the form; loading ends false; the messages are `MessagesAfter` of the old form, exactly one of them set |
| `JobEntity.Job.Empty` | jobportal-backend/src/main/java/com/example/jobportal/model/Job.java:19 | id and all four text fields are null |
| `JobEntity.Job.constructor` | jobportal-backend/src/main/java/com/example/jobportal/model/Job.java:21-26 | the four text fields as given, the id null |
| `JobEntity.Job.SetId` | jobportal-backend/src/main/java/com/example/jobportal/model/Job.java:30 | the getter returns the new id and no other field changes |
| `JobEntity.Job.SetTitle` | jobportal-backend/src/main/java/com/example/jobportal/model/Job.java:33 | the getter returns the new title and no other field changes |
| `JobEntity.Job.SetDescription` | jobportal-backend/src/main/java/com/example/jobportal/model/Job.java:36 | the getter returns the new description and no other field changes |
| `JobEntity.Job.SetCompany` | jobportal-backend/src/main/java/com/example/jobportal/model/Job.java:39 | the getter returns the new company and no other field changes |
| `JobEntity.Job.SetLocation` | jobportal-backend/src/main/java/com/example/jobportal/model/Job.java:42 | the getter returns the new location and no other field changes |
| `JobRepository.Search` | jobportal-backend/src/main/java/com/example/jobportal/repository/JobRepository.java:13-16 | a stored job is returned, unchanged, iff both the title and the location condition hold |
| `JobRepository.NonEmptyFilterIsSubstring` | jobportal-backend/src/main/java/com/example/jobportal/repository/JobRepository.java:14 | a non-empty filter matches iff the lower-cased column holds the lower-cased filter at some position |
| `JobRepository.EmptyFiltersReturnAll` | jobportal-backend/src/main/java/com/example/jobportal/repository/JobRepository.java:14-15 | null or empty filters return every stored job |
| `JobRepository.NullColumnNeverMatches` | jobportal-backend/src/main/java/com/example/jobportal/repository/JobRepository.java:14-15 | a null title or location never matches a non-empty filter on it |
| `JobRepository.MatchIgnoresCase` | jobportal-backend/src/main/java/com/example/jobportal/repository/JobRepository.java:14-15 | upper-casing the column or the filter does not change the outcome |
| `JobRepository.FilterNarrows` | jobportal-backend/src/main/java/com/example/jobportal/repository/JobRepository.java:13-16 | adding a filter only removes jobs from the result |
| `JobController.Saved` | jobportal-backend/src/main/java/com/example/jobportal/controller/JobController.java:22-24 | the saved row always has an id; a stored id is overwritten with the given row, otherwise the next identity value is assigned; nothing else differs from the given row |
| `JobController.SavePreservesWellFormed` | jobportal-backend/src/main/java/com/example/jobportal/controller/JobController.java:22-24 | after a save every row sits under its own id below the counter, and the saved row is found under its id |
| `JobController.Updated` | jobportal-backend/src/main/java/com/example/jobportal/controller/JobController.java:44-49 | the updated job keeps the stored id and takes exactly the request's four text fields |
| `JobController.UpdateIdempotent` | jobportal-backend/src/main/java/com/example/jobportal/controller/JobController.java:44-49 | updating twice equals updating once, and the request's id is ignored |
| `JobController.Load` | jobportal-backend/src/main/java/com/example/jobportal/controller/JobController.java:43 | a found job is a new entity holding the stored row |
| `JobController.JobController.Save` | jobportal-backend/src/main/java/com/example/jobportal/controller/JobController.java:23 | the table gains or replaces the saved row; the counter advances only on insert |
| `JobController.JobController.CreateJob` | jobportal-backend/src/main/java/com/example/jobportal/controller/JobController.java:22-24 | the body is stored and the saved job returned |
| `JobController.JobController.GetAllJobs` | jobportal-backend/src/main/java/com/example/jobportal/controller/JobController.java:28-30 | every stored job |
| `JobController.JobController.GetJobById` | jobportal-backend/src/main/java/com/example/jobportal/controller/JobController.java:34-38 | 200 with the job iff the id is stored, 404 otherwise |
| `JobController.JobController.UpdateJob` | jobportal-backend/src/main/java/com/example/jobportal/controller/JobController.java:42-52 | a stored id gets the updated row and 200; other jobs unchanged; a missing id is 404 with the table unchanged |
| `JobController.JobController.DeleteJob` | jobportal-backend/src/main/java/com/example/jobportal/controller/JobController.java:56-62 | 204 and the row removed iff the id is stored, else 404 with the table unchanged |
| `JobController.JobController.SearchJobs` | jobportal-backend/src/main/java/com/example/jobportal/controller/JobController.java:67-70 | a missing parameter is 400; otherwise the search query's result |
| `Users.UserRepository.FindByEmail` | jobportal-backend/src/main/java/com/example/jobportal/repository/UserRepository.java:7 | the user stored under exactly that email, if any |
| `Users.UserRepository.Save` | jobportal-backend/src/main/java/com/example/jobportal/controller/AuthController.java:121 | the user is stored under its email |
| `AuthController.Login` | jobportal-backend/src/main/java/com/example/jobportal/controller/AuthController.java:31-81 | a null or blank email is 400 "Email is required" before anything else, then a null or blank password is 400 "Password is required"; success needs both |
| `AuthController.LoginSucceedsIff` | jobportal-backend/src/main/java/com/example/jobportal/controller/AuthController.java:45-72 | login succeeds iff both fields are present, the trimmed email is stored, authentication accepts, and the user has names and a role; the token is issued for that user and the summary carries its email, names and role |
| `AuthController.UnknownAndRefusedLookAlike` | jobportal-backend/src/main/java/com/example/jobportal/controller/AuthController.java:45-76 | an unknown email and refused credentials both give 401 "Invalid email or password" |
| `AuthController.LoginTrimsEmail` | jobportal-backend/src/main/java/com/example/jobportal/controller/AuthController.java:45-56 | surrounding whitespace on the email does not change the reply |
| `AuthController.Field` | jobportal-backend/src/main/java/com/example/jobportal/controller/AuthController.java:90-93 | an absent key reads as null |
| `AuthController.RegisterOutcome` | jobportal-backend/src/main/java/com/example/jobportal/controller/AuthController.java:84-129 | a user is stored iff the reply is the success reply |
| `AuthController.RegisterCheckOrder` | jobportal-backend/src/main/java/com/example/jobportal/controller/AuthController.java:90-121 | a null email is a 500; then blank email, empty password, blank first name, blank last name and stored email are checked in that order: each check's 400 message is the reply whenever the earlier checks pass and it fails, and a reply names a check only when all earlier ones passed; past all of them a null role is a 500 and anything else registers |
| `AuthController.DuplicateEmailRejected` | jobportal-backend/src/main/java/com/example/jobportal/controller/AuthController.java:109-112 | a request passing the field checks with a stored trimmed email is 400 "Email already exists" and stores nothing |
| `AuthController.RegisteredUserNormalised` | jobportal-backend/src/main/java/com/example/jobportal/controller/AuthController.java:114-121 | the stored user is new, with the trimmed email and names (non-empty), the upper-cased role ("USER" when absent) and the encoded password |
| `AuthController.BlankPasswordRegistersButCannotLogIn` | jobportal-backend/src/main/java/com/example/jobportal/controller/AuthController.java:99-101 | a one-space password registers but login refuses it as missing |
| `AuthController.Auth.Register` | jobportal-backend/src/main/java/com/example/jobportal/controller/AuthController.java:84-129 | the reply is the decision's, and the store gains exactly the decided user, or is unchanged |
| `UserDetailsService.Authority` | jobportal-backend/src/main/java/com/example/jobportal/service/UserDetailsServiceImpl.java:33-38 | "ROLE_" followed by the role, "USER" when the role is null |
| `UserDetailsService.LoadUserByUsername` | jobportal-backend/src/main/java/com/example/jobportal/service/UserDetailsServiceImpl.java:23-39 | an unknown email is "User not found with email: …"; a principal is built iff the user has a non-empty email and a password, with that email, that password unchanged and the one authority |
| `UserDetailsService.StoredUserLoads` | jobportal-backend/src/main/java/com/example/jobportal/service/UserDetailsServiceImpl.java:35-39 | such a user always loads, with exactly one authority |
| `UserDetailsService.RegisteredUserLoads` | jobportal-backend/src/main/java/com/example/jobportal/service/UserDetailsServiceImpl.java:23-39 | a user stored by register loads with its encoded password and "ROLE_" + its upper-cased role |
| `JobportalApplication.Seeded` | jobportal-backend/src/main/java/com/example/jobportal/JobportalApplication.java:20-28 | the demo account is added iff its email is absent; the store is otherwise unchanged |
| `JobportalApplication.SeedIdempotent` | jobportal-backend/src/main/java/com/example/jobportal/JobportalApplication.java:20-28 | seeding twice leaves the same store as seeding once |
| `JobportalApplication.SeedKeepsOthers` | jobportal-backend/src/main/java/com/example/jobportal/JobportalApplication.java:20-28 | every other account is untouched |
| `JobportalApplication.SeededDemoLoads` | jobportal-backend/src/main/java/com/example/jobportal/JobportalApplication.java:21-26 | the seeded account is "demo@example.com", "Demo", "User", "USER" with the encoded "password", and loads with ROLE_USER |
| `JobportalApplication.Runner` | jobportal-backend/src/main/java/com/example/jobportal/JobportalApplication.java:20-28 | the store becomes the seeded store |
| `RegistrationFlow.Body` | jobportal-frontend/src/components/SignUp.jsx:236-244 | the request body has exactly the five keys, none null |
| `RegistrationFlow.ValidEmailNotJavaBlank` | jobportal-backend/src/main/java/com/example/jobportal/controller/AuthController.java:96 | an email the form accepts is never blank to the endpoint |
| `RegistrationFlow.StepsGiveEmailAndPassword` | jobportal-frontend/src/components/SignUp.jsx:120-148 | a draft passing steps 1 and 2 has an email that is not blank after Java's trim and a non-empty password |
| `RegistrationFlow.ValidDraftPassesEmailAndPasswordChecks` | jobportal-backend/src/main/java/com/example/jobportal/controller/AuthController.java:90-121 | a draft passing both steps is registered or refused only for a name or a duplicate email, and the stored role is the form's |
| `RegistrationFlow.ControlCharacterNameAcceptedOnlyByForm` | jobportal-backend/src/main/java/com/example/jobportal/controller/AuthController.java:102 | a name of two U+0001 characters passes the form but is blank to the endpoint |

## Behaviour across components

These mismatches between components are modelled as they are, not corrected:

- Login answers with a `token` field (AuthController.java:63). The sign-in page, which is not part of this
  model, reads a `jwt` field.
- Register answers with a message only (AuthController.java:123). The sign-up form stores `response.data.user`,
  which is therefore `undefined`.
- `JobList.jsx` (line 25) stores the whole response object rather than its `data`. A list the component
  fetched itself is never empty to the "No jobs found." test, and rendering it fails
  (`JobList.FetchedListNeverRendersCards`). `SearchResults.jsx` (line 26) stores the whole response object as
  well and hands it on as the `jobs` prop.
- The controller's search delegates to a service that calls a derived repository method the repository does
  not declare (JobService.java:25). The model routes the search to the declared query of JobRepository.java,
  which is the predicate modelled here.
- The form trims only whitespace; the back end trims every code up to U+0020. So names made of other control
  characters pass the form and are refused by the endpoint
  (`RegistrationFlow.ControlCharacterNameAcceptedOnlyByForm`).

## Left out

- The import `./JobList` (SearchResults.jsx:4, App.js:5) names both `JobList.js` and `JobList.jsx`, and
  which one it loads depends on the bundler's extension order. The model does not decide it: the results
  page's `Render` yields the list and filters it hands on, and what that list shows is not modelled.
- Transport: axios, `localStorage`, `navigate`, `setTimeout` and console output. A call's outcome is an input, a
  stored token is a parameter, and a handler returns the request it sends.
- JSX markup, CSS classes, icons, the navigation bar, routing and the sign-in page: presentation only.
- React scheduling: an awaited call is split into a start and a finish method, and effects run when called. The
  two step checks in submit are modelled as both starting from the same snapshot of the validation state, with
  the last write kept.
- Duplicate-submit prevention: the form only disables its button while loading, so nothing guarantees it.
- Unicode: trimming, `\s`, `LOWER` and `toUpperCase` are modelled on ASCII, and Java's trim on every code up to
  U+0020. Locale-dependent case mapping is not modelled.
- UrlParams.DecodeEncode: characters beyond ASCII are kept as they are rather than UTF-8 percent-encoded, so the
  round trip is shown for that encoding and not for the browser's byte-level one.
- JobRepository.Search: the SQL `LIKE` wildcards `%` and `_` inside a filter are taken literally. The database's
  own collation is not modelled; matching is exact after ASCII lower-casing.
- JobRepository.Search: the result is the set of matching rows by id; the list order the database returns is
  not modelled.
- Java `Long` ids are unbounded integers; overflow of the identity column is not modelled.
- JobController.Saved: saving a job whose id is not stored inserts it under a new id. Persistence-provider
  versions differ here (some refuse such a merge); the model takes the insert.
- JobController.JobController.SearchJobs: an empty parameter counts as present, and a missing one is a 400.
  Request binding and type conversion are not modelled further.
- Users.UserRepository.Save: users are keyed by email, so the store cannot hold two users with one email. Both
  callers check for the email first, so they never save such a duplicate.
- The user entity's source is not part of this model; its five properties are those the controllers use.
- AuthController.RegisterOutcome: a null email and a null role give a 500 whose message continues with the
  exception's text, which is not modelled. Non-string JSON values, which fail the casts, are not modelled.
- AuthController.Login: the authentication manager, the token issuer and the password encoder are
  uninterpreted functions. The encoder's random salt is not modelled, and neither is a failure of the
  authentication manager other than refusing the credentials.
- The JWT utility, the data-source configuration, the API configuration module and the current-user hook are
  not part of this model.
- The application's `main` method is not modelled; only the seeding runner is.
