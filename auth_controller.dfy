/**
 * The authentication endpoints: login checks its two fields, looks the
 * user up, authenticates and answers with a token and a summary of the
 * user; register checks its fields in a fixed order, refuses a known email
 * and stores a normalised user with an encoded password.
 */
module AuthController {
  import opened Wrappers
  import opened Text
  import opened Users

  /** The login body; a missing or null field is `None`. */
  datatype LoginRequest = LoginRequest(email: Option<string>, password: Option<string>)

  /** The `user` object of a login reply: exactly these four fields. */
  datatype UserSummary = UserSummary(email: string, firstName: string, lastName: string, role: string)

  /**
   * An endpoint's reply. `Failure` is a status with the body
   * `{error, success: false}`; `ServerError` is a 500 whose error is the
   * given prefix followed by the exception's message, which is not modelled.
   */
  datatype AuthReply =
    | Failure(status: nat, error: string)
    | ServerError(prefix: string)
    | LoggedIn(token: string, user: UserSummary)
    | Registered

  const InvalidCredentials: AuthReply := Failure(401, "Invalid email or password")

  /** A field that is null or trims to nothing. */
  predicate MissingOrBlank(v: Option<string>) {
    v.None? || JavaTrim(v.value) == ""
  }

  /**
   * `login`. `authenticate` is the authentication manager's verdict for the
   * trimmed email and the raw password; `generateToken` is the token
   * issuer. A null name or role makes the reply map throw, which the
   * generic handler turns into a 500 with the message "null".
   */
  function Login(users: map<string, User>, req: LoginRequest,
                 authenticate: (string, string) -> bool, generateToken: User -> string): (r: AuthReply)
    ensures MissingOrBlank(req.email) ==> r == Failure(400, "Email is required")
    ensures !MissingOrBlank(req.email) && MissingOrBlank(req.password) ==> r == Failure(400, "Password is required")
    ensures r.LoggedIn? ==> !MissingOrBlank(req.email) && !MissingOrBlank(req.password)
  {
    if MissingOrBlank(req.email) then Failure(400, "Email is required")
    else if MissingOrBlank(req.password) then Failure(400, "Password is required")
    else
      var email := JavaTrim(req.email.value);
      if email !in users then InvalidCredentials
      else if !authenticate(email, req.password.value) then InvalidCredentials
      else
        var user := users[email];
        if user.firstName.None? || user.lastName.None? || user.role.None? then Failure(500, "Login failed: null")
        else LoggedIn(generateToken(user), UserSummary(user.email, user.firstName.value, user.lastName.value, user.role.value))
  }

  /**
   * Login succeeds exactly when both fields are present and non-blank, the
   * trimmed email is stored, authentication accepts it, and the stored user
   * has a name and a role; the token is then issued for that user.
   */
  lemma LoginSucceedsIff(users: map<string, User>, req: LoginRequest,
                         authenticate: (string, string) -> bool, generateToken: User -> string)
    ensures var r := Login(users, req, authenticate, generateToken);
      r.LoggedIn? <==>
        !MissingOrBlank(req.email) && !MissingOrBlank(req.password)
        && JavaTrim(req.email.value) in users
        && authenticate(JavaTrim(req.email.value), req.password.value)
        && users[JavaTrim(req.email.value)].firstName.Some?
        && users[JavaTrim(req.email.value)].lastName.Some?
        && users[JavaTrim(req.email.value)].role.Some?
    ensures var r := Login(users, req, authenticate, generateToken);
      r.LoggedIn? ==>
        var u := users[JavaTrim(req.email.value)];
        r.token == generateToken(u)
        && r.user == UserSummary(u.email, u.firstName.value, u.lastName.value, u.role.value)
  {
  }

  /** An unknown email and a refused password give the same reply, so the reply does not reveal which one failed. */
  lemma UnknownAndRefusedLookAlike(users: map<string, User>, email: string, password: string,
                                   authenticate: (string, string) -> bool, generateToken: User -> string)
    requires JavaTrim(email) != "" && JavaTrim(password) != ""
    requires JavaTrim(email) !in users || !authenticate(JavaTrim(email), password)
    ensures Login(users, LoginRequest(Some(email), Some(password)), authenticate, generateToken) == InvalidCredentials
  {
  }

  /** Surrounding whitespace on the email does not change the outcome. */
  lemma LoginTrimsEmail(users: map<string, User>, email: string, password: Option<string>,
                        authenticate: (string, string) -> bool, generateToken: User -> string)
    ensures Login(users, LoginRequest(Some(JavaTrim(email)), password), authenticate, generateToken)
      == Login(users, LoginRequest(Some(email), password), authenticate, generateToken)
  {
    TrimIdempotent(email, IsJavaTrimmable);
  }

  /** The register body: a key that is absent differs from one sent as null. */
  type Payload = map<string, Option<string>>

  /** `payload.get(key)`: null for an absent key. */
  function Field(payload: Payload, key: string): (v: Option<string>)
    ensures key !in payload ==> v.None?
  {
    if key in payload then payload[key] else None
  }

  /** What register answers and the user it stores, if any. */
  datatype RegisterResult = RegisterResult(reply: AuthReply, saved: Option<User>)

  /**
   * `register` on a given store. The email is trimmed before its null
   * check, so a null email is a 500; the password is checked for emptiness
   * without trimming; the role defaults to "USER" only when its key is
   * absent, and a null role fails when upper-cased, after the duplicate check.
   */
  function RegisterOutcome(users: map<string, User>, payload: Payload, encode: string -> string): (r: RegisterResult)
    ensures r.saved.Some? <==> r.reply == Registered
  {
    var email := Field(payload, "email");
    var password := Field(payload, "password");
    var firstName := Field(payload, "firstName");
    var lastName := Field(payload, "lastName");
    var role := if "role" in payload then payload["role"] else Some("USER");
    if email.None? then RegisterResult(ServerError("Registration failed: "), None)
    else if JavaTrim(email.value) == "" then RegisterResult(Failure(400, "Email is required"), None)
    else if password.None? || password.value == "" then RegisterResult(Failure(400, "Password is required"), None)
    else if MissingOrBlank(firstName) then RegisterResult(Failure(400, "First name is required"), None)
    else if MissingOrBlank(lastName) then RegisterResult(Failure(400, "Last name is required"), None)
    else if JavaTrim(email.value) in users then RegisterResult(Failure(400, "Email already exists"), None)
    else if role.None? then RegisterResult(ServerError("Registration failed: "), None)
    else
      var user := User(JavaTrim(email.value), Some(encode(password.value)), Some(JavaTrim(firstName.value)),
                       Some(JavaTrim(lastName.value)), Some(ToUpper(role.value)));
      RegisterResult(Registered, Some(user))
  }

  /** Register's password check: the value is present and not empty; it is not trimmed. */
  predicate PasswordGiven(v: Option<string>) {
    v.Some? && v.value != ""
  }

  /**
   * The checks run in order and the first failing one decides: each check's
   * message is the reply exactly when every earlier check passes and it
   * fails, and a refusal names a check only once all earlier ones passed.
   */
  lemma RegisterCheckOrder(users: map<string, User>, payload: Payload, encode: string -> string)
    ensures var r := RegisterOutcome(users, payload, encode).reply;
      var email := Field(payload, "email");
      (email.None? ==> r.ServerError?)
      && (email.Some? && JavaTrim(email.value) == "" ==> r == Failure(400, "Email is required"))
      && (!MissingOrBlank(email) && !PasswordGiven(Field(payload, "password"))
          ==> r == Failure(400, "Password is required"))
      && (!MissingOrBlank(email) && PasswordGiven(Field(payload, "password"))
          && MissingOrBlank(Field(payload, "firstName"))
          ==> r == Failure(400, "First name is required"))
      && (!MissingOrBlank(email) && PasswordGiven(Field(payload, "password"))
          && !MissingOrBlank(Field(payload, "firstName")) && MissingOrBlank(Field(payload, "lastName"))
          ==> r == Failure(400, "Last name is required"))
      && (!MissingOrBlank(email) && PasswordGiven(Field(payload, "password"))
          && !MissingOrBlank(Field(payload, "firstName")) && !MissingOrBlank(Field(payload, "lastName"))
          && JavaTrim(email.value) in users
          ==> r == Failure(400, "Email already exists"))
      && (!MissingOrBlank(email) && PasswordGiven(Field(payload, "password"))
          && !MissingOrBlank(Field(payload, "firstName")) && !MissingOrBlank(Field(payload, "lastName"))
          && JavaTrim(email.value) !in users
          ==> r == (if "role" in payload && payload["role"].None? then ServerError("Registration failed: ") else Registered))
    ensures var r := RegisterOutcome(users, payload, encode).reply;
      var email := Field(payload, "email");
      (r == Failure(400, "Email is required") ==> email.Some?)
      && (r == Failure(400, "Password is required") ==> !MissingOrBlank(email))
      && (r == Failure(400, "First name is required")
          ==> !MissingOrBlank(email) && PasswordGiven(Field(payload, "password")))
      && (r == Failure(400, "Last name is required")
          ==> !MissingOrBlank(email) && PasswordGiven(Field(payload, "password"))
              && !MissingOrBlank(Field(payload, "firstName")))
      && (r == Failure(400, "Email already exists")
          ==> !MissingOrBlank(email) && PasswordGiven(Field(payload, "password"))
              && !MissingOrBlank(Field(payload, "firstName")) && !MissingOrBlank(Field(payload, "lastName"))
              && JavaTrim(email.value) in users)
  {
  }

  /** A request whose checks pass but whose trimmed email is stored is refused and stores nothing. */
  lemma DuplicateEmailRejected(users: map<string, User>, payload: Payload, encode: string -> string)
    requires !MissingOrBlank(Field(payload, "email")) && JavaTrim(Field(payload, "email").value) in users
    requires Field(payload, "password").Some? && Field(payload, "password").value != ""
    requires !MissingOrBlank(Field(payload, "firstName")) && !MissingOrBlank(Field(payload, "lastName"))
    ensures RegisterOutcome(users, payload, encode) == RegisterResult(Failure(400, "Email already exists"), None)
  {
  }

  /**
   * A stored user is new, has the trimmed email and names, the upper-cased
   * role ("USER" when none was sent) and the encoded password, never the
   * raw one unless the encoder returns it.
   */
  lemma RegisteredUserNormalised(users: map<string, User>, payload: Payload, encode: string -> string)
    requires RegisterOutcome(users, payload, encode).saved.Some?
    ensures var u := RegisterOutcome(users, payload, encode).saved.value;
      u.email !in users
      && u.email == JavaTrim(Field(payload, "email").value) && u.email != ""
      && u.password == Some(encode(Field(payload, "password").value))
      && u.firstName == Some(JavaTrim(Field(payload, "firstName").value)) && u.firstName.value != ""
      && u.lastName == Some(JavaTrim(Field(payload, "lastName").value)) && u.lastName.value != ""
      && u.role == Some(ToUpper(if "role" in payload then payload["role"].value else "USER"))
  {
  }

  /** A whitespace-only password is accepted at registration but can never be used to log in. */
  lemma BlankPasswordRegistersButCannotLogIn(users: map<string, User>, email: string, encode: string -> string,
                                             authenticate: (string, string) -> bool, generateToken: User -> string)
    requires JavaTrim(email) != "" && JavaTrim(email) !in users
    ensures var payload := map["email" := Some(email), "password" := Some(" "), "firstName" := Some("Ann"), "lastName" := Some("Lee")];
      RegisterOutcome(users, payload, encode).reply == Registered
    ensures Login(users, LoginRequest(Some(email), Some(" ")), authenticate, generateToken) == Failure(400, "Password is required")
  {
    var payload := map["email" := Some(email), "password" := Some(" "), "firstName" := Some("Ann"), "lastName" := Some("Lee")];
    assert JavaTrim(" ") == "";
    assert JavaTrim("Ann") == "Ann";
    assert JavaTrim("Lee") == "Lee";
    assert Field(payload, "password") == Some(" ");
  }

  class Auth {
    const repository: UserRepository

    constructor (repository: UserRepository)
      ensures this.repository == repository
    {
      this.repository := repository;
    }

    /** `register`: decide, and store the new user when the decision is to register. */
    method Register(payload: Payload, encode: string -> string) returns (reply: AuthReply)
      requires repository.Valid()
      modifies repository
      ensures repository.Valid()
      ensures reply == RegisterOutcome(old(repository.users), payload, encode).reply
      ensures var saved := RegisterOutcome(old(repository.users), payload, encode).saved;
        repository.users == if saved.Some? then old(repository.users)[saved.value.email := saved.value] else old(repository.users)
    {
      var outcome := RegisterOutcome(repository.users, payload, encode);
      if outcome.saved.Some? {
        repository.Save(outcome.saved.value);
      }
      reply := outcome.reply;
    }
  }
}
