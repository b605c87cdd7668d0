/**
 * The security layer's user lookup: the stored user by email, turned into
 * a principal with one authority derived from the role.
 */
module UserDetailsService {
  import opened Wrappers
  import opened Text
  import opened Users
  import AuthController

  datatype UserDetails = UserDetails(username: string, password: string, authorities: seq<string>)

  /**
   * The outcome of a lookup. `InvalidPrincipal` is the principal
   * constructor's refusal of an empty username or a null password.
   */
  datatype LoadResult = Loaded(details: UserDetails) | UsernameNotFound(message: string) | InvalidPrincipal

  /** The authority for a stored role; a null role counts as "USER". */
  function Authority(role: Option<string>): (a: string)
    ensures |a| >= 5 && a[..5] == "ROLE_"
    ensures a[5..] == role.GetOr("USER")
  {
    "ROLE_" + role.GetOr("USER")
  }

  /** `loadUserByUsername`. */
  function LoadUserByUsername(users: map<string, User>, email: string): (r: LoadResult)
    ensures email !in users ==> r == UsernameNotFound("User not found with email: " + email)
    ensures r.Loaded? <==> email in users && users[email].email != "" && users[email].password.Some?
    ensures r.Loaded? ==> r.details == UserDetails(users[email].email, users[email].password.value, [Authority(users[email].role)])
  {
    if email !in users then UsernameNotFound("User not found with email: " + email)
    else
      var user := users[email];
      if user.email == "" || user.password.None? then InvalidPrincipal
      else Loaded(UserDetails(user.email, user.password.value, [Authority(user.role)]))
  }

  /** A stored user with a non-empty email and a password always loads, with exactly one authority. */
  lemma StoredUserLoads(users: map<string, User>, email: string)
    requires email in users && users[email].email != "" && users[email].password.Some?
    ensures LoadUserByUsername(users, email).Loaded?
    ensures |LoadUserByUsername(users, email).details.authorities| == 1
  {
  }

  /**
   * A user stored by registration loads under its email with its encoded
   * password and the authority of its upper-cased role.
   */
  lemma RegisteredUserLoads(users: map<string, User>, payload: AuthController.Payload, encode: string -> string)
    requires AuthController.RegisterOutcome(users, payload, encode).saved.Some?
    ensures var u := AuthController.RegisterOutcome(users, payload, encode).saved.value;
      var after := users[u.email := u];
      LoadUserByUsername(after, u.email)
        == Loaded(UserDetails(u.email, encode(AuthController.Field(payload, "password").value), ["ROLE_" + u.role.value]))
  {
    AuthController.RegisteredUserNormalised(users, payload, encode);
  }
}
