/** The start-up runner that seeds the demo account when it is missing. */
module JobportalApplication {
  import opened Wrappers
  import opened Users
  import UserDetailsService

  const DemoEmail: string := "demo@example.com"

  /** The demo account, with the encoder's value for the password "password". */
  function DemoUser(encode: string -> string): User {
    User(DemoEmail, Some(encode("password")), Some("Demo"), Some("User"), Some("USER"))
  }

  /** The store after the runner: the demo account added when its email is absent, nothing changed otherwise. */
  function Seeded(users: map<string, User>, encode: string -> string): (r: map<string, User>)
    ensures DemoEmail in r
    ensures DemoEmail !in users ==> r == users[DemoEmail := DemoUser(encode)]
    ensures DemoEmail in users ==> r == users
  {
    if DemoEmail in users then users else users[DemoEmail := DemoUser(encode)]
  }

  /** Running the seeder twice leaves the same store as running it once, whichever encoder the second run uses. */
  lemma SeedIdempotent(users: map<string, User>, encode: string -> string, encode2: string -> string)
    ensures Seeded(Seeded(users, encode), encode2) == Seeded(users, encode)
  {
  }

  /** Every other account is left exactly as it was. */
  lemma SeedKeepsOthers(users: map<string, User>, encode: string -> string, email: string)
    requires email != DemoEmail
    ensures email in Seeded(users, encode) <==> email in users
    ensures email in users ==> Seeded(users, encode)[email] == users[email]
  {
  }

  /** A freshly seeded demo account loads with the encoded password and the authority ROLE_USER. */
  lemma SeededDemoLoads(users: map<string, User>, encode: string -> string)
    requires DemoEmail !in users
    ensures UserDetailsService.LoadUserByUsername(Seeded(users, encode), DemoEmail)
      == UserDetailsService.Loaded(UserDetailsService.UserDetails(DemoEmail, encode("password"), ["ROLE_USER"]))
  {
    assert UserDetailsService.Authority(Some("USER")) == "ROLE_USER";
  }

  /** The runner: look the demo email up and save the demo account only when it is absent. */
  method Runner(repository: UserRepository, encode: string -> string)
    requires repository.Valid()
    modifies repository
    ensures repository.Valid()
    ensures repository.users == Seeded(old(repository.users), encode)
  {
    if !repository.ExistsByEmail(DemoEmail) {
      repository.Save(DemoUser(encode));
    }
  }
}
