/**
 * The user store, keyed by email. The user entity's own source is not part
 * of this model; its five properties are those the controllers set and read.
 */
module Users {
  import opened Wrappers

  datatype User = User(
    email: string,
    password: Option<string>,
    firstName: Option<string>,
    lastName: Option<string>,
    role: Option<string>)

  class UserRepository {
    var users: map<string, User>

    /** Each user is stored under its own email. */
    ghost predicate Valid()
      reads this
    {
      forall e :: e in users ==> users[e].email == e
    }

    constructor ()
      ensures users == map[] && Valid()
    {
      users := map[];
    }

    /** `findByEmail`: the user stored under exactly this email, if any. */
    function FindByEmail(email: string): (r: Option<User>)
      reads this
      ensures r.Some? <==> email in users
      ensures r.Some? ==> r.value == users[email]
    {
      if email in users then Some(users[email]) else None
    }

    predicate ExistsByEmail(email: string)
      reads this
    {
      email in users
    }

    /** `save`: the user is stored under its email. */
    method Save(user: User)
      requires Valid()
      modifies this
      ensures Valid()
      ensures users == old(users)[user.email := user]
    {
      users := users[user.email := user];
    }
  }
}
