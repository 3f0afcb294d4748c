/** The backend's user service (UserService.java): registration stores the
    user as sent; login looks the email up and compares passwords. */
module UserService {
  import opened Wrappers
  import Seqs

  /** A stored user: the fields the registration form sends. */
  datatype User = User(name: string, email: string, password: string)

  const UserNotFound := "User not found"
  const InvalidCredentials := "Invalid credentials"

  function HasEmail(email: string): User -> bool {
    (u: User) => u.email == email
  }

  /** `findByEmail`: the first stored user with this email, or null. */
  function FindByEmail(users: seq<User>, email: string): (r: Option<User>)
    ensures r.None? <==> forall j | 0 <= j < |users| :: users[j].email != email
    ensures r.Some? ==> r.value in users && r.value.email == email
  {
    match Seqs.FirstIndex(users, HasEmail(email))
    case Some(i) => Some(users[i])
    case None => None
  }

  /** `login` over the user collection, with the request's email and
      password: an unknown email fails with "User
      not found" before any password is looked at; a known email with a
      different password fails with "Invalid credentials"; otherwise the
      stored user is returned. */
  function Login(users: seq<User>, email: string, password: string): (r: Result<User>)
    ensures FindByEmail(users, email).None? ==> r == Err(UserNotFound)
    ensures FindByEmail(users, email).Some? && FindByEmail(users, email).value.password != password
      ==> r == Err(InvalidCredentials)
    ensures r.Ok? <==> FindByEmail(users, email).Some? && FindByEmail(users, email).value.password == password
    ensures r.Ok? ==> r.value == FindByEmail(users, email).value
    ensures r.Ok? ==> r.value in users && r.value.email == email && r.value.password == password
  {
    match FindByEmail(users, email)
    case None => Err(UserNotFound)
    case Some(user) => if user.password != password then Err(InvalidCredentials) else Ok(user)
  }

  /** Registering appends: an email already stored keeps answering with the
      earlier user, a new email answers with the new one. */
  lemma {:induction false} FindByEmailAfterAppend(users: seq<User>, user: User, email: string)
    ensures FindByEmail(users + [user], email) ==
      if FindByEmail(users, email).Some? then FindByEmail(users, email)
      else if user.email == email then Some(user)
      else None
  {
    var p := HasEmail(email);
    var all := users + [user];
    var before := Seqs.FirstIndex(users, p);
    var after := Seqs.FirstIndex(all, p);
    assert forall j | 0 <= j < |users| :: all[j] == users[j];
    if before.Some? {
      assert p(all[before.value]);
      assert after == before;
    } else if user.email == email {
      assert p(all[|users|]);
      assert after == Some(|users|);
    }
  }

  /** A user registered under a fresh email can log in with their password
      and gets their own record back; any other password is refused. */
  lemma LoginAfterRegister(users: seq<User>, user: User, password: string)
    requires forall j | 0 <= j < |users| :: users[j].email != user.email
    ensures Login(users + [user], user.email, user.password) == Ok(user)
    ensures password != user.password ==> Login(users + [user], user.email, password) == Err(InvalidCredentials)
  {
    FindByEmailAfterAppend(users, user, user.email);
  }

  /** The service, holding the user collection. */
  class UserService {
    var users: seq<User>

    constructor(users: seq<User>)
      ensures this.users == users
    {
      this.users := users;
    }

    /** `register`: the user is stored as given, with no validation and no
        check for an existing email. */
    method Register(user: User)
      modifies this
      ensures users == old(users) + [user]
    {
      users := users + [user];
    }
  }
}
