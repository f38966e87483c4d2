/** The session held by the authentication provider: the current user
    (none when anonymous) and the in-memory user list it registers into and
    logs in from. This is the mock implementation: it never contacts a
    server, and login looks a user up by email alone. */
module Auth {
  import opened Wrappers
  import opened Types
  import Seqs

  /** What `register` is given: every user field except the id, plus a password. */
  datatype Registration = Registration(
    email: string,
    password: string,
    name: string,
    role: Role,
    department: Option<Department>,
    gender: Gender,
    birthDate: string)

  /** A thrown JavaScript `Error` and its message. */
  datatype AuthError = Error(message: string)

  /** The current user and the module-level user list. */
  datatype AuthState = AuthState(user: Option<User>, users: seq<User>)

  /** The state after one transition, and the error it threw, if any. */
  datatype Step = Step(state: AuthState, thrown: Option<AuthError>)

  const UserNotFound := Error("User not found")
  const UserAlreadyExists := Error("User already exists")

  /** Nobody is logged in and nobody is registered. */
  function InitialState(): (s: AuthState)
    ensures s.user.None?
    ensures Valid(s)
  {
    AuthState(None, [])
  }

  /** No two stored users share an email. */
  predicate EmailsDistinct(users: seq<User>)
  {
    forall i, j :: 0 <= i < j < |users| ==> users[i].email != users[j].email
  }

  /** The invariant every reachable state keeps: emails are distinct and the
      current user, if any, is a stored user. */
  predicate Valid(s: AuthState)
  {
    EmailsDistinct(s.users) && (s.user.Some? ==> s.user.value in s.users)
  }

  /** Some stored user has this email. */
  predicate Registered(users: seq<User>, email: string)
  {
    exists i :: 0 <= i < |users| && users[i].email == email
  }

  /** The first stored user with this email (`users.find`). */
  function FindByEmail(users: seq<User>, email: string): (r: Option<User>)
    ensures r.Some? <==> Registered(users, email)
    ensures r.Some? ==> exists i :: 0 <= i < |users| && users[i] == r.value && users[i].email == email
                                    && forall j :: 0 <= j < i ==> users[j].email != email
  {
    Seqs.Find(users, (u: User) => u.email == email)
  }

  /** Logs in the first stored user with `email`. The password is not consulted. */
  function Login(s: AuthState, email: string, password: string): (r: Step)
    ensures r.thrown.None? <==> Registered(s.users, email)
    ensures r.thrown.Some? ==> r.thrown == Some(UserNotFound) && r.state == s
    ensures r.thrown.None? ==> r.state.users == s.users && r.state.user == FindByEmail(s.users, email)
    ensures r.thrown.None? ==> r.state.user.Some? && r.state.user.value in s.users && r.state.user.value.email == email
  {
    match FindByEmail(s.users, email)
    case None => Step(s, Some(UserNotFound))
    case Some(found) => Step(s.(user := Some(found)), None)
  }

  /** The stored account a registration creates (`{ ...userData, id }`), under
      a freshly drawn id. Dropping the id and adding back the password gives
      the registration again. */
  function NewUser(data: Registration, id: string): (u: User)
    ensures u.id == id
    ensures Registration(u.email, data.password, u.name, u.role, u.department, u.gender, u.birthDate) == data
  {
    User.User(id, data.email, data.name, data.role, data.department, data.gender, data.birthDate)
  }

  /** Rejects an email already stored; otherwise appends the new user and
      logs it in. */
  function Register(s: AuthState, data: Registration, id: string): (r: Step)
    ensures Registered(s.users, data.email) ==> r == Step(s, Some(UserAlreadyExists))
    ensures !Registered(s.users, data.email) ==>
              && r.thrown.None?
              && |r.state.users| == |s.users| + 1
              && r.state.users[..|s.users|] == s.users
              && r.state.user == Some(r.state.users[|s.users|])
    ensures !Registered(s.users, data.email) ==>
              var u := r.state.users[|s.users|];
              && u.id == id && u.email == data.email && u.name == data.name && u.role == data.role
              && u.department == data.department && u.gender == data.gender && u.birthDate == data.birthDate
  {
    if FindByEmail(s.users, data.email).Some? then
      Step(s, Some(UserAlreadyExists))
    else
      var u := NewUser(data, id);
      Step(AuthState(Some(u), s.users + [u]), None)
  }

  /** Clears the current user; the store is kept. */
  function Logout(s: AuthState): (r: AuthState)
    ensures r.user.None?
    ensures r.users == s.users
  {
    s.(user := None)
  }

  /** Registering keeps emails distinct and the current user stored. */
  lemma RegisterPreservesValid(s: AuthState, data: Registration, id: string)
    requires Valid(s)
    ensures Valid(Register(s, data, id).state)
  {
    var r := Register(s, data, id);
    if !Registered(s.users, data.email) {
      var t := r.state.users;
      forall i, j | 0 <= i < j < |t|
        ensures t[i].email != t[j].email
      {
        if j < |s.users| {
          assert t[i] == s.users[i] && t[j] == s.users[j];
        } else {
          assert t[i] == s.users[i];
        }
      }
    }
  }

  /** Logging in and logging out keep the invariant as well. */
  lemma LoginLogoutPreserveValid(s: AuthState, email: string, password: string)
    requires Valid(s)
    ensures Valid(Login(s, email, password).state)
    ensures Valid(Logout(s))
  {
  }

  /** The outcome of a login does not depend on the password given. */
  lemma LoginIgnoresPassword(s: AuthState, email: string, p1: string, p2: string)
    ensures Login(s, email, p1) == Login(s, email, p2)
  {
  }

  /** In a valid state every stored user can log in by email, with any
      password, and becomes exactly the current user. */
  lemma LoginFindsStoredUser(s: AuthState, u: User, password: string)
    requires Valid(s)
    requires u in s.users
    ensures Login(s, u.email, password) == Step(s.(user := Some(u)), None)
  {
    var k :| 0 <= k < |s.users| && s.users[k] == u;
    Seqs.FindUnique(s.users, (v: User) => v.email == u.email, k);
  }

  /** After a successful registration and a logout, logging in with the same
      email succeeds and makes the account just created current again. */
  lemma RegisterThenLogin(s: AuthState, data: Registration, id: string, password: string)
    requires !Registered(s.users, data.email)
    ensures var t := Register(s, data, id).state;
            t.user == Some(NewUser(data, id)) && Login(Logout(t), data.email, password) == Step(t, None)
  {
    Seqs.FindAppendFresh(s.users, NewUser(data, id), (v: User) => v.email == data.email);
  }

  /** Logging out after a login, successful or not, is the same as logging out
      without it: a login never changes the store. */
  lemma LogoutAfterLogin(s: AuthState, email: string, password: string)
    ensures Logout(Login(s, email, password).state) == Logout(s)
  {
  }
}
