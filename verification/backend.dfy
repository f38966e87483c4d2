/** The server's register and login routes over the users table, taken as a
    sequence of rows in query order. Role and department are plain strings
    here: the server checks neither against the closed sets of the client. */
module Backend {
  import opened Wrappers
  import Seqs

  /** A row of the users table. */
  datatype UserRow = UserRow(
    id: string,
    email: string,
    password: string,
    name: string,
    role: string,
    department: Option<string>,
    gender: string,
    birthDate: string)

  /** The body of a register request. */
  datatype UserCreate = UserCreate(
    email: string,
    password: string,
    name: string,
    role: string,
    department: Option<string>,
    gender: string,
    birthDate: string)

  /** An `HTTPException`: status code and detail. */
  datatype HttpError = HttpError(status: int, detail: string)

  /** The table after a request, and the response: the row returned, or the error raised. */
  datatype Step = Step(db: seq<UserRow>, response: Result<UserRow, HttpError>)

  const EmailTaken := HttpError(400, "Email already registered")
  const InvalidCredentials := HttpError(401, "Invalid credentials")

  /** No two rows share an email. */
  predicate EmailsUnique(db: seq<UserRow>)
  {
    forall i, j :: 0 <= i < j < |db| ==> db[i].email != db[j].email
  }

  /** Some row has this email. */
  predicate HasEmail(db: seq<UserRow>, email: string)
  {
    exists i :: 0 <= i < |db| && db[i].email == email
  }

  /** The row matching both email and password exactly. */
  predicate Matches(row: UserRow, email: string, password: string)
  {
    row.email == email && row.password == password
  }

  /** `POST /api/register`: a taken email is refused with 400; otherwise a
      row copying every field of the request, under `id`, is added and returned. */
  function Register(db: seq<UserRow>, user: UserCreate, id: string): (r: Step)
    ensures HasEmail(db, user.email) ==> r == Step(db, Failure(EmailTaken))
    ensures !HasEmail(db, user.email) ==>
              && r.response.Success?
              && r.db == db + [r.response.value]
    ensures !HasEmail(db, user.email) ==>
              var row := r.response.value;
              && row.id == id && row.email == user.email && row.password == user.password
              && row.name == user.name && row.role == user.role && row.department == user.department
              && row.gender == user.gender && row.birthDate == user.birthDate
  {
    var existing := Seqs.Find(db, (row: UserRow) => row.email == user.email);
    if existing.Some? then
      Step(db, Failure(EmailTaken))
    else
      var row := UserRow(id, user.email, user.password, user.name, user.role,
                         user.department, user.gender, user.birthDate);
      Step(db + [row], Success(row))
  }

  /** `POST /api/login`: the first row whose email and password both match,
      else 401. The table is only read. */
  function Login(db: seq<UserRow>, email: string, password: string): (r: Step)
    ensures r.db == db
    ensures r.response.Success? <==> exists i :: 0 <= i < |db| && Matches(db[i], email, password)
    ensures r.response.Success? ==> r.response.value in db && Matches(r.response.value, email, password)
    ensures r.response.Failure? ==> r.response.error == InvalidCredentials
  {
    match Seqs.Find(db, (row: UserRow) => Matches(row, email, password))
    case Some(row) => Step(db, Success(row))
    case None => Step(db, Failure(InvalidCredentials))
  }

  /** Registering keeps emails unique. */
  lemma RegisterPreservesUnique(db: seq<UserRow>, user: UserCreate, id: string)
    requires EmailsUnique(db)
    ensures EmailsUnique(Register(db, user, id).db)
  {
    var t := Register(db, user, id).db;
    if !HasEmail(db, user.email) {
      forall i, j | 0 <= i < j < |t|
        ensures t[i].email != t[j].email
      {
        if j < |db| {
          assert t[i] == db[i] && t[j] == db[j];
        } else {
          assert t[i] == db[i];
        }
      }
    }
  }

  /** A new email is accepted whatever the role, with or without a
      department: the rule that a plain user needs one is not enforced here. */
  lemma RegisterAcceptsAnyDepartment(db: seq<UserRow>, user: UserCreate, id: string)
    requires !HasEmail(db, user.email)
    ensures Register(db, user, id).response.Success?
    ensures Register(db, user, id).response.value.department == user.department
  {
  }

  /** With unique emails, a stored row logs in with exactly its own password. */
  lemma LoginStoredRow(db: seq<UserRow>, row: UserRow, password: string)
    requires EmailsUnique(db)
    requires row in db
    ensures Login(db, row.email, password).response
         == if password == row.password then Success(row) else Failure(InvalidCredentials)
  {
    var k :| 0 <= k < |db| && db[k] == row;
    var p := (r: UserRow) => Matches(r, row.email, password);
    if password == row.password {
      Seqs.FindUnique(db, p, k);
    } else {
      assert forall i :: 0 <= i < |db| ==> !p(db[i]);
    }
  }

  /** An account just registered can log in with the password it was registered with. */
  lemma RegisterThenLogin(db: seq<UserRow>, user: UserCreate, id: string)
    requires !HasEmail(db, user.email)
    ensures var s := Register(db, user, id);
            Login(s.db, user.email, user.password).response == s.response
  {
    var s := Register(db, user, id);
    Seqs.FindAppendFresh(db, s.response.value, (r: UserRow) => Matches(r, user.email, user.password));
  }
}
