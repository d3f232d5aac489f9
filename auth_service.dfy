/**
 * Sign-up and sign-in over the users table (src/services/auth.service.js).
 * bcrypt is an abstract hash function `hash`; a password matches a stored
 * value when its hash equals that value.
 */
module AuthService {
  import opened Wrappers
  import opened Database

  /** bcrypt's hash, as a function from plaintext to stored value. */
  type Hasher = string -> string

  /** comparePassword: a plaintext matches a stored value exactly when that value is its hash. */
  predicate ComparePassword(hash: Hasher, password: string, stored: string) {
    hash(password) == stored
  }

  /** hashPassword then comparePassword: a password matches its own hash, and no other stored value. */
  lemma HashThenCompare(hash: Hasher, password: string, stored: string)
    ensures ComparePassword(hash, password, hash(password))
    ensures stored != hash(password) ==> !ComparePassword(hash, password, stored)
  {
  }

  /** The argument of createUser; `role` is None when the caller leaves it out. */
  datatype NewUser = NewUser(name: string, email: string, password: string, role: Option<string>)

  /** The `returning` projection of createUser's insert. */
  datatype CreatedUser = CreatedUser(id: nat, name: string, email: string, role: string, createdAt: Timestamp)

  const DefaultRole := "user"

  /** The destructuring default `role = 'user'`. */
  function RoleOrDefault(role: Option<string>): string {
    if role.Some? then role.value else DefaultRole
  }

  /**
   * What createUser does to the table: refuses an email some row already has,
   * and otherwise adds one row, under the next serial id, holding the password's
   * hash.
   */
  function CreateUserEffect(rows: map<nat, Row>, nextId: nat, hash: Hasher, input: NewUser, now: Timestamp)
    : (e: Effect<CreatedUser>)
    requires Consistent(rows, nextId)
    ensures e.result.Err? <==> EmailInUse(rows, input.email)
    ensures e.result.Err? ==> e.result.error == EmailExists && e.rows == rows
    ensures e.result.Ok? ==>
      && e.result.value == CreatedUser(nextId, input.name, input.email, RoleOrDefault(input.role), now)
      && nextId !in rows && e.rows.Keys == rows.Keys + {nextId} && |e.rows| == |rows| + 1
      && (forall id | id in rows :: e.rows[id] == rows[id])
      && e.rows[nextId].password == hash(input.password)
      && e.rows[nextId].email == input.email && e.rows[nextId].name == input.name
      && (input.role.None? ==> e.rows[nextId].role == "user")
      && (input.role.Some? ==> e.rows[nextId].role == input.role.value)
      && e.rows[nextId].createdAt == now && e.rows[nextId].updatedAt == now
      && Consistent(e.rows, nextId + 1)
  {
    if EmailInUse(rows, input.email) then Effect(Err(EmailExists), rows)
    else
      var row := Row(nextId, input.name, input.email, hash(input.password), RoleOrDefault(input.role), now, now);
      AddKeepsConsistent(rows, nextId, row);
      Effect(Ok(CreatedUser(nextId, input.name, input.email, row.role, now)), rows[nextId := row])
  }

  /** createUser: checks the email, hashes the password, inserts the row and returns its projection. */
  method CreateUser(db: Table, hash: Hasher, input: NewUser, now: Timestamp) returns (r: Result<CreatedUser, Failure>)
    requires db.Valid()
    modifies db
    ensures db.Valid()
    ensures Effect(r, db.rows) == CreateUserEffect(old(db.rows), old(db.nextId), hash, input, now)
    ensures db.nextId == if r.Ok? then old(db.nextId) + 1 else old(db.nextId)
  {
    if EmailInUse(db.rows, input.email) {
      return Err(EmailExists);
    }
    var passwordHash := hash(input.password);
    var inserted := db.Insert(InsertValues(input.name, input.email, passwordHash, RoleOrDefault(input.role)), now);
    assert inserted.Ok?;
    var row := inserted.value;
    r := Ok(CreatedUser(row.id, row.name, row.email, row.role, row.createdAt));
  }

  /**
   * authenticateUser: the row with this email and a matching password, without
   * its password; a missing email and a wrong password fail alike.
   */
  function AuthenticateUser(rows: map<nat, Row>, hash: Hasher, email: string, password: string)
    : (r: Result<PublicUser, Failure>)
    requires UniqueEmails(rows)
    ensures r.Err? ==> r.error == InvalidCredentials
    ensures r.Ok? <==> exists id | id in rows :: rows[id].email == email && ComparePassword(hash, password, rows[id].password)
    ensures r.Ok? ==> exists id | id in rows :: rows[id].email == email && r.value == Project(rows[id])
  {
    match SelectByEmail(rows, email)
    case None => Err(InvalidCredentials)
    case Some(user) =>
      if !ComparePassword(hash, password, user.password) then Err(InvalidCredentials)
      else Ok(Project(user))
  }

  /** An unknown email and a wrong password give the identical failure. */
  lemma UnknownEmailLikeWrongPassword(rows: map<nat, Row>, hash: Hasher, email: string, wrong: string,
                                      other: string, anyPassword: string)
    requires UniqueEmails(rows)
    requires EmailInUse(rows, email) && !EmailInUse(rows, other)
    requires forall id | id in rows && rows[id].email == email :: rows[id].password != hash(wrong)
    ensures AuthenticateUser(rows, hash, email, wrong) == AuthenticateUser(rows, hash, other, anyPassword)
  {
  }

  /** A user who has just signed up can sign in with the same email and password. */
  lemma {:induction false} SignUpThenSignIn(rows: map<nat, Row>, nextId: nat, hash: Hasher, input: NewUser, now: Timestamp)
    requires Consistent(rows, nextId) && !EmailInUse(rows, input.email)
    ensures var e := CreateUserEffect(rows, nextId, hash, input, now);
      && AuthenticateUser(e.rows, hash, input.email, input.password)
         == Ok(PublicUser(nextId, input.name, input.email, RoleOrDefault(input.role), now, now))
  {
  }

  /** A second sign-up with the same email fails and adds nothing. */
  lemma SecondSignUpFails(rows: map<nat, Row>, nextId: nat, hash: Hasher, first: NewUser, second: NewUser,
                          t1: Timestamp, t2: Timestamp)
    requires Consistent(rows, nextId) && !EmailInUse(rows, first.email) && second.email == first.email
    ensures var e1 := CreateUserEffect(rows, nextId, hash, first, t1);
      && e1.result.Ok?
      && CreateUserEffect(e1.rows, nextId + 1, hash, second, t2) == Effect(Err(EmailExists), e1.rows)
  {
    var e1 := CreateUserEffect(rows, nextId, hash, first, t1);
    assert e1.rows[nextId].email == second.email;
  }
}
