/**
 * Reading, updating and deleting user records (src/services/users.service.js).
 * Every result is a projection without the password column.
 */
module UsersService {
  import opened Wrappers
  import opened Database
  import opened AuthService

  /** The parsed update body; a None field is not part of the update. */
  datatype Updates = Updates(name: Option<string>, email: Option<string>, password: Option<string>, role: Option<string>)

  /** JavaScript truthiness of an optional string property. */
  predicate Truthy(v: Option<string>) {
    v.Some? && v.value != ""
  }

  /** getAllUsers: one projection per row, keyed by its id. */
  function GetAllUsers(rows: map<nat, Row>): (r: map<nat, PublicUser>)
    ensures r.Keys == rows.Keys && |r| == |rows|
    ensures forall id | id in r :: r[id] == Project(rows[id])
  {
    var r := map id | id in rows :: Project(rows[id]);
    assert r.Keys == rows.Keys;
    r
  }

  /** getUserById: the projection of the row with this id, or null. */
  function GetUserById(rows: map<nat, Row>, id: nat): (r: Option<PublicUser>)
    ensures r.None? <==> id !in rows
    ensures r.Some? ==> r.value == Project(rows[id])
  {
    if id in rows then Some(Project(rows[id])) else None
  }

  /** The two reads agree: a record is listed exactly when it can be fetched by its id. */
  lemma AllAgreesWithById(rows: map<nat, Row>, id: nat)
    ensures GetUserById(rows, id) == if id in GetAllUsers(rows) then Some(GetAllUsers(rows)[id]) else None
  {
  }

  /** Two tables that differ only in their password column read the same: no read reveals a password. */
  lemma ReadsIgnorePasswords(rows1: map<nat, Row>, rows2: map<nat, Row>, id: nat)
    requires rows1.Keys == rows2.Keys
    requires forall k | k in rows1 :: rows1[k].(password := "") == rows2[k].(password := "")
    ensures GetAllUsers(rows1) == GetAllUsers(rows2)
    ensures GetUserById(rows1, id) == GetUserById(rows2, id)
  {
  }

  /**
   * `updatesToApply`: a copy of the updates whose password, when truthy, is
   * replaced by its hash, and whose `updated_at` is the current time.
   */
  function UpdatesToApply(updates: Updates, hash: Hasher, now: Timestamp): (p: Patch)
    ensures p.name == updates.name && p.email == updates.email && p.role == updates.role
    ensures p.password == if Truthy(updates.password) then Some(hash(updates.password.value)) else updates.password
    ensures p.updatedAt == Some(now)
  {
    var p := Patch(updates.name, updates.email, updates.password, updates.role, None);
    var p := if Truthy(p.password) then p.(password := Some(hash(p.password.value))) else p;
    p.(updatedAt := Some(now))
  }

  /**
   * What updateUser does to the table: a missing id is 'User not found', an email
   * taken by another row is refused by the unique constraint, and otherwise only
   * the row with that id changes.
   */
  function UpdateUserEffect(rows: map<nat, Row>, hash: Hasher, id: nat, updates: Updates, now: Timestamp)
    : (e: Effect<PublicUser>)
    ensures e.result == Err(UserNotFound) <==> id !in rows
    ensures e.result.Err? ==> e.rows == rows
    ensures e.result.Err? <==> id !in rows || Clashes(rows, id, UpdatesToApply(updates, hash, now))
    ensures e.result.Ok? ==>
      && id in rows && e.rows.Keys == rows.Keys
      && (forall other | other in rows && other != id :: e.rows[other] == rows[other])
      && e.result.value == Project(e.rows[id])
      && e.rows[id].id == rows[id].id && e.rows[id].createdAt == rows[id].createdAt
      && e.rows[id].updatedAt == now
      && e.rows[id] == Patched(rows[id], UpdatesToApply(updates, hash, now))
  {
    var p := UpdatesToApply(updates, hash, now);
    if id !in rows then Effect(Err(UserNotFound), rows)
    else if Clashes(rows, id, p) then Effect(Err(UniqueViolation), rows)
    else
      var row := Patched(rows[id], p);
      Effect(Ok(Project(row)), rows[id := row])
  }

  /** updateUser: builds `updatesToApply` step by step, then runs the update statement. */
  method UpdateUser(db: Table, hash: Hasher, id: nat, updates: Updates, now: Timestamp) returns (r: Result<PublicUser, Failure>)
    requires db.Valid()
    modifies db
    ensures db.Valid() && db.nextId == old(db.nextId)
    ensures Effect(r, db.rows) == UpdateUserEffect(old(db.rows), hash, id, updates, now)
  {
    var updatesToApply := Patch(updates.name, updates.email, updates.password, updates.role, None);
    if Truthy(updatesToApply.password) {
      updatesToApply := updatesToApply.(password := Some(hash(updatesToApply.password.value)));
    }
    updatesToApply := updatesToApply.(updatedAt := Some(now));
    assert updatesToApply == UpdatesToApply(updates, hash, now);
    var updated := db.Update(id, updatesToApply);
    match updated
    case Err(e) =>
      r := Err(e);
    case Ok(None) =>
      r := Err(UserNotFound);
    case Ok(Some(row)) =>
      r := Ok(Project(row));
  }

  /** The fields of an updated row: a truthy password is stored hashed, a given field replaces the old one, others stay. */
  lemma UpdatedRowFields(rows: map<nat, Row>, hash: Hasher, id: nat, updates: Updates, now: Timestamp)
    requires UpdateUserEffect(rows, hash, id, updates, now).result.Ok?
    ensures var row := UpdateUserEffect(rows, hash, id, updates, now).rows[id];
      && row.password == (if Truthy(updates.password) then hash(updates.password.value)
                          else if updates.password.Some? then "" else rows[id].password)
      && row.name == (if updates.name.Some? then updates.name.value else rows[id].name)
      && row.email == (if updates.email.Some? then updates.email.value else rows[id].email)
      && row.role == (if updates.role.Some? then updates.role.value else rows[id].role)
  {
  }

  /** After a password change, the user signs in with the new password. */
  lemma {:induction false} PasswordChangeThenSignIn(rows: map<nat, Row>, hash: Hasher, id: nat, updates: Updates, now: Timestamp)
    requires UniqueEmails(rows)
    requires Truthy(updates.password)
    requires UpdateUserEffect(rows, hash, id, updates, now).result.Ok?
    ensures var e := UpdateUserEffect(rows, hash, id, updates, now);
      AuthenticateUser(e.rows, hash, e.rows[id].email, updates.password.value) == e.result
  {
  }

  /** What deleteUser does to the table: removes exactly the row with this id, or fails with 'User not found'. */
  function DeleteUserEffect(rows: map<nat, Row>, id: nat): (e: Effect<PublicUser>)
    ensures e.result.Err? <==> id !in rows
    ensures e.result.Err? ==> e.result.error == UserNotFound && e.rows == rows
    ensures e.result.Ok? ==>
      && e.result.value == Project(rows[id])
      && e.rows.Keys == rows.Keys - {id} && |e.rows| == |rows| - 1
      && (forall other | other in e.rows :: e.rows[other] == rows[other])
  {
    if id !in rows then Effect(Err(UserNotFound), rows)
    else
      var rows' := rows - {id};
      assert rows'.Keys == rows.Keys - {id};
      Effect(Ok(Project(rows[id])), rows')
  }

  /** deleteUser: runs the delete statement and returns the removed row's projection. */
  method DeleteUser(db: Table, id: nat) returns (r: Result<PublicUser, Failure>)
    requires db.Valid()
    modifies db
    ensures db.Valid() && db.nextId == old(db.nextId)
    ensures Effect(r, db.rows) == DeleteUserEffect(old(db.rows), id)
  {
    var deleted := db.Delete(id);
    if deleted.None? {
      return Err(UserNotFound);
    }
    r := Ok(Project(deleted.value));
  }

  /** After a delete, the id can no longer be fetched, and every other record reads as before. */
  lemma DeleteThenGet(rows: map<nat, Row>, id: nat, other: nat)
    requires id in rows && other != id
    ensures var e := DeleteUserEffect(rows, id);
      GetUserById(e.rows, id) == None && GetUserById(e.rows, other) == GetUserById(rows, other)
  {
  }
}
