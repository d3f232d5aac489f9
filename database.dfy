/**
 * The `users` table behind Drizzle: rows keyed by a serial id, a unique email
 * column, and the three statements the services issue (insert, update, delete),
 * each with its `returning` row.
 */
module Database {
  import opened Wrappers

  /** A point in time, as the caller's clock reports it. */
  type Timestamp = nat

  datatype Row = Row(id: nat, name: string, email: string, password: string, role: string,
                     createdAt: Timestamp, updatedAt: Timestamp)

  /** A user record as the services hand it out: every column except `password`. */
  datatype PublicUser = PublicUser(id: nat, name: string, email: string, role: string,
                                   createdAt: Timestamp, updatedAt: Timestamp)

  /** The errors the services throw, each identified by its message. */
  datatype Failure = EmailExists | InvalidCredentials | UserNotFound | UniqueViolation {
    function Message(): string {
      match this
      case EmailExists => "User with this email already Exists!"
      case InvalidCredentials => "Invalid email or password"
      case UserNotFound => "User not found"
      case UniqueViolation => "duplicate key value violates unique constraint"
    }
  }

  /** The values of an insert; id and timestamps come from the column defaults. */
  datatype InsertValues = InsertValues(name: string, email: string, password: string, role: string)

  /** The argument of `.set(...)`: a None column is left as it is. */
  datatype Patch = Patch(name: Option<string>, email: Option<string>, password: Option<string>,
                         role: Option<string>, updatedAt: Option<Timestamp>)

  /** A table's value and what a service call returned. */
  datatype Effect<T> = Effect(result: Result<T, Failure>, rows: map<nat, Row>)

  /** The columns the services select: all of them except `password`. */
  function Project(row: Row): (u: PublicUser)
    ensures u.id == row.id && u.name == row.name && u.email == row.email && u.role == row.role
    ensures u.createdAt == row.createdAt && u.updatedAt == row.updatedAt
  {
    PublicUser(row.id, row.name, row.email, row.role, row.createdAt, row.updatedAt)
  }

  /** The row `.set(p)` leaves behind. */
  function Patched(row: Row, p: Patch): Row {
    row.(name := if p.name.Some? then p.name.value else row.name,
         email := if p.email.Some? then p.email.value else row.email,
         password := if p.password.Some? then p.password.value else row.password,
         role := if p.role.Some? then p.role.value else row.role,
         updatedAt := if p.updatedAt.Some? then p.updatedAt.value else row.updatedAt)
  }

  predicate EmailInUse(rows: map<nat, Row>, email: string) {
    exists id | id in rows :: rows[id].email == email
  }

  ghost predicate UniqueEmails(rows: map<nat, Row>) {
    forall a, b | a in rows && b in rows && rows[a].email == rows[b].email :: a == b
  }

  /** Every row sits under its own id, below the next serial value, and no email appears twice. */
  ghost predicate Consistent(rows: map<nat, Row>, nextId: nat) {
    && (forall id | id in rows :: rows[id].id == id && id < nextId)
    && UniqueEmails(rows)
  }

  /** Whether applying `p` to row `id` would give it an email another row already has. */
  predicate Clashes(rows: map<nat, Row>, id: nat, p: Patch) {
    p.email.Some? && exists other | other in rows && other != id :: rows[other].email == p.email.value
  }

  /** `select ... where email = ? limit 1`: the row with this email, if any. */
  function SelectByEmail(rows: map<nat, Row>, email: string): (r: Option<Row>)
    requires UniqueEmails(rows)
    ensures r.Some? <==> EmailInUse(rows, email)
    ensures r.Some? ==> r.value.email == email && exists id | id in rows :: rows[id] == r.value
  {
    if EmailInUse(rows, email) then
      var id :| id in rows && rows[id].email == email;
      Some(rows[id])
    else None
  }

  /** Patching a row with an email no other row has keeps emails unique. */
  lemma PatchKeepsUnique(rows: map<nat, Row>, id: nat, p: Patch)
    requires UniqueEmails(rows) && id in rows && !Clashes(rows, id, p)
    ensures UniqueEmails(rows[id := Patched(rows[id], p)])
  {
  }

  /** A row under the next serial id, with an email no row has, keeps the table consistent. */
  lemma AddKeepsConsistent(rows: map<nat, Row>, nextId: nat, row: Row)
    requires Consistent(rows, nextId) && row.id == nextId && !EmailInUse(rows, row.email)
    ensures nextId !in rows && |rows[nextId := row]| == |rows| + 1
    ensures Consistent(rows[nextId := row], nextId + 1)
  {
  }

  /** A patched row keeps its id, so the table stays consistent when no email clashes. */
  lemma PatchKeepsConsistent(rows: map<nat, Row>, nextId: nat, id: nat, p: Patch)
    requires Consistent(rows, nextId) && id in rows && !Clashes(rows, id, p)
    ensures Consistent(rows[id := Patched(rows[id], p)], nextId)
  {
    PatchKeepsUnique(rows, id, p);
  }

  class Table {
    var rows: map<nat, Row>
    var nextId: nat

    ghost predicate Valid()
      reads this
    {
      Consistent(rows, nextId)
    }

    /** An empty table whose serial starts at 1. */
    constructor ()
      ensures Valid() && rows == map[] && nextId == 1
    {
      rows := map[];
      nextId := 1;
    }

    /** `insert(...).values(v).returning(...)`; the unique email constraint rejects a second row with the same email. */
    method Insert(v: InsertValues, now: Timestamp) returns (r: Result<Row, Failure>)
      requires Valid()
      modifies this
      ensures Valid()
      ensures EmailInUse(old(rows), v.email) ==>
        r == Err(UniqueViolation) && rows == old(rows) && nextId == old(nextId)
      ensures !EmailInUse(old(rows), v.email) ==>
        && r == Ok(Row(old(nextId), v.name, v.email, v.password, v.role, now, now))
        && rows == old(rows)[old(nextId) := r.value]
        && nextId == old(nextId) + 1
    {
      if EmailInUse(rows, v.email) {
        return Err(UniqueViolation);
      }
      var row := Row(nextId, v.name, v.email, v.password, v.role, now, now);
      AddKeepsConsistent(rows, nextId, row);
      rows := rows[nextId := row];
      nextId := nextId + 1;
      r := Ok(row);
    }

    /** `update(...).set(p).where(id = ?).returning(...)`: no row when the id is absent. */
    method Update(id: nat, p: Patch) returns (r: Result<Option<Row>, Failure>)
      requires Valid()
      modifies this
      ensures Valid() && nextId == old(nextId)
      ensures id !in old(rows) ==> r == Ok(None) && rows == old(rows)
      ensures id in old(rows) && Clashes(old(rows), id, p) ==> r == Err(UniqueViolation) && rows == old(rows)
      ensures id in old(rows) && !Clashes(old(rows), id, p) ==>
        && r == Ok(Some(Patched(old(rows)[id], p)))
        && rows == old(rows)[id := Patched(old(rows)[id], p)]
    {
      if id !in rows {
        return Ok(None);
      }
      if Clashes(rows, id, p) {
        return Err(UniqueViolation);
      }
      PatchKeepsConsistent(rows, nextId, id, p);
      var row := Patched(rows[id], p);
      rows := rows[id := row];
      r := Ok(Some(row));
    }

    /** `delete(...).where(id = ?).returning(...)`: the removed row, if there was one. */
    method Delete(id: nat) returns (r: Option<Row>)
      requires Valid()
      modifies this
      ensures Valid() && nextId == old(nextId)
      ensures id !in old(rows) ==> r == None && rows == old(rows)
      ensures id in old(rows) ==> r == Some(old(rows)[id]) && rows == old(rows) - {id}
    {
      if id !in rows {
        return None;
      }
      r := Some(rows[id]);
      rows := rows - {id};
    }
  }
}
