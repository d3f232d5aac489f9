/**
 * The user-record handlers (src/controllers/users.controller.js). Each handler
 * is an early-return guard chain, a pure function from the parse outcomes and
 * the requester to either a response or the service call to make, followed by
 * the call itself and the mapping of its result to a status.
 */
module UsersController {
  import opened Wrappers
  import opened Requests
  import opened Database
  import opened AuthService
  import opened UsersService
  import Format

  /** The JSON bodies these handlers send. */
  datatype Body =
    | ValidationFailed(details: string)                         // { error: 'Validation Failed', details }
    | Refusal(error: string, message: string)                   // { error, message }
    | NotFound                                                  // { error: 'User not found' }
    | UserList(message: string, users: map<nat, PublicUser>, count: nat)
    | OneUser(message: string, user: PublicUser)

  /** A response with its status, or `next(error)` for the application's error handler. */
  datatype Outcome = Respond(status: nat, body: Body) | Next(error: Failure)

  /** Where a guard chain ends: an early response, or the service call with its arguments. */
  datatype Step<C> = Reject(status: nat, body: Body) | Call(args: C)

  const UpdateUnauthenticated := "Authentication required to update user information."
  const DeleteUnauthenticated := "Authentication required to delete user."
  const UpdateNotOwner := "You can only update your own account."
  const DeleteNotOwner := "You can only delete your own account."
  const RoleChangeRefused := "Only admin users can change roles."

  function Invalid400(error: Format.Errors, stringify: Format.Errors -> string): Body {
    ValidationFailed(Format.FormatValidationErrors(error, stringify))
  }

  /** The catch block: 'User not found' is a 404; any other error goes to `next`. */
  function ServiceFailure(e: Failure): (out: Outcome)
    ensures out.Respond? <==> e == UserNotFound
    ensures out.Respond? ==> out == Respond(404, NotFound)
    ensures out.Next? ==> out.error == e
  {
    if e.Message() == "User not found" then Respond(404, NotFound) else Next(e)
  }

  /** The 200 response around a service result, or the catch block's mapping of its error. */
  function ServiceReply(result: Result<PublicUser, Failure>, message: string): (out: Outcome)
    ensures result.Ok? ==> out == Respond(200, OneUser(message, result.value))
    ensures result.Err? ==> out == ServiceFailure(result.error)
  {
    match result
    case Ok(user) => Respond(200, OneUser(message, user))
    case Err(e) => ServiceFailure(e)
  }

  /** fetchAllUsers: every record, without passwords, and their number. */
  function FetchAllUsers(db: Table): (out: Outcome)
    reads db
    ensures out.Respond? && out.status == 200 && out.body.UserList?
    ensures out.body.users.Keys == db.rows.Keys && out.body.count == |db.rows|
    ensures out.body.users == GetAllUsers(db.rows)
    ensures forall id | id in db.rows :: out.body.users[id] == Project(db.rows[id])
  {
    var all := GetAllUsers(db.rows);
    Respond(200, UserList("Successfully retrived Users!", all, |all|))
  }

  /** fetchUserById, lines 31-44: invalid params are a 400 and no lookup follows. */
  function FetchUserGuard(params: Parse<nat>, stringify: Format.Errors -> string): (s: Step<nat>)
    ensures s.Call? <==> params.Parsed?
    ensures params.Invalid? ==> s == Reject(400, Invalid400(params.error, stringify))
    ensures s.Call? ==> s.args == params.data
  {
    match params
    case Invalid(error) => Reject(400, Invalid400(error, stringify))
    case Parsed(id) => Call(id)
  }

  /** fetchUserById: 400 for invalid params, 404 when no row has the id, else 200 with the record. */
  function FetchUserById(db: Table, params: Parse<nat>, stringify: Format.Errors -> string): (out: Outcome)
    reads db
    ensures params.Invalid? ==> out == Respond(400, Invalid400(params.error, stringify))
    ensures params.Parsed? && params.data !in db.rows ==> out == Respond(404, NotFound)
    ensures params.Parsed? && params.data in db.rows ==>
      out == Respond(200, OneUser("Successfully retrived User!", Project(db.rows[params.data])))
  {
    match FetchUserGuard(params, stringify)
    case Reject(status, body) => Respond(status, body)
    case Call(id) =>
      var user := GetUserById(db.rows, id);
      if user.None? then Respond(404, NotFound)
      else Respond(200, OneUser("Successfully retrived User!", user.value))
  }

  /** updateUserById, lines 66-124: params, then body, then authentication, ownership and the role change. */
  function UpdateUserGuard(params: Parse<nat>, body: Parse<Updates>, user: Option<RequestUser>,
                           stringify: Format.Errors -> string): (s: Step<(nat, Updates)>)
    ensures s.Call? <==>
      && params.Parsed? && body.Parsed? && user.Some?
      && (user.value.role == "admin" || user.value.id == params.data)
      && (!Truthy(body.data.role) || user.value.role == "admin")
    ensures s.Call? ==> s.args == (params.data, body.data)
    ensures params.Invalid? ==> s == Reject(400, Invalid400(params.error, stringify))
    ensures params.Parsed? && body.Invalid? ==> s == Reject(400, Invalid400(body.error, stringify))
    ensures params.Parsed? && body.Parsed? && user.None? ==>
      s == Reject(401, Refusal("Unauthorized", UpdateUnauthenticated))
    ensures params.Parsed? && body.Parsed? && user.Some? && user.value.role != "admin" && user.value.id != params.data ==>
      s == Reject(403, Refusal("Forbidden", UpdateNotOwner))
    ensures params.Parsed? && body.Parsed? && user.Some? && user.value.role != "admin" && user.value.id == params.data
            && Truthy(body.data.role) ==>
      s == Reject(403, Refusal("Forbidden", RoleChangeRefused))
  {
    if params.Invalid? then Reject(400, Invalid400(params.error, stringify))
    else if body.Invalid? then Reject(400, Invalid400(body.error, stringify))
    else
      var id, updates := params.data, body.data;
      if user.None? then Reject(401, Refusal("Unauthorized", UpdateUnauthenticated))
      else if user.value.role != "admin" && user.value.id != id then Reject(403, Refusal("Forbidden", UpdateNotOwner))
      else if Truthy(updates.role) && user.value.role != "admin" then Reject(403, Refusal("Forbidden", RoleChangeRefused))
      else Call((id, updates))
  }

  /** updateUserById: the guard chain, then updateUser and the mapping of its result. */
  method UpdateUserById(db: Table, hash: Hasher, params: Parse<nat>, body: Parse<Updates>, user: Option<RequestUser>,
                        now: Timestamp, stringify: Format.Errors -> string) returns (out: Outcome)
    requires db.Valid()
    modifies db
    ensures db.Valid() && db.nextId == old(db.nextId)
    ensures match UpdateUserGuard(params, body, user, stringify)
      case Reject(status, b) => out == Respond(status, b) && db.rows == old(db.rows)
      case Call(args) =>
        var e := UpdateUserEffect(old(db.rows), hash, args.0, args.1, now);
        db.rows == e.rows && out == ServiceReply(e.result, "User updated Successfully!")
  {
    var step := UpdateUserGuard(params, body, user, stringify);
    match step
    case Reject(status, b) =>
      out := Respond(status, b);
    case Call(args) =>
      var updated := UpdateUser(db, hash, args.0, args.1, now);
      out := ServiceReply(updated, "User updated Successfully!");
  }

  /** deleteUserById, lines 145-179: params, authentication and ownership, with no role check. */
  function DeleteUserGuard(params: Parse<nat>, user: Option<RequestUser>, stringify: Format.Errors -> string)
    : (s: Step<nat>)
    ensures s.Call? <==> params.Parsed? && user.Some? && (user.value.role == "admin" || user.value.id == params.data)
    ensures s.Call? ==> s.args == params.data
    ensures params.Invalid? ==> s == Reject(400, Invalid400(params.error, stringify))
    ensures params.Parsed? && user.None? ==> s == Reject(401, Refusal("Unauthorized", DeleteUnauthenticated))
    ensures params.Parsed? && user.Some? && user.value.role != "admin" && user.value.id != params.data ==>
      s == Reject(403, Refusal("Forbidden", DeleteNotOwner))
  {
    if params.Invalid? then Reject(400, Invalid400(params.error, stringify))
    else
      var id := params.data;
      if user.None? then Reject(401, Refusal("Unauthorized", DeleteUnauthenticated))
      else if user.value.role != "admin" && user.value.id != id then Reject(403, Refusal("Forbidden", DeleteNotOwner))
      else Call(id)
  }

  /** deleteUserById: the guard chain, then deleteUser and the mapping of its result. */
  method DeleteUserById(db: Table, params: Parse<nat>, user: Option<RequestUser>, stringify: Format.Errors -> string)
    returns (out: Outcome)
    requires db.Valid()
    modifies db
    ensures db.Valid() && db.nextId == old(db.nextId)
    ensures match DeleteUserGuard(params, user, stringify)
      case Reject(status, b) => out == Respond(status, b) && db.rows == old(db.rows)
      case Call(id) =>
        var e := DeleteUserEffect(old(db.rows), id);
        db.rows == e.rows && out == ServiceReply(e.result, "User deleted Successfully!")
  {
    var step := DeleteUserGuard(params, user, stringify);
    match step
    case Reject(status, b) =>
      out := Respond(status, b);
    case Call(id) =>
      var deleted := DeleteUser(db, id);
      out := ServiceReply(deleted, "User deleted Successfully!");
  }

  /** The list and the single fetch agree: a record is listed exactly when fetching its id gives a 200 with it. */
  lemma ListAgreesWithFetch(db: Table, id: nat, stringify: Format.Errors -> string)
    ensures id in FetchAllUsers(db).body.users <==> FetchUserById(db, Parsed(id), stringify).status == 200
    ensures id in FetchAllUsers(db).body.users ==>
      FetchUserById(db, Parsed(id), stringify).body == OneUser("Successfully retrived User!", FetchAllUsers(db).body.users[id])
  {
  }

  /** Invalid id params are answered without looking at the table. */
  lemma InvalidIdSkipsLookup(db1: Table, db2: Table, params: Parse<nat>, stringify: Format.Errors -> string)
    requires params.Invalid?
    ensures FetchUserById(db1, params, stringify) == FetchUserById(db2, params, stringify)
    ensures FetchUserById(db1, params, stringify).status == 400
  {
  }

  /** An admin passes both guards for any target and any role value. */
  lemma AdminPassesUpdateGuards(id: nat, updates: Updates, admin: RequestUser, stringify: Format.Errors -> string)
    requires admin.role == "admin"
    ensures UpdateUserGuard(Parsed(id), Parsed(updates), Some(admin), stringify) == Call((id, updates))
    ensures DeleteUserGuard(Parsed(id), Some(admin), stringify) == Call(id)
  {
  }

  /**
   * A non-admin may delete their own account while asking for a role: only the
   * update chain checks the role change.
   */
  lemma RoleCheckOnlyOnUpdate(u: RequestUser, updates: Updates, stringify: Format.Errors -> string)
    requires u.role != "admin" && Truthy(updates.role)
    ensures UpdateUserGuard(Parsed(u.id), Parsed(updates), Some(u), stringify).Reject?
    ensures UpdateUserGuard(Parsed(u.id), Parsed(updates), Some(u), stringify).status == 403
    ensures DeleteUserGuard(Parsed(u.id), Some(u), stringify) == Call(u.id)
  {
  }

  /** With the guards passed, a missing id is a 404 for update and delete alike, and the table is unchanged. */
  lemma MissingTargetIs404(rows: map<nat, Row>, hash: Hasher, id: nat, updates: Updates, now: Timestamp)
    requires id !in rows
    ensures var e := UpdateUserEffect(rows, hash, id, updates, now);
      ServiceReply(e.result, "User updated Successfully!") == Respond(404, NotFound) && e.rows == rows
    ensures var e := DeleteUserEffect(rows, id);
      ServiceReply(e.result, "User deleted Successfully!") == Respond(404, NotFound) && e.rows == rows
  {
  }

  /**
   * A non-admin's update that passes the guards targets the requester's own row,
   * so every other row stays as it was.
   */
  lemma OwnUpdateTouchesOnlyOwnRow(rows: map<nat, Row>, hash: Hasher, params: Parse<nat>, body: Parse<Updates>,
                                   u: RequestUser, now: Timestamp, stringify: Format.Errors -> string, other: nat)
    requires UpdateUserGuard(params, body, Some(u), stringify).Call? && u.role != "admin"
    requires other in rows && other != u.id
    ensures var args := UpdateUserGuard(params, body, Some(u), stringify).args;
      && args.0 == u.id
      && UpdateUserEffect(rows, hash, args.0, args.1, now).rows[other] == rows[other]
  {
  }
}
