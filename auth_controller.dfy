/**
 * The sign-up handler (src/controllers/auth.controller.js): validate the body,
 * create the user, sign a token over its id, email and role, set it as the
 * `token` cookie and answer 201; a duplicate email is a 409.
 */
module AuthController {
  import opened Wrappers
  import opened Database
  import opened AuthService
  import opened AuthValidation
  import Format

  /** The claims the session token is signed over. */
  datatype Claims = Claims(id: nat, email: string, role: string)

  /** The user as the 201 body shows it. */
  datatype SignupUser = SignupUser(id: nat, name: string, email: string, role: string)

  datatype Cookie = Cookie(name: string, value: string)

  datatype Body =
    | ValidationFailed(details: string)                 // { error: 'Validation Failed', details }
    | EmailTaken                                        // { error: 'Email already Exists!' }
    | Registered(message: string, user: SignupUser)     // { message, user }

  /** A response with its status and the cookie it sets, or `next(error)`. */
  datatype Outcome = Respond(status: nat, body: Body, cookie: Option<Cookie>) | Next(error: Failure)

  const TokenCookie := "token"

  /** The part of signup after createUser returns or throws; `sign` stands for the JWT signer. */
  function SignupReply(result: Result<CreatedUser, Failure>, sign: Claims -> string): (out: Outcome)
    ensures result.Ok? ==>
      var u := result.value;
      out == Respond(201, Registered("User registered Successfully!", SignupUser(u.id, u.name, u.email, u.role)),
                     Some(Cookie("token", sign(Claims(u.id, u.email, u.role)))))
    ensures result.Err? ==> (out.Respond? <==> result.error == EmailExists)
    ensures result.Err? && out.Respond? ==> out == Respond(409, EmailTaken, None)
    ensures result.Err? && out.Next? ==> out.error == result.error
  {
    match result
    case Ok(user) =>
      var token := sign(Claims(user.id, user.email, user.role));
      Respond(201, Registered("User registered Successfully!", SignupUser(user.id, user.name, user.email, user.role)),
              Some(Cookie(TokenCookie, token)))
    case Err(e) =>
      if e.Message() == "User with this email already Exists!" then Respond(409, EmailTaken, None) else Next(e)
  }

  /** The createUser argument built from the parsed body. */
  function NewUserOf(d: SignUpData): NewUser {
    NewUser(d.name, d.email, d.password, Some(d.role))
  }

  /**
   * signup: an invalid body is a 400 that leaves the table alone; a valid one is
   * handed to createUser and its result to SignupReply. `isEmail` stands for
   * zod's email pattern and `describe` for zod's wording of a failed check.
   */
  method Signup(db: Table, hash: Hasher, isEmail: string -> bool, describe: Problem -> string,
                stringify: Format.Errors -> string, sign: Claims -> string, body: SignUpBody, now: Timestamp)
    returns (out: Outcome)
    requires db.Valid()
    modifies db
    ensures db.Valid()
    ensures match SignUpSchema(body, isEmail)
      case Err(problems) =>
        && out == Respond(400, ValidationFailed(Format.FormatValidationErrors(ZodError(problems, describe), stringify)), None)
        && db.rows == old(db.rows) && db.nextId == old(db.nextId)
      case Ok(d) =>
        var e := CreateUserEffect(old(db.rows), old(db.nextId), hash, NewUserOf(d), now);
        && db.rows == e.rows && out == SignupReply(e.result, sign)
        && db.nextId == if e.result.Ok? then old(db.nextId) + 1 else old(db.nextId)
  {
    var validation := SignUpSchema(body, isEmail);
    if validation.Err? {
      var details := Format.FormatValidationErrors(ZodError(validation.error, describe), stringify);
      return Respond(400, ValidationFailed(details), None);
    }
    var d := validation.value;
    var user := CreateUser(db, hash, NewUserOf(d), now);
    out := SignupReply(user, sign);
  }

  /**
   * A valid body with a fresh email: 201, one more row, a `token` cookie signed over
   * exactly the new id, the trimmed email and the role, and a body with id, name,
   * email and role only.
   */
  lemma FreshSignup(rows: map<nat, Row>, nextId: nat, hash: Hasher, isEmail: string -> bool, sign: Claims -> string,
                    body: SignUpBody, now: Timestamp)
    requires Consistent(rows, nextId)
    requires SignUpSchema(body, isEmail).Ok?
    requires !EmailInUse(rows, Trim(body.email.s))
    ensures var d := SignUpSchema(body, isEmail).value;
      var e := CreateUserEffect(rows, nextId, hash, NewUserOf(d), now);
      && |e.rows| == |rows| + 1
      && e.rows[nextId].password == hash(body.password.s)
      && SignupReply(e.result, sign)
         == Respond(201, Registered("User registered Successfully!", SignupUser(nextId, d.name, d.email, d.role)),
                    Some(Cookie("token", sign(Claims(nextId, Trim(body.email.s), d.role)))))
  {
  }

  /** A valid body whose trimmed email is taken: 409, no cookie, and no new row. */
  lemma DuplicateSignup(rows: map<nat, Row>, nextId: nat, hash: Hasher, isEmail: string -> bool, sign: Claims -> string,
                        body: SignUpBody, now: Timestamp)
    requires Consistent(rows, nextId)
    requires SignUpSchema(body, isEmail).Ok?
    requires EmailInUse(rows, Trim(body.email.s))
    ensures var e := CreateUserEffect(rows, nextId, hash, NewUserOf(SignUpSchema(body, isEmail).value), now);
      e.rows == rows && SignupReply(e.result, sign) == Respond(409, EmailTaken, None)
  {
  }

  /** An invalid body's details are the schema's issues joined by ", ", never reached through the fallback branch. */
  lemma InvalidSignupDetails(body: SignUpBody, isEmail: string -> bool, describe: Problem -> string,
                             stringify: Format.Errors -> string)
    requires SignUpSchema(body, isEmail).Err?
    ensures var problems := SignUpSchema(body, isEmail).error;
      Format.FormatValidationErrors(ZodError(problems, describe), stringify)
      == Format.Join(seq(|problems|, k requires 0 <= k < |problems| => describe(problems[k])), ", ")
  {
    ZodErrorFormat(SignUpSchema(body, isEmail).error, describe, stringify);
  }
}
