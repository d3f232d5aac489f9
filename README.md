# User-account service core, modelled in Dafny

This project models the decision logic of a small user-account REST service:
- sign-up over a users table, with an email-uniqueness check and a hashed password;
- credential checking;
- reading, updating and deleting user records;
- the guard chains that the user controllers run before they touch the table;
- the admission middleware, which consults an external bot, shield and rate-limit oracle;
- the request schemas and the formatting of validation errors.

The database is a class `Database.Table`. It holds a map from serial id to row and the next serial value. Its invariant `Consistent` says every row sits under its own id, below the next serial value, and no email appears twice. The three write statements (`Insert`, `Update`, `Delete`) are methods on that class. Each service operation that writes has a specification function (`CreateUserEffect`, `UpdateUserEffect`, `DeleteUserEffect`). It gives the service's result and the table's new value. The service method is proved equal to it, and the lemmas about the service are stated over it.

Reads are functions over the table's map. Every read returns a `PublicUser`, a record type that has no password column. So no operation can hand out a password, and `ReadsIgnorePasswords` proves that reads do not depend on it.

Controllers are split in two. A pure guard function ends in either an early response or the service call to make. A method then makes the call and maps its result to a status. The security middleware is pure: role, rule, oracle verdict, outcome.

The collaborators this code only calls are parameters:
- bcrypt's hash is `hash: string -> string`, and a password matches when `hash(password)` equals the stored value;
- the clock is `now`;
- the JWT signer is `sign`;
- `JSON.stringify` is `stringify`;
- zod's email pattern is `isEmail`;
- zod's wording of an issue is `describe`, a function of the field's path, the check it failed and, where zod's default messages quote them, the received type or role value;
- the Arcjet client's `protect` is a function from the rule to a verdict.

Behaviour of the code a reader may not expect, which the model follows as written:
- The middleware derives the role from `req.user?.user`, not `req.user.role`. A request whose user carries only the token claims is throttled as a guest (`ClaimsAloneAreGuest`).
- The middleware computes a per-role denial message but never sends it. A rate-limit denial always says 'Too many Request!' (`OutcomeDependsOnlyOnVerdict`).
- Email uniqueness compares the trimmed email exactly, so emails differing only in letter case belong to different accounts.
- The name's length limits are checked before trimming. A name of two spaces is accepted and stored as the empty string (`BlankNameAccepted`).
- `updateUser` hashes the new password only when it is truthy. An empty-string password, if the update schema let one through, would be stored as given (`UpdatedRowFields`).
- The schema's length checks count UTF-16 code units, as JavaScript's `length` does (`Utf16Length`).

The `users` table definition (`#models/user.model.js`) is not part of this model. The model assumes a serial id starting at 1, a unique `email` column, and `created_at`/`updated_at` columns that default to the insert time. The unique constraint is modelled in `Insert` and `Update` as the failure `UniqueViolation`. `createUser` checks for the email first, so the insert never reaches that failure.

## Model

| member | source | states |
|---|---|---|
| `Format.FormatValidationErrors` | src/utils/format.js:1-7 | a falsy value or falsy `issues` gives 'Validation Failed!'; an array gives each issue's message, in order, joined by ', '; any other truthy `issues` gives the serialisation of the whole value |
| `Format.FormatFallback` | src/utils/format.js:2 | a falsy error value, or one without issues, gives 'Validation Failed!' |
| `Format.FormatEmptyList` | src/utils/format.js:4 | an empty issues array gives the empty string |
| `Format.FormatListedInOrder` | src/utils/format.js:4 | one issue gives its message; each further issue appends ', ' and its message, so messages appear in order |
| `Format.FormatSerialisesOnlyNonArrays` | src/utils/format.js:6 | a truthy non-array `issues` gives the serialisation of the whole value, and the serialiser decides the result for no other value |
| `Format.JoinSnoc` | src/utils/format.js:4 | joining one more part appends the separator and that part |
| `Format.MessagesSnoc` | src/utils/format.js:4 | mapping issues to messages keeps their order |
| `AuthValidation.Utf16Length` | src/validations/auth.validation.js:4-6 | string length counts UTF-16 code units, between one and two per character |
| `AuthValidation.StartOf` | src/validations/auth.validation.js:4-5 | the first position from a given one that holds no whitespace; everything skipped is whitespace |
| `AuthValidation.EndOf` | src/validations/auth.validation.js:4-5 | the end of a range once trailing whitespace is dropped; everything dropped is whitespace |
| `AuthValidation.Trim` | src/validations/auth.validation.js:4-5 | the result is an infix of the input that neither starts nor ends with whitespace, and everything cut away is whitespace |
| `AuthValidation.TrimIdempotent` | src/validations/auth.validation.js:4-5 | trimming twice is trimming once |
| `AuthValidation.NameProblems` | src/validations/auth.validation.js:4 | a name passes exactly when it is a string of length 2 to 255 |
| `AuthValidation.EmailProblems` | src/validations/auth.validation.js:5 | an email passes exactly when it is a string matching the email pattern with length at most 255 |
| `AuthValidation.PasswordProblems` | src/validations/auth.validation.js:6 | a password passes exactly when it is a string of length 8 to 20 |
| `AuthValidation.RoleProblems` | src/validations/auth.validation.js:7 | a role passes exactly when it is absent, 'user' or 'admin'; a rejected role is reported with the value received |
| `AuthValidation.SignUpSchema` | src/validations/auth.validation.js:3-8 | accepts exactly the bodies meeting all four field constraints; then returns the trimmed name and email, the password, and the role defaulting to 'user'; a failure lists at least one problem |
| `AuthValidation.SignInSchema` | src/validations/auth.validation.js:10-13 | accepts exactly the email and password constraints; returns the trimmed email and the password |
| `AuthValidation.SignInMatchesSignUp` | src/validations/auth.validation.js:10-13 | whatever email and password sign-up accepts, sign-in accepts too, with the same trimmed email |
| `AuthValidation.BlankNameAccepted` | src/validations/auth.validation.js:4 | length is checked before trim: the name '  ' passes and becomes '' |
| `AuthValidation.ZodError` | src/controllers/auth.controller.js:14 | a schema failure is an array of issues, one per problem, in order, each worded from its path, its check and the received type or value |
| `AuthValidation.RejectedRoleIsRecorded` | src/validations/auth.validation.js:7 | two bodies that differ only in an invalid role give different problem lists, so the received value can reach the message |
| `AuthValidation.ZodErrorFormat` | src/utils/format.js:4 | a schema failure is rendered as its issues' messages joined by ', ' |
| `Database.Project` | src/services/users.service.js:10-17 | every selected column except `password`, copied from the row |
| `Database.SelectByEmail` | src/services/auth.service.js:48-52 | returns a row exactly when some row has the email, and then a row of the table with that email |
| `Database.AddKeepsConsistent` | src/services/auth.service.js:33-36 | a row under the next serial id with an unused email adds one entry and keeps the table invariant |
| `Database.PatchKeepsUnique` | src/services/users.service.js:57-60 | an update whose email no other row holds keeps emails unique |
| `Database.PatchKeepsConsistent` | src/services/users.service.js:57-60 | such an update keeps the table invariant |
| `Database.Table.constructor` | src/services/auth.service.js:33-36 | an empty, consistent table whose serial starts at 1 |
| `Database.Table.Insert` | src/services/auth.service.js:33-36 | a taken email is refused with the table unchanged; otherwise exactly one row is added under the next id, with both timestamps set to now |
| `Database.Table.Update` | src/services/users.service.js:57-68 | a missing id gives no row and no change; an email clash is refused with no change; otherwise only that row is patched |
| `Database.Table.Delete` | src/services/users.service.js:83-93 | a missing id gives no row and no change; otherwise exactly that row is removed and returned |
| `AuthService.HashThenCompare` | src/services/auth.service.js:7-23 | a password matches its own hash and no other stored value |
| `AuthService.CreateUserEffect` | src/services/auth.service.js:25-39 | fails with the duplicate-email error, table unchanged, exactly when the email is in use; otherwise adds exactly one row under the next id, stores the password's hash and the role defaulting to 'user', keeps every other row, and returns id, name, email, role and createdAt |
| `AuthService.CreateUser` | src/services/auth.service.js:25-44 | its result and the new table are those of `CreateUserEffect`, and the serial value advances only on success |
| `AuthService.AuthenticateUser` | src/services/auth.service.js:46-69 | succeeds exactly when a row has the email and the password hashes to its stored value, returning that row without its password; every failure is 'Invalid email or password' |
| `AuthService.UnknownEmailLikeWrongPassword` | src/services/auth.service.js:54-64 | an unknown email and a wrong password give the identical failure |
| `AuthService.SignUpThenSignIn` | src/services/auth.service.js:25-69 | right after sign-up, the same email and password authenticate and return the new record |
| `AuthService.SecondSignUpFails` | src/services/auth.service.js:27-29 | a second sign-up with the same email fails and adds no row |
| `UsersService.GetAllUsers` | src/services/users.service.js:7-18 | one password-free entry per row, keyed by id, as many entries as rows |
| `UsersService.GetUserById` | src/services/users.service.js:25-40 | null exactly when no row has the id; otherwise that row without its password |
| `UsersService.AllAgreesWithById` | src/services/users.service.js:7-40 | a record is listed exactly when it can be fetched by its id, with the same value |
| `UsersService.ReadsIgnorePasswords` | src/services/users.service.js:9-38 | tables that differ only in passwords give identical reads |
| `UsersService.UpdatesToApply` | src/services/users.service.js:49-55 | the update copies the given fields, replaces a truthy password by its hash and sets updated_at to now |
| `UsersService.UpdateUserEffect` | src/services/users.service.js:47-74 | 'User not found' exactly when the id is missing; any failure leaves the table unchanged; on success only that row changes, keeping its id and created_at, with updated_at now, and its projection is returned |
| `UsersService.UpdateUser` | src/services/users.service.js:47-79 | its result and the new table are those of `UpdateUserEffect`, built step by step from a copy of the updates |
| `UsersService.UpdatedRowFields` | src/services/users.service.js:49-60 | each given field replaces the old one, a truthy password is stored hashed, an empty one as given |
| `UsersService.PasswordChangeThenSignIn` | src/services/users.service.js:51-53 | after a password change, the user authenticates with the new password |
| `UsersService.DeleteUserEffect` | src/services/users.service.js:81-99 | 'User not found' with the table unchanged exactly when the id is missing; otherwise removes exactly that row and returns it without its password |
| `UsersService.DeleteUser` | src/services/users.service.js:81-104 | its result and the new table are those of `DeleteUserEffect` |
| `UsersService.DeleteThenGet` | src/services/users.service.js:83-99 | after a delete, the id reads as null and every other record reads as before |
| `SecurityMiddleware.DerivedRole` | src/middleware/security.middleware.js:7 | never empty: the requester's non-empty `user` property, or 'guest' |
| `SecurityMiddleware.PolicyFor` | src/middleware/security.middleware.js:12-27 | a ceiling and a message exist exactly for admin, user and guest |
| `SecurityMiddleware.RuleFor` | src/middleware/security.middleware.js:12-29 | a live one-minute sliding window named `<role>-rate-limit`, with ceiling 20 for admin, 10 for user, 5 for guest and none for any other role |
| `SecurityMiddleware.Ceilings` | src/middleware/security.middleware.js:12-29 | admin 20, user 10, guest 5 per minute |
| `SecurityMiddleware.RoleFromUserProperty` | src/middleware/security.middleware.js:7 | the role is `req.user.user` when it is a non-empty string, otherwise 'guest' |
| `SecurityMiddleware.ClaimsAloneAreGuest` | src/middleware/security.middleware.js:7 | a user with only the token claims is a guest with ceiling 5, whatever its claimed role |
| `SecurityMiddleware.OtherRoleHasNoCeiling` | src/middleware/security.middleware.js:12-27 | any other role leaves the rule without a ceiling |
| `SecurityMiddleware.Classify` | src/middleware/security.middleware.js:33-44 | passes on exactly when not denied or denied for none of the three reasons; otherwise a 403 whose message follows the priority bot, shield, rate limit |
| `SecurityMiddleware.BotWins` | src/middleware/security.middleware.js:33-35 | a bot denial gives 'Automated requests' whatever shield and rate limit report |
| `SecurityMiddleware.ShieldBeatsRateLimit` | src/middleware/security.middleware.js:36-41 | a shield denial wins over a rate-limit denial; the three messages are distinct |
| `SecurityMiddleware.Middleware` | src/middleware/security.middleware.js:5-48 | an oracle exception gives the 500 and nothing else does; a decision is classified; `next()` is called exactly when the oracle decided and the decision is not a bot, shield or rate-limit denial |
| `SecurityMiddleware.OutcomeDependsOnlyOnVerdict` | src/middleware/security.middleware.js:31-44 | the outcome depends on nothing but the oracle's verdict, so the role's own message is never sent |
| `UsersController.ServiceFailure` | src/controllers/users.controller.js:132-140 | 'User not found' is a 404; every other error goes to `next` unchanged |
| `UsersController.ServiceReply` | src/controllers/users.controller.js:126-131 | a service result is a 200 carrying the record; a failure is mapped as in the catch block |
| `UsersController.FetchAllUsers` | src/controllers/users.controller.js:14-27 | a 200 whose list is `getAllUsers`' result, each row without its password under its id, with the count of rows |
| `UsersController.ListAgreesWithFetch` | src/controllers/users.controller.js:14-57 | a record is listed exactly when fetching its id answers 200, and then with the same record |
| `UsersController.FetchUserGuard` | src/controllers/users.controller.js:31-44 | invalid params are a 400 with the formatted details; otherwise the lookup of the parsed id |
| `UsersController.FetchUserById` | src/controllers/users.controller.js:29-57 | 400 for invalid params, 404 when no row has the id, otherwise 200 with that row without its password |
| `UsersController.UpdateUserGuard` | src/controllers/users.controller.js:66-124 | params 400, then body 400, then 401, then ownership 403, then role-change 403; the update is called exactly when all pass |
| `UsersController.UpdateUserById` | src/controllers/users.controller.js:64-141 | the serial value never changes; an early response leaves the table unchanged; otherwise the table and reply follow `UpdateUserEffect` and `ServiceReply` |
| `UsersController.DeleteUserGuard` | src/controllers/users.controller.js:145-179 | params 400, then 401, then ownership 403, with no role check; the delete is called exactly when all pass |
| `UsersController.DeleteUserById` | src/controllers/users.controller.js:143-196 | the serial value never changes; an early response leaves the table unchanged; otherwise the table and reply follow `DeleteUserEffect` and `ServiceReply` |
| `UsersController.InvalidIdSkipsLookup` | src/controllers/users.controller.js:31-42 | with invalid params the reply is a 400 and is the same whatever the table holds |
| `UsersController.AdminPassesUpdateGuards` | src/controllers/users.controller.js:106-126 | an admin reaches the update for any target and any role value, and reaches the delete for any target |
| `UsersController.RoleCheckOnlyOnUpdate` | src/controllers/users.controller.js:116-124 | a non-admin changing the role of their own account gets a 403, while deleting that account passes |
| `UsersController.MissingTargetIs404` | src/controllers/users.controller.js:135-137 | update and delete of a missing id both reply 404 and leave the table unchanged |
| `UsersController.OwnUpdateTouchesOnlyOwnRow` | src/controllers/users.controller.js:106-126 | a non-admin's update that passes the guards targets the requester's own id and leaves every other row as it was |
| `AuthController.SignupReply` | src/controllers/auth.controller.js:19-34 | a created user is a 201 with id, name, email and role and a `token` cookie signed over id, email and role; the duplicate-email error is a 409 without a cookie; any other error goes to `next` |
| `AuthController.Signup` | src/controllers/auth.controller.js:8-36 | an invalid body is a 400 with the formatted issues and leaves the table unchanged; otherwise the table and reply follow `CreateUserEffect` and `SignupReply`, and the serial value advances exactly when a user is created |
| `AuthController.FreshSignup` | src/controllers/auth.controller.js:17-26 | a valid body with a fresh email adds one row with the hashed password and replies 201 with the new id and the trimmed email in the token claims |
| `AuthController.DuplicateSignup` | src/controllers/auth.controller.js:30-32 | a valid body whose trimmed email is taken replies 409 and adds nothing |
| `AuthController.InvalidSignupDetails` | src/controllers/auth.controller.js:12-15 | the details of an invalid body are its issues' messages joined by ', ', never reached through the fallback branch |

## Left out

- bcrypt failures ('Error Hashing!', 'Error Comparing Password!') are not modelled, because the hash is a total function. Salting and the cost factor 10 are left out too, and nothing is claimed about collisions.
- JWT signing and the cookie's options are opaque (`sign`); only the cookie name `token` and the claims are modelled.
- The Arcjet client is an oracle. Its sliding-window counting and its bot and shield detection are not modelled. A failure of `slidingWindow` on a rule without a ceiling would be caught by the same `catch` as an oracle failure, so it is part of the oracle's `Threw`.
- Logging, async/await, and concurrency, including the check-then-insert race in createUser, are not modelled.
- Database failures other than the unique-email constraint are not modelled. Examples are lost connections, or `getAllUsers` throwing in `fetchAllUsers`. So the `next(error)` paths are reached only by that constraint.
- The order of the rows `getAllUsers` returns is not modelled: the query has no ORDER BY, and the model returns a map keyed by id.
- The id and update schemas (`userIdSchema`, `updateUserSchema`) are not part of this model; their parse outcome is an input. zod's messages, its email pattern and `JSON.stringify` are parameters.
- An `issues` array entry that is itself null, so that reading its message throws, is not modelled.
- The `signin` and `signout` handlers do not exist in `auth.controller.js` (the router imports them anyway). `app.js`, `database.js` and the routers are wiring; they are not part of this model.
- The response of the application's error handler, reached through `next(error)`, is not part of this model.
- UpdateUser: no contract states that the caller's `updates` object is left unchanged. Dafny datatypes are values, so the copy at line 49 cannot alias it.
- Table.Insert: a refused insert does not consume a serial value here, whereas PostgreSQL would. createUser never reaches a refused insert.
- A `req.user.user` property that is not a string is not modelled.
- ZodError: each issue's text is `describe` applied to the problem (path, check, received type or role value). zod's other issue fields (code, expected type, path array) are not modelled, and neither is the literal wording of its messages.
- The parsed `userIdSchema` id is assumed to be a number of the same type as `req.user.id` (`Parse<nat>`). The ownership tests at users.controller.js lines 106 and 171 compare them with `!==`, so a string id would refuse every non-admin; that case is not modelled.
- The parsed `updateUserSchema` body is assumed to hold only `name`, `email`, `password` and `role` (`Updates`). Any other key it let through would reach `.set(...)` at users.service.js line 59 and is not modelled.
- The `serial` id is unbounded here; PostgreSQL's 32-bit serial overflowing is not modelled.
- A `req.body` that is not an object is not modelled. Every body is a record of the four optional fields.
- A throw from `jwttoken.sign` or `cookies.set` after the insert is not modelled. In the source it reaches `next(error)` with the new row kept; here `sign` is total.
