/** What the controllers and the middleware read from an incoming request. */
module Requests {
  import opened Wrappers
  import Format

  /**
   * `req.user`: the claims of the session token (id, email, role). The security
   * middleware reads a `user` property as well, which a claim set does not
   * normally carry; it is modelled as its own optional field.
   */
  datatype RequestUser = RequestUser(id: nat, email: string, role: string, user: Option<string>)

  /** The outcome of a zod `safeParse`: the parsed data, or the error value. */
  datatype Parse<T> = Parsed(data: T) | Invalid(error: Format.Errors)
}
