/**
 * Request admission (src/middleware/security.middleware.js): a per-role
 * sliding-window rule is handed to an external decision oracle, and its
 * verdict is turned into exactly one outcome, a response or a pass to the
 * next handler.
 */
module SecurityMiddleware {
  import opened Wrappers
  import opened Requests

  /** The ceiling and the message the role's switch branch assigns; both None for any other role. */
  datatype Policy = Policy(limit: Option<nat>, message: Option<string>)

  /** `slidingWindow({ mode, interval, max, name })`. */
  datatype Rule = SlidingWindow(mode: string, interval: string, max: Option<nat>, name: string)

  /** The predicates the oracle's denial reason answers; they are independent of one another. */
  datatype Reason = Reason(isBot: bool, isShield: bool, isRateLimit: bool)

  datatype Decision = Decision(denied: bool, reason: Reason)

  /** What `client.protect(req)` does: settles on a decision, or throws. */
  datatype Verdict = Decided(decision: Decision) | Threw

  /** A JSON response `{ error, message }` with its status, or a call of `next()`. */
  datatype Outcome = Respond(status: nat, error: string, message: string) | Next

  const BotMessage := "Automated requests are not Allowed!"
  const ShieldMessage := "Request blocked by security Policy!"
  const RateLimitMessage := "Too many Request!"
  const FaultMessage := "Something went wrong with security Middleware."

  /** `req.user?.user || 'guest'`: the `user` property when it is a non-empty string. */
  function DerivedRole(user: Option<RequestUser>): (role: string)
    ensures role != ""
    ensures role == "guest" || (user.Some? && user.value.user == Some(role))
    ensures user.Some? && user.value.user.Some? && user.value.user.value != "" ==> role == user.value.user.value
  {
    if user.Some? && user.value.user.Some? && user.value.user.value != "" then user.value.user.value
    else "guest"
  }

  /** The `switch (role)`. */
  function PolicyFor(role: string): (p: Policy)
    ensures p.limit.Some? <==> role == "admin" || role == "user" || role == "guest"
    ensures p.message.Some? <==> p.limit.Some?
  {
    match role
    case "admin" => Policy(Some(20), Some("Admin request limit exceeded (20 per minute). Slow Down!"))
    case "user" => Policy(Some(10), Some("User request limit exceeded (10 per minute). Slow Down!"))
    case "guest" => Policy(Some(5), Some("Guest request limit exceeded (5 per minute). Slow Down!"))
    case _ => Policy(None, None)
  }

  /** The rule for a role: a live one-minute window named after the role, with the role's ceiling. */
  function RuleFor(role: string): (r: Rule)
    ensures r.mode == "LIVE" && r.interval == "1m" && r.name == role + "-rate-limit"
    ensures role == "admin" ==> r.max == Some(20)
    ensures role == "user" ==> r.max == Some(10)
    ensures role == "guest" ==> r.max == Some(5)
    ensures role != "admin" && role != "user" && role != "guest" ==> r.max == None
  {
    SlidingWindow("LIVE", "1m", PolicyFor(role).limit, role + "-rate-limit")
  }

  /** The if / else-if chain over the decision. */
  function Classify(d: Decision): (out: Outcome)
    ensures out.Next? <==> !d.denied || (!d.reason.isBot && !d.reason.isShield && !d.reason.isRateLimit)
    ensures out.Respond? ==> out.status == 403 && out.error == "Forbidden"
    ensures d.denied && d.reason.isBot ==> out.message == "Automated requests are not Allowed!"
    ensures d.denied && !d.reason.isBot && d.reason.isShield ==> out.message == "Request blocked by security Policy!"
    ensures d.denied && !d.reason.isBot && !d.reason.isShield && d.reason.isRateLimit ==> out.message == "Too many Request!"
  {
    if d.denied && d.reason.isBot then Respond(403, "Forbidden", BotMessage)
    else if d.denied && d.reason.isShield then Respond(403, "Forbidden", ShieldMessage)
    else if d.denied && d.reason.isRateLimit then Respond(403, "Forbidden", RateLimitMessage)
    else Next
  }

  /**
   * securityMiddleware: derive the role, build its rule, consult the oracle
   * `protect`, and classify; an exception from the oracle is a 500 and `next()`
   * is not called.
   */
  function Middleware(user: Option<RequestUser>, protect: Rule -> Verdict): (out: Outcome)
    ensures protect(RuleFor(DerivedRole(user))).Threw? <==> out.Respond? && out.status == 500
    ensures protect(RuleFor(DerivedRole(user))).Threw? ==>
      out == Respond(500, "Internal server Error!", "Something went wrong with security Middleware.")
    ensures protect(RuleFor(DerivedRole(user))).Decided? ==> out == Classify(protect(RuleFor(DerivedRole(user))).decision)
    ensures out.Next? <==>
      var v := protect(RuleFor(DerivedRole(user)));
      v.Decided? && (!v.decision.denied || (!v.decision.reason.isBot && !v.decision.reason.isShield && !v.decision.reason.isRateLimit))
  {
    var rule := RuleFor(DerivedRole(user));
    match protect(rule)
    case Threw => Respond(500, "Internal server Error!", FaultMessage)
    case Decided(d) => Classify(d)
  }

  /** The ceilings are 20, 10 and 5 per minute, rising from guest through user to admin. */
  lemma Ceilings()
    ensures RuleFor("admin").max == Some(20) && RuleFor("user").max == Some(10) && RuleFor("guest").max == Some(5)
    ensures RuleFor("admin").name == "admin-rate-limit" && RuleFor("guest").name == "guest-rate-limit"
  {
    assert "admin" + "-rate-limit" == "admin-rate-limit";
    assert "guest" + "-rate-limit" == "guest-rate-limit";
  }

  /** The role is the request user's `user` property when it is a non-empty string, and 'guest' otherwise. */
  lemma RoleFromUserProperty(u: RequestUser)
    ensures DerivedRole(None) == "guest"
    ensures u.user.Some? && u.user.value != "" ==> DerivedRole(Some(u)) == u.user.value
    ensures u.user.None? || u.user.value == "" ==> DerivedRole(Some(u)) == "guest"
  {
  }

  /**
   * The role comes from `user`, not from the claim `role`: a principal whose token
   * carries only id, email and role is throttled as a guest, admins included.
   */
  lemma ClaimsAloneAreGuest(id: nat, email: string, role: string)
    ensures DerivedRole(Some(RequestUser(id, email, role, None))) == "guest"
    ensures RuleFor(DerivedRole(Some(RequestUser(id, email, role, None)))).max == Some(5)
  {
  }

  /** Any role other than admin, user and guest leaves the rule without a ceiling. */
  lemma OtherRoleHasNoCeiling(u: RequestUser)
    requires u.user.Some? && u.user.value !in {"", "admin", "user", "guest"}
    ensures RuleFor(DerivedRole(Some(u))).max == None
  {
  }

  /** A bot denial wins over whatever shield and rate limit also report. */
  lemma BotWins(shield: bool, rateLimit: bool)
    ensures Classify(Decision(true, Reason(true, shield, rateLimit))) == Respond(403, "Forbidden", BotMessage)
  {
  }

  /** A shield denial wins over a rate-limit denial; the three denials are told apart by their messages. */
  lemma ShieldBeatsRateLimit()
    ensures Classify(Decision(true, Reason(false, true, true))) == Respond(403, "Forbidden", ShieldMessage)
    ensures BotMessage != ShieldMessage && ShieldMessage != RateLimitMessage && BotMessage != RateLimitMessage
  {
  }

  /**
   * The reply does not depend on the role beyond the oracle's verdict: in particular
   * a rate-limit denial says 'Too many Request!', never the role's own message.
   */
  lemma OutcomeDependsOnlyOnVerdict(u1: Option<RequestUser>, u2: Option<RequestUser>, p1: Rule -> Verdict, p2: Rule -> Verdict)
    requires p1(RuleFor(DerivedRole(u1))) == p2(RuleFor(DerivedRole(u2)))
    ensures Middleware(u1, p1) == Middleware(u2, p2)
  {
  }
}
