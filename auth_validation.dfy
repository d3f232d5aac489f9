/**
 * The sign-up and sign-in request schemas (src/validations/auth.validation.js),
 * as predicates on the request body with the values they produce.
 */
module AuthValidation {
  import opened Wrappers
  import Format

  /**
   * A property of the request body, as a string schema sees it: missing, a string,
   * or a value of another type, named as zod names a received type ("number", "null",
   * "array", "object", ...).
   */
  datatype Field = Absent | Text(s: string) | NotText(kind: string)

  datatype SignUpBody = SignUpBody(name: Field, email: Field, password: Field, role: Field)
  datatype SignInBody = SignInBody(email: Field, password: Field)

  /** What a successful parse hands to the controller. */
  datatype SignUpData = SignUpData(name: string, email: string, password: string, role: string)
  datatype SignInData = SignInData(email: string, password: string)

  /**
   * The check a field failed, with what zod's wording of it depends on: the received
   * type of a non-string, the bound of a length check, the received role value.
   */
  datatype Check =
    | Required
    | NotAString(received: string)
    | TooShort(minimum: nat)
    | TooLong(maximum: nat)
    | NotAnEmail
    | NotARole(value: Field)
  datatype Problem = Problem(path: string, check: Check)

  const NameMin := 2
  const NameMax := 255
  const EmailMax := 255
  const PasswordMin := 8
  const PasswordMax := 20
  const DefaultRole := "user"

  /** JavaScript's `length`: UTF-16 code units, two for a character outside the basic plane. */
  function Utf16Length(s: string): (n: nat)
    ensures |s| <= n <= 2 * |s|
  {
    if s == [] then 0 else (if s[0] as int > 0xFFFF then 2 else 1) + Utf16Length(s[1..])
  }

  /**
   * The characters `String.prototype.trim` removes (WhiteSpace and LineTerminator):
   * tab to carriage return, space, no-break space, ogham space mark, the spaces
   * U+2000 to U+200A, line and paragraph separators, narrow no-break space, medium
   * mathematical space, ideographic space and the byte order mark.
   */
  predicate IsWhitespace(c: char) {
    || '\t' <= c <= '\r'
    || c == ' ' || c == '\U{00A0}' || c == '\U{1680}'
    || '\U{2000}' <= c <= '\U{200A}'
    || c == '\U{2028}' || c == '\U{2029}' || c == '\U{202F}' || c == '\U{205F}'
    || c == '\U{3000}' || c == '\U{FEFF}'
  }

  /** The first position at or after `lo` that does not hold whitespace (or `|s|`). */
  function StartOf(s: string, lo: nat): (i: nat)
    requires lo <= |s|
    ensures lo <= i <= |s|
    ensures forall k :: lo <= k < i ==> IsWhitespace(s[k])
    ensures i == |s| || !IsWhitespace(s[i])
    decreases |s| - lo
  {
    if lo == |s| || !IsWhitespace(s[lo]) then lo else StartOf(s, lo + 1)
  }

  /** The end of `s[lo..hi]` once its trailing whitespace is dropped. */
  function EndOf(s: string, lo: nat, hi: nat): (j: nat)
    requires lo <= hi <= |s|
    ensures lo <= j <= hi
    ensures forall k :: j <= k < hi ==> IsWhitespace(s[k])
    ensures j == lo || !IsWhitespace(s[j - 1])
  {
    if hi == lo || !IsWhitespace(s[hi - 1]) then hi else EndOf(s, lo, hi - 1)
  }

  /**
   * `String.prototype.trim`: the longest infix of `s` that neither starts nor ends
   * with whitespace; everything cut away on either side is whitespace.
   */
  function Trim(s: string): (r: string)
    ensures var i := StartOf(s, 0);
      && i + |r| <= |s| && r == s[i..i + |r|]
      && (forall k :: 0 <= k < i ==> IsWhitespace(s[k]))
      && (forall k :: i + |r| <= k < |s| ==> IsWhitespace(s[k]))
    ensures r == [] || (!IsWhitespace(r[0]) && !IsWhitespace(r[|r| - 1]))
  {
    var i := StartOf(s, 0);
    var j := EndOf(s, i, |s|);
    assert forall k :: j <= k < |s| ==> IsWhitespace(s[k]);
    s[i..j]
  }

  /** Trimming a trimmed string changes nothing. */
  lemma TrimIdempotent(s: string)
    ensures Trim(Trim(s)) == Trim(s)
  {
  }

  /** A string schema with length bounds, checked in order; a non-string stops at the type check. */
  function LengthProblems(path: string, f: Field, min: Option<nat>, max: nat): seq<Problem>
    requires f.Text?
  {
    var n := Utf16Length(f.s);
    (if min.Some? && n < min.value then [Problem(path, TooShort(min.value))] else [])
    + (if n > max then [Problem(path, TooLong(max))] else [])
  }

  function TypeProblems(path: string, f: Field): seq<Problem> {
    if f.Absent? then [Problem(path, Required)]
    else if f.NotText? then [Problem(path, NotAString(f.kind))]
    else []
  }

  /** `z.string().min(2).max(255).trim()`: lengths are measured before trimming. */
  function NameProblems(f: Field): (r: seq<Problem>)
    ensures r == [] <==> f.Text? && NameMin <= Utf16Length(f.s) <= NameMax
  {
    if !f.Text? then TypeProblems("name", f) else LengthProblems("name", f, Some(NameMin), NameMax)
  }

  /** `z.string().email().max(255).trim()`; `isEmail` stands for zod's email pattern. */
  function EmailProblems(f: Field, isEmail: string -> bool): (r: seq<Problem>)
    ensures r == [] <==> f.Text? && isEmail(f.s) && Utf16Length(f.s) <= EmailMax
  {
    if !f.Text? then TypeProblems("email", f)
    else (if isEmail(f.s) then [] else [Problem("email", NotAnEmail)]) + LengthProblems("email", f, None, EmailMax)
  }

  /** `z.string().min(8).max(20)`. */
  function PasswordProblems(f: Field): (r: seq<Problem>)
    ensures r == [] <==> f.Text? && PasswordMin <= Utf16Length(f.s) <= PasswordMax
  {
    if !f.Text? then TypeProblems("password", f) else LengthProblems("password", f, Some(PasswordMin), PasswordMax)
  }

  /** `z.enum(['user', 'admin']).default('user')`: only an absent role takes the default. */
  function RoleProblems(f: Field): (r: seq<Problem>)
    ensures r == [] <==> f.Absent? || (f.Text? && (f.s == "user" || f.s == "admin"))
    ensures forall k :: 0 <= k < |r| ==> r[k].path == "role" && r[k].check == NotARole(f)
  {
    if f.Absent? || (f.Text? && (f.s == "user" || f.s == "admin")) then [] else [Problem("role", NotARole(f))]
  }

  /** The accepted sign-up bodies, stated field by field. */
  predicate SignUpAccepts(body: SignUpBody, isEmail: string -> bool) {
    && body.name.Text? && NameMin <= Utf16Length(body.name.s) <= NameMax
    && body.email.Text? && isEmail(body.email.s) && Utf16Length(body.email.s) <= EmailMax
    && body.password.Text? && PasswordMin <= Utf16Length(body.password.s) <= PasswordMax
    && (body.role.Absent? || (body.role.Text? && (body.role.s == "user" || body.role.s == "admin")))
  }

  /** The accepted sign-in bodies: email and password under the sign-up constraints. */
  predicate SignInAccepts(body: SignInBody, isEmail: string -> bool) {
    && body.email.Text? && isEmail(body.email.s) && Utf16Length(body.email.s) <= EmailMax
    && body.password.Text? && PasswordMin <= Utf16Length(body.password.s) <= PasswordMax
  }

  /**
   * signUpSchema.safeParse: every problem of every field, in declaration order;
   * or the trimmed name and email, the password as given and the role with its default.
   */
  function SignUpSchema(body: SignUpBody, isEmail: string -> bool): (r: Result<SignUpData, seq<Problem>>)
    ensures r.Ok? <==> SignUpAccepts(body, isEmail)
    ensures r.Err? ==> r.error != []
    ensures r.Ok? ==> r.value == SignUpData(Trim(body.name.s), Trim(body.email.s), body.password.s,
                                            if body.role.Text? then body.role.s else "user")
    ensures r.Ok? ==> r.value.role == "user" || r.value.role == "admin"
  {
    var problems := NameProblems(body.name) + EmailProblems(body.email, isEmail)
                    + PasswordProblems(body.password) + RoleProblems(body.role);
    if problems != [] then Err(problems)
    else Ok(SignUpData(Trim(body.name.s), Trim(body.email.s), body.password.s,
                       if body.role.Text? then body.role.s else DefaultRole))
  }

  /** signInSchema.safeParse: only email and password, under the same constraints as sign-up. */
  function SignInSchema(body: SignInBody, isEmail: string -> bool): (r: Result<SignInData, seq<Problem>>)
    ensures r.Ok? <==> SignInAccepts(body, isEmail)
    ensures r.Err? ==> r.error != []
    ensures r.Ok? ==> r.value == SignInData(Trim(body.email.s), body.password.s)
  {
    var problems := EmailProblems(body.email, isEmail) + PasswordProblems(body.password);
    if problems != [] then Err(problems) else Ok(SignInData(Trim(body.email.s), body.password.s))
  }

  /** Sign-in accepts exactly the email and password that sign-up would accept beside a valid name and role. */
  lemma SignInMatchesSignUp(email: Field, password: Field, name: Field, role: Field, isEmail: string -> bool)
    requires SignUpSchema(SignUpBody(name, email, password, role), isEmail).Ok?
    ensures SignInSchema(SignInBody(email, password), isEmail).Ok?
    ensures SignInSchema(SignInBody(email, password), isEmail).value.email
            == SignUpSchema(SignUpBody(name, email, password, role), isEmail).value.email
  {
  }

  /**
   * The role's received value reaches the issue: two bodies that differ only in an
   * invalid role give different problem lists, so `describe` can quote the value.
   */
  lemma RejectedRoleIsRecorded(name: Field, email: Field, password: Field, role1: Field, role2: Field,
                               isEmail: string -> bool)
    requires role1 != role2 && RoleProblems(role1) != [] && RoleProblems(role2) != []
    ensures SignUpSchema(SignUpBody(name, email, password, role1), isEmail).Err?
    ensures SignUpSchema(SignUpBody(name, email, password, role2), isEmail).Err?
    ensures SignUpSchema(SignUpBody(name, email, password, role1), isEmail).error
            != SignUpSchema(SignUpBody(name, email, password, role2), isEmail).error
  {
    var front := NameProblems(name) + EmailProblems(email, isEmail) + PasswordProblems(password);
    var e1 := SignUpSchema(SignUpBody(name, email, password, role1), isEmail).error;
    var e2 := SignUpSchema(SignUpBody(name, email, password, role2), isEmail).error;
    assert e1 == front + RoleProblems(role1) && e2 == front + RoleProblems(role2);
    assert e1[|front|].check == NotARole(role1);
    assert e2[|front|].check == NotARole(role2);
  }

  /** The error value safeParse reports: an array of issues, one per problem, worded by `describe`. */
  function ZodError(problems: seq<Problem>, describe: Problem -> string): (e: Format.Errors)
    ensures e.Value? && e.issues.Listed? && |e.issues.items| == |problems|
    ensures forall k :: 0 <= k < |problems| ==> e.issues.items[k].message == Some(describe(problems[k]))
  {
    Format.Value(Format.Listed(seq(|problems|, k requires 0 <= k < |problems| => Format.Issue(Some(describe(problems[k]))))))
  }

  /** A schema failure is always rendered through the join branch, never through the fallback or the serialisation. */
  lemma ZodErrorFormat(problems: seq<Problem>, describe: Problem -> string, stringify: Format.Errors -> string)
    ensures Format.FormatValidationErrors(ZodError(problems, describe), stringify)
            == Format.Join(seq(|problems|, k requires 0 <= k < |problems| => describe(problems[k])), ", ")
  {
    var e := ZodError(problems, describe);
    assert Format.Messages(e.issues.items) == seq(|problems|, k requires 0 <= k < |problems| => describe(problems[k]));
  }

  /** The name's length is checked before it is trimmed: a blank two-character name passes and is stored empty. */
  lemma BlankNameAccepted(isEmail: string -> bool)
    requires isEmail("a@b.co")
    ensures SignUpSchema(SignUpBody(Text("  "), Text("a@b.co"), Text("password1"), Absent), isEmail)
            == Ok(SignUpData("", "a@b.co", "password1", "user"))
  {
    var body := SignUpBody(Text("  "), Text("a@b.co"), Text("password1"), Absent);
    SampleLengths();
    BlankTrimsToEmpty();
    SampleEmailIsTrimmed();
    assert SignUpAccepts(body, isEmail);
  }

  lemma SampleLengths()
    ensures Utf16Length("  ") == 2 && Utf16Length("password1") == 9 && Utf16Length("a@b.co") == 6
  {
  }

  lemma BlankTrimsToEmpty()
    ensures Trim("  ") == ""
  {
    assert IsWhitespace(' ');
    assert StartOf("  ", 2) == 2;
    assert StartOf("  ", 0) == 2;
  }

  lemma SampleEmailIsTrimmed()
    ensures Trim("a@b.co") == "a@b.co"
  {
    assert !IsWhitespace('a') && !IsWhitespace('o');
    assert StartOf("a@b.co", 0) == 0;
    assert EndOf("a@b.co", 0, 6) == 6;
    assert "a@b.co"[0..6] == "a@b.co";
  }
}
