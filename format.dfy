/** The one-line rendering of a validation error (src/utils/format.js). */
module Format {
  import opened Wrappers

  /** One entry of an `issues` array; `message` is None when the entry has no message. */
  datatype Issue = Issue(message: Option<string>)

  /** The `issues` property of the error value, as JavaScript tests it. */
  datatype Issues =
    | Falsy                       // absent, null, or any other falsy value
    | Listed(items: seq<Issue>)   // an array: truthy even when empty
    | NotAList                    // a truthy value that is not an array

  /** The `errors` argument: a falsy value, or a value with an `issues` property. */
  datatype Errors = Nothing | Value(issues: Issues)

  const Fallback := "Validation Failed!"
  const Separator := ", "

  /** `Array.prototype.join` renders a missing element as the empty string. */
  function MessageText(i: Issue): string {
    if i.message.Some? then i.message.value else ""
  }

  /** `parts.join(sep)`. */
  function Join(parts: seq<string>, sep: string): string {
    if |parts| == 0 then ""
    else if |parts| == 1 then parts[0]
    else parts[0] + sep + Join(parts[1..], sep)
  }

  /** `issues.map(issue => issue.message)`, with missing messages already rendered. */
  function Messages(issues: seq<Issue>): (r: seq<string>)
    ensures |r| == |issues|
    ensures forall k :: 0 <= k < |issues| ==> r[k] == MessageText(issues[k])
  {
    if issues == [] then [] else [MessageText(issues[0])] + Messages(issues[1..])
  }

  /**
   * formatValidationErrors: the fallback text unless there are issues; the joined
   * messages for an array of issues; otherwise the serialisation of the whole
   * value, which `stringify` stands for.
   */
  function FormatValidationErrors(errors: Errors, stringify: Errors -> string): (r: string)
    ensures errors.Nothing? || errors.issues.Falsy? ==> r == "Validation Failed!"
    ensures errors.Value? && errors.issues.Listed? ==>
      var items := errors.issues.items;
      r == Join(seq(|items|, k requires 0 <= k < |items| => MessageText(items[k])), ", ")
    ensures errors.Value? && errors.issues.NotAList? ==> r == stringify(errors)
  {
    if errors.Nothing? || errors.issues.Falsy? then Fallback
    else if errors.issues.Listed? then
      var items := errors.issues.items;
      assert Messages(items) == seq(|items|, k requires 0 <= k < |items| => MessageText(items[k]));
      Join(Messages(items), Separator)
    else stringify(errors)
  }

  /** Joining one more part appends the separator and that part. */
  lemma {:induction false} JoinSnoc(parts: seq<string>, last: string, sep: string)
    requires parts != []
    ensures Join(parts + [last], sep) == Join(parts, sep) + sep + last
  {
    if |parts| == 1 {
      assert parts + [last] == [parts[0], last];
    } else {
      assert (parts + [last])[1..] == parts[1..] + [last];
      JoinSnoc(parts[1..], last, sep);
    }
  }

  /** The messages are mapped in order: one more issue adds exactly its message at the end. */
  lemma {:induction false} MessagesSnoc(issues: seq<Issue>, last: Issue)
    ensures Messages(issues + [last]) == Messages(issues) + [MessageText(last)]
  {
    var a, b := Messages(issues + [last]), Messages(issues) + [MessageText(last)];
    assert |a| == |b|;
    forall k | 0 <= k < |a| ensures a[k] == b[k] {
      assert (issues + [last])[k] == if k < |issues| then issues[k] else last;
    }
  }

  /** A falsy error value, or one without issues, always gives the fixed fallback text. */
  lemma FormatFallback(errors: Errors, stringify: Errors -> string)
    requires errors.Nothing? || errors.issues.Falsy?
    ensures FormatValidationErrors(errors, stringify) == "Validation Failed!"
  {
  }

  /** An empty issues array gives the empty string, not the fallback text. */
  lemma FormatEmptyList(stringify: Errors -> string)
    ensures FormatValidationErrors(Value(Listed([])), stringify) == ""
  {
  }

  /**
   * An array of issues gives the messages in their order, separated by ", ":
   * one more issue appends ", " and its message to the text of the others.
   */
  lemma FormatListedInOrder(issues: seq<Issue>, last: Issue, stringify: Errors -> string)
    ensures FormatValidationErrors(Value(Listed([last])), stringify) == MessageText(last)
    ensures issues != [] ==>
      FormatValidationErrors(Value(Listed(issues + [last])), stringify)
      == FormatValidationErrors(Value(Listed(issues)), stringify) + ", " + MessageText(last)
  {
    if issues != [] {
      MessagesSnoc(issues, last);
      JoinSnoc(Messages(issues), MessageText(last), Separator);
    }
  }

  /**
   * A truthy non-array `issues` property gives the serialisation of the whole value,
   * and only such a value reaches the serialiser.
   */
  lemma FormatSerialisesOnlyNonArrays(errors: Errors, s1: Errors -> string, s2: Errors -> string)
    ensures errors.Value? && errors.issues.NotAList? ==> FormatValidationErrors(errors, s1) == s1(errors)
    ensures FormatValidationErrors(errors, s1) != FormatValidationErrors(errors, s2) ==>
      errors.Value? && errors.issues.NotAList?
  {
  }
}
