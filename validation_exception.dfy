/** The exception the validators throw: a summary message followed by
    every error, and the errors themselves. */
module ValidationExceptions {
  import opened Text
  import opened JavaText

  datatype ValidationException = ValidationException(message: string, errors: seq<string>)

  const ErrorSeparator := ", "

  /** `ValidationException(message, errors)`: the message is the summary,
      `": "`, and the errors joined by `", "`. */
  function NewValidationException(summary: string, errors: seq<string>): (e: ValidationException)
    ensures e.errors == errors && |e.errors| == |errors|
    ensures StartsWith(e.message, summary + ": ")
  {
    var m := summary + ": " + Join(errors, ErrorSeparator);
    DropPrefix(summary + ": ", Join(errors, ErrorSeparator));
    ValidationException(m, errors)
  }

  /** `ValidationException(message, error)`: a single error. */
  function SingleError(summary: string, error: string): (e: ValidationException)
    ensures e.errors == [error] && e.message == summary + ": " + error
  {
    NewValidationException(summary, [error])
  }

  /** `getErrors`. */
  function GetErrors(e: ValidationException): seq<string> {
    e.errors
  }

  /** The message lists the errors: errors without commas are read back
      from it in order. */
  lemma MessageListsErrors(summary: string, errors: seq<string>)
    requires errors != []
    requires forall k :: 0 <= k < |errors| ==> !HasChar(errors[k], ',')
    ensures var e := NewValidationException(summary, errors);
      Split(e.message[|summary| + 2..], ErrorSeparator) == GetErrors(e)
  {
    var e := NewValidationException(summary, errors);
    DropPrefix(summary + ": ", Join(errors, ErrorSeparator));
    assert e.message[|summary| + 2..] == Join(errors, ErrorSeparator);
    SplitJoinFree(errors, ErrorSeparator);
  }
}
