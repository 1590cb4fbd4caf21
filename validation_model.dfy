/** The validation pipeline's result records and their builders. Each
    builder is an object whose setters overwrite one field; `Build` copies
    the builder's fields into an immutable value. Java's `null` for an
    unset reference field is `None`. */
module ValidationModel {
  import opened Text
  import opened BuildModel

  /** `ValidationError.Type`. */
  datatype ErrorType = Lint | BreakingChange | Syntax | Dependency

  /** `ValidationError.Severity`. */
  datatype Severity = Error | Warning | Info

  /** A built `ValidationError`. */
  datatype ValidationError = ValidationError(
    file: Option<string>, line: int, column: int, message: Option<string>,
    errorType: ErrorType, severity: Severity)

  /** `ValidationError.Builder`. */
  class ErrorBuilder {
    var file: Option<string>
    var line: int
    var column: int
    var message: Option<string>
    var errorType: ErrorType
    var severity: Severity

    /** The defaults: no file or message, line and column 0, a LINT
        warning. */
    constructor()
      ensures file == None && line == 0 && column == 0 && message == None
      ensures errorType == Lint && severity == Warning
    {
      file := None;
      line := 0;
      column := 0;
      message := None;
      errorType := Lint;
      severity := Warning;
    }

    method SetFile(f: string)
      modifies this
      ensures file == Some(f)
      ensures line == old(line) && column == old(column) && message == old(message)
      ensures errorType == old(errorType) && severity == old(severity)
    {
      file := Some(f);
    }

    method SetLine(n: int)
      modifies this
      ensures line == n
      ensures file == old(file) && column == old(column) && message == old(message)
      ensures errorType == old(errorType) && severity == old(severity)
    {
      line := n;
    }

    method SetColumn(n: int)
      modifies this
      ensures column == n
      ensures file == old(file) && line == old(line) && message == old(message)
      ensures errorType == old(errorType) && severity == old(severity)
    {
      column := n;
    }

    method SetMessage(m: string)
      modifies this
      ensures message == Some(m)
      ensures file == old(file) && line == old(line) && column == old(column)
      ensures errorType == old(errorType) && severity == old(severity)
    {
      message := Some(m);
    }

    method SetType(t: ErrorType)
      modifies this
      ensures errorType == t
      ensures file == old(file) && line == old(line) && column == old(column)
      ensures message == old(message) && severity == old(severity)
    {
      errorType := t;
    }

    method SetSeverity(s: Severity)
      modifies this
      ensures severity == s
      ensures file == old(file) && line == old(line) && column == old(column)
      ensures message == old(message) && errorType == old(errorType)
    {
      severity := s;
    }

    /** `build`: all six fields, as set. */
    method Build() returns (e: ValidationError)
      ensures e.file == file && e.line == line && e.column == column
      ensures e.message == message && e.errorType == errorType && e.severity == severity
    {
      e := ValidationError(file, line, column, message, errorType, severity);
    }
  }

  /** A built `ValidationErrors`: an immutable list. */
  datatype ValidationErrors = ValidationErrors(errors: seq<ValidationError>)

  /** `hasErrors`. */
  predicate HasErrors(v: ValidationErrors) {
    v.errors != []
  }

  /** `getErrorCount`. */
  function ErrorCount(v: ValidationErrors): (n: nat)
    ensures n == 0 <==> !HasErrors(v)
  {
    |v.errors|
  }

  /** `ValidationErrors.Builder`: a list that only grows at its end. */
  class ErrorsBuilder {
    var errors: seq<ValidationError>

    constructor()
      ensures errors == []
    {
      errors := [];
    }

    method AddError(e: ValidationError)
      modifies this
      ensures errors == old(errors) + [e]
    {
      errors := errors + [e];
    }

    method AddAllErrors(es: seq<ValidationError>)
      modifies this
      ensures errors == old(errors) + es
    {
      errors := errors + es;
    }

    /** `build`: a copy of the list as it is now; the builder's later
        additions do not reach it. */
    method Build() returns (v: ValidationErrors)
      ensures v.errors == errors
    {
      v := ValidationErrors(errors);
    }
  }

  /** A list built from one batch of errors holds exactly that batch, and
      building again after more additions leaves the first value as it
      was. */
  method BuildTwice(first: seq<ValidationError>, more: seq<ValidationError>)
    returns (early: ValidationErrors, late: ValidationErrors)
    ensures early.errors == first
    ensures late.errors == first + more
    ensures ErrorCount(late) == |first| + |more|
  {
    var b := new ErrorsBuilder();
    b.AddAllErrors(first);
    early := b.Build();
    b.AddAllErrors(more);
    late := b.Build();
  }

  /** A built `ValidationResult`. */
  datatype ValidationResult = ValidationResult(
    success: bool, errors: ValidationErrors, metadata: Option<BuildOperationMetadata>)

  const NoErrors := ValidationErrors([])

  /** `ValidationResult.Builder`. */
  class ResultBuilder {
    var success: bool
    var errors: Option<ValidationErrors>
    var metadata: Option<BuildOperationMetadata>

    constructor()
      ensures !success && errors == None && metadata == None
    {
      success := false;
      errors := None;
      metadata := None;
    }

    method SetSuccess(s: bool)
      modifies this
      ensures success == s && errors == old(errors) && metadata == old(metadata)
    {
      success := s;
    }

    method SetErrors(e: ValidationErrors)
      modifies this
      ensures errors == Some(e) && success == old(success) && metadata == old(metadata)
    {
      errors := Some(e);
    }

    method SetMetadata(m: BuildOperationMetadata)
      modifies this
      ensures metadata == Some(m) && success == old(success) && errors == old(errors)
    {
      metadata := Some(m);
    }

    /** `build`: success and metadata pass through; unset errors become an
        empty list. */
    method Build() returns (r: ValidationResult)
      ensures r.success == success && r.metadata == metadata
      ensures r.errors == if errors.Some? then errors.value else NoErrors
    {
      var e := if errors.Some? then errors.value else ValidationErrors([]);
      r := ValidationResult(success, e, metadata);
    }
  }
}
