/** The validation step of a build (`ValidationRunner`): buf's compiler,
    lint, breaking-change and format checks over the whole lake, their
    output turned into validation errors, and the validation phase of the
    build metadata updated. What buf and git report is given as a
    parameter: a command's output lines, or `None` where the command
    throws. The clock readings are parameters too. */
module ValidationRunner {
  import opened Text
  import opened JavaText
  import opened Decimal
  import opened BuildModel
  import opened ValidationModel

  /** `ValidationChecks`. */
  datatype Checks = Checks(compilation: bool, lint: bool, breaking: bool, format: bool)

  /** `RunValidationConfig`. */
  datatype Config = Config(enabled: bool, checks: Checks)

  /** `getDefaultValidationConfig`: everything but the format check. */
  const DefaultConfig := Config(true, Checks(true, true, true, false))

  /** What the lake's directory and the tools report: whether `buf.yaml`
      exists, the output of each buf command (`None` where it throws), and
      whether git finds a commit. */
  datatype Tools = Tools(
    bufYaml: bool, build: Option<seq<string>>, lint: Option<seq<string>>,
    breaking: Option<seq<string>>, format: Option<seq<string>>, gitHistory: bool)

  // ---------------------------------------------------------------------
  // The lint line pattern `^(.+?):(\d+):(\d+):(.+)$`.

  /** The characters Java's `.` does not match. */
  predicate IsLineTerminator(c: char) {
    c == '\n' || c == '\r' || c == '\U{85}' || c == '\U{2028}' || c == '\U{2029}'
  }

  predicate NoTerminator(s: string) {
    forall k :: 0 <= k < |s| ==> !IsLineTerminator(s[k])
  }

  /** The end of the run of ASCII digits (`\d`) that starts at `from`. */
  function DigitsEnd(s: string, from: nat): (r: nat)
    requires from <= |s|
    ensures from <= r <= |s|
    ensures forall k :: from <= k < r ==> IsDigit(s[k])
    ensures r < |s| ==> !IsDigit(s[r])
    decreases |s| - from
  {
    if from < |s| && IsDigit(s[from]) then DigitsEnd(s, from + 1) else from
  }

  /** The four groups of a match. */
  datatype LintMatch = LintMatch(file: string, line: string, column: string, message: string)

  /** The text a match was made from. */
  function Joined(m: LintMatch): string {
    m.file + (":" + (m.line + (":" + (m.column + (":" + m.message)))))
  }

  /** `(\d+):` at the start of `s`: the digit run and what follows its
      colon. A digit is never a colon, so `\d+` takes the whole run and
      there is nothing to backtrack into. */
  function DigitField(s: string): (r: Option<(string, string)>)
    ensures r.Some? ==> r.value.0 != "" && AllDigits(r.value.0) && s == r.value.0 + (":" + r.value.1)
  {
    var a := DigitsEnd(s, 0);
    if a == 0 || a == |s| || s[a] != ':' then None
    else
      assert s == s[..a] + (":" + s[a + 1..]);
      Some((s[..a], s[a + 1..]))
  }

  lemma DigitFieldOf(digits: string, rest: string)
    requires digits != "" && AllDigits(digits)
    ensures DigitField(digits + (":" + rest)) == Some((digits, rest))
  {
    var s := digits + (":" + rest);
    DigitsRun(s, 0, |digits|);
    assert s[..|digits|] == digits;
    assert s[|digits| + 1..] == rest;
  }

  /** `:(\d+):(\d+):(.+)$` against the rest of the line once the file part
      is fixed. */
  function MatchAfterFile(file: string, s: string): (r: Option<LintMatch>)
    ensures r.Some? ==> r.value.file == file && Joined(r.value) == file + s
    ensures r.Some? ==> r.value.line != "" && AllDigits(r.value.line) &&
                        r.value.column != "" && AllDigits(r.value.column) && r.value.message != ""
  {
    if |s| == 0 || s[0] != ':' then None
    else
      assert s == ":" + s[1..];
      match DigitField(s[1..])
      case None => None
      case Some(lineRest) =>
        match DigitField(lineRest.1)
        case None => None
        case Some(columnRest) =>
          if columnRest.1 == "" then None
          else Some(LintMatch(file, lineRest.0, columnRest.0, columnRest.1))
  }

  /** The reluctant `(.+?)`: the first file part, shortest first, after
      which the rest of the line matches. */
  function MatchFrom(line: string, i: nat): (r: Option<LintMatch>)
    requires 1 <= i
    ensures r.Some? ==> Joined(r.value) == line && i <= |r.value.file| < |line|
    ensures r.Some? ==> r.value.line != "" && AllDigits(r.value.line) &&
                        r.value.column != "" && AllDigits(r.value.column) && r.value.message != ""
    ensures r.Some? ==> forall j :: i <= j < |r.value.file| ==> MatchAfterFile(line[..j], line[j..]).None?
    decreases |line| - i
  {
    if i >= |line| then None
    else
      var here := MatchAfterFile(line[..i], line[i..]);
      if here.Some? then
        assert line[..i] + line[i..] == line;
        here
      else MatchFrom(line, i + 1)
  }

  /** `BUF_LINT_PATTERN.matcher(line).matches()`: no part of the pattern
      matches a line terminator. */
  function MatchLint(line: string): Option<LintMatch> {
    if NoTerminator(line) then MatchFrom(line, 1) else None
  }

  /** A line whose file part is free of colons is split at its first three
      colons. */
  lemma MatchLintOf(m: LintMatch)
    requires m.file != "" && !HasChar(m.file, ':') && NoTerminator(Joined(m))
    requires m.line != "" && AllDigits(m.line) && m.column != "" && AllDigits(m.column) && m.message != ""
    ensures MatchLint(Joined(m)) == Some(m)
  {
    var line := Joined(m);
    var n := |m.file|;
    var rest := ":" + (m.line + (":" + (m.column + (":" + m.message))));
    assert line[..n] == m.file && line[n..] == rest;
    forall j | 1 <= j < n ensures MatchAfterFile(line[..j], line[j..]).None? {
      assert line[j..][0] == m.file[j];
    }
    MatchFromSkips(line, 1, n);
    assert rest[1..] == m.line + (":" + (m.column + (":" + m.message)));
    DigitFieldOf(m.line, m.column + (":" + m.message));
    DigitFieldOf(m.column, m.message);
  }

  /** The search moves past every file part that does not work. */
  lemma {:induction false} MatchFromSkips(line: string, i: nat, n: nat)
    requires 1 <= i <= n < |line|
    requires forall j :: i <= j < n ==> MatchAfterFile(line[..j], line[j..]).None?
    ensures MatchFrom(line, i) == MatchFrom(line, n)
    decreases n - i
  {
    if i < n {
      MatchFromSkips(line, i + 1, n);
    }
  }

  lemma DigitsRun(s: string, from: nat, end: nat)
    requires from <= end < |s| && !IsDigit(s[end])
    requires forall k :: from <= k < end ==> IsDigit(s[k])
    ensures DigitsEnd(s, from) == end
    decreases end - from
  {
    if from < end {
      DigitsRun(s, from + 1, end);
    }
  }

  lemma NoTerminatorAppend(a: string, b: string)
    requires NoTerminator(a) && NoTerminator(b)
    ensures NoTerminator(a + b)
  {
    forall k | 0 <= k < |a + b| ensures !IsLineTerminator((a + b)[k]) {
      if k >= |a| {
        assert (a + b)[k] == b[k - |a|];
      }
    }
  }

  // ---------------------------------------------------------------------
  // `parseBufLintLine`.

  /** `Integer.MAX_VALUE`: `Integer.parseInt` throws above it. */
  const IntMax := 0x7fff_ffff

  /** What `parseBufLintLine` makes of one line: nothing for a blank one,
      else a LINT warning; a line or column number past `IntMax` makes
      `Integer.parseInt` throw. */
  datatype LintParse = Blank | Issue(error: ValidationError) | NumberTooLarge

  function ParseBufLintLine(line: string): (r: LintParse)
    ensures r.Blank? <==> IsBlankJava(line)
    ensures r.Issue? ==> r.error.errorType == Lint && r.error.severity == Warning
    ensures r.Issue? && MatchLint(line).None? ==> r.error == ValidationError(None, 0, 0, Some(line), Lint, Warning)
  {
    if IsBlankJava(line) then Blank
    else match MatchLint(line)
      case None => Issue(ValidationError(None, 0, 0, Some(line), Lint, Warning))
      case Some(m) =>
        var l := ValueOf(m.line);
        var c := ValueOf(m.column);
        if l > IntMax || c > IntMax then NumberTooLarge
        else Issue(ValidationError(Some(m.file), l, c, Some(TrimJava(m.message)), Lint, Warning))
  }

  /** A `file:line:col:message` line reads back as its parts, the message
      trimmed. */
  lemma ParseLintLineOf(file: string, line: nat, column: nat, message: string)
    requires file != "" && !HasChar(file, ':') && NoTerminator(file) && NoTerminator(message) && message != ""
    requires line <= IntMax && column <= IntMax
    ensures ParseBufLintLine(Joined(LintMatch(file, DecimalOf(line), DecimalOf(column), message))) ==
      Issue(ValidationError(Some(file), line, column, Some(TrimJava(message)), Lint, Warning))
  {
    var m := LintMatch(file, DecimalOf(line), DecimalOf(column), message);
    var text := Joined(m);
    assert NoTerminator(text) by {
      assert NoTerminator(":") && NoTerminator(m.line) && NoTerminator(m.column);
      NoTerminatorAppend(":", message);
      NoTerminatorAppend(m.column, ":" + message);
      NoTerminatorAppend(":", m.column + (":" + message));
      NoTerminatorAppend(m.line, ":" + (m.column + (":" + message)));
      NoTerminatorAppend(":", m.line + (":" + (m.column + (":" + message))));
      NoTerminatorAppend(file, ":" + (m.line + (":" + (m.column + (":" + message)))));
    }
    MatchLintOf(m);
    assert !IsBlankJava(text) by {
      assert text[|file|] == ':';
    }
    ValueOfDecimal(line);
    ValueOfDecimal(column);
  }

  // ---------------------------------------------------------------------
  // What each check reports.

  /** `runBufBuild`: all compiler lines as one SYNTAX error. */
  function BuildErrors(output: seq<string>): seq<ValidationError> {
    if output == [] then [] else [ValidationError(None, 0, 0, Some(Join(output, "\n")), Syntax, Error)]
  }

  function BuildLogs(output: seq<string>): seq<string> {
    if output == [] then [] else ["Compilation errors found:\n" + Join(output, "\n")]
  }

  /** The compiler's lines can be read back from the one SYNTAX error. */
  lemma BuildErrorLines(output: seq<string>)
    requires output != [] && forall k :: 0 <= k < |output| ==> !HasChar(output[k], '\n')
    ensures |BuildErrors(output)| == 1
    ensures BuildErrors(output)[0].errorType == Syntax && BuildErrors(output)[0].severity == Error
    ensures Split(BuildErrors(output)[0].message.value, "\n") == output
  {
    SplitJoinLines(output);
  }

  /** `runBufLint`: the issues of the lines in order; `None` once a line
      number overflows. */
  function LintErrors(output: seq<string>): Option<seq<ValidationError>> {
    if output == [] then Some([]) else
    match LintErrors(output[..|output| - 1])
    case None => None
    case Some(errs) =>
      match ParseBufLintLine(output[|output| - 1])
      case Blank => Some(errs)
      case Issue(e) => Some(errs + [e])
      case NumberTooLarge => None
  }

  /** The lines that are not blank. */
  function NonBlank(lines: seq<string>): (r: seq<string>)
    ensures |r| <= |lines|
  {
    if lines == [] then [] else
    NonBlank(lines[..|lines| - 1]) + (if IsBlankJava(lines[|lines| - 1]) then [] else [lines[|lines| - 1]])
  }

  /** Each lint issue is a warning, one per non-blank line. */
  lemma {:induction false} LintErrorsWarn(output: seq<string>)
    requires LintErrors(output).Some?
    ensures |LintErrors(output).value| == |NonBlank(output)|
    ensures forall e :: e in LintErrors(output).value ==> e.errorType == Lint && e.severity == Warning
  {
    if output != [] {
      LintErrorsWarn(output[..|output| - 1]);
    }
  }

  function BreakingError(line: string): ValidationError {
    ValidationError(None, 0, 0, Some(line), BreakingChange, Error)
  }

  /** `runBufBreaking`: one BREAKING_CHANGE error per non-blank line. */
  function BreakingErrors(output: seq<string>): seq<ValidationError> {
    if output == [] then [] else
    BreakingErrors(output[..|output| - 1]) +
      (if IsBlankJava(output[|output| - 1]) then [] else [BreakingError(output[|output| - 1])])
  }

  /** The breaking errors carry the non-blank lines, in order. */
  lemma {:induction false} BreakingErrorsLines(output: seq<string>)
    ensures |BreakingErrors(output)| == |NonBlank(output)|
    ensures forall i :: 0 <= i < |NonBlank(output)| ==> BreakingErrors(output)[i] == BreakingError(NonBlank(output)[i])
  {
    if output != [] {
      BreakingErrorsLines(output[..|output| - 1]);
    }
  }

  const FormatMessage := "Format issues found. Run 'buf format' to fix."
  const FormatLog := "Format check found issues. Run 'buf format' to fix."

  /** `runBufFormat`: any output at all is one LINT warning. */
  function FormatErrors(output: seq<string>): seq<ValidationError> {
    if output == [] then [] else [ValidationError(None, 0, 0, Some(FormatMessage), Lint, Warning)]
  }

  /** `"<what> found %d issues"`. */
  function Found(what: string, n: nat): string {
    what + " found " + DecimalOf(n) + " issues"
  }

  /** The log line a check adds when it found `n > 0` issues. */
  function CountLog(what: string, n: nat): seq<string> {
    if n == 0 then [] else [Found(what, n)]
  }

  // ---------------------------------------------------------------------
  // The checks, with the log list they share.

  /** One `validateLake` call's log list, which each check appends to. */
  class ValidationRun {
    var logs: seq<string>

    constructor()
      ensures logs == []
    {
      logs := [];
    }

    method RunBufBuild(output: seq<string>) returns (errors: seq<ValidationError>)
      modifies this
      ensures errors == BuildErrors(output)
      ensures logs == old(logs) + BuildLogs(output)
    {
      errors := [];
      if output != [] {
        var message := Join(output, "\n");
        logs := logs + ["Compilation errors found:\n" + message];
        errors := errors + [ValidationError(None, 0, 0, Some(message), Syntax, Error)];
      }
    }

    /** The lint loop; `None` where `Integer.parseInt` throws, the log then
        untouched. */
    method RunBufLint(output: seq<string>) returns (r: Option<seq<ValidationError>>)
      modifies this
      ensures r == LintErrors(output)
      ensures r.Some? ==> logs == old(logs) + CountLog("Lint validation", |r.value|)
      ensures r.None? ==> logs == old(logs)
    {
      var errors: seq<ValidationError> := [];
      for i := 0 to |output|
        invariant LintErrors(output[..i]) == Some(errors)
      {
        assert output[..i + 1][..i] == output[..i];
        var parsed := ParseBufLintLine(output[i]);
        if parsed.NumberTooLarge? {
          LintErrorsStuck(output, i + 1);
          return None;
        }
        if parsed.Issue? {
          errors := errors + [parsed.error];
        }
      }
      assert output[..|output|] == output;
      if errors != [] {
        logs := logs + [Found("Lint validation", |errors|)];
      }
      return Some(errors);
    }

    method RunBufBreaking(output: seq<string>) returns (errors: seq<ValidationError>)
      modifies this
      ensures errors == BreakingErrors(output)
      ensures logs == old(logs) + CountLog("Breaking change detection", |errors|)
    {
      errors := [];
      for i := 0 to |output|
        invariant errors == BreakingErrors(output[..i])
      {
        assert output[..i + 1][..i] == output[..i];
        if !IsBlankJava(output[i]) {
          errors := errors + [BreakingError(output[i])];
        }
      }
      assert output[..|output|] == output;
      if errors != [] {
        logs := logs + [Found("Breaking change detection", |errors|)];
      }
    }

    method RunBufFormat(output: seq<string>) returns (errors: seq<ValidationError>)
      modifies this
      ensures errors == FormatErrors(output)
      ensures logs == old(logs) + (if output == [] then [] else [FormatLog])
    {
      errors := [];
      if output != [] {
        errors := errors + [ValidationError(None, 0, 0, Some(FormatMessage), Lint, Warning)];
      }
      if errors != [] {
        logs := logs + [FormatLog];
      }
    }
  }

  /** Once a line overflows, the lint run throws whatever follows. */
  lemma {:induction false} LintErrorsStuck(output: seq<string>, n: nat)
    requires 1 <= n <= |output|
    requires LintErrors(output[..n]).None?
    ensures LintErrors(output).None?
    decreases |output| - n
  {
    if n < |output| {
      assert output[..n + 1][..n] == output[..n];
      LintErrorsStuck(output, n + 1);
    } else {
      assert output[..n] == output;
    }
  }

  // ---------------------------------------------------------------------
  // `validateLake`.

  /** The four checks, in the order `validateLake` runs them. */
  datatype Step = StepCompilation | StepLint | StepBreaking | StepFormat

  /** Whether a check runs: breaking changes are looked for only where git
      finds history. */
  predicate Runs(step: Step, checks: Checks, tools: Tools) {
    match step
    case StepCompilation => checks.compilation
    case StepLint => checks.lint
    case StepBreaking => checks.breaking && tools.gitHistory
    case StepFormat => checks.format
  }

  /** What one check finds once it runs; `None` when its command throws or
      a lint line overflows. */
  function StepErrors(step: Step, tools: Tools): Option<seq<ValidationError>> {
    match step
    case StepCompilation => if tools.build.None? then None else Some(BuildErrors(tools.build.value))
    case StepLint => if tools.lint.None? then None else LintErrors(tools.lint.value)
    case StepBreaking => if tools.breaking.None? then None else Some(BreakingErrors(tools.breaking.value))
    case StepFormat => if tools.format.None? then None else Some(FormatErrors(tools.format.value))
  }

  /** The log lines one check adds when it does not throw. */
  function StepLogs(step: Step, tools: Tools): seq<string>
    requires StepErrors(step, tools).Some?
  {
    match step
    case StepCompilation => BuildLogs(tools.build.value)
    case StepLint => CountLog("Lint validation", |LintErrors(tools.lint.value).value|)
    case StepBreaking => CountLog("Breaking change detection", |BreakingErrors(tools.breaking.value)|)
    case StepFormat => if tools.format.value == [] then [] else [FormatLog]
  }

  /** What a check contributes: nothing when it does not run. */
  function Outcome(step: Step, checks: Checks, tools: Tools): Option<seq<ValidationError>> {
    if Runs(step, checks, tools) then StepErrors(step, tools) else Some([])
  }

  function OutcomeLogs(step: Step, checks: Checks, tools: Tools): seq<string>
    requires Outcome(step, checks, tools).Some?
  {
    if Runs(step, checks, tools) then StepLogs(step, tools) else []
  }

  /** The errors of the checks that run, in the order they run; `None`
      when one of them throws. */
  function Collected(checks: Checks, tools: Tools): Option<seq<ValidationError>> {
    var c, l, b, f := Outcome(StepCompilation, checks, tools), Outcome(StepLint, checks, tools),
                      Outcome(StepBreaking, checks, tools), Outcome(StepFormat, checks, tools);
    if c.None? || l.None? || b.None? || f.None? then None
    else Some(c.value + l.value + b.value + f.value)
  }

  /** The log lines of the checks that run, when none throws. */
  function RunLogs(checks: Checks, tools: Tools): seq<string>
    requires Collected(checks, tools).Some?
  {
    OutcomeLogs(StepCompilation, checks, tools) + OutcomeLogs(StepLint, checks, tools) +
    OutcomeLogs(StepBreaking, checks, tools) + OutcomeLogs(StepFormat, checks, tools)
  }

  /** The sub-phase `validateLake` reports while a check runs. */
  function SubPhaseName(step: Step): string {
    match step
    case StepCompilation => "Running proto compilation checks"
    case StepLint => "Running lint checks"
    case StepBreaking => "Running breaking change detection"
    case StepFormat => "Running format checks"
  }

  /** The sub-phase of the last check that ran. */
  function SubPhaseOf(checks: Checks, tools: Tools): string {
    if Runs(StepFormat, checks, tools) then SubPhaseName(StepFormat)
    else if Runs(StepBreaking, checks, tools) then SubPhaseName(StepBreaking)
    else if Runs(StepLint, checks, tools) then SubPhaseName(StepLint)
    else if Runs(StepCompilation, checks, tools) then SubPhaseName(StepCompilation)
    else ""
  }

  predicate IsError(e: ValidationError) { e.severity == Error }

  /** The number of errors of severity ERROR. */
  function ErrorSeverityCount(errors: seq<ValidationError>): (n: nat)
    ensures n <= |errors|
    ensures n == 0 <==> forall e :: e in errors ==> !IsError(e)
  {
    if errors == [] then 0
    else
      var n := ErrorSeverityCount(errors[..|errors| - 1]) + (if IsError(errors[|errors| - 1]) then 1 else 0);
      assert forall e :: e in errors ==> e in errors[..|errors| - 1] || e == errors[|errors| - 1];
      n
  }

  /** Errors of other severities do not change the count. */
  lemma {:induction false} ErrorSeverityCountAppend(a: seq<ValidationError>, b: seq<ValidationError>)
    ensures ErrorSeverityCount(a + b) == ErrorSeverityCount(a) + ErrorSeverityCount(b)
  {
    if b != [] {
      assert (a + b)[..|a + b| - 1] == a + b[..|b| - 1];
      ErrorSeverityCountAppend(a, b[..|b| - 1]);
    } else {
      assert a + b == a;
    }
  }

  /** `buildValidationResult`: success exactly when no error has severity
      ERROR; all errors, in order; the metadata as given. */
  function BuildValidationResult(errors: seq<ValidationError>, metadata: BuildOperationMetadata): (r: ValidationResult)
    ensures r.success <==> forall e :: e in errors ==> !IsError(e)
    ensures r.errors == ValidationErrors(errors) && r.metadata == Some(metadata)
  {
    ValidationResult(ErrorSeverityCount(errors) == 0, ValidationErrors(errors), Some(metadata))
  }

  /** The validation phase after the checks: SUCCEEDED without an
      ERROR-severity item, else FAILED with a message counting those items
      only. */
  function Finished(errors: seq<ValidationError>, subPhase: string, start: int, end: int, logs: seq<string>): (p: PhaseStatus)
    ensures p.status == PhaseSucceeded <==> forall e :: e in errors ==> !IsError(e)
    ensures p.status == PhaseSucceeded || p.status == PhaseFailed
    ensures p.status == PhaseFailed ==>
      p.errorMessage == "Validation failed with " + DecimalOf(ErrorSeverityCount(errors)) + " errors"
    ensures p.status == PhaseSucceeded ==> p.errorMessage == ""
    ensures p.subPhase == subPhase && p.startTime == Some(start) && p.endTime == Some(end) && p.logLines == logs
  {
    var n := ErrorSeverityCount(errors);
    if n == 0 then PhaseStatus(PhaseSucceeded, "", subPhase, Some(start), Some(end), logs)
    else PhaseStatus(PhaseFailed, "Validation failed with " + DecimalOf(n) + " errors", subPhase, Some(start), Some(end), logs)
  }

  /** The metadata with its validation phase replaced. */
  function WithValidation(metadata: BuildOperationMetadata, p: PhaseStatus): (m: BuildOperationMetadata)
    ensures m.phaseStatuses.validation == Some(p)
    ensures m.phaseStatuses.gazelle == metadata.phaseStatuses.gazelle
    ensures m.phaseStatuses.build == metadata.phaseStatuses.build
    ensures m.phaseStatuses.publish == metadata.phaseStatuses.publish
    ensures m.(phaseStatuses := metadata.phaseStatuses) == metadata
  {
    metadata.(phaseStatuses := metadata.phaseStatuses.(validation := Some(p)))
  }

  const SkippedPhase := PhaseStatus(PhaseSkipped, "", "", None, None, [])

  /** A skipped validation: success, no errors, the phase SKIPPED. */
  function SkippedResult(metadata: BuildOperationMetadata): ValidationResult {
    ValidationResult(true, NoErrors, Some(WithValidation(metadata, SkippedPhase)))
  }

  /** The message of the `IOException` a throwing check turns into. */
  const ValidationFailed := "Validation failed"

  /** One check, if it runs: its findings, and its log lines appended. */
  method RunStep(run: ValidationRun, step: Step, checks: Checks, tools: Tools)
    returns (found: Option<seq<ValidationError>>)
    modifies run
    ensures found == Outcome(step, checks, tools)
    ensures found.Some? ==> run.logs == old(run.logs) + OutcomeLogs(step, checks, tools)
  {
    if !Runs(step, checks, tools) {
      return Some([]);
    }
    match step
    case StepCompilation =>
      if tools.build.None? {
        return None;
      }
      var errors := run.RunBufBuild(tools.build.value);
      found := Some(errors);
    case StepLint =>
      if tools.lint.None? {
        return None;
      }
      found := run.RunBufLint(tools.lint.value);
    case StepBreaking =>
      if tools.breaking.None? {
        return None;
      }
      var errors := run.RunBufBreaking(tools.breaking.value);
      found := Some(errors);
    case StepFormat =>
      if tools.format.None? {
        return None;
      }
      var errors := run.RunBufFormat(tools.format.value);
      found := Some(errors);
  }

  /** The `try` block of `validateLake`: each enabled check in turn, the
      sub-phase set as it starts; `None` once one throws. */
  method RunChecks(run: ValidationRun, checks: Checks, tools: Tools)
    returns (errors: Option<seq<ValidationError>>, subPhase: string)
    requires run.logs == []
    modifies run
    ensures errors == Collected(checks, tools)
    ensures errors.Some? ==> run.logs == RunLogs(checks, tools) && subPhase == SubPhaseOf(checks, tools)
  {
    subPhase := "";
    if checks.compilation {
      subPhase := SubPhaseName(StepCompilation);
    }
    var compilation := RunStep(run, StepCompilation, checks, tools);
    if compilation.None? {
      return None, subPhase;
    }
    ghost var logs := OutcomeLogs(StepCompilation, checks, tools);
    assert run.logs == logs;
    if checks.lint {
      subPhase := SubPhaseName(StepLint);
    }
    var lint := RunStep(run, StepLint, checks, tools);
    if lint.None? {
      return None, subPhase;
    }
    logs := logs + OutcomeLogs(StepLint, checks, tools);
    assert run.logs == logs;
    if checks.breaking && tools.gitHistory {
      subPhase := SubPhaseName(StepBreaking);
    }
    var breaking := RunStep(run, StepBreaking, checks, tools);
    if breaking.None? {
      return None, subPhase;
    }
    logs := logs + OutcomeLogs(StepBreaking, checks, tools);
    assert run.logs == logs;
    if checks.format {
      subPhase := SubPhaseName(StepFormat);
    }
    var format := RunStep(run, StepFormat, checks, tools);
    if format.None? {
      return None, subPhase;
    }
    errors := Some(compilation.value + lint.value + breaking.value + format.value);
  }

  /** `validateLake`. */
  method ValidateLake(config: Config, tools: Tools, metadata: BuildOperationMetadata, start: int, end: int)
    returns (r: Result<ValidationResult>)
    ensures !config.enabled || !tools.bufYaml ==> r == Ok(SkippedResult(metadata))
    ensures config.enabled && tools.bufYaml ==> (r.Ok? <==> Collected(config.checks, tools).Some?)
    ensures r.Err? ==> r.error == ValidationFailed
    ensures config.enabled && tools.bufYaml && r.Ok? ==>
      var errors := Collected(config.checks, tools).value;
      var phase := Finished(errors, SubPhaseOf(config.checks, tools), start, end, RunLogs(config.checks, tools));
      r.value == BuildValidationResult(errors, WithValidation(metadata, phase))
  {
    if !config.enabled {
      return Ok(SkippedResult(metadata));
    }
    if !tools.bufYaml {
      return Ok(SkippedResult(metadata));
    }
    var run := new ValidationRun();
    var errors, subPhase := RunChecks(run, config.checks, tools);
    if errors.None? {
      return Err(ValidationFailed);
    }
    var phase := Finished(errors.value, subPhase, start, end, run.logs);
    return Ok(BuildValidationResult(errors.value, WithValidation(metadata, phase)));
  }

  // ---------------------------------------------------------------------
  // What the checks mean for the outcome.

  /** A breaking change found is always a failed validation. */
  lemma BreakingChangeFails(checks: Checks, tools: Tools, i: int)
    requires Collected(checks, tools).Some? && checks.breaking && tools.gitHistory
    requires 0 <= i < |tools.breaking.value| && !IsBlankJava(tools.breaking.value[i])
    ensures exists e :: e in Collected(checks, tools).value && IsError(e)
  {
    var out := tools.breaking.value;
    NonBlankHas(out, i);
    BreakingErrorsLines(out);
    var k :| 0 <= k < |NonBlank(out)| && NonBlank(out)[k] == out[i];
    var e := BreakingErrors(out)[k];
    assert IsError(e);
    assert e in Collected(checks, tools).value;
  }

  /** A non-blank line survives the filter. */
  lemma {:induction false} NonBlankHas(lines: seq<string>, i: int)
    requires 0 <= i < |lines| && !IsBlankJava(lines[i])
    ensures exists k :: 0 <= k < |NonBlank(lines)| && NonBlank(lines)[k] == lines[i]
  {
    var front := lines[..|lines| - 1];
    if i < |lines| - 1 {
      NonBlankHas(front, i);
      var k :| 0 <= k < |NonBlank(front)| && NonBlank(front)[k] == front[i];
      assert NonBlank(lines)[k] == NonBlank(front)[k];
    } else {
      assert NonBlank(lines)[|NonBlank(front)|] == lines[i];
    }
  }

  /** Lint and format findings are warnings only: with compilation and
      breaking checks off, validation that does not throw succeeds. */
  lemma WarningsOnlySucceed(checks: Checks, tools: Tools)
    requires Collected(checks, tools).Some? && !checks.compilation && !checks.breaking
    ensures forall e :: e in Collected(checks, tools).value ==> !IsError(e)
  {
    if checks.lint {
      LintErrorsWarn(tools.lint.value);
    }
  }

  /** The failure message counts ERROR-severity items only: warnings added
      after them leave it as it is. */
  lemma FailedMessageIgnoresWarnings(errors: seq<ValidationError>, warnings: seq<ValidationError>,
                                     subPhase: string, start: int, end: int, logs: seq<string>)
    requires forall e :: e in warnings ==> !IsError(e)
    ensures Finished(errors + warnings, subPhase, start, end, logs) == Finished(errors, subPhase, start, end, logs)
  {
    ErrorSeverityCountAppend(errors, warnings);
  }
}
