/** The SlowEcho test step: parameter parsing and validation, and the resume contract. */
module SlowEcho {
  import opened Wrappers
  import opened Decimal

  /** The name the step is registered under. */
  const NAME: string := "SlowEcho"

  /** `time.Second`, in nanoseconds. */
  const SECOND: int := 1_000_000_000

  /** `time.Duration`: a count of nanoseconds (unbounded here). */
  type Duration = int

  /** A step parameter, seen only through its three accessors: `IsEmpty()`,
      `Raw()` (the unexpanded text) and `String()`. No relation between them is assumed. */
  datatype Param = Param(isEmpty: bool, raw: bytes, str: bytes)

  /** The step's parameters as the step reads them: what `GetOne("text")` and
      `GetOne("sleep")` return. */
  datatype StepParameters = StepParameters(text: Param, sleep: Param)

  /** Every error the step can return. */
  datatype StepError =
    | ParseError(cause: NumError)          // the integer parser's error, passed through unchanged
    | NegativeSeconds                      // "seconds cannot be negative in slowecho parameters"
    | MissingText                          // "missing 'text' field in slowecho parameters"
    | MissingSleep                         // "missing 'sleep' field in slowecho parameters"
    | InvalidSleep(param: Param)           // "invalid empty 'sleep' parameter: %v"
    | ResumeNotSupported(stepName: string) // cerrors.ErrResumeNotSupported

  /** `sleepTime`: parse a number of seconds and scale it to a duration. */
  function SleepTime(secStr: bytes): (r: Result<Duration, StepError>)
    ensures Atoi(secStr).Failure? ==> r == Failure(ParseError(Atoi(secStr).error))
    ensures r.Success? <==> Atoi(secStr).Success? && Atoi(secStr).value >= 0
    ensures Atoi(secStr).Success? && Atoi(secStr).value < 0 ==> r == Failure(NegativeSeconds)
    ensures r.Success? ==> r.value >= 0 && r.value % SECOND == 0 && r.value / SECOND == Atoi(secStr).value
  {
    match Atoi(secStr)
    case Failure(e) => Failure(ParseError(e))
    case Success(seconds) =>
      if seconds < 0 then Failure(NegativeSeconds) else Success(seconds * SECOND)
  }

  /** On the decimal text of any integer, sleepTime rejects exactly the negative
      ones and scales the others to whole seconds. */
  lemma SleepTimeOfFormat(n: int)
    ensures SleepTime(Format(n)) == if n < 0 then Failure(NegativeSeconds) else Success(n * SECOND)
  {
    AtoiFormat(n);
  }

  /** `ValidateParameters`: the checks run in a fixed order and the first failing one decides the error. */
  function ValidateParameters(params: StepParameters): (r: Outcome<StepError>)
    ensures r.Fail? ==> r.error != NegativeSeconds && !r.error.ResumeNotSupported?
  {
    if params.text.isEmpty then Fail(MissingText)
    else if params.sleep.isEmpty then Fail(MissingSleep)
    else if |params.sleep.raw| != 1 then Fail(InvalidSleep(params.sleep))
    else match SleepTime(params.sleep.raw)
      case Failure(e) => (AtoiSingleByte(params.sleep.raw[0]); Fail(e))
      case Success(_) => Pass
  }

  /** Validation succeeds exactly when both fields are present and the raw sleep
      value is one ASCII digit '0'..'9'. */
  lemma ValidateAcceptsSingleDigit(params: StepParameters)
    ensures ValidateParameters(params).Pass? <==>
      && !params.text.isEmpty
      && !params.sleep.isEmpty
      && |params.sleep.raw| == 1
      && IsDigit(params.sleep.raw[0])
  {
    if |params.sleep.raw| == 1 {
      AtoiSingleByte(params.sleep.raw[0]);
    }
  }

  /** The first failing check's error wins: missing text, then missing sleep,
      then a raw sleep value whose length is not 1, then sleepTime's own error. */
  lemma ValidateFirstFailureWins(params: StepParameters)
    ensures params.text.isEmpty ==> ValidateParameters(params) == Fail(MissingText)
    ensures !params.text.isEmpty && params.sleep.isEmpty ==> ValidateParameters(params) == Fail(MissingSleep)
    ensures !params.text.isEmpty && !params.sleep.isEmpty && |params.sleep.raw| != 1 ==>
      ValidateParameters(params) == Fail(InvalidSleep(params.sleep))
    ensures !params.text.isEmpty && !params.sleep.isEmpty && |params.sleep.raw| == 1 ==>
      (ValidateParameters(params).Pass? <==> SleepTime(params.sleep.raw).Success?) &&
      (SleepTime(params.sleep.raw).Failure? ==> ValidateParameters(params) == Fail(SleepTime(params.sleep.raw).error))
  {
  }

  /** A validated step sleeps between 0 and 9 whole seconds, when Run reads the same text validation checked. */
  lemma ValidatedSleepIsShort(params: StepParameters)
    requires ValidateParameters(params).Pass?
    ensures SleepTime(params.sleep.raw).Success?
    ensures 0 <= SleepTime(params.sleep.raw).value <= 9 * SECOND
  {
    ValidateAcceptsSingleDigit(params);
    AtoiSingleByte(params.sleep.raw[0]);
  }

  /** `CanResume`: the step never resumes. */
  function CanResume(): (r: bool)
    ensures !r
  {
    false
  }

  /** `Resume`: whatever the parameters, resuming fails with ErrResumeNotSupported for this step. */
  function Resume(params: StepParameters): (r: Outcome<StepError>)
    ensures r == Fail(ResumeNotSupported("SlowEcho"))
  {
    Fail(ResumeNotSupported(NAME))
  }
}
