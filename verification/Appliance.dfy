/** The appliance dispatcher: from how the host backend ended, and what it
    printed, to an exit code and an envelope. */
module Appliance {
  import opened Text
  import opened ExitCodes

  // ----- what a backend prints -----

  /** An operation-error document, as decoded. */
  datatype OperationError = OperationError(
    result: string, exit: int, code: string, origin: string, componentCode: string, retryable: bool,
    message: string, correlationId: string, operationId: string, recoveryGuidance: string)

  /** A document of the command's own schema: a refused one, a success one that
      fits or does not fit it, or an operation error. */
  datatype Decoded =
    | Unfit
    | SuccessDocument(fits: bool, operationId: string)
    | ErrorDocument(error: OperationError)

  /** named is the operationId a lax decode finds in the bytes, "" for none. */
  datatype Stdout = Stdout(decoded: Decoded, named: string)

  datatype Validated = Validated(operationId: string, operationError: Option<OperationError>)

  predicate IsUpper(c: char) { 'A' <= c <= 'Z' }

  predicate IsUpperCode(s: string) {
    s != "" && IsUpper(s[0]) && forall c :: c in s ==> IsUpper(c) || IsDigit(c) || c == '_'
  }

  predicate IsAlnum(c: char) { 'A' <= c <= 'Z' || 'a' <= c <= 'z' || IsDigit(c) }

  predicate IsIdentifier(s: string) {
    1 <= |s| <= 128 && IsAlnum(s[0]) && forall c :: c in s ==> IsAlnum(c) || c in "._:-"
  }

  predicate IsPlain(s: string) { ByteLen(s) <= 512 && forall c :: c in s ==> c >= ' ' && c != '\U{7F}' }

  /** The result, code and retryable an exit goes with. */
  function Tuple(exit: int): Option<(string, string, bool)> {
    match exit
    case 2 => Some(("ERROR", "INVALID_ARGUMENT", false))
    case 3 => Some(("ERROR", "AUTH", false))
    case 4 => Some(("ERROR", "PRECONDITION", false))
    case 5 => Some(("ERROR", "UNAVAILABLE", true))
    case 6 => Some(("ERROR", "CONTRACT_MISMATCH", false))
    case 7 => Some(("ERROR", "FAILED", false))
    case 8 => Some(("PARTIAL", "PARTIAL", false))
    case _ => None
  }

  predicate ValidOperationError(e: OperationError) {
    && Tuple(e.exit) == Some((e.result, e.code, e.retryable))
    && e.origin == "backend" && IsUpperCode(e.componentCode) && |e.componentCode| <= 128
    && IsPlain(e.message) && IsPlain(e.recoveryGuidance)
    && (e.correlationId != "" ==> IsIdentifier(e.correlationId))
    && (e.operationId != "" ==> IsIdentifier(e.operationId))
    && (e.exit == 8 ==> e.operationId != "" && e.recoveryGuidance != "")
  }

  function ValidatePayload(d: Decoded): Option<Validated> {
    match d
    case Unfit => None
    case SuccessDocument(fits, id) => if fits then Some(Validated(id, None)) else None
    case ErrorDocument(e) => if ValidOperationError(e) then Some(Validated(e.operationId, Some(e))) else None
  }

  // ----- how a backend ends -----

  datatype Result = Result(
    exitCode: int, signaled: bool, timedOut: bool, correlationId: string, stdout: Stdout, stderr: string)

  /** How an operating system says that a process ended. */
  datatype Ending = Exited(status: nat) | Killed

  predicate FromBackend(res: Result) {
    (res.signaled <==> res.exitCode < 0) && res.correlationId != ""
  }

  /** A result of the backend package: killed is exit code -1, and every
      invocation has a correlation id of its own. */
  function Ran(ending: Ending, timedOut: bool, hex: string, stdout: Stdout, stderr: string): (res: Result)
    ensures FromBackend(res)
  {
    var id := "cli-" + hex;
    assert |id| >= 4;
    Result(if ending.Killed? then -1 else ending.status, ending.Killed?, timedOut, id, stdout, stderr)
  }

  /** The id an operator can recover with: the backend's own when it named one. */
  function OperationID(res: Result): string {
    if res.stdout.named != "" then res.stdout.named else res.correlationId
  }

  // ----- verdicts -----

  datatype Mismatch =
    | NotRegistered | NotValid | ErrorBesideZero | SuccessBesideFailure | OtherExit | OtherCorrelation

  datatype Message =
    | FromBackendDocument(text: string)
    | BackendFailed(exit: int, firstLine: string)
    | Stopped(timedOut: bool)
    | OutcomeUnknown(timedOut: bool, operationId: string)
    | PayloadInvalid(reason: Mismatch)
    | NotInvoked(text: string)

  datatype CLIError = CLIError(code: int, message: Message, origin: string, httpStatus: int, componentCode: string)

  /** A failure of the taxonomy. */
  type Failure = e: CLIError | 2 <= e.code <= 9 witness CLIError(7, Stopped(false), "", 0, "")

  datatype Outcome = Outcome(validated: Option<Validated>, error: Option<Failure>)

  predicate InRange(exit: int) { 2 <= exit <= 8 }

  /** The text before the first newline. */
  function FirstLine(b: string): (line: string)
    ensures '\n' !in line && line <= b
    ensures line == b || b[|line|] == '\n'
  {
    b[..Index(b, '\n')]
  }

  function BackendMessage(res: Result): Message { BackendFailed(res.exitCode, FirstLine(res.stderr)) }

  /** "backend-exit-" and the status, as fmt prints it. */
  function ExitComponent(exit: int): string { "backend-exit-" + Itoa(exit) }

  /** The verdict on a completed invocation from its ending alone. */
  function BackendOutcome(res: Result, mutating: bool): Option<Failure> {
    if res.exitCode == 0 && !res.signaled then None
    else if !res.signaled then
      Some(CLIError(if InRange(res.exitCode) then res.exitCode else ExitCode(Failed),
                    BackendMessage(res), "backend", 0, ExitComponent(res.exitCode)))
    else
      var component := if res.timedOut then "backend-timeout" else "backend-killed";
      if !mutating then
        Some(CLIError(ExitCode(Unavailable), Stopped(res.timedOut), "backend", 0, component))
      else
        Some(CLIError(ExitCode(Partial), OutcomeUnknown(res.timedOut, OperationID(res)), "backend", 0, component))
  }

  function PayloadError(reason: Mismatch): Failure {
    CLIError(ExitCode(ContractMismatch), PayloadInvalid(reason), "backend", 0, "BACKEND_PAYLOAD_INVALID")
  }

  function Refuse(reason: Mismatch): Outcome { Outcome(None, Some(PayloadError(reason))) }

  /** The verdict on a completed invocation from its document; registered says
      whether the subcommand has a payload tuple. */
  function ValidateJSONOutcome(registered: bool, res: Result): Outcome {
    if !registered then Refuse(NotRegistered)
    else
      var validated := ValidatePayload(res.stdout.decoded);
      if validated.None? then Refuse(NotValid)
      else
        var opErr := validated.value.operationError;
        if res.exitCode == 0 then
          if opErr.Some? then Refuse(ErrorBesideZero) else Outcome(validated, None)
        else if opErr.None? then Refuse(SuccessBesideFailure)
        else if opErr.value.exit != res.exitCode then Refuse(OtherExit)
        else if opErr.value.correlationId != "" && opErr.value.correlationId != res.correlationId then
          Refuse(OtherCorrelation)
        else
          var message := if opErr.value.message == "" then BackendMessage(res)
                         else FromBackendDocument(opErr.value.message);
          Outcome(validated,
                  Some(CLIError(opErr.value.exit, message, opErr.value.origin, 0, opErr.value.componentCode)))
  }

  function ResolveBackendOutcome(registered: bool, res: Result, mutating: bool, jsonOut: bool): Outcome {
    if jsonOut && !res.signaled && (res.exitCode == 0 || InRange(res.exitCode)) then
      ValidateJSONOutcome(registered, res)
    else
      Outcome(None, BackendOutcome(res, mutating))
  }

  // ----- the envelope -----

  class ApplianceData {
    var backend: Option<Validated>
    var failure: Option<(string, int, string)>       // origin, httpStatus, componentCode
    var operationID: Option<string>

    constructor ()
      ensures backend.None? && failure.None? && operationID.None?
    {
      backend, failure, operationID := None, None, None;
    }
  }

  class CommandResult {
    var success: bool
    var code: Code
    var message: Option<Message>
    var correlationID: string
    var data: ApplianceData

    constructor (d: ApplianceData)
      ensures success && code == OK && message.None? && correlationID == "" && data == d
    {
      success, code, message, correlationID, data := true, OK, None, "", d;
    }

    method Fail(c: Code, m: Message)
      modifies this`success, this`code, this`message
      ensures code == c && (success <==> c == OK) && message == Some(m)
    {
      code, success, message := c, c == OK, Some(m);
    }
  }

  /** The handle a caller recovers with. */
  function RecoveryId(res: Result, validated: Option<Validated>): string {
    if validated.Some? && validated.value.operationId != "" then validated.value.operationId else res.correlationId
  }

  method WriteEnvelope(res: Option<Result>, validated: Option<Validated>, error: Option<Failure>)
    returns (result: CommandResult)
    ensures fresh(result) && fresh(result.data)
    ensures result.success <==> error.None?
    ensures ExitCode(result.code) == if error.None? then 0 else error.value.code
    ensures result.message == if error.None? then None else Some(error.value.message)
    ensures result.correlationID == if res.None? then "" else res.value.correlationId
    ensures result.data.backend == validated
    ensures result.data.failure ==
      if error.None? then None
      else Some((if error.value.origin == "" then "cli" else error.value.origin,
                 error.value.httpStatus, error.value.componentCode))
    ensures result.data.operationID ==
      if error.Some? && error.value.code == 8 && res.Some? then Some(RecoveryId(res.value, validated)) else None
  {
    var data := new ApplianceData();
    result := new CommandResult(data);
    if res.Some? {
      result.correlationID := res.value.correlationId;
    }
    if validated.Some? {
      data.backend := validated;
    }
    if error.Some? {
      var ce := error.value;
      result.Fail(Label(ce.code), ce.message);
      var origin := ce.origin;
      if origin == "" {
        origin := "cli";
      }
      data.failure := Some((origin, ce.httpStatus, ce.componentCode));
      if ce.code == ExitCode(Partial) && res.Some? {
        var id := res.value.correlationId;
        if validated.Some? && validated.value.operationId != "" {
          id := validated.value.operationId;
        }
        data.operationID := Some(id);
      }
    }
  }

  // ----- dispatch -----

  /** An invocation that completed, or one that failed before the backend ran
      (a refused argument list, a failed handshake); a degraded read has both a
      failure and what one best-effort read left. */
  datatype Invocation = Completed(res: Result) | NotCompleted(left: Option<Result>, failure: Failure)

  function LeftOver(i: Invocation): Option<Result> { if i.Completed? then Some(i.res) else i.left }

  function OutcomeOf(i: Invocation, registered: bool, mutating: bool, jsonOut: bool): Outcome {
    if i.Completed? then ResolveBackendOutcome(registered, i.res, mutating, jsonOut) else Outcome(None, Some(i.failure))
  }

  /** What the caller sees: the error the process ends with, the envelope in JSON
      mode, and whether the backend's own output is passed on. */
  method Dispatch(i: Invocation, registered: bool, mutating: bool, jsonOut: bool)
    returns (error: Option<Failure>, envelope: CommandResult?, passedOn: bool)
    requires i.Completed? ==> FromBackend(i.res)
    ensures error == OutcomeOf(i, registered, mutating, jsonOut).error
    ensures envelope != null <==> jsonOut
    ensures passedOn <==> error.None? && !jsonOut
    // the envelope and the exit status never disagree
    ensures envelope != null ==>
      && (envelope.success <==> error.None?)
      && ExitCode(envelope.code) == if error.None? then 0 else error.value.code
    // success is only ever a completed process that exited 0
    ensures error.None? ==> i.Completed? && !i.res.signaled && i.res.exitCode == 0
    // backend bytes are shown only when they agree with the process
    ensures envelope != null && envelope.data.backend.Some? ==>
      i.Completed? && Agrees(registered, i.res) && envelope.data.backend == ValidatePayload(i.res.stdout.decoded)
    // a recovery handle stands in exactly the Partial envelopes, and is never empty
    ensures envelope != null && i.Completed? ==>
      && (envelope.data.operationID.Some? <==> envelope.code == Partial)
      && (envelope.code == Partial ==>
            envelope.data.operationID.value != "" && (i.res.signaled ==> envelope.data.operationID.value == i.res.correlationId))
  {
    var outcome := OutcomeOf(i, registered, mutating, jsonOut);
    error := outcome.error;
    envelope, passedOn := null, false;
    if i.Completed? {
      Resolved(registered, i.res, mutating, jsonOut);
    }
    hide ResolveBackendOutcome, Agrees, ValidatePayload;
    if error.Some? {
      if jsonOut {
        envelope := WriteEnvelope(LeftOver(i), outcome.validated, error);
      }
      return;
    }
    if !jsonOut {
      passedOn := true;
    } else {
      envelope := WriteEnvelope(LeftOver(i), outcome.validated, None);
    }
  }

  // ----- what the verdicts mean -----

  /** The backend's document says the same as its exit status. */
  predicate Agrees(registered: bool, res: Result) {
    && !res.signaled && registered
    && match ValidatePayload(res.stdout.decoded) {
         case None => false
         case Some(v) =>
           if res.exitCode == 0 then v.operationError.None?
           else
             && v.operationError.Some? && v.operationError.value.exit == res.exitCode
             && v.operationError.value.correlationId in {"", res.correlationId}
       }
  }

  function CodeOf(o: Outcome): int { if o.error.None? then 0 else o.error.value.code }

  /** Success is never reported for a killed or a failed process, backend bytes
      never without an agreeing document, and a Partial always leaves a handle. */
  lemma Resolved(registered: bool, res: Result, mutating: bool, jsonOut: bool)
    requires FromBackend(res)
    ensures var o := ResolveBackendOutcome(registered, res, mutating, jsonOut);
      && (o.error.None? <==>
            !res.signaled && res.exitCode == 0 && (jsonOut ==> Agrees(registered, res)))
      && (o.validated.Some? <==> jsonOut && Agrees(registered, res))
      && (o.validated.Some? ==> o.validated == ValidatePayload(res.stdout.decoded))
      && (CodeOf(o) == 8 ==> RecoveryId(res, o.validated) != "")
      && (CodeOf(o) == 8 && res.signaled ==> RecoveryId(res, o.validated) == res.correlationId)
  {
  }

  /** A killed process is Partial when it could change something and Unavailable
      when it could not, in either mode and whatever it printed. A process that
      was not killed is Partial exactly when it said so, and in JSON mode its
      document with it. */
  lemma PartialExactly(registered: bool, res: Result, mutating: bool, jsonOut: bool)
    requires FromBackend(res)
    ensures var code := CodeOf(ResolveBackendOutcome(registered, res, mutating, jsonOut));
      && (code == 8 <==>
            if res.signaled then mutating
            else res.exitCode == 8 && (jsonOut ==> Agrees(registered, res)))
      && (res.signaled && !mutating ==> code == 5)
  {
  }

  predicate Structured(res: Result) { !res.signaled && (res.exitCode == 0 || InRange(res.exitCode)) }

  /** A status of the taxonomy is the exit code, in JSON mode exactly when the
      document agrees with it or it is the code of a mismatch itself; any other
      status of a process that was not killed is Failed. */
  lemma StatusKeptExactly(registered: bool, res: Result, mutating: bool, jsonOut: bool)
    requires !res.signaled
    ensures var code := CodeOf(ResolveBackendOutcome(registered, res, mutating, jsonOut));
      if Structured(res) then code == res.exitCode <==> !jsonOut || Agrees(registered, res) || res.exitCode == 6
      else code == 7
  {
  }

  /** The two output modes end with the same exit code exactly when the document
      agrees with the process, or the process ended in a way that is not read
      from a document, or with the code of a mismatch itself. When they differ,
      the JSON mode ends with the code of a mismatch. */
  lemma ModesAgreeExactly(registered: bool, res: Result, mutating: bool)
    ensures var json, human := ResolveBackendOutcome(registered, res, mutating, true),
                               ResolveBackendOutcome(registered, res, mutating, false);
      && (CodeOf(json) == CodeOf(human) <==> !Structured(res) || Agrees(registered, res) || res.exitCode == 6)
      && (CodeOf(json) != CodeOf(human) ==> CodeOf(json) == 6)
      && (!Structured(res) ==> json == human)
  {
  }

  /** An operation error that is believed: its code names its exit, only an
      unavailable backend invites a retry, and a partial change names its handle. */
  lemma BelievedError(e: OperationError)
    requires ValidOperationError(e)
    ensures InRange(e.exit) && e.origin == "backend" && e.componentCode != ""
    ensures e.retryable <==> e.exit == 5
    ensures e.result == (if e.exit == 8 then "PARTIAL" else "ERROR")
    ensures e.code == LabelText(Label(e.exit))
    ensures e.exit == 8 ==> e.operationId != "" && e.recoveryGuidance != ""
  {
  }

  /** The text of an envelope's code. */
  function LabelText(c: Code): string {
    match c
    case OK => "OK"
    case InvalidArgument => "INVALID_ARGUMENT"
    case Auth => "AUTH"
    case Precondition => "PRECONDITION"
    case Unavailable => "UNAVAILABLE"
    case ContractMismatch => "CONTRACT_MISMATCH"
    case Failed => "FAILED"
    case Partial => "PARTIAL"
    case FeatureUnavailable => "FEATURE_UNAVAILABLE"
  }

  /** What is said of a killed process, in either mode. */
  lemma KilledSays(registered: bool, res: Result, mutating: bool, jsonOut: bool)
    requires res.signaled
    ensures var o := ResolveBackendOutcome(registered, res, mutating, jsonOut);
      && o.validated.None? && o.error.Some? && o.error.value.origin == "backend"
      && (o.error.value.componentCode == "backend-timeout" <==> res.timedOut)
      && (o.error.value.componentCode == "backend-killed" <==> !res.timedOut)
      && (mutating ==> o.error.value.message == OutcomeUnknown(res.timedOut, OperationID(res)))
      && (!mutating ==> o.error.value.message == Stopped(res.timedOut))
  {
    assert "backend-timeout" != "backend-killed";
  }

  /** Why a document is refused, the first reason that applies. */
  lemma MismatchExactly(registered: bool, res: Result, mutating: bool, reason: Mismatch)
    requires Structured(res)
    ensures var o, doc := ResolveBackendOutcome(registered, res, mutating, true), ValidatePayload(res.stdout.decoded);
      (o.error.Some? && o.error.value.message == PayloadInvalid(reason)) <==>
        match reason
        case NotRegistered => !registered
        case NotValid => registered && doc.None?
        case ErrorBesideZero => registered && doc.Some? && res.exitCode == 0 && doc.value.operationError.Some?
        case SuccessBesideFailure => registered && doc.Some? && res.exitCode != 0 && doc.value.operationError.None?
        case OtherExit =>
          registered && doc.Some? && res.exitCode != 0 && doc.value.operationError.Some?
          && doc.value.operationError.value.exit != res.exitCode
        case OtherCorrelation =>
          registered && doc.Some? && res.exitCode != 0 && doc.value.operationError.Some?
          && doc.value.operationError.value.exit == res.exitCode
          && doc.value.operationError.value.correlationId !in {"", res.correlationId}
  {
    hide ValidatePayload;
  }

  /** A failure that an agreeing document reports keeps its exit, origin and code,
      and its message when it has one. */
  lemma DocumentKept(registered: bool, res: Result, mutating: bool)
    requires Agrees(registered, res) && InRange(res.exitCode)
    ensures var o := ResolveBackendOutcome(registered, res, mutating, true);
      var e := ValidatePayload(res.stdout.decoded).value.operationError.value;
      && o.error.Some? && o.error.value.code == e.exit && o.error.value.origin == e.origin
      && o.error.value.componentCode == e.componentCode
      && (e.message != "" ==> o.error.value.message == FromBackendDocument(e.message))
      && (e.message == "" ==> o.error.value.message == BackendFailed(res.exitCode, FirstLine(res.stderr)))
  {
  }

  /** Exit 8 beside a document that does not fit: 8 for a human, 6 in JSON. */
  lemma ModesDiffer(registered: bool, mutating: bool)
    ensures var res := Ran(Exited(8), false, "", Stdout(Unfit, ""), "");
      && CodeOf(ResolveBackendOutcome(registered, res, mutating, true)) == 6
      && CodeOf(ResolveBackendOutcome(registered, res, mutating, false)) == 8
  {
    var res := Ran(Exited(8), false, "", Stdout(Unfit, ""), "");
    ModesAgreeExactly(registered, res, mutating);
    StatusKeptExactly(registered, res, mutating, false);
  }

  /** The message of a killed change names an operation id, and the envelope a
      recovery id: they are the same exactly when the backend's output named no
      other id. */
  lemma MessageNamesRecoveryIdExactly(registered: bool, res: Result, jsonOut: bool)
    requires FromBackend(res) && res.signaled
    ensures var o := ResolveBackendOutcome(registered, res, true, jsonOut);
      && o.error.Some? && o.error.value.message.OutcomeUnknown?
      && (o.error.value.message.operationId == RecoveryId(res, o.validated) <==>
            res.stdout.named in {"", res.correlationId})
  {
  }
}
