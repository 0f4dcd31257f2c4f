/** The configuration-lifecycle verdicts: when a persist, a restore or a
    snapshot is a success, and what its report may claim. */
module Lifecycle {
  import opened Text
  import opened ExitCodes

  // ----- what the gateway answers -----

  datatype Dependency = Dependency(kind: string, id: string, required: bool, status: string)
  {
    function ToText(): string {
      (if id == "" then kind else kind + "/" + id)
      + " (" + (if required then "required" else "optional") + "): "
      + (if status == "" then "unreported" else status)
    }
  }

  datatype PlanItem = PlanItem(domain: string, toDelete: int, toApply: int)

  datatype PersistResult = PersistResult(
    result: string, path: string, checksum: string, schemaVersion: string, generation: Option<nat>)

  datatype RestoreResult = RestoreResult(
    mode: string, compatible: Option<bool>, schemaVersion: string, plan: seq<PlanItem>, errors: seq<string>,
    result: string, dependencies: seq<Dependency>, persisted: Option<bool>)

  const COMMIT := "commit"
  const DRY_RUN := "dry-run"

  // ----- failures -----

  datatype Reason =
    | InvalidArguments | FileRead | FileWrite | InvalidJSON | RequestFailed | Unauthorized | Busy | Maintenance
    | ServerError | BadRequest | DecodeFailed | ResultNotOK | Incompatible | ValidationFailed | DependencyFailed
    | RolledBack | RollbackFailed | NotPersisted | ChecksumMismatch | ContractLegacy

  /** detail holds the lines of the gateway a message is made of. */
  datatype LifecycleError = LifecycleError(reason: Reason, httpStatus: int, detail: seq<string>)

  function Fail(reason: Reason, detail: seq<string>): Option<LifecycleError> {
    Some(LifecycleError(reason, 0, detail))
  }

  function ReasonForStatus(status: int): Reason {
    if status == 401 then Unauthorized
    else if status == 409 then Busy
    else if status == 503 then Maintenance
    else if status >= 500 then ServerError
    else BadRequest
  }

  function StatusError(status: int): LifecycleError { LifecycleError(ReasonForStatus(status), status, []) }

  // ----- contracts and verdicts -----

  datatype Contract = Durable | Legacy

  function PersistCapabilities(r: PersistResult): Contract {
    if r.schemaVersion != "" && r.generation.Some? then Durable else Legacy
  }

  function RestoreCapabilities(r: RestoreResult): Contract {
    if r.mode == COMMIT && r.result == "ok" then (if r.persisted.None? then Legacy else Durable)
    else if r.schemaVersion != "" && r.compatible.Some? then Durable
    else Legacy
  }

  function PersistVerdict(r: PersistResult, strict: bool): Option<LifecycleError> {
    if r.result != "ok" then Fail(ResultNotOK, [])
    else if strict && PersistCapabilities(r) == Legacy then Fail(ContractLegacy, [])
    else if strict && (r.path == "" || r.checksum == "") then Fail(ContractLegacy, [])
    else None
  }

  function FailedDependencies(deps: seq<Dependency>): seq<string> {
    if deps == [] then []
    else
      var last := deps[|deps| - 1];
      FailedDependencies(deps[..|deps| - 1]) + if last.status == "failed" then [last.ToText()] else []
  }

  method ListFailedDependencies(deps: seq<Dependency>) returns (failed: seq<string>)
    ensures failed == FailedDependencies(deps)
  {
    failed := [];
    for i := 0 to |deps|
      invariant failed == FailedDependencies(deps[..i])
    {
      assert deps[..i + 1][..i] == deps[..i];
      if deps[i].status == "failed" {
        failed := failed + [deps[i].ToText()];
      }
    }
    assert deps[..|deps|] == deps;
  }

  function RestoreVerdict(r: RestoreResult, strict: bool): Option<LifecycleError> {
    if FailedDependencies(r.dependencies) != [] then
      Fail(DependencyFailed, FailedDependencies(r.dependencies) + r.errors)
    else if r.compatible == Some(false) then Fail(Incompatible, r.errors)
    else if r.result == "ROLLBACK-FAILED" then Fail(RollbackFailed, r.errors)
    else if r.result == "rolled-back" then Fail(RolledBack, r.errors)
    else if r.mode == COMMIT && r.result != "ok" then Fail(ResultNotOK, [])
    else if r.mode == COMMIT && r.persisted == Some(false) then Fail(NotPersisted, r.errors)
    else if r.errors != [] then Fail(ValidationFailed, r.errors)
    else if strict && RestoreCapabilities(r) == Legacy then Fail(ContractLegacy, [])
    else None
  }

  // ----- restore -----

  datatype Document = NoFile | Unreadable | NotJSON | Loaded

  /** body is None when it does not decode. */
  datatype Response<T> = NoResponse | CutOff | Answered(status: int, body: Option<T>)

  /** Something from the restore pipeline, and not an unrelated object decoded into zeros. */
  predicate LooksLikeRestoreResult(r: RestoreResult) {
    r.mode != "" || r.result != "" || r.schemaVersion != "" || r.compatible.Some? || r.plan != [] || r.errors != []
  }

  function Is2xx(status: int): bool { 200 <= status < 300 }

  datatype RestoreOutcome = RestoreOutcome(result: Option<RestoreResult>, error: Option<LifecycleError>)

  function AskedMode(commit: bool): string { if commit then COMMIT else DRY_RUN }

  /** The body with the asked mode where it names none. */
  function Judged(body: RestoreResult, commit: bool): RestoreResult {
    if body.mode == "" then body.(mode := AskedMode(commit)) else body
  }

  function Stamped(e: LifecycleError, status: int): LifecycleError {
    if e.httpStatus == 0 then e.(httpStatus := status) else e
  }

  function DoRestore(doc: Document, commit: bool, strict: bool, resp: Response<RestoreResult>): RestoreOutcome {
    match doc
    case NoFile => RestoreOutcome(None, Fail(InvalidArguments, []))
    case Unreadable => RestoreOutcome(None, Fail(FileRead, []))
    case NotJSON => RestoreOutcome(None, Fail(InvalidJSON, []))
    case Loaded =>
      match resp
      case NoResponse => RestoreOutcome(None, Fail(RequestFailed, []))
      case CutOff => RestoreOutcome(None, Fail(RequestFailed, []))
      case Answered(status, body) =>
        if body.None? || !LooksLikeRestoreResult(body.value) then
          RestoreOutcome(None, if Is2xx(status) then Fail(DecodeFailed, []) else Some(StatusError(status)))
        else
          var result := Judged(body.value, commit);
          var verdict := RestoreVerdict(result, strict);
          if verdict.None? && !Is2xx(status) then RestoreOutcome(Some(result), Some(StatusError(status)))
          else if verdict.None? then RestoreOutcome(Some(result), None)
          else RestoreOutcome(Some(result), Some(Stamped(verdict.value, status)))
  }

  // ----- what a report claims -----

  datatype Note = LegacyContract | UncheckedDocument

  datatype Failure = Failure(origin: string, httpStatus: int, componentCode: Reason)

  /** The taxonomy row of a reason. */
  function CodeOf(reason: Reason): Code {
    match reason
    case InvalidArguments => InvalidArgument
    case InvalidJSON => InvalidArgument
    case FileRead => Precondition
    case Maintenance => Precondition
    case DependencyFailed => Precondition
    case Unauthorized => Auth
    case RequestFailed => Unavailable
    case Busy => Unavailable
    case BadRequest => ContractMismatch
    case DecodeFailed => ContractMismatch
    case Incompatible => ContractMismatch
    case ValidationFailed => ContractMismatch
    case ChecksumMismatch => ContractMismatch
    case ContractLegacy => ContractMismatch
    case FileWrite => Failed
    case ServerError => Failed
    case ResultNotOK => Failed
    case RolledBack => Failed
    case RollbackFailed => Partial
    case NotPersisted => Partial
  }

  /** message is the error whose text is printed. */
  datatype CommandResult = CommandResult(
    success: bool, code: Code, message: Option<LifecycleError>, correlationId: string, warnings: seq<Note>)

  class LifecycleReport {
    var contract: Option<Contract>
    var notes: seq<Note>
    var maintenance: Option<string>    // the operation id of the reported maintenance state
    var failure: Option<Failure>

    constructor (maintenance: Option<string>)
      ensures contract.None? && notes == [] && failure.None? && this.maintenance == maintenance
    {
      contract, notes, failure := None, [], None;
      this.maintenance := maintenance;
    }

    method NoteLegacy(note: Note)
      modifies this`notes
      ensures notes == old(notes) + if contract == Some(Legacy) then [note] else []
    {
      if contract == Some(Legacy) {
        notes := notes + [note];
      }
    }

    /** The report starts from what came back, and notes what it may not claim. */
    method Claim(reported: Option<Contract>, note: Note)
      requires contract.None? && notes == []
      modifies this`contract, this`notes
      ensures contract == reported
      ensures notes == if reported == Some(Legacy) then [note] else []
    {
      if reported.Some? {
        contract := reported;
        NoteLegacy(note);
      }
    }

    method EnvelopeFor(error: Option<LifecycleError>) returns (result: CommandResult)
      modifies this`failure
      ensures result.success <==> error.None?
      ensures result.code == if error.None? then OK else CodeOf(error.value.reason)
      ensures result.message == error
      ensures result.correlationId == if maintenance.None? then "" else maintenance.value
      ensures result.warnings == notes
      ensures failure == if error.None? then old(failure)
                         else Some(Failure("gateway", error.value.httpStatus, error.value.reason))
    {
      result := CommandResult(true, OK, None, "", []);
      if maintenance.Some? {
        result := result.(correlationId := maintenance.value);
      }
      for i := 0 to |notes|
        invariant result == CommandResult(true, OK, None, if maintenance.None? then "" else maintenance.value, notes[..i])
      {
        result := result.(warnings := result.warnings + [notes[i]]);
      }
      if error.Some? {
        result := result.(code := CodeOf(error.value.reason), success := false, message := error);
        failure := Some(Failure("gateway", error.value.httpStatus, error.value.reason));
      }
    }
  }

  method Restore(doc: Document, commit: bool, strict: bool, resp: Response<RestoreResult>)
    returns (report: LifecycleReport, error: Option<LifecycleError>)
    ensures fresh(report)
    ensures var outcome := DoRestore(doc, commit, strict, resp);
      && error == outcome.error
      && report.contract == (if outcome.result.None? then None else Some(RestoreCapabilities(outcome.result.value)))
    ensures report.notes == if report.contract == Some(Legacy) then [LegacyContract] else []
    ensures strict && error.None? ==> report.contract == Some(Durable) && report.notes == []
  {
    hide RestoreCapabilities;
    var outcome := DoRestore(doc, commit, strict, resp);
    report := new LifecycleReport(None);
    var reported := if outcome.result.None? then None else Some(RestoreCapabilities(outcome.result.value));
    report.Claim(reported, LegacyContract);
    error := outcome.error;
  }

  // ----- persist -----

  datatype PersistOutcome = PersistOutcome(result: Option<PersistResult>, error: Option<LifecycleError>)

  function DoPersist(strict: bool, resp: Response<PersistResult>): PersistOutcome {
    match resp
    case NoResponse => PersistOutcome(None, Fail(RequestFailed, []))
    case CutOff => PersistOutcome(None, Fail(RequestFailed, []))
    case Answered(status, body) =>
      if status != 200 then PersistOutcome(None, Some(StatusError(status)))
      else if body.None? then PersistOutcome(None, Fail(DecodeFailed, []))
      else PersistOutcome(body, PersistVerdict(body.value, strict))
  }

  method Persist(strict: bool, resp: Response<PersistResult>)
    returns (report: LifecycleReport, error: Option<LifecycleError>)
    ensures fresh(report)
    ensures error == DoPersist(strict, resp).error
    ensures report.contract == match DoPersist(strict, resp).result { case None => None case Some(r) => Some(PersistCapabilities(r)) }
    ensures report.notes == if report.contract == Some(Legacy) then [LegacyContract] else []
    ensures strict && error.None? ==> report.contract == Some(Durable) && report.notes == []
  {
    var outcome := DoPersist(strict, resp);
    report := new LifecycleReport(None);
    var reported := if outcome.result.None? then None else Some(PersistCapabilities(outcome.result.value));
    report.Claim(reported, LegacyContract);
    error := outcome.error;
  }

  // ----- snapshot -----

  /** What checksum verification found: a document that may carry no checksum, or a failure. */
  datatype Verification = Verified(checksumVerified: bool) | Corrupt(reason: Reason)

  datatype SnapshotOutcome = SnapshotOutcome(
    result: Option<bool>,            // Some(whether a checksum was verified)
    error: Option<LifecycleError>,
    written: bool,                   // the file was written
    path: string)

  /** writes says whether writing the file succeeds. */
  method DoSnapshot(strict: bool, file: string, resp: Response<Verification>, writes: bool)
    returns (outcome: SnapshotOutcome)
    requires resp.Answered? ==> resp.body.Some?
    ensures outcome.error.None? <==>
      && resp.Answered? && resp.status == 200 && resp.body.value.Verified?
      && (strict ==> resp.body.value.checksumVerified)
      && (file != "" ==> writes)
    ensures outcome.written ==>
      file != "" && resp.Answered? && resp.status == 200 && resp.body.value.Verified?
      && (strict ==> resp.body.value.checksumVerified)
    ensures outcome.error.None? && file != "" ==> outcome.written && outcome.path == file
    ensures outcome.result.Some? <==> resp.Answered? && resp.status == 200 && resp.body.value.Verified?
    ensures outcome.result.Some? ==> outcome.result.value == resp.body.value.checksumVerified
    ensures outcome.error.Some? ==> var error := outcome.error.value;
      if !resp.Answered? then error.reason == RequestFailed
      else if resp.status != 200 then error.httpStatus == resp.status && IsReasonOf(error.reason, resp.status)
      else if resp.body.value.Corrupt? then error.reason == resp.body.value.reason
      else if strict && !resp.body.value.checksumVerified then error.reason == ContractLegacy
      else error.reason == FileWrite
  {
    if !resp.Answered? {
      return SnapshotOutcome(None, Fail(RequestFailed, []), false, "");
    }
    if resp.status != 200 {
      return SnapshotOutcome(None, Some(StatusError(resp.status)), false, "");
    }
    var verification := resp.body.value;
    if verification.Corrupt? {
      return SnapshotOutcome(None, Fail(verification.reason, []), false, "");
    }
    var result := Some(verification.checksumVerified);
    if strict && !verification.checksumVerified {
      return SnapshotOutcome(result, Fail(ContractLegacy, []), false, "");
    }
    outcome := SnapshotOutcome(result, None, false, "");
    if file != "" {
      if !writes {
        return outcome.(error := Fail(FileWrite, []));
      }
      outcome := outcome.(written := true, path := file);
    }
  }

  method Snapshot(strict: bool, file: string, resp: Response<Verification>, writes: bool)
    returns (report: LifecycleReport, outcome: SnapshotOutcome)
    requires resp.Answered? ==> resp.body.Some?
    ensures fresh(report)
    ensures outcome.error.None? <==>
      && resp.Answered? && resp.status == 200 && resp.body.value.Verified?
      && (strict ==> resp.body.value.checksumVerified)
      && (file != "" ==> writes)
    ensures outcome.written ==>
      file != "" && resp.Answered? && resp.status == 200 && resp.body.value.Verified?
      && (strict ==> resp.body.value.checksumVerified)
    ensures outcome.error.None? && file != "" ==> outcome.written && outcome.path == file
    ensures report.contract ==
      if resp.Answered? && resp.status == 200 && resp.body.value.Verified?
      then Some(if resp.body.value.checksumVerified then Durable else Legacy) else None
    ensures report.notes == if report.contract == Some(Legacy) then [UncheckedDocument] else []
    ensures strict && outcome.error.None? ==> report.contract == Some(Durable) && report.notes == []
  {
    outcome := DoSnapshot(strict, file, resp, writes);
    report := new LifecycleReport(None);
    var reported := if outcome.result.None? then None else Some(if outcome.result.value then Durable else Legacy);
    report.Claim(reported, UncheckedDocument);
  }

  // ----- when a restore is a success -----

  lemma {:induction false} NoneFailed(deps: seq<Dependency>)
    ensures FailedDependencies(deps) == [] <==> forall d :: d in deps ==> d.status != "failed"
  {
    if deps != [] {
      NoneFailed(deps[..|deps| - 1]);
      assert deps == deps[..|deps| - 1] + [deps[|deps| - 1]];
    }
  }

  /** The mode a decoded body is judged by: its own, or the asked one when it names none. */
  function EffectiveMode(body: RestoreResult, commit: bool): string {
    if body.mode != "" then body.mode else AskedMode(commit)
  }

  predicate Clean(body: RestoreResult, commit: bool) {
    && (forall d :: d in body.dependencies ==> d.status != "failed")
    && body.compatible != Some(false)
    && body.result != "rolled-back" && body.result != "ROLLBACK-FAILED"
    && body.errors == []
    && (EffectiveMode(body, commit) == COMMIT ==> body.result == "ok" && body.persisted != Some(false))
  }

  /** Durable as a strict caller needs it: of a commit the write-through, of
      anything else the identity of the document. */
  predicate ReportsDurably(body: RestoreResult, commit: bool) {
    if EffectiveMode(body, commit) == COMMIT then body.persisted.Some?
    else body.schemaVersion != "" && body.compatible.Some?
  }

  /** doRestore returns no error exactly for a 2xx answer from the pipeline that
      is clean, and under --strict durable. */
  lemma RestoreSucceedsExactly(doc: Document, commit: bool, strict: bool, resp: Response<RestoreResult>)
    ensures DoRestore(doc, commit, strict, resp).error.None? <==>
      && doc.Loaded? && resp.Answered? && Is2xx(resp.status) && resp.body.Some?
      && LooksLikeRestoreResult(resp.body.value)
      && Clean(resp.body.value, commit)
      && (strict ==> ReportsDurably(resp.body.value, commit))
  {
    if resp.Answered? && resp.body.Some? {
      NoneFailed(resp.body.value.dependencies);
    }
  }

  /** The asked mode decides only where the body names none: otherwise a commit
      and a dry run are judged alike, so that a commit answered with a clean
      dry-run body is a success. A body that names none is judged as if it named
      the asked one. */
  lemma AskedModeDecidesOnlyWhenAbsent(doc: Document, strict: bool, resp: Response<RestoreResult>)
    ensures resp.Answered? && resp.body.Some? && resp.body.value.mode != "" ==>
      DoRestore(doc, true, strict, resp) == DoRestore(doc, false, strict, resp)
    ensures resp.Answered? && resp.body.Some? && resp.body.value.mode == "" && LooksLikeRestoreResult(resp.body.value) ==>
      forall commit :: DoRestore(doc, commit, strict, resp)
        == DoRestore(doc, commit, strict, Answered(resp.status, Some(resp.body.value.(mode := AskedMode(commit)))))
    ensures var planned := Answered(200, Some(RestoreResult("", Some(true), "1", [], [], "", [], None)));
      DoRestore(Loaded, false, true, planned).error.None? && DoRestore(Loaded, true, true, planned).error.Some?
    ensures DoRestore(Loaded, true, true, Answered(200, Some(
      RestoreResult(DRY_RUN, Some(true), "1", [], [], "", [], None)))).error.None?
  {
    var body := RestoreResult(DRY_RUN, Some(true), "1", [], [], "", [], None);
    RestoreSucceedsExactly(Loaded, true, true, Answered(200, Some(body)));
    var planned := Answered(200, Some(body.(mode := "")));
    RestoreSucceedsExactly(Loaded, false, true, planned);
    RestoreSucceedsExactly(Loaded, true, true, planned);
    hide FailedDependencies, RestoreVerdict;
  }

  // ----- when a persist is a success, and why one fails -----

  /** doPersist returns no error exactly for a 200 whose body decodes and says ok,
      and under --strict names the document and where it went. */
  lemma PersistSucceedsExactly(strict: bool, resp: Response<PersistResult>)
    ensures DoPersist(strict, resp).error.None? <==>
      && resp.Answered? && resp.status == 200 && resp.body.Some? && resp.body.value.result == "ok"
      && (strict ==>
            && resp.body.value.schemaVersion != "" && resp.body.value.generation.Some?
            && resp.body.value.path != "" && resp.body.value.checksum != "")
  {
  }

  /** The reason of a failed persist. */
  lemma PersistFailsExactly(strict: bool, resp: Response<PersistResult>)
    requires DoPersist(strict, resp).error.Some?
    ensures var error := DoPersist(strict, resp).error.value;
      && (error.reason == ResultNotOK <==>
            resp.Answered? && resp.status == 200 && resp.body.Some? && resp.body.value.result != "ok")
      && (error.reason == ContractLegacy <==>
            strict && resp.Answered? && resp.status == 200 && resp.body.Some? && resp.body.value.result == "ok")
      && (error.reason == DecodeFailed <==> resp.Answered? && resp.status == 200 && resp.body.None?)
      && (error.reason == RequestFailed <==> !resp.Answered?)
      && (resp.Answered? && resp.status != 200 ==> error.httpStatus == resp.status && IsReasonOf(error.reason, resp.status))
  {
  }

  /** The report claims the durable contract exactly for a persisted document whose
      schema version and generation came back, and the older one for any other body. */
  lemma PersistClaimsExactly(strict: bool, resp: Response<PersistResult>)
    ensures DoPersist(strict, resp).result.Some? <==> resp.Answered? && resp.status == 200 && resp.body.Some?
    ensures DoPersist(strict, resp).result.Some? ==>
      && DoPersist(strict, resp).result == resp.body
      && (PersistCapabilities(resp.body.value) == Durable <==>
            resp.body.value.schemaVersion != "" && resp.body.value.generation.Some?)
  {
  }

  /** What a refused status stands for. */
  predicate IsReasonOf(reason: Reason, status: int) {
    match reason
    case Unauthorized => status == 401
    case Busy => status == 409
    case Maintenance => status == 503
    case ServerError => status >= 500 && status != 503
    case BadRequest => status < 500 && status !in {401, 409}
    case _ => false
  }

  // ----- why a restore fails -----

  predicate DependenciesFailed(r: RestoreResult) { exists d :: d in r.dependencies && d.status == "failed" }

  /** Where the pipeline of a restore stopped, from the fields of what it reports;
      the first that applies. */
  lemma RestoreVerdictExactly(r: RestoreResult, strict: bool)
    ensures var v := RestoreVerdict(r, strict);
      && (v.Some? && v.value.reason == DependencyFailed <==> DependenciesFailed(r))
      && (v.Some? && v.value.reason == Incompatible <==> !DependenciesFailed(r) && r.compatible == Some(false))
      && (v.Some? && v.value.reason == RollbackFailed <==> Ran(r) && r.result == "ROLLBACK-FAILED")
      && (v.Some? && v.value.reason == RolledBack <==> Ran(r) && r.result == "rolled-back")
      && (v.Some? && v.value.reason == ResultNotOK <==>
            Ran(r) && r.mode == COMMIT && r.result !in {"ok", "rolled-back", "ROLLBACK-FAILED"})
      && (v.Some? && v.value.reason == NotPersisted <==>
            Ran(r) && r.mode == COMMIT && r.result == "ok" && r.persisted == Some(false))
      && (v.Some? && v.value.reason == ValidationFailed <==> Finished(r) && r.errors != [])
      && (v.Some? && v.value.reason == ContractLegacy <==>
            Finished(r) && r.errors == [] && strict
            && if r.mode == COMMIT then r.persisted.None? else r.schemaVersion == "" || r.compatible.None?)
  {
    NoneFailed(r.dependencies);
    hide FailedDependencies;
  }

  /** Why a restore fails: before the gateway answers, for an answer that is not
      from the pipeline, by the verdict on its body, or by its status alone. */
  lemma RestoreFailsExactly(doc: Document, commit: bool, strict: bool, resp: Response<RestoreResult>)
    requires DoRestore(doc, commit, strict, resp).error.Some?
    ensures var outcome := DoRestore(doc, commit, strict, resp);
      var error := outcome.error.value;
      if doc.NoFile? then error.reason == InvalidArguments && outcome.result.None?
      else if doc.Unreadable? then error.reason == FileRead && outcome.result.None?
      else if doc.NotJSON? then error.reason == InvalidJSON && outcome.result.None?
      else if !resp.Answered? then error.reason == RequestFailed && outcome.result.None?
      else if resp.body.None? || !LooksLikeRestoreResult(resp.body.value) then
        && outcome.result.None?
        && if Is2xx(resp.status) then error.reason == DecodeFailed
           else error.httpStatus == resp.status && IsReasonOf(error.reason, resp.status)
      else
        var judged := resp.body.value.(mode := EffectiveMode(resp.body.value, commit));
        && outcome.result == Some(judged) && error.httpStatus == resp.status
        && if RestoreVerdict(judged, strict).Some? then error.reason == RestoreVerdict(judged, strict).value.reason
           else !Is2xx(resp.status) && IsReasonOf(error.reason, resp.status)
  {
    hide FailedDependencies, LooksLikeRestoreResult;
  }

  /** A body is from the pipeline when any field it fills is there. */
  lemma LooksLikeExactly(r: RestoreResult)
    ensures !LooksLikeRestoreResult(r) <==>
      r == RestoreResult("", None, "", [], [], "", r.dependencies, r.persisted)
  {
  }

  predicate Ran(r: RestoreResult) { !DependenciesFailed(r) && r.compatible != Some(false) }

  predicate Finished(r: RestoreResult) {
    Ran(r) && r.result !in {"rolled-back", "ROLLBACK-FAILED"}
    && (r.mode == COMMIT ==> r.result == "ok" && r.persisted != Some(false))
  }

  /** The failed dependencies are listed in order, each by its text. */
  lemma {:induction false} FailedConcat(a: seq<Dependency>, b: seq<Dependency>)
    ensures FailedDependencies(a + b) == FailedDependencies(a) + FailedDependencies(b)
  {
    if b == [] {
      assert a + b == a;
    } else {
      assert (a + b)[..|a + b| - 1] == a + b[..|b| - 1];
      FailedConcat(a, b[..|b| - 1]);
    }
  }

  lemma FailedOne(d: Dependency)
    ensures FailedDependencies([d]) == if d.status == "failed" then [d.ToText()] else []
  {
    assert [d][..0] == [];
  }

  // ----- strictness -----

  /** --strict only adds contract refusals: a verdict that fails without it fails
      identically with it, and what fails only with it is the contract. */
  lemma StrictOnlyAdds(r: RestoreResult, p: PersistResult)
    ensures RestoreVerdict(r, false).Some? ==> RestoreVerdict(r, true) == RestoreVerdict(r, false)
    ensures PersistVerdict(p, false).Some? ==> PersistVerdict(p, true) == PersistVerdict(p, false)
    ensures RestoreVerdict(r, false).None? && RestoreVerdict(r, true).Some? ==>
      RestoreVerdict(r, true).value.reason == ContractLegacy && RestoreCapabilities(r) == Legacy
    ensures PersistVerdict(p, false).None? && PersistVerdict(p, true).Some? ==>
      PersistVerdict(p, true).value.reason == ContractLegacy
  {
  }

  /** The same of whole outcomes, but for one case: a non-2xx answer whose body
      is clean and reports no contract is refused by its status without --strict
      and as the older contract with it. */
  lemma StrictOutcomeOnlyAdds(doc: Document, commit: bool, resp: Response<RestoreResult>)
    ensures var lax, strict := DoRestore(doc, commit, false, resp), DoRestore(doc, commit, true, resp);
      && strict.result == lax.result
      && (lax.error.Some? ==>
            && strict.error.Some?
            && (strict.error != lax.error <==> RefusedTwice(doc, commit, resp))
            && (strict.error != lax.error ==> strict.error.value.reason == ContractLegacy))
  {
    hide FailedDependencies, LooksLikeRestoreResult, RestoreVerdict, Clean, ReportsDurably;
    if resp.Answered? && resp.body.Some? {
      JudgedOnlyAdds(resp.body.value, commit);
    }
  }

  /** The same of the verdict on a body under the mode it is judged by. */
  lemma JudgedOnlyAdds(body: RestoreResult, commit: bool)
    ensures var r := Judged(body, commit);
      && (RestoreVerdict(r, false).None? <==> Clean(body, commit))
      && (RestoreVerdict(r, false).Some? ==> RestoreVerdict(r, true) == RestoreVerdict(r, false))
      && (RestoreVerdict(r, false).None? ==> (RestoreVerdict(r, true).Some? <==> !ReportsDurably(body, commit)))
      && (RestoreVerdict(r, false).None? && RestoreVerdict(r, true).Some? ==>
            RestoreVerdict(r, true).value.reason == ContractLegacy)
  {
    NoneFailed(body.dependencies);
    hide FailedDependencies;
  }

  predicate RefusedTwice(doc: Document, commit: bool, resp: Response<RestoreResult>) {
    && doc.Loaded? && resp.Answered? && !Is2xx(resp.status) && resp.body.Some?
    && LooksLikeRestoreResult(resp.body.value)
    && Clean(resp.body.value, commit) && !ReportsDurably(resp.body.value, commit)
  }

  /** Such an answer: a dry run that fails in the gateway with a bare plan. */
  lemma StrictRenamesRefusal()
    ensures var body := RestoreResult("", None, "", [PlanItem("lb", 0, 1)], [], "", [], None);
      var resp := Answered(500, Some(body));
      && DoRestore(Loaded, false, false, resp).error == Some(LifecycleError(ServerError, 500, []))
      && DoRestore(Loaded, false, true, resp).error == Some(LifecycleError(ContractLegacy, 500, []))
  {
  }

  lemma StrictPersistOnlyAdds(resp: Response<PersistResult>)
    ensures var lax, strict := DoPersist(false, resp), DoPersist(true, resp);
      strict.result == lax.result && (lax.error.Some? ==> strict.error == lax.error)
  {
  }

  /** What each exit status stands for. */
  lemma ExitStatusExactly(reason: Reason)
    ensures var exit := ExitCode(CodeOf(reason));
      && (exit == 2 <==> reason in {InvalidArguments, InvalidJSON})
      && (exit == 3 <==> reason == Unauthorized)
      && (exit == 4 <==> reason in {FileRead, Maintenance, DependencyFailed})
      && (exit == 5 <==> reason in {RequestFailed, Busy})
      && (exit == 6 <==> reason in {BadRequest, DecodeFailed, Incompatible, ValidationFailed, ChecksumMismatch, ContractLegacy})
      && (exit == 7 <==> reason in {FileWrite, ServerError, ResultNotOK, RolledBack})
      && (exit == 8 <==> reason in {RollbackFailed, NotPersisted})
  {
  }

  /** A restore that asks an operator to recover is exactly one that changed the
      gateway and did not finish: exit 8. */
  lemma RestoreExitsPartialExactly(doc: Document, commit: bool, strict: bool, resp: Response<RestoreResult>)
    requires DoRestore(doc, commit, strict, resp).error.Some?
    ensures var outcome := DoRestore(doc, commit, strict, resp);
      ExitCode(CodeOf(outcome.error.value.reason)) == 8 <==>
        && outcome.result.Some?
        && FailedDependencies(outcome.result.value.dependencies) == []
        && outcome.result.value.compatible != Some(false)
        && (outcome.result.value.result == "ROLLBACK-FAILED"
            || (outcome.result.value.mode == COMMIT && outcome.result.value.result == "ok"
                && outcome.result.value.persisted == Some(false)))
  {
    hide FailedDependencies, LooksLikeRestoreResult;
  }
}
