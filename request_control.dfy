/** RequestControlService.processServiceRequest: the pipeline that answers one service request.
    It validates the request for every control type it names, runs the REQUEST-level cache
    operations, runs the checks and, when none of them found anything wrong, the updates, and
    folds each phase into the answer with joinResults. */
module RequestControl {
  import JavaText
  import opened Wrappers
  import opened IdLists
  import opened OperatorsModel
  import opened ServiceData
  import opened Storage
  import opened IdentifierQueries
  import opened ResultJoining
  import opened RequestRows
  import opened RequestCaching
  import opened TempCaches
  import opened ClientAttributeErrors
  import RV = RequestVersionOperator
  import CI = ControlIdentifiersOperator
  import CA = ClientAttributesOperator

  /** The service's four configuration switches. */
  datatype Flags = Flags(abortOnCheckError: bool, clientAttributesCheckEnabled: bool,
                         identifiersCheckEnabled: bool, requestVersionCheckEnabled: bool)

  /** `results` followed by what `r` holds, or `r`'s fault. */
  function Prepended<T>(results: seq<T>, r: Result<seq<T>>): (p: Result<seq<T>>)
    ensures p.Failure? <==> r.Failure?
  {
    if r.Failure? then r else Success(results + r.value)
  }

  // ---------------------------------------------------------------------------------------
  // validateServiceRequest

  const NO_IDENTIFIERS := "В запросе не указаны идентификаторы обращения"
  const NO_IDENTIFIERS_ERROR := NO_IDENTIFIERS + ";" + LINE_SEPARATOR
  const NOT_ENOUGH_REQUEST_DATA := "Недостаточно данных для обработки запроса. "
  const NOT_ENOUGH_IDENTIFIERS_DATA := "Недостаточно данных для обработки контрольных идентификаторов."
  const NOT_ENOUGH_ATTRIBUTES_DATA := "Недостаточно данных для обработки клиентских атрибутов."
  const NOT_ENOUGH_VERSION_DATA := "Недостаточно данных для обработки версионности."

  /** validateRequestData: caching and confirming need the request's identifiers. */
  function RequestDataErrors(sr: ServiceRequest): string {
    var op := RequestOperation(sr);
    if (op == Some(Operation.CacheCurrentValues) || op == Some(ConfirmRequest)) && (sr.idList.None? || |sr.idList.value| == 0)
    then NO_IDENTIFIERS_ERROR
    else ""
  }

  /** The REQUEST case of validateServiceRequest as written: the description is built, but
      `validated` keeps its initial true, so the result is OK whatever the data. */
  function RequestValidationAsWritten(sr: ServiceRequest): ControlTypeResult {
    var errors := RequestDataErrors(sr);
    var description := if JavaText.IsBlank(errors) then errors else NOT_ENOUGH_REQUEST_DATA + errors;
    var validated := true;
    if validated then Passed(Request) else ControlTypeResult(Request, Failed, Some(description))
  }

  /** As written, a request to cache current values that carries no identifiers passes the
      REQUEST validation, although the data check found the identifiers missing. */
  lemma RequestDataErrorIsDropped()
    ensures var sr := ServiceRequest("filial", DataFlowType1, "message", Some(2), None, None,
                                     map[Request := Operation.CacheCurrentValues]);
      RequestDataErrors(sr) == NO_IDENTIFIERS_ERROR && RequestValidationAsWritten(sr) == Passed(Request)
  {
  }

  /** The data check's description is not blank: it holds the ";" it appends. */
  lemma NoIdentifiersErrorIsNotBlank()
    ensures !JavaText.IsBlank(NO_IDENTIFIERS_ERROR)
  {
    assert NO_IDENTIFIERS_ERROR[|NO_IDENTIFIERS|] == ';';
  }

  /** The REQUEST case as evidently intended: FAILED with the data check's description when it
      found something. */
  function RequestValidation(sr: ServiceRequest): (r: ControlTypeResult)
    ensures r.controlType == Request && (r.status == Ok || r.status == Failed)
    ensures r.status == Ok <==> RequestDataErrors(sr) == ""
    ensures r.status != Ok ==> r.errorDescription == Some(NOT_ENOUGH_REQUEST_DATA + NO_IDENTIFIERS_ERROR)
  {
    var errors := RequestDataErrors(sr);
    NoIdentifiersErrorIsNotBlank();
    if JavaText.IsBlank(errors) then Passed(Request)
    else ControlTypeResult(Request, Failed, Some(NOT_ENOUGH_REQUEST_DATA + errors))
  }

  /** One iteration of validateServiceRequest: the control type's own validation when its check
      is enabled. REQUEST is validated as written, so it always passes. The request-version
      validation throws when the list has no id_integration. */
  function ValidationResult(flags: Flags, sr: ServiceRequest, ct: ControlType): (r: Result<ControlTypeResult>)
    ensures r.Success? ==> r.value.controlType == ct && (r.value.status == Ok || r.value.status == Failed)
  {
    match ct
    case Request => Success(RequestValidationAsWritten(sr))
    case ControlIdentifiers =>
      Success(if !flags.identifiersCheckEnabled || CI.ValidateRequest(sr) then Passed(ct)
              else ControlTypeResult(ct, Failed, Some(NOT_ENOUGH_IDENTIFIERS_DATA)))
    case ClientAttributes =>
      Success(if !flags.clientAttributesCheckEnabled || CA.ValidateRequest(sr) then Passed(ct)
              else ControlTypeResult(ct, Failed, Some(NOT_ENOUGH_ATTRIBUTES_DATA)))
    case RequestVersion =>
      if !flags.requestVersionCheckEnabled then Success(Passed(ct))
      else
        match RV.ValidateRequest(sr)
        case Failure(f) => Failure(f)
        case Success(ok) => Success(if ok then Passed(ct) else ControlTypeResult(ct, Failed, Some(NOT_ENOUGH_VERSION_DATA)))
  }

  /** The control type's validation ran and did not pass. */
  predicate Rejects(flags: Flags, sr: ServiceRequest, ct: ControlType) {
    ValidationResult(flags, sr, ct).Success? && ValidationResult(flags, sr, ct).value.status != Ok
  }

  /** The validation loop over `ts`: it stops after a REQUEST result that is not OK. */
  function ValidationFrom(flags: Flags, sr: ServiceRequest, ts: seq<ControlType>): Result<seq<ControlTypeResult>> {
    if ts == [] then Success([])
    else
      match ValidationResult(flags, sr, ts[0])
      case Failure(f) => Failure(f)
      case Success(r) =>
        if ts[0] == Request && r.status != Ok then Success([r])
        else Prepended([r], ValidationFrom(flags, sr, ts[1..]))
  }

  /** validateServiceRequest: the validation loop over the request's control types in priority
      order. */
  function ValidationResults(flags: Flags, sr: ServiceRequest): Result<seq<ControlTypeResult>> {
    ValidationFrom(flags, sr, ByPriority(sr.operators, ALL_OPERATIONS))
  }

  /** Which validations do not pass, control type by control type: never REQUEST, whatever its
      data check found. */
  lemma RejectsWhen(flags: Flags, sr: ServiceRequest, ct: ControlType)
    ensures Rejects(flags, sr, ct) <==>
      (ct == ControlIdentifiers && flags.identifiersCheckEnabled && !CI.ValidateRequest(sr))
      || (ct == ClientAttributes && flags.clientAttributesCheckEnabled && !CA.ValidateRequest(sr))
      || (ct == RequestVersion && flags.requestVersionCheckEnabled && RV.ValidateRequest(sr) == Success(false))
  {
  }

  /** The loop reports each control type's own validation, in order; some result is not OK
      exactly when some control type's validation did not pass. */
  lemma {:induction false} ValidationFromReports(flags: Flags, sr: ServiceRequest, ts: seq<ControlType>)
    requires ValidationFrom(flags, sr, ts).Success?
    ensures |ValidationFrom(flags, sr, ts).value| <= |ts|
    ensures var rs := ValidationFrom(flags, sr, ts).value;
      forall i :: 0 <= i < |rs| ==> ValidationResult(flags, sr, ts[i]) == Success(rs[i])
    ensures var rs := ValidationFrom(flags, sr, ts).value;
      (exists i :: 0 <= i < |rs| && rs[i].status != Ok) <==> (exists t :: t in ts && Rejects(flags, sr, t))
  {
    hide ValidationResult;
    if ts != [] {
      var rs := ValidationFrom(flags, sr, ts).value;
      var r := ValidationResult(flags, sr, ts[0]).value;
      if !(ts[0] == Request && r.status != Ok) {
        ValidationFromReports(flags, sr, ts[1..]);
        var rest := ValidationFrom(flags, sr, ts[1..]).value;
        assert rs == [r] + rest;
        forall i | 0 <= i < |rs| ensures ValidationResult(flags, sr, ts[i]) == Success(rs[i]) {
          if i > 0 {
            assert rs[i] == rest[i - 1] && ts[1..][i - 1] == ts[i];
          }
        }
        if exists t :: t in ts && Rejects(flags, sr, t) {
          var t :| t in ts && Rejects(flags, sr, t);
          if t != ts[0] {
            assert t in ts[1..];
            var j :| 0 <= j < |rest| && rest[j].status != Ok;
            assert rs[j + 1] == rest[j];
          }
        }
        if exists i :: 0 <= i < |rs| && rs[i].status != Ok {
          var i :| 0 <= i < |rs| && rs[i].status != Ok;
          if i > 0 {
            assert rest[i - 1].status != Ok;
            var t :| t in ts[1..] && Rejects(flags, sr, t);
            assert t in ts;
          } else {
            assert ts[0] in ts && Rejects(flags, sr, ts[0]);
          }
        }
      } else {
        assert ts[0] in ts && Rejects(flags, sr, ts[0]);
      }
    }
  }

  /** The loop throws only what a validation threw, and does throw it unless a REQUEST result
      that is not OK stopped it first. */
  lemma {:induction false} ValidationFromThrows(flags: Flags, sr: ServiceRequest, ts: seq<ControlType>)
    ensures ValidationFrom(flags, sr, ts).Failure? ==> exists t :: t in ts && ValidationResult(flags, sr, t).Failure?
    ensures (exists t :: t in ts && ValidationResult(flags, sr, t).Failure?) && !(Request in ts && Rejects(flags, sr, Request))
      ==> ValidationFrom(flags, sr, ts).Failure?
  {
    if ts != [] {
      ValidationFromThrows(flags, sr, ts[1..]);
      assert forall t :: t in ts <==> t == ts[0] || t in ts[1..];
    }
  }

  /** In a list sorted by strictly ascending priority, REQUEST can only come first and
      CLIENT_ATTRIBUTES only last. */
  lemma PriorityEnds(ts: seq<ControlType>, k: nat)
    requires StrictlyByPriority(ts) && k < |ts|
    ensures ts[k] == Request ==> k == 0
    ensures ts[k] == ClientAttributes ==> k == |ts| - 1
  {
    if k > 0 {
      assert CheckPriority(ts[0]) < CheckPriority(ts[k]);
    }
    if k < |ts| - 1 {
      assert CheckPriority(ts[k]) < CheckPriority(ts[|ts| - 1]);
    }
  }

  /** Some validation does not pass: the validateRequest of an operator whose check is
      enabled. The REQUEST data check never counts, as written. */
  predicate SomeValidationFails(flags: Flags, sr: ServiceRequest) {
    (ControlIdentifiers in sr.operators && flags.identifiersCheckEnabled && !CI.ValidateRequest(sr))
    || (ClientAttributes in sr.operators && flags.clientAttributesCheckEnabled && !CA.ValidateRequest(sr))
    || (RequestVersion in sr.operators && flags.requestVersionCheckEnabled && RV.ValidateRequest(sr) == Success(false))
  }

  /** validateServiceRequest throws exactly when the request-version validation is enabled and
      throws: the REQUEST result, always OK, never stops the loop before it. */
  lemma ValidationThrows(flags: Flags, sr: ServiceRequest)
    ensures ValidationResults(flags, sr).Failure? <==>
      RequestVersion in sr.operators && flags.requestVersionCheckEnabled && RV.ValidateRequest(sr).Failure?
  {
    var ts := ByPriority(sr.operators, ALL_OPERATIONS);
    AllKeysByPriority(sr.operators);
    ValidationFromThrows(flags, sr, ts);
    RejectsWhen(flags, sr, Request);
    hide ValidationFrom, ValidationResult, Rejects, ByPriority, CI.ValidateRequest, CA.ValidateRequest, RV.ValidateRequest;
    forall t ensures ValidationResult(flags, sr, t).Failure? <==>
      t == RequestVersion && flags.requestVersionCheckEnabled && RV.ValidateRequest(sr).Failure?
    {
      ThrowsOnlyForVersion(flags, sr, t);
    }
  }

  /** Only the request-version validation throws, and only when it is enabled. */
  lemma ThrowsOnlyForVersion(flags: Flags, sr: ServiceRequest, ct: ControlType)
    ensures ValidationResult(flags, sr, ct).Failure? <==>
      ct == RequestVersion && flags.requestVersionCheckEnabled && RV.ValidateRequest(sr).Failure?
  {
  }

  /** Otherwise every result is OK or FAILED, and some result is FAILED exactly when some
      validation fails. */
  lemma ValidationReports(flags: Flags, sr: ServiceRequest)
    requires ValidationResults(flags, sr).Success?
    ensures var rs := ValidationResults(flags, sr).value;
      forall i :: 0 <= i < |rs| ==> rs[i].status == Ok || rs[i].status == Failed
    ensures var rs := ValidationResults(flags, sr).value;
      (exists i :: 0 <= i < |rs| && rs[i].status != Ok) <==> SomeValidationFails(flags, sr)
  {
    hide CI.ValidateRequest, CA.ValidateRequest, RV.ValidateRequest, ValidationFrom, ValidationResult, Rejects,
      RequestDataErrors, ByPriority;
    var ts := ByPriority(sr.operators, ALL_OPERATIONS);
    AllKeysByPriority(sr.operators);
    ValidationFromReports(flags, sr, ts);
    var rs := ValidationResults(flags, sr).value;
    forall i | 0 <= i < |rs| ensures rs[i].status == Ok || rs[i].status == Failed {
      assert ValidationResult(flags, sr, ts[i]) == Success(rs[i]);
    }
    if SomeValidationFails(flags, sr) {
      if ControlIdentifiers in sr.operators && flags.identifiersCheckEnabled && !CI.ValidateRequest(sr) {
        RejectsWhen(flags, sr, ControlIdentifiers);
        assert ControlIdentifiers in ts;
      } else if ClientAttributes in sr.operators && flags.clientAttributesCheckEnabled && !CA.ValidateRequest(sr) {
        RejectsWhen(flags, sr, ClientAttributes);
        assert ClientAttributes in ts;
      } else {
        RejectsWhen(flags, sr, RequestVersion);
        assert RequestVersion in ts;
      }
    }
    if exists t :: t in ts && Rejects(flags, sr, t) {
      var t :| t in ts && Rejects(flags, sr, t);
      RejectsWhen(flags, sr, t);
    }
  }

  // ---------------------------------------------------------------------------------------
  // checkIdentifiersAndVersion

  const VERSION_NOT_FOUND := "Не найден номер версии обращения"

  /** checkIdentifiersAndVersion: one check of identifiers and version together, under the
      REQUEST control type. With nothing stored it passes a first version or a request with a
      non-blank id_integration. Otherwise an outdated version is an error, and unless the
      service aborts on it the identifiers are checked too (which fills in the missing ones); the
      errors are joined. A missing version throws on unboxing. */
  function IdentifiersAndVersionEffect(flags: Flags, t: Tables, sr: ServiceRequest): Effect<ControlTypeResult> {
    hide RV.StoredVersion, StoredRow, RowIdentifiers;
    var ctr := RequestCtr(sr);
    match IdentifiersFromDB(t.identifiers, ctr)
    case Failure(f) => Effect(t, Failure(f))
    case Success(stored) =>
      if |stored| == 0 then
        match VersionIsOne(ctr.requestVersion)
        case Failure(f) => Effect(t, Failure(f))
        case Success(isOne) =>
          Effect(t, Success(if isOne || HasValue(ctr.requestIdentifiers.value, IdIntegration) then Passed(Request)
                            else ControlTypeResult(Request, Error, Some(RV.MUST_BE_ONE))))
      else
        match RV.StoredVersion(t.identifiers, ctr)
        case Failure(f) => Effect(t, Failure(f))
        case Success(saved) =>
          if saved.None? then Effect(t, Success(ControlTypeResult(Request, Failed, Some(VERSION_NOT_FOUND))))
          else if ctr.requestVersion.None? then Effect(t, Failure(RV.NULL_POINTER))
          else
            var outdated := saved.value >= ctr.requestVersion.value;
            var versionErrors := if outdated then [RV.OutdatedMessage(saved.value)] else [];
            var e := if flags.abortOnCheckError && outdated then Effect(t, Success([]))
                     else CI.CheckIdentifiersEffect(t, ctr, stored);
            var errors := versionErrors + e.result.value;
            Effect(e.tables, Success(if errors == [] then Passed(Request)
                                     else ControlTypeResult(Request, Error, Some(JavaText.Join(ERROR_SEPARATOR, errors)))))
  }

  /** With nothing stored the joint check writes nothing: it throws without a version, passes
      version 1 or a non-blank id_integration, and otherwise demands version 1. */
  lemma IdentifiersAndVersionWithoutStoredRow(flags: Flags, t: Tables, sr: ServiceRequest)
    requires IdentifiersFromDB(t.identifiers, RequestCtr(sr)) == Success([])
    ensures IdentifiersAndVersionEffect(flags, t, sr).tables == t
    ensures var r := IdentifiersAndVersionEffect(flags, t, sr).result;
      if sr.requestVersion.None? then r.Failure? && r.fault.RuntimeFault?
      else if sr.requestVersion == Some(1) || HasValue(sr.idList.value, IdIntegration) then r == Success(Passed(Request))
      else r == Success(ControlTypeResult(Request, Error, Some(RV.MUST_BE_ONE)))
  {
  }

  /** The "version not found" answer cannot happen: wherever a row is stored, the version lookup
      finds its version, so the joint check never reports FAILED with VERSION_NOT_FOUND. */
  lemma VersionNotFoundIsUnreachable(flags: Flags, t: Tables, sr: ServiceRequest)
    requires IdentifiersFromDB(t.identifiers, RequestCtr(sr)).Success? && IdentifiersFromDB(t.identifiers, RequestCtr(sr)).value != []
    ensures RV.StoredVersion(t.identifiers, RequestCtr(sr)).Success? && RV.StoredVersion(t.identifiers, RequestCtr(sr)).value.Some?
    ensures IdentifiersAndVersionEffect(flags, t, sr).result != Success(ControlTypeResult(Request, Failed, Some(VERSION_NOT_FOUND)))
  {
    RV.StoredRowHasVersion(t.identifiers, RequestCtr(sr));
  }

  /** Against a stored row and version the joint check passes exactly when the version is newer
      and every stored identifier is matched, as the two separate checks would have it. An
      outdated version is reported first; with abortOnCheckError it is reported alone and the
      identifiers are neither compared nor filled in. */
  lemma IdentifiersAndVersionWithStoredRow(flags: Flags, t: Tables, sr: ServiceRequest, saved: int, v: int)
    requires IdentifiersFromDB(t.identifiers, RequestCtr(sr)).Success? && IdentifiersFromDB(t.identifiers, RequestCtr(sr)).value != []
    requires RV.StoredVersion(t.identifiers, RequestCtr(sr)) == Success(Some(saved)) && sr.requestVersion == Some(v)
    ensures IdentifiersAndVersionEffect(flags, t, sr).result.Success?
    ensures var stored := IdentifiersFromDB(t.identifiers, RequestCtr(sr)).value;
      var r := IdentifiersAndVersionEffect(flags, t, sr).result.value;
      r.controlType == Request && (r.status == Ok || r.status == Error)
      && (r.status == Ok <==> saved < v && forall i :: 0 <= i < |stored| ==> CI.Matched(stored[i], sr.idList.value))
    ensures var stored := IdentifiersFromDB(t.identifiers, RequestCtr(sr)).value;
      var r := IdentifiersAndVersionEffect(flags, t, sr).result.value;
      saved >= v ==> r.errorDescription == Some(JavaText.Join(ERROR_SEPARATOR,
        [RV.OutdatedMessage(saved)] + if flags.abortOnCheckError then [] else CI.IdentifierErrors(stored, sr.idList.value)))
    ensures var stored := IdentifiersFromDB(t.identifiers, RequestCtr(sr)).value;
      IdentifiersAndVersionEffect(flags, t, sr).tables ==
        if flags.abortOnCheckError && saved >= v then t
        else t.(identifiers := CI.UpdateMissingRows(t.identifiers, FlowName(sr.dataFlowType), sr.filialName, stored, sr.idList.value))
  {
    hide RV.StoredVersion, CI.UpdateMissingRows, CI.IdentifierErrors, JavaText.Join, StoredRow, RowIdentifiers,
      IdentifiersFromDB, VersionIsOne, HasValue, RV.OutdatedMessage;
    var stored := IdentifiersFromDB(t.identifiers, RequestCtr(sr)).value;
    CI.NoErrorsIffAllMatched(stored, sr.idList.value);
  }

  // ---------------------------------------------------------------------------------------
  // getCheckResults

  /** What a phase leaves: the tables, the template cache, the saved request the
      client-attributes check parsed and stored in its cache (if it did), whether that check
      looked the saved request up in its cache (stamping the unit under its key), and the
      result. */
  datatype Run<T> = Run(tables: Tables, templates: map<string, Template>, store: Option<ParsedRequest>, lookedUp: bool,
                         result: Result<T>)

  const IDENTIFIERS_CHECK_DISABLED := "Проверка идентификаторов отключена."
  const VERSION_CHECK_DISABLED := "Проверка версии обращения отключена."
  const ATTRIBUTES_CHECK_DISABLED := "Проверка клиентских атрибутов отключена."
  const UNKNOWN_REQUEST_OPERATOR := "Неизвестный тип оператора REQUEST"
  const CHECK_FAILED := "Не удалось выпоонить проверку обращения. "

  /** The control types to check (CHECK or CHECK_AND_UPDATE), by priority. */
  function CheckControlTypes(ops: map<ControlType, Operation>): seq<ControlType> {
    ByPriority(ops, {Check, CheckAndUpdate})
  }

  /** The key the client-attributes check stores the saved request under. */
  function AttributesKey(sr: ServiceRequest): string {
    var g := GenerateControlTypeRequest(ClientAttributes, sr);
    if g.Success? then CA.CheckKey(g.value) else ""
  }

  /** One iteration of the check loop: the operator's check when it is enabled, a warning when
      it is not. REQUEST has no check of its own and throws. */
  ghost function CheckStep(flags: Flags, env: CA.Env, t: Tables, tcache: map<string, Template>,
                           scache: map<string, Unit<ParsedRequest>>, cacheOrder: seq<string>, sr: ServiceRequest,
                           now: int, ct: ControlType): (s: Run<ControlTypeResult>)
    requires CA.ValidEnv(env) && CA.TemplatesValid(tcache) && CA.RequestsValid(scache)
    ensures CA.TemplatesValid(s.templates)
    ensures ct != ClientAttributes ==> s.templates == tcache && s.store.None? && !s.lookedUp
  {
    hide CI.CheckControlIdentifiersEffect, RV.CheckRequestVersion, CA.CheckingOutcome;
    match GenerateControlTypeRequest(ct, sr)
    case Failure(f) => Run(t, tcache, None, false, Failure(f))
    case Success(ctr) =>
      match ct
      case ControlIdentifiers =>
        if flags.identifiersCheckEnabled then
          var e := CI.CheckControlIdentifiersEffect(t, ctr);
          Run(e.tables, tcache, None, false, e.result)
        else Run(t, tcache, None, false, Success(ControlTypeResult(ct, OkWithWarnings, Some(IDENTIFIERS_CHECK_DISABLED))))
      case RequestVersion =>
        if flags.requestVersionCheckEnabled then Run(t, tcache, None, false, RV.CheckRequestVersion(t.identifiers, ctr))
        else Run(t, tcache, None, false, Success(ControlTypeResult(ct, OkWithWarnings, Some(VERSION_CHECK_DISABLED))))
      case ClientAttributes =>
        if flags.clientAttributesCheckEnabled then
          CA.CheckCatchesServiceFaults(env, t, tcache, scache, cacheOrder, ctr, now);
          var c := CA.CheckingOutcome(env, t, tcache, scache, cacheOrder, ctr, now);
          Run(t, c.templates, c.store, CA.CheckLooksUp(env, t, tcache, ctr, now), c.result)
        else Run(t, tcache, None, false, Success(ControlTypeResult(ct, OkWithWarnings, Some(ATTRIBUTES_CHECK_DISABLED))))
      case Request => Run(t, tcache, None, false, Failure(ServiceFault(UNKNOWN_REQUEST_OPERATOR)))
  }

  /** A check step consults the saved-request cache only as the enabled client-attributes
      check of a request that is present and parses. */
  lemma CheckStepLooksUpOnlyForClientAttributes(flags: Flags, env: CA.Env, t: Tables, tcache: map<string, Template>,
                                                scache: map<string, Unit<ParsedRequest>>, cacheOrder: seq<string>,
                                                sr: ServiceRequest, now: int, ct: ControlType)
    requires CA.ValidEnv(env) && CA.TemplatesValid(tcache) && CA.RequestsValid(scache)
    ensures CheckStep(flags, env, t, tcache, scache, cacheOrder, sr, now, ct).lookedUp ==>
      ct == ClientAttributes && flags.clientAttributesCheckEnabled && GenerateControlTypeRequest(ct, sr).Success?
      && CA.LooksUpSaved(env, GenerateControlTypeRequest(ct, sr).value)
  {
    hide CI.CheckControlIdentifiersEffect, RV.CheckRequestVersion, CA.CheckingOutcome, CA.CurrentTemplate;
  }

  /** `results` before the run `r`: its state, the store it made or else `store`, a lookup if
      either looked up, and its results after `results`. */
  function Merged<T>(results: seq<T>, store: Option<ParsedRequest>, lookedUp: bool, r: Run<seq<T>>): Run<seq<T>> {
    Run(r.tables, r.templates, if r.store.Some? then r.store else store, lookedUp || r.lookedUp, Prepended(results, r.result))
  }

  /** The check loop over `ts`: it stops at the first exception, and after an ERROR when
      abortOnCheckError is set. */
  ghost function CheckLoop(flags: Flags, env: CA.Env, t: Tables, tcache: map<string, Template>,
                           scache: map<string, Unit<ParsedRequest>>, cacheOrder: seq<string>, sr: ServiceRequest,
                           now: int, ts: seq<ControlType>): (s: Run<seq<ControlTypeResult>>)
    requires CA.ValidEnv(env) && CA.TemplatesValid(tcache) && CA.RequestsValid(scache)
    ensures CA.TemplatesValid(s.templates)
    decreases |ts|
  {
    hide CheckStep;
    if ts == [] then Run(t, tcache, None, false, Success([]))
    else
      var s := CheckStep(flags, env, t, tcache, scache, cacheOrder, sr, now, ts[0]);
      match s.result
      case Failure(f) => Run(s.tables, s.templates, s.store, s.lookedUp, Failure(f))
      case Success(r) =>
        if flags.abortOnCheckError && r.status == Error then Run(s.tables, s.templates, s.store, s.lookedUp, Success([r]))
        else Merged([r], s.store, s.lookedUp, CheckLoop(flags, env, s.tables, s.templates, scache, cacheOrder, sr, now, ts[1..]))
  }

  /** The joint check of identifiers and version runs when both are to be checked and both
      checks are enabled. */
  predicate JointCheck(flags: Flags, ts: seq<ControlType>) {
    ControlIdentifiers in ts && RequestVersion in ts && flags.requestVersionCheckEnabled && flags.identifiersCheckEnabled
  }

  /** `ts` with the first `x` removed, as List.remove(Object) does. */
  function Removed(ts: seq<ControlType>, x: ControlType): (r: seq<ControlType>)
    ensures StrictlyByPriority(ts) ==> StrictlyByPriority(r) && forall t :: t in r <==> t in ts && t != x
  {
    if ts == [] then []
    else if ts[0] == x then
      assert StrictlyByPriority(ts) ==> forall t :: t in ts[1..] ==> t != x by {
        if StrictlyByPriority(ts) {
          forall t | t in ts[1..] ensures t != x {
            var k :| 1 <= k < |ts| && ts[k] == t;
            assert CheckPriority(ts[0]) < CheckPriority(ts[k]);
          }
        }
      }
      ts[1..]
    else
      var rest := Removed(ts[1..], x);
      assert forall t :: t in ts <==> t == ts[0] || t in ts[1..];
      assert StrictlyByPriority(ts) ==> StrictlyByPriority([ts[0]] + rest) by {
        if StrictlyByPriority(ts) {
          StrictTail(ts);
          forall t | t in rest ensures CheckPriority(ts[0]) < CheckPriority(t) {
            var k :| 1 <= k < |ts| && ts[k] == t;
          }
          assert forall i :: 0 < i < |[ts[0]] + rest| ==> ([ts[0]] + rest)[i] == rest[i - 1];
        }
      }
      [ts[0]] + rest
  }

  lemma StrictTail(ts: seq<ControlType>)
    requires StrictlyByPriority(ts) && ts != []
    ensures StrictlyByPriority(ts[1..])
  {
    forall i, j | 0 <= i < j < |ts[1..]| ensures CheckPriority(ts[1..][i]) < CheckPriority(ts[1..][j]) {
      assert ts[1..][i] == ts[i + 1] && ts[1..][j] == ts[j + 1];
    }
  }

  /** A service exception anywhere in the checks replaces every result with one FAILED result
      under REQUEST. */
  function CaughtChecks(r: Result<seq<ControlTypeResult>>): Result<seq<ControlTypeResult>> {
    if r.Failure? && r.fault.ServiceFault? then Success([ControlTypeResult(Request, Failed, Some(CHECK_FAILED + LINE_SEPARATOR + r.fault.message))])
    else r
  }

  /** getCheckResults (with doChecks, which only opens the connection): the joint check first
      when it runs, then the loop over the remaining control types. */
  ghost function CheckResults(flags: Flags, env: CA.Env, t: Tables, tcache: map<string, Template>,
                              scache: map<string, Unit<ParsedRequest>>, cacheOrder: seq<string>, sr: ServiceRequest,
                              now: int): (s: Run<seq<ControlTypeResult>>)
    requires CA.ValidEnv(env) && CA.TemplatesValid(tcache) && CA.RequestsValid(scache)
    ensures CA.TemplatesValid(s.templates)
  {
    hide CheckLoop, IdentifiersAndVersionEffect;
    var ts := CheckControlTypes(sr.operators);
    var run :=
      if JointCheck(flags, ts) then
        var e := IdentifiersAndVersionEffect(flags, t, sr);
        match e.result
        case Failure(f) => Run(e.tables, tcache, None, false, Failure(f))
        case Success(r) =>
          if flags.abortOnCheckError && r.status == Error then Run(e.tables, tcache, None, false, Success([r]))
          else Merged([r], None, false, CheckLoop(flags, env, e.tables, tcache, scache, cacheOrder, sr, now,
                                           Removed(Removed(ts, RequestVersion), ControlIdentifiers)))
      else CheckLoop(flags, env, t, tcache, scache, cacheOrder, sr, now, ts);
    Run(run.tables, run.templates, run.store, run.lookedUp, CaughtChecks(run.result))
  }

  /** One check answers under its own control type, and only the REQUEST "check" throws a
      service exception: it has no operator and always throws. A disabled check answers with its
      warning and touches nothing. */
  lemma CheckStepReports(flags: Flags, env: CA.Env, t: Tables, tcache: map<string, Template>,
                         scache: map<string, Unit<ParsedRequest>>, cacheOrder: seq<string>, sr: ServiceRequest,
                         now: int, ct: ControlType)
    requires CA.ValidEnv(env) && CA.TemplatesValid(tcache) && CA.RequestsValid(scache)
    ensures var s := CheckStep(flags, env, t, tcache, scache, cacheOrder, sr, now, ct);
      (s.result.Success? ==> s.result.value.controlType == ct)
      && (s.result.Failure? ==> (s.result.fault.ServiceFault? <==> ct == Request))
    ensures ct == Request ==>
      CheckStep(flags, env, t, tcache, scache, cacheOrder, sr, now, ct)
        == Run(t, tcache, None, false, Failure(ServiceFault(UNKNOWN_REQUEST_OPERATOR)))
    ensures ct == ControlIdentifiers && !flags.identifiersCheckEnabled ==>
      CheckStep(flags, env, t, tcache, scache, cacheOrder, sr, now, ct)
        == Run(t, tcache, None, false, Success(ControlTypeResult(ct, OkWithWarnings, Some(IDENTIFIERS_CHECK_DISABLED))))
    ensures ct == RequestVersion && !flags.requestVersionCheckEnabled ==>
      CheckStep(flags, env, t, tcache, scache, cacheOrder, sr, now, ct)
        == Run(t, tcache, None, false, Success(ControlTypeResult(ct, OkWithWarnings, Some(VERSION_CHECK_DISABLED))))
    ensures ct == ClientAttributes && !flags.clientAttributesCheckEnabled && GenerateControlTypeRequest(ct, sr).Success? ==>
      CheckStep(flags, env, t, tcache, scache, cacheOrder, sr, now, ct)
        == Run(t, tcache, None, false, Success(ControlTypeResult(ct, OkWithWarnings, Some(ATTRIBUTES_CHECK_DISABLED))))
  {
    hide CI.CheckIdentifiersEffect, RV.StoredVersion, CA.CheckingOutcome, CI.IdentifierErrors, JavaText.Join;
    var g := GenerateControlTypeRequest(ct, sr);
    if g.Success? && ct == ClientAttributes && flags.clientAttributesCheckEnabled {
      CA.CheckCatchesServiceFaults(env, t, tcache, scache, cacheOrder, g.value, now);
    }
  }

  /** One check step answers under its own control type, and throws a service exception only
      for REQUEST. */
  lemma CheckStepAnswersForItsType(flags: Flags, env: CA.Env, t: Tables, tcache: map<string, Template>,
                                   scache: map<string, Unit<ParsedRequest>>, cacheOrder: seq<string>,
                                   sr: ServiceRequest, now: int, ct: ControlType)
    requires CA.ValidEnv(env) && CA.TemplatesValid(tcache) && CA.RequestsValid(scache)
    ensures var s := CheckStep(flags, env, t, tcache, scache, cacheOrder, sr, now, ct);
      (s.result.Success? ==> s.result.value.controlType == ct)
      && (s.result.Failure? && s.result.fault.ServiceFault? ==> ct == Request)
  {
    CheckStepReports(flags, env, t, tcache, scache, cacheOrder, sr, now, ct);
  }

  /** The answers `rs` of a loop over `ts`: one per control type it ran, in order, each under
      its own type; all of them unless abortOnCheckError stopped the loop, and then only at an
      ERROR, which is the last answer. */
  ghost predicate AnswersInOrder(flags: Flags, rs: seq<ControlTypeResult>, ts: seq<ControlType>) {
    |rs| <= |ts|
    && (forall i :: 0 <= i < |rs| ==> rs[i].controlType == ts[i])
    && (forall i :: 0 <= i < |rs| - 1 ==> !(flags.abortOnCheckError && rs[i].status == Error))
    && (|rs| < |ts| ==> flags.abortOnCheckError && rs != [] && rs[|rs| - 1].status == Error)
  }

  /** An answer for the first type that does not stop the loop, before the answers for the
      rest, answers in order. */
  lemma AnswerPrepended(flags: Flags, r: ControlTypeResult, rest: seq<ControlTypeResult>, ts: seq<ControlType>)
    requires ts != [] && r.controlType == ts[0] && !(flags.abortOnCheckError && r.status == Error)
    requires AnswersInOrder(flags, rest, ts[1..])
    ensures AnswersInOrder(flags, [r] + rest, ts)
  {
    var rs := [r] + rest;
    assert forall i :: 0 < i < |rs| ==> rs[i] == rest[i - 1] && ts[i] == ts[1..][i - 1];
  }

  /** The check loop reports the control types it ran, in order, each under its own type. It
      runs them all unless abortOnCheckError stops it, and then only at an ERROR, which it
      reports last. */
  lemma {:induction false} CheckLoopReports(flags: Flags, env: CA.Env, t: Tables, tcache: map<string, Template>,
                                            scache: map<string, Unit<ParsedRequest>>, cacheOrder: seq<string>,
                                            sr: ServiceRequest, now: int, ts: seq<ControlType>)
    requires CA.ValidEnv(env) && CA.TemplatesValid(tcache) && CA.RequestsValid(scache)
    ensures var r := CheckLoop(flags, env, t, tcache, scache, cacheOrder, sr, now, ts).result;
      r.Success? ==> AnswersInOrder(flags, r.value, ts)
    decreases |ts|
  {
    hide CheckStep;
    if ts != [] {
      var s := CheckStep(flags, env, t, tcache, scache, cacheOrder, sr, now, ts[0]);
      CheckStepAnswersForItsType(flags, env, t, tcache, scache, cacheOrder, sr, now, ts[0]);
      if s.result.Success? && !(flags.abortOnCheckError && s.result.value.status == Error) {
        hide AnswersInOrder;
        CheckLoopReports(flags, env, s.tables, s.templates, scache, cacheOrder, sr, now, ts[1..]);
        var rest := CheckLoop(flags, env, s.tables, s.templates, scache, cacheOrder, sr, now, ts[1..]).result;
        if rest.Success? {
          AnswerPrepended(flags, s.result.value, rest.value, ts);
        }
      }
    }
  }

  /** A service exception out of the check loop comes only from a REQUEST among its types. */
  lemma {:induction false} CheckLoopServiceFaultNeedsRequest(flags: Flags, env: CA.Env, t: Tables,
                                                             tcache: map<string, Template>,
                                                             scache: map<string, Unit<ParsedRequest>>,
                                                             cacheOrder: seq<string>, sr: ServiceRequest, now: int,
                                                             ts: seq<ControlType>)
    requires CA.ValidEnv(env) && CA.TemplatesValid(tcache) && CA.RequestsValid(scache)
    ensures var r := CheckLoop(flags, env, t, tcache, scache, cacheOrder, sr, now, ts).result;
      r.Failure? && r.fault.ServiceFault? ==> Request in ts
    decreases |ts|
  {
    hide CheckStep;
    if ts != [] {
      var s := CheckStep(flags, env, t, tcache, scache, cacheOrder, sr, now, ts[0]);
      CheckStepAnswersForItsType(flags, env, t, tcache, scache, cacheOrder, sr, now, ts[0]);
      if s.result.Success? && !(flags.abortOnCheckError && s.result.value.status == Error) {
        CheckLoopServiceFaultNeedsRequest(flags, env, s.tables, s.templates, scache, cacheOrder, sr, now, ts[1..]);
        assert forall x :: x in ts[1..] ==> x in ts;
      }
    }
  }

  /** The check loop consults the saved-request cache only through an enabled client-attributes
      check of a request that is present and parses. */
  lemma {:induction false} CheckLoopLooksUpOnlyForClientAttributes(flags: Flags, env: CA.Env, t: Tables,
                                                                  tcache: map<string, Template>,
                                                                  scache: map<string, Unit<ParsedRequest>>,
                                                                  cacheOrder: seq<string>, sr: ServiceRequest,
                                                                  now: int, ts: seq<ControlType>)
    requires CA.ValidEnv(env) && CA.TemplatesValid(tcache) && CA.RequestsValid(scache)
    ensures CheckLoop(flags, env, t, tcache, scache, cacheOrder, sr, now, ts).lookedUp ==>
      ClientAttributes in ts && flags.clientAttributesCheckEnabled
      && GenerateControlTypeRequest(ClientAttributes, sr).Success?
      && CA.LooksUpSaved(env, GenerateControlTypeRequest(ClientAttributes, sr).value)
    decreases |ts|
  {
    hide CheckStep;
    if ts != [] {
      var s := CheckStep(flags, env, t, tcache, scache, cacheOrder, sr, now, ts[0]);
      CheckStepLooksUpOnlyForClientAttributes(flags, env, t, tcache, scache, cacheOrder, sr, now, ts[0]);
      if s.result.Success? && !(flags.abortOnCheckError && s.result.value.status == Error) {
        CheckLoopLooksUpOnlyForClientAttributes(flags, env, s.tables, s.templates, scache, cacheOrder, sr, now, ts[1..]);
        assert forall x :: x in ts[1..] ==> x in ts;
      }
    }
  }

  /** When REQUEST is among the control types to check and the joint check does not run, the
      checks always end in the one FAILED result of the unknown REQUEST operator. */
  lemma RequestCheckFails(flags: Flags, env: CA.Env, t: Tables, tcache: map<string, Template>,
                          scache: map<string, Unit<ParsedRequest>>, cacheOrder: seq<string>, sr: ServiceRequest,
                          now: int)
    requires CA.ValidEnv(env) && CA.TemplatesValid(tcache) && CA.RequestsValid(scache)
    requires Request in CheckControlTypes(sr.operators) && !JointCheck(flags, CheckControlTypes(sr.operators))
    ensures CheckResults(flags, env, t, tcache, scache, cacheOrder, sr, now)
      == Run(t, tcache, None, false, Success([ControlTypeResult(Request, Failed, Some(CHECK_FAILED + LINE_SEPARATOR + UNKNOWN_REQUEST_OPERATOR))]))
  {
    hide CheckStep;
    var ts := CheckControlTypes(sr.operators);
    ByPrioritySortedAndExact(sr.operators, {Check, CheckAndUpdate});
    var k :| 0 <= k < |ts| && ts[k] == Request;
    PriorityEnds(ts, k);
    CheckStepReports(flags, env, t, tcache, scache, cacheOrder, sr, now, Request);
  }

  // ---------------------------------------------------------------------------------------
  // getUpdateResults

  /** The control types to update (UPDATE or CHECK_AND_UPDATE), by priority. */
  function UpdateControlTypes(ops: map<ControlType, Operation>): seq<ControlType> {
    ByPriority(ops, {Update, CheckAndUpdate})
  }

  /** One iteration of the update loop: the operator's updateServiceData; REQUEST has none. */
  ghost function UpdateStep(env: CA.Env, t: Tables, tcache: map<string, Template>, sr: ServiceRequest, now: int,
                            ct: ControlType): (s: Run<()>)
    requires CA.ValidEnv(env) && CA.TemplatesValid(tcache)
    ensures CA.TemplatesValid(s.templates)
    ensures s.store.None? && !s.lookedUp
  {
    hide CI.SaveIdentifiersEffect, RV.UpdateRequestVersionEffect, CA.SavingOutcome;
    match GenerateControlTypeRequest(ct, sr)
    case Failure(f) => Run(t, tcache, None, false, Failure(f))
    case Success(ctr) =>
      match ct
      case ControlIdentifiers =>
        var e := CI.SaveIdentifiersEffect(t, ctr);
        Run(e.tables, tcache, None, false, e.result)
      case RequestVersion =>
        var e := RV.UpdateRequestVersionEffect(t, ctr);
        Run(e.tables, tcache, None, false, e.result)
      case ClientAttributes =>
        var o := CA.SavingOutcome(env, t, tcache, ctr, now);
        Run(t.(requests := o.requests), o.templates, None, false, o.result)
      case Request => Run(t, tcache, None, false, Success(()))
  }

  /** The result a service exception in the updates adds before they stop. */
  function UpdateFailed(message: string): ControlTypeResult {
    ControlTypeResult(Request, Failed, Some(message))
  }

  /** What a failed update leaves: a service exception is reported after the results so far,
      anything else propagates. */
  function UpdateFault(f: Fault): Result<seq<ControlTypeResult>> {
    if f.ServiceFault? then Success([UpdateFailed(f.message)]) else Failure(f)
  }

  /** A service exception becomes one FAILED result under REQUEST; any other escapes. */
  lemma UpdateFaultReports(f: Fault)
    ensures UpdateFault(f).Success? ==>
      |UpdateFault(f).value| == 1 && UpdateFault(f).value[0].controlType == Request
      && UpdateFault(f).value[0].status == Failed
    ensures UpdateFault(f).Failure? ==> UpdateFault(f).fault.RuntimeFault?
  {
  }

  /** The update loop over `ts`: each update that succeeds is reported OK. */
  ghost function UpdateLoop(env: CA.Env, t: Tables, tcache: map<string, Template>, sr: ServiceRequest, now: int,
                            ts: seq<ControlType>): (s: Run<seq<ControlTypeResult>>)
    requires CA.ValidEnv(env) && CA.TemplatesValid(tcache)
    ensures CA.TemplatesValid(s.templates)
    ensures s.store.None? && !s.lookedUp
    decreases |ts|
  {
    hide UpdateStep;
    if ts == [] then Run(t, tcache, None, false, Success([]))
    else
      var s := UpdateStep(env, t, tcache, sr, now, ts[0]);
      match s.result
      case Failure(f) => Run(s.tables, s.templates, None, false, UpdateFault(f))
      case Success(_) => Merged([Passed(ts[0])], None, false, UpdateLoop(env, s.tables, s.templates, sr, now, ts[1..]))
  }

  /** getUpdateResults (with doUpdates, which only opens the connection): identifiers and
      version are saved together when both are to be updated, then the loop runs over the
      remaining control types. */
  ghost function UpdateResults(env: CA.Env, t: Tables, tcache: map<string, Template>, sr: ServiceRequest, now: int)
    : (s: Run<seq<ControlTypeResult>>)
    requires CA.ValidEnv(env) && CA.TemplatesValid(tcache)
    ensures CA.TemplatesValid(s.templates)
    ensures s.store.None? && !s.lookedUp
  {
    hide UpdateLoop, SaveIdentifiersAndVersionEffect;
    var ts := UpdateControlTypes(sr.operators);
    if ControlIdentifiers in ts && RequestVersion in ts then
      var e := SaveIdentifiersAndVersionEffect(t, RequestCtr(sr));
      match e.result
      case Failure(f) => Run(e.tables, tcache, None, false, UpdateFault(f))
      case Success(_) =>
        Merged([Passed(RequestVersion), Passed(ControlIdentifiers)], None, false,
               UpdateLoop(env, e.tables, tcache, sr, now, Removed(Removed(ts, RequestVersion), ControlIdentifiers)))
    else UpdateLoop(env, t, tcache, sr, now, ts)
  }

  /** The update loop reports each control type it updated as passed, in order; a service
      exception adds one FAILED result under REQUEST and stops it, so that when everything is
      OK every control type was updated. Only runtime exceptions escape it. */
  lemma {:induction false} UpdateLoopReports(env: CA.Env, t: Tables, tcache: map<string, Template>, sr: ServiceRequest,
                                             now: int, ts: seq<ControlType>)
    requires CA.ValidEnv(env) && CA.TemplatesValid(tcache)
    ensures var r := UpdateLoop(env, t, tcache, sr, now, ts).result;
      r.Success? ==>
        |r.value| <= |ts|
        && (forall i :: 0 <= i < |r.value| ==>
              r.value[i] == Passed(ts[i])
              || (i == |r.value| - 1 && r.value[i].controlType == Request && r.value[i].status == Failed))
        && (AllOk(r.value) ==> |r.value| == |ts|)
    ensures var r := UpdateLoop(env, t, tcache, sr, now, ts).result;
      r.Failure? ==> r.fault.RuntimeFault?
    decreases |ts|
  {
    hide UpdateStep;
    if ts != [] {
      var s := UpdateStep(env, t, tcache, sr, now, ts[0]);
      if s.result.Success? {
        UpdateLoopReports(env, s.tables, s.templates, sr, now, ts[1..]);
        var rest := UpdateLoop(env, s.tables, s.templates, sr, now, ts[1..]).result;
        if rest.Success? {
          var rs := [Passed(ts[0])] + rest.value;
          assert forall i :: 0 < i < |rs| ==> rs[i] == rest.value[i - 1] && ts[i] == ts[1..][i - 1];
          if AllOk(rs) {
            assert forall i :: 0 <= i < |rest.value| ==> rest.value[i] == rs[i + 1];
          }
        }
      }
    }
  }

  /** The update loop's results as sets: passed control types, or FAILED under REQUEST; when
      everything is OK, exactly the loop's control types are reported passed. */
  lemma UpdateLoopPassed(env: CA.Env, t: Tables, tcache: map<string, Template>, sr: ServiceRequest, now: int,
                         ts: seq<ControlType>)
    requires CA.ValidEnv(env) && CA.TemplatesValid(tcache)
    ensures var r := UpdateLoop(env, t, tcache, sr, now, ts).result;
      r.Success? ==>
        (forall x :: x in r.value ==> x.status == Ok || (x.controlType == Request && x.status == Failed))
        && (AllOk(r.value) ==> forall ct :: Passed(ct) in r.value <==> ct in ts)
    ensures var r := UpdateLoop(env, t, tcache, sr, now, ts).result;
      r.Failure? ==> r.fault.RuntimeFault?
  {
    hide UpdateLoop;
    UpdateLoopReports(env, t, tcache, sr, now, ts);
    var l := UpdateLoop(env, t, tcache, sr, now, ts).result;
    if l.Success? {
      forall x | x in l.value ensures x.status == Ok || (x.controlType == Request && x.status == Failed) {
        var i :| 0 <= i < |l.value| && l.value[i] == x;
      }
      if AllOk(l.value) {
        forall ct ensures Passed(ct) in l.value <==> ct in ts {
          if Passed(ct) in l.value {
            var i :| 0 <= i < |l.value| && l.value[i] == Passed(ct);
          }
          if ct in ts {
            var i :| 0 <= i < |ts| && ts[i] == ct;
            assert l.value[i] == Passed(ct);
          }
        }
      }
    }
  }

  /** Putting the joint save's two passed results in front of the loop's keeps the loop's
      guarantees, now over all the control types to update. */
  lemma JointResultsReport(l: seq<ControlTypeResult>, ts: seq<ControlType>)
    requires StrictlyByPriority(ts) && ControlIdentifiers in ts && RequestVersion in ts
    requires forall x :: x in l ==> x.status == Ok || (x.controlType == Request && x.status == Failed)
    requires AllOk(l) ==> forall ct :: Passed(ct) in l <==> ct in Removed(Removed(ts, RequestVersion), ControlIdentifiers)
    ensures var rs := [Passed(RequestVersion), Passed(ControlIdentifiers)] + l;
      (forall x :: x in rs ==> x.status == Ok || (x.controlType == Request && x.status == Failed))
      && (AllOk(rs) ==> forall ct :: Passed(ct) in rs <==> ct in ts)
  {
    var rs := [Passed(RequestVersion), Passed(ControlIdentifiers)] + l;
    assert forall x :: x in rs <==> x == Passed(RequestVersion) || x == Passed(ControlIdentifiers) || x in l;
    if AllOk(rs) {
      assert AllOk(l) by {
        assert forall i :: 0 <= i < |l| ==> l[i] == rs[i + 2];
      }
    }
  }

  /** The update phase reports only passed control types, except for one FAILED result under
      REQUEST when a service exception stops it. When everything is OK, exactly the control types
      to update are reported passed, identifiers and version included when they were saved
      together. Only runtime exceptions escape it. */
  lemma UpdateResultsReports(env: CA.Env, t: Tables, tcache: map<string, Template>, sr: ServiceRequest, now: int)
    requires CA.ValidEnv(env) && CA.TemplatesValid(tcache)
    ensures var r := UpdateResults(env, t, tcache, sr, now).result;
      r.Success? ==>
        (forall x :: x in r.value ==> x.status == Ok || (x.controlType == Request && x.status == Failed))
        && (AllOk(r.value) ==> forall ct :: Passed(ct) in r.value <==> ct in UpdateControlTypes(sr.operators))
    ensures var r := UpdateResults(env, t, tcache, sr, now).result;
      r.Failure? ==> r.fault.RuntimeFault?
  {
    hide UpdateLoop, SaveIdentifiersAndVersionEffect, UpdateStep, Removed, ByPriority;
    var ts := UpdateControlTypes(sr.operators);
    ByPrioritySortedAndExact(sr.operators, {Update, CheckAndUpdate});
    var r := UpdateResults(env, t, tcache, sr, now).result;
    if ControlIdentifiers in ts && RequestVersion in ts {
      var e := SaveIdentifiersAndVersionEffect(t, RequestCtr(sr));
      if e.result.Success? {
        var rest := Removed(Removed(ts, RequestVersion), ControlIdentifiers);
        UpdateLoopPassed(env, e.tables, tcache, sr, now, rest);
        var l := UpdateLoop(env, e.tables, tcache, sr, now, rest).result;
        assert r == Prepended([Passed(RequestVersion), Passed(ControlIdentifiers)], l);
        if l.Success? {
          JointResultsReport(l.value, ts);
        }
      } else {
        assert r == UpdateFault(e.result.fault);
        UpdateFaultReports(e.result.fault);
      }
    } else {
      assert r == UpdateLoop(env, t, tcache, sr, now, ts).result;
      UpdateLoopPassed(env, t, tcache, sr, now, ts);
    }
  }

  // ---------------------------------------------------------------------------------------
  // processServiceRequest

  /** Some result is neither OK nor OK with warnings. */
  predicate HasError(rs: seq<ControlTypeResult>) {
    exists i :: 0 <= i < |rs| && rs[i].status != Ok && rs[i].status != OkWithWarnings
  }

  /** The answer when the request-level operations throw. */
  function NotProcessedMessage(messageId: string, message: string): string {
    "Запрос с messageId " + messageId + " не был обработан. " + LINE_SEPARATOR + message
  }

  const UPDATE_FAILED := "Запрос не был обработан. "

  /** The REQUEST-level operations, which run only when the request names REQUEST. */
  function LevelPhase(t: Tables, sr: ServiceRequest): Effect<()> {
    if Request in sr.operators then RequestLevelEffect(t, sr) else Effect(t, Success(()))
  }

  /** The answer after the updates: the failed updates with the check warnings, else the
      warnings, else OK. */
  function UpdateAnswer(updates: seq<ControlTypeResult>, warnings: seq<ControlTypeResult>): ServiceResponse {
    if exists i :: 0 <= i < |updates| && updates[i].status != Ok then Joined(updates + warnings)
    else if warnings != [] then Joined(warnings)
    else ServiceResponse(Ok, None)
  }

  /** processServiceRequest. A validation that does not pass is answered with the validation
      results; an exception of the request-level operations, and any exception of the updates,
      with a FAILED answer carrying its message; checks with an error with the check results.
      An exception of the validation or of the checks propagates. */
  ghost function ProcessOutcome(flags: Flags, env: CA.Env, t: Tables, tcache: map<string, Template>,
                                scache: map<string, Unit<ParsedRequest>>, cacheOrder: seq<string>, sr: ServiceRequest,
                                now: int): (s: Run<ServiceResponse>)
    requires CA.ValidEnv(env) && CA.TemplatesValid(tcache) && CA.RequestsValid(scache)
    ensures CA.TemplatesValid(s.templates)
  {
    hide ValidationResults, LevelPhase, CheckedOutcome, Joined;
    match ValidationResults(flags, sr)
    case Failure(f) => Run(t, tcache, None, false, Failure(f))
    case Success(validations) =>
      if HasError(validations) then Run(t, tcache, None, false, Success(Joined(validations)))
      else
        var level := LevelPhase(t, sr);
        if level.result.Failure? then
          Run(level.tables, tcache, None, false, Success(ServiceResponse(Failed, Some(NotProcessedMessage(sr.messageId, level.result.fault.message)))))
        else CheckedOutcome(flags, env, level.tables, tcache, scache, cacheOrder, sr, now)
  }

  /** processServiceRequest once the request is valid and its request-level operations are
      done: the checks, then the updates when no check found an error. */
  ghost function CheckedOutcome(flags: Flags, env: CA.Env, t: Tables, tcache: map<string, Template>,
                                scache: map<string, Unit<ParsedRequest>>, cacheOrder: seq<string>, sr: ServiceRequest,
                                now: int): (s: Run<ServiceResponse>)
    requires CA.ValidEnv(env) && CA.TemplatesValid(tcache) && CA.RequestsValid(scache)
    ensures CA.TemplatesValid(s.templates)
  {
    hide CheckResults, UpdateResults, Joined, WithStatus;
    var c := CheckResults(flags, env, t, tcache, scache, cacheOrder, sr, now);
    match c.result
    case Failure(f) => Run(c.tables, c.templates, c.store, c.lookedUp, Failure(f))
    case Success(checks) =>
      if HasError(checks) then Run(c.tables, c.templates, c.store, c.lookedUp, Success(Joined(checks)))
      else
        var u := UpdateResults(env, c.tables, c.templates, sr, now);
        match u.result
        case Failure(f) =>
          Run(u.tables, u.templates, c.store, c.lookedUp, Success(ServiceResponse(Failed, Some(UPDATE_FAILED + LINE_SEPARATOR + f.message))))
        case Success(updates) =>
          Run(u.tables, u.templates, c.store, c.lookedUp, Success(UpdateAnswer(updates, WithStatus(checks, OkWithWarnings))))
  }

  /** After checks without an error, the answer is OK exactly when every check and every update
      is OK; check warnings alone answer OK with warnings, reporting the warnings. */
  lemma UpdateAnswerReports(updates: seq<ControlTypeResult>, checks: seq<ControlTypeResult>)
    requires !HasError(checks)
    ensures var a := UpdateAnswer(updates, WithStatus(checks, OkWithWarnings));
      (a == ServiceResponse(Ok, None) <==> AllOk(checks) && AllOk(updates))
      && (a.status == Ok <==> AllOk(checks) && AllOk(updates))
    ensures AllOk(updates) && !AllOk(checks) ==>
      UpdateAnswer(updates, WithStatus(checks, OkWithWarnings))
        == ServiceResponse(OkWithWarnings, Some(Entries(WithStatus(checks, OkWithWarnings))))
  {
    var warnings := WithStatus(checks, OkWithWarnings);
    assert AllOk(checks) <==> warnings == [] by {
      if warnings != [] {
        assert warnings[0] in warnings;
      }
      if !AllOk(checks) {
        var i :| 0 <= i < |checks| && checks[i].status != Ok;
        assert checks[i] in warnings;
      }
    }
    if !AllOk(updates) {
      JoinedOk(updates + warnings);
      assert !AllOk(updates + warnings) by {
        var i :| 0 <= i < |updates| && updates[i].status != Ok;
        assert (updates + warnings)[i] == updates[i];
      }
    } else if warnings != [] {
      assert forall i :: 0 <= i < |warnings| ==> warnings[i] in warnings;
      JoinedWithoutFailure(warnings);
      NotOkKeepsAll(warnings);
      assert warnings[0].status == OkWithWarnings;
    }
  }

  /** A request whose validation does not pass is answered FAILED with the descriptions of the
      failed validations, and nothing is read or written. */
  lemma ProcessRejectsInvalid(flags: Flags, env: CA.Env, t: Tables, tcache: map<string, Template>,
                              scache: map<string, Unit<ParsedRequest>>, cacheOrder: seq<string>, sr: ServiceRequest,
                              now: int)
    requires CA.ValidEnv(env) && CA.TemplatesValid(tcache) && CA.RequestsValid(scache)
    requires ValidationResults(flags, sr).Success? && SomeValidationFails(flags, sr)
    ensures ProcessOutcome(flags, env, t, tcache, scache, cacheOrder, sr, now)
      == Run(t, tcache, None, false, Success(ServiceResponse(Failed, Some(Entries(WithStatus(ValidationResults(flags, sr).value, Failed))))))
  {
    hide ValidationResults, LevelPhase, CheckResults, UpdateResults, WithStatus, SomeValidationFails;
    var vs := ValidationResults(flags, sr).value;
    ValidationReports(flags, sr);
    JoinedFailed(vs);
  }

  /** When a check finds an error, no update runs: the answer joins the check results, is ERROR
      or FAILED, and the state is the one the checks left. */
  lemma ProcessSkipsUpdatesAfterCheckError(flags: Flags, env: CA.Env, t: Tables, tcache: map<string, Template>,
                                           scache: map<string, Unit<ParsedRequest>>, cacheOrder: seq<string>,
                                           sr: ServiceRequest, now: int)
    requires CA.ValidEnv(env) && CA.TemplatesValid(tcache) && CA.RequestsValid(scache)
    requires ValidationResults(flags, sr).Success? && !SomeValidationFails(flags, sr)
    requires LevelPhase(t, sr).result.Success?
    requires var c := CheckResults(flags, env, LevelPhase(t, sr).tables, tcache, scache, cacheOrder, sr, now);
      c.result.Success? && HasError(c.result.value)
    ensures var c := CheckResults(flags, env, LevelPhase(t, sr).tables, tcache, scache, cacheOrder, sr, now);
      var o := ProcessOutcome(flags, env, t, tcache, scache, cacheOrder, sr, now);
      o == Run(c.tables, c.templates, c.store, c.lookedUp, Success(Joined(c.result.value)))
      && (o.result.value.status == Error || o.result.value.status == Failed)
  {
    hide ValidationResults, LevelPhase, CheckResults, UpdateResults, WithStatus, SomeValidationFails, Joined;
    ValidationReports(flags, sr);
    var checks := CheckResults(flags, env, LevelPhase(t, sr).tables, tcache, scache, cacheOrder, sr, now).result.value;
    JoinedFailed(checks);
    if forall i :: 0 <= i < |checks| ==> checks[i].status != Failed {
      JoinedWithoutFailure(checks);
    }
  }

  /** getCheckResults consults the saved-request cache only through an enabled
      client-attributes check asked for by the request, of a document that is present and
      parses. */
  lemma CheckResultsLookUpOnlyForClientAttributes(flags: Flags, env: CA.Env, t: Tables, tcache: map<string, Template>,
                                                  scache: map<string, Unit<ParsedRequest>>, cacheOrder: seq<string>,
                                                  sr: ServiceRequest, now: int)
    requires CA.ValidEnv(env) && CA.TemplatesValid(tcache) && CA.RequestsValid(scache)
    ensures CheckResults(flags, env, t, tcache, scache, cacheOrder, sr, now).lookedUp ==>
      ClientAttributes in sr.operators && sr.operators[ClientAttributes] in {Check, CheckAndUpdate}
      && flags.clientAttributesCheckEnabled && GenerateControlTypeRequest(ClientAttributes, sr).Success?
      && CA.LooksUpSaved(env, GenerateControlTypeRequest(ClientAttributes, sr).value)
  {
    hide CheckLoop, IdentifiersAndVersionEffect, Removed, ByPriority, CaughtChecks, CA.LooksUpSaved;
    var ts := CheckControlTypes(sr.operators);
    ByPrioritySortedAndExact(sr.operators, {Check, CheckAndUpdate});
    CheckLoopLooksUpOnlyForClientAttributes(flags, env, t, tcache, scache, cacheOrder, sr, now, ts);
    if JointCheck(flags, ts) {
      var e := IdentifiersAndVersionEffect(flags, t, sr);
      var once := Removed(ts, RequestVersion);
      var rest := Removed(once, ControlIdentifiers);
      assert ClientAttributes in rest ==> ClientAttributes in ts;
      CheckLoopLooksUpOnlyForClientAttributes(flags, env, e.tables, tcache, scache, cacheOrder, sr, now, rest);
    }
  }

  /** Processing a request consults the saved-request cache only as getCheckResults does, and
      only once the request is valid and its request-level operations are done. */
  lemma ProcessLooksUpOnlyToCheckClientAttributes(flags: Flags, env: CA.Env, t: Tables, tcache: map<string, Template>,
                                                  scache: map<string, Unit<ParsedRequest>>, cacheOrder: seq<string>,
                                                  sr: ServiceRequest, now: int)
    requires CA.ValidEnv(env) && CA.TemplatesValid(tcache) && CA.RequestsValid(scache)
    ensures ProcessOutcome(flags, env, t, tcache, scache, cacheOrder, sr, now).lookedUp ==>
      ValidationResults(flags, sr).Success? && !HasError(ValidationResults(flags, sr).value)
      && LevelPhase(t, sr).result.Success?
      && CheckResults(flags, env, LevelPhase(t, sr).tables, tcache, scache, cacheOrder, sr, now).lookedUp
    ensures ProcessOutcome(flags, env, t, tcache, scache, cacheOrder, sr, now).lookedUp ==>
      ClientAttributes in sr.operators && sr.operators[ClientAttributes] in {Check, CheckAndUpdate}
      && flags.clientAttributesCheckEnabled && GenerateControlTypeRequest(ClientAttributes, sr).Success?
      && CA.LooksUpSaved(env, GenerateControlTypeRequest(ClientAttributes, sr).value)
  {
    hide ValidationResults, LevelPhase, CheckResults, UpdateResults, Joined, WithStatus, HasError;
    CheckResultsLookUpOnlyForClientAttributes(flags, env, LevelPhase(t, sr).tables, tcache, scache, cacheOrder, sr, now);
  }

  /** The answer is OK exactly when every phase ran and every validation, check and update
      result is OK. */
  lemma ProcessAnswersOk(flags: Flags, env: CA.Env, t: Tables, tcache: map<string, Template>,
                         scache: map<string, Unit<ParsedRequest>>, cacheOrder: seq<string>, sr: ServiceRequest,
                         now: int)
    requires CA.ValidEnv(env) && CA.TemplatesValid(tcache) && CA.RequestsValid(scache)
    ensures var l := LevelPhase(t, sr);
      var c := CheckResults(flags, env, l.tables, tcache, scache, cacheOrder, sr, now);
      var u := UpdateResults(env, c.tables, c.templates, sr, now);
      ProcessOutcome(flags, env, t, tcache, scache, cacheOrder, sr, now).result == Success(ServiceResponse(Ok, None))
      <==>
      ValidationResults(flags, sr).Success? && !SomeValidationFails(flags, sr)
      && l.result.Success? && c.result.Success? && AllOk(c.result.value)
      && u.result.Success? && AllOk(u.result.value)
  {
    hide ValidationResults, LevelPhase, CheckResults, UpdateResults, WithStatus, SomeValidationFails, Joined, UpdateAnswer;
    var v := ValidationResults(flags, sr);
    if v.Success? {
      ValidationReports(flags, sr);
      JoinedOk(v.value);
      if !HasError(v.value) {
        var l := LevelPhase(t, sr);
        var c := CheckResults(flags, env, l.tables, tcache, scache, cacheOrder, sr, now);
        if l.result.Success? && c.result.Success? {
          JoinedOk(c.result.value);
          if !HasError(c.result.value) {
            var u := UpdateResults(env, c.tables, c.templates, sr, now);
            if u.result.Success? {
              UpdateAnswerReports(u.result.value, c.result.value);
            }
          }
        }
      }
    }
  }

  /** Results `a` before results `b` before `r` are `a + b` before `r`. */
  lemma PrependedTwice<T>(a: seq<T>, b: seq<T>, r: Result<seq<T>>)
    ensures Prepended(a, Prepended(b, r)) == Prepended(a + b, r)
  {
    if r.Success? {
      assert a + (b + r.value) == (a + b) + r.value;
    }
  }

  /** No results before `r` leave `r` as it is. */
  lemma MergedNothing<T>(r: Run<seq<T>>)
    ensures Prepended([], r.result) == r.result
    ensures Merged([], None, false, r) == r
  {
    if r.result.Success? {
      assert [] + r.result.value == r.result.value;
    }
  }

  /** A run `r` after the results `a`, itself after the results `b` and the store it made,
      is `r` after `a + b`. */
  lemma MergedTwice<T>(a: seq<T>, s1: Option<ParsedRequest>, l1: bool, b: seq<T>, s2: Option<ParsedRequest>, l2: bool,
                       r: Run<seq<T>>)
    ensures Merged(a, s1, l1, Merged(b, s2, l2, r)) == Merged(a + b, if s2.Some? then s2 else s1, l1 || l2, r)
  {
    if r.result.Success? {
      assert a + (b + r.result.value) == (a + b) + r.result.value;
    }
  }

  // ---------------------------------------------------------------------------------------
  // The service

  /** RequestControlService with its configuration, the database behind its connections and
      the client-attributes operator, which keeps the two caches. The identifiers and
      request-version operators keep no state. */
  class RequestControlService {
    const flags: Flags
    const db: Database
    const clientAttributes: CA.ClientAttributesServiceOperator

    ghost predicate Valid()
      reads clientAttributes.templateCache, clientAttributes.savedRequestsCache
    {
      clientAttributes.Valid()
    }

    constructor (flags: Flags, db: Database, clientAttributes: CA.ClientAttributesServiceOperator)
      requires clientAttributes.Valid()
      ensures this.flags == flags && this.db == db && this.clientAttributes == clientAttributes
      ensures Valid()
    {
      this.flags := flags;
      this.db := db;
      this.clientAttributes := clientAttributes;
    }

    /** validateServiceRequest, with its loop. */
    method ValidateServiceRequest(sr: ServiceRequest) returns (r: Result<seq<ControlTypeResult>>)
      ensures r == ValidationResults(flags, sr)
    {
      var operators := ByPriority(sr.operators, ALL_OPERATIONS);
      var results: seq<ControlTypeResult> := [];
      MergedNothing(Run(db.tables, map[], None, false, ValidationFrom(flags, sr, operators)));
      assert operators[0..] == operators;
      for i := 0 to |operators|
        invariant ValidationFrom(flags, sr, operators) == Prepended(results, ValidationFrom(flags, sr, operators[i..]))
      {
        assert operators[i..][0] == operators[i] && operators[i..][1..] == operators[i + 1..];
        var result := ValidationResult(flags, sr, operators[i]);
        if result.Failure? {
          return Failure(result.fault);
        }
        if operators[i] == Request && result.value.status != Ok {
          // The early return after a REQUEST result that is not OK is never taken: as
          // written, the REQUEST validation always passes.
          assert false;
        }
        PrependedTwice(results, [result.value], ValidationFrom(flags, sr, operators[i + 1..]));
        results := results + [result.value];
      }
      assert operators[|operators|..] == [] && results + [] == results;
      return Success(results);
    }

    /** checkIdentifiersAndVersion, step by step. */
    method CheckIdentifiersAndVersion(sr: ServiceRequest) returns (r: Result<ControlTypeResult>)
      modifies db
      ensures Effect(db.tables, r) == IdentifiersAndVersionEffect(flags, old(db.tables), sr)
    {
      hide RV.StoredVersion, CI.CheckIdentifiersEffect, JavaText.Join;
      var ctr := RequestCtr(sr);
      var stored := GetIdentifiersFromDB(db, ctr);
      if stored.Failure? {
        return Failure(stored.fault);
      }
      if |stored.value| == 0 {
        var isOne := VersionIsOne(ctr.requestVersion);
        if isOne.Failure? {
          return Failure(isOne.fault);
        }
        if isOne.value || HasValue(ctr.requestIdentifiers.value, IdIntegration) {
          return Success(Passed(Request));
        }
        return Success(ControlTypeResult(Request, Error, Some(RV.MUST_BE_ONE)));
      }
      var saved := RV.GetRequestVersionFromDB(db, ctr);
      if saved.Failure? {
        return Failure(saved.fault);
      }
      if saved.value.None? {
        return Success(ControlTypeResult(Request, Failed, Some(VERSION_NOT_FOUND)));
      }
      if ctr.requestVersion.None? {
        return Failure(RV.NULL_POINTER);
      }
      var errors: seq<string> := [];
      var status := Ok;
      if saved.value.value >= ctr.requestVersion.value {
        status := Error;
        errors := errors + [RV.OutdatedMessage(saved.value.value)];
      }
      assert errors == if status == Error then [RV.OutdatedMessage(saved.value.value)] else [];
      if !flags.abortOnCheckError || status != Error {
        var identifierErrors := CI.CheckIdentifiers(db, ctr, stored.value);
        errors := errors + identifierErrors;
      } else {
        assert errors + [] == errors;
      }
      if errors == [] {
        return Success(Passed(Request));
      }
      return Success(ControlTypeResult(Request, Error, Some(JavaText.Join(ERROR_SEPARATOR, errors))));
    }

    /** One iteration of getCheckResults' loop: the switch on the control type. */
    method CheckOne(env: CA.Env, sr: ServiceRequest, now: int, cacheOrder: seq<string>, ct: ControlType)
        returns (result: Result<ControlTypeResult>, ghost stored: Option<ParsedRequest>)
      requires Valid() && CA.ValidEnv(env)
      requires IterationOrder(cacheOrder, clientAttributes.savedRequestsCache.cache.Keys)
      modifies db, clientAttributes.templateCache, clientAttributes.savedRequestsCache,
        clientAttributes.savedRequestsCache.cache.Values
      ensures var s := CheckStep(flags, env, old(db.tables), old(clientAttributes.templateCache.cache),
                                 old(clientAttributes.savedRequestsCache.cache), cacheOrder, sr, now, ct);
        result == s.result && db.tables == s.tables && clientAttributes.templateCache.cache == s.templates && stored == s.store
      ensures CA.StoredUnder(clientAttributes.savedRequestsCache.cache, old(clientAttributes.savedRequestsCache.cache),
                             AttributesKey(sr), stored)
      ensures StampedIf(CheckStep(flags, env, old(db.tables), old(clientAttributes.templateCache.cache),
                                  old(clientAttributes.savedRequestsCache.cache), cacheOrder, sr, now, ct).lookedUp,
                        old(clientAttributes.savedRequestsCache.cache), AttributesKey(sr), now)
      ensures Valid()
    {
      hide CI.CheckControlIdentifiersEffect, RV.CheckRequestVersion, CA.CheckingOutcome, CA.CheckLooksUp, CA.CurrentTemplate;
      stored := None;
      var ctr := GenerateControlTypeRequest(ct, sr);
      if ctr.Failure? {
        return Failure(ctr.fault), None;
      }
      match ct {
        case ControlIdentifiers =>
          if flags.identifiersCheckEnabled {
            result := CI.CheckControlIdentifiers(db, ctr.value);
          } else {
            result := Success(ControlTypeResult(ct, OkWithWarnings, Some(IDENTIFIERS_CHECK_DISABLED)));
          }
        case RequestVersion =>
          if flags.requestVersionCheckEnabled {
            result := RV.CheckRequestVersion(db.tables.identifiers, ctr.value);
          } else {
            result := Success(ControlTypeResult(ct, OkWithWarnings, Some(VERSION_CHECK_DISABLED)));
          }
        case ClientAttributes =>
          if flags.clientAttributesCheckEnabled {
            stored := CA.CheckingOutcome(env, db.tables, clientAttributes.templateCache.cache,
                                         clientAttributes.savedRequestsCache.cache, cacheOrder, ctr.value, now).store;
            result := clientAttributes.CheckClientAttributes(env, db, ctr.value, now, cacheOrder);
          } else {
            result := Success(ControlTypeResult(ct, OkWithWarnings, Some(ATTRIBUTES_CHECK_DISABLED)));
          }
        case Request =>
          result := Failure(ServiceFault(UNKNOWN_REQUEST_OPERATOR));
      }
    }

    /** The loop of getCheckResults over `ts`. The saved-request cache changes only at the
        client-attributes check, which comes last. */
    method CheckEach(env: CA.Env, sr: ServiceRequest, now: int, cacheOrder: seq<string>, ts: seq<ControlType>)
        returns (r: Result<seq<ControlTypeResult>>)
      requires Valid() && CA.ValidEnv(env) && StrictlyByPriority(ts)
      requires IterationOrder(cacheOrder, clientAttributes.savedRequestsCache.cache.Keys)
      modifies db, clientAttributes.templateCache, clientAttributes.savedRequestsCache,
        clientAttributes.savedRequestsCache.cache.Values
      ensures var c := CheckLoop(flags, env, old(db.tables), old(clientAttributes.templateCache.cache),
                                 old(clientAttributes.savedRequestsCache.cache), cacheOrder, sr, now, ts);
        r == c.result && db.tables == c.tables && clientAttributes.templateCache.cache == c.templates
        && CA.StoredUnder(clientAttributes.savedRequestsCache.cache, old(clientAttributes.savedRequestsCache.cache),
                          AttributesKey(sr), c.store)
        && StampedIf(c.lookedUp, old(clientAttributes.savedRequestsCache.cache), AttributesKey(sr), now)
      ensures Valid()
    {
      hide CheckStep, AttributesKey;
      ghost var t0, tc0, sc0 := db.tables, clientAttributes.templateCache.cache, clientAttributes.savedRequestsCache.cache;
      ghost var store: Option<ParsedRequest> := None;
      ghost var lookedUp := false;
      var results: seq<ControlTypeResult> := [];
      MergedNothing(CheckLoop(flags, env, t0, tc0, sc0, cacheOrder, sr, now, ts));
      assert ts[0..] == ts;
      var i := 0;
      while i < |ts|
        invariant 0 <= i <= |ts|
        invariant Valid()
        invariant CheckLoop(flags, env, t0, tc0, sc0, cacheOrder, sr, now, ts)
          == Merged(results, store, lookedUp, CheckLoop(flags, env, db.tables, clientAttributes.templateCache.cache, sc0, cacheOrder, sr, now, ts[i..]))
        invariant i < |ts| ==> clientAttributes.savedRequestsCache.cache == sc0 && store.None? && !lookedUp
        invariant CA.StoredUnder(clientAttributes.savedRequestsCache.cache, sc0, AttributesKey(sr), store)
        invariant StampedIf(lookedUp, sc0, AttributesKey(sr), now)
      {
        ghost var t1, tc1 := db.tables, clientAttributes.templateCache.cache;
        var ct := ts[i];
        assert ts[i..][0] == ct && ts[i..][1..] == ts[i + 1..];
        PriorityEnds(ts, i);
        var result, stored := CheckOne(env, sr, now, cacheOrder, ct);
        ghost var step := CheckStep(flags, env, t1, tc1, sc0, cacheOrder, sr, now, ct);
        ghost var store0, lookedUp0 := store, lookedUp;
        store := if stored.Some? then stored else store;
        lookedUp := lookedUp || step.lookedUp;
        if result.Failure? {
          return Failure(result.fault);
        }
        var verdict := result.value;
        if flags.abortOnCheckError && verdict.status == Error {
          return Success(results + [verdict]);
        }
        MergedTwice(results, store0, lookedUp0, [verdict], step.store, step.lookedUp,
                    CheckLoop(flags, env, step.tables, step.templates, sc0, cacheOrder, sr, now, ts[i + 1..]));
        results := results + [verdict];
        i := i + 1;
      }
      assert ts[|ts|..] == [] && results + [] == results;
      r := Success(results);
    }

    /** getCheckResults (with doChecks): the joint check first when it runs, then the loop; a
        service exception anywhere is reported as one FAILED result. */
    method GetCheckResults(env: CA.Env, sr: ServiceRequest, now: int, cacheOrder: seq<string>)
        returns (r: Result<seq<ControlTypeResult>>)
      requires Valid() && CA.ValidEnv(env)
      requires IterationOrder(cacheOrder, clientAttributes.savedRequestsCache.cache.Keys)
      modifies db, clientAttributes.templateCache, clientAttributes.savedRequestsCache,
        clientAttributes.savedRequestsCache.cache.Values
      ensures var c := CheckResults(flags, env, old(db.tables), old(clientAttributes.templateCache.cache),
                                    old(clientAttributes.savedRequestsCache.cache), cacheOrder, sr, now);
        r == c.result && db.tables == c.tables && clientAttributes.templateCache.cache == c.templates
        && CA.StoredUnder(clientAttributes.savedRequestsCache.cache, old(clientAttributes.savedRequestsCache.cache),
                          AttributesKey(sr), c.store)
        && StampedIf(c.lookedUp, old(clientAttributes.savedRequestsCache.cache), AttributesKey(sr), now)
      ensures Valid()
    {
      hide CheckLoop, IdentifiersAndVersionEffect, Removed, ByPriority;
      var controlTypes := CheckControlTypes(sr.operators);
      ByPrioritySortedAndExact(sr.operators, {Check, CheckAndUpdate});
      var results: seq<ControlTypeResult> := [];
      if ControlIdentifiers in controlTypes && RequestVersion in controlTypes
         && flags.requestVersionCheckEnabled && flags.identifiersCheckEnabled {
        var joint := CheckIdentifiersAndVersion(sr);
        if joint.Failure? {
          return CaughtChecks(Failure(joint.fault));
        }
        results := [joint.value];
        controlTypes := Removed(Removed(controlTypes, RequestVersion), ControlIdentifiers);
        if flags.abortOnCheckError && joint.value.status == Error {
          return Success(results);
        }
      }
      var rest := CheckEach(env, sr, now, cacheOrder, controlTypes);
      MergedNothing(Run(db.tables, map[], None, false, rest));
      r := CaughtChecks(Prepended(results, rest));
    }

    /** One iteration of getUpdateResults' loop: the operator's updateServiceData. */
    method UpdateOne(env: CA.Env, sr: ServiceRequest, now: int, ct: ControlType) returns (result: Result<()>)
      requires Valid() && CA.ValidEnv(env)
      modifies db, clientAttributes.templateCache
      ensures var s := UpdateStep(env, old(db.tables), old(clientAttributes.templateCache.cache), sr, now, ct);
        result == s.result && db.tables == s.tables && clientAttributes.templateCache.cache == s.templates
      ensures Valid()
    {
      hide CI.SaveIdentifiersEffect, RV.UpdateRequestVersionEffect, CA.SavingOutcome;
      var ctr := GenerateControlTypeRequest(ct, sr);
      if ctr.Failure? {
        return Failure(ctr.fault);
      }
      match ct {
        case ControlIdentifiers =>
          result := CI.SaveIdentifiersToDB(db, ctr.value);
        case RequestVersion =>
          result := RV.UpdateRequestVersionInDB(db, ctr.value);
        case ClientAttributes =>
          result := clientAttributes.SaveRequest(env, db, ctr.value, now);
        case Request =>
          result := Success(());
      }
    }

    /** The loop of getUpdateResults over `ts`. */
    method UpdateEach(env: CA.Env, sr: ServiceRequest, now: int, ts: seq<ControlType>) returns (r: Result<seq<ControlTypeResult>>)
      requires Valid() && CA.ValidEnv(env)
      modifies db, clientAttributes.templateCache
      ensures var u := UpdateLoop(env, old(db.tables), old(clientAttributes.templateCache.cache), sr, now, ts);
        r == u.result && db.tables == u.tables && clientAttributes.templateCache.cache == u.templates
      ensures Valid()
    {
      hide UpdateStep;
      ghost var t0, tc0 := db.tables, clientAttributes.templateCache.cache;
      var results: seq<ControlTypeResult> := [];
      MergedNothing(UpdateLoop(env, t0, tc0, sr, now, ts));
      assert ts[0..] == ts;
      for i := 0 to |ts|
        invariant Valid()
        invariant UpdateLoop(env, t0, tc0, sr, now, ts)
          == Merged(results, None, false, UpdateLoop(env, db.tables, clientAttributes.templateCache.cache, sr, now, ts[i..]))
      {
        ghost var t1, tc1 := db.tables, clientAttributes.templateCache.cache;
        assert ts[i..][0] == ts[i] && ts[i..][1..] == ts[i + 1..];
        var result := UpdateOne(env, sr, now, ts[i]);
        ghost var step := UpdateStep(env, t1, tc1, sr, now, ts[i]);
        if result.Failure? {
          if result.fault.ServiceFault? {
            return Success(results + [UpdateFailed(result.fault.message)]);
          }
          return Failure(result.fault);
        }
        MergedTwice(results, None, false, [Passed(ts[i])], None, false,
                    UpdateLoop(env, step.tables, step.templates, sr, now, ts[i + 1..]));
        results := results + [Passed(ts[i])];
      }
      assert ts[|ts|..] == [] && results + [] == results;
      r := Success(results);
    }

    /** getUpdateResults (with doUpdates): identifiers and version saved together when both are
        to be updated, then the loop. */
    method GetUpdateResults(env: CA.Env, sr: ServiceRequest, now: int) returns (r: Result<seq<ControlTypeResult>>)
      requires Valid() && CA.ValidEnv(env)
      modifies db, clientAttributes.templateCache
      ensures var u := UpdateResults(env, old(db.tables), old(clientAttributes.templateCache.cache), sr, now);
        r == u.result && db.tables == u.tables && clientAttributes.templateCache.cache == u.templates
      ensures Valid()
    {
      hide UpdateLoop, SaveIdentifiersAndVersionEffect;
      var controlTypes := UpdateControlTypes(sr.operators);
      ByPrioritySortedAndExact(sr.operators, {Update, CheckAndUpdate});
      var results: seq<ControlTypeResult> := [];
      if ControlIdentifiers in controlTypes && RequestVersion in controlTypes {
        var saved := SaveIdentifiersAndRequestVersionToDB(db, RequestCtr(sr));
        if saved.Failure? {
          return UpdateFault(saved.fault);
        }
        results := [Passed(RequestVersion), Passed(ControlIdentifiers)];
        controlTypes := Removed(Removed(controlTypes, RequestVersion), ControlIdentifiers);
      }
      var rest := UpdateEach(env, sr, now, controlTypes);
      MergedNothing(Run(db.tables, map[], None, false, rest));
      r := Prepended(results, rest);
    }

    /** processServiceRequest: validate, run the request-level operations, check, update, and
        answer. */
    method ProcessServiceRequest(env: CA.Env, sr: ServiceRequest, now: int, cacheOrder: seq<string>)
        returns (r: Result<ServiceResponse>)
      requires Valid() && CA.ValidEnv(env)
      requires IterationOrder(cacheOrder, clientAttributes.savedRequestsCache.cache.Keys)
      modifies db, clientAttributes.templateCache, clientAttributes.savedRequestsCache,
        clientAttributes.savedRequestsCache.cache.Values
      ensures var o := ProcessOutcome(flags, env, old(db.tables), old(clientAttributes.templateCache.cache),
                                      old(clientAttributes.savedRequestsCache.cache), cacheOrder, sr, now);
        r == o.result && db.tables == o.tables && clientAttributes.templateCache.cache == o.templates
        && CA.StoredUnder(clientAttributes.savedRequestsCache.cache, old(clientAttributes.savedRequestsCache.cache),
                          AttributesKey(sr), o.store)
        && StampedIf(o.lookedUp, old(clientAttributes.savedRequestsCache.cache), AttributesKey(sr), now)
      ensures Valid()
    {
      hide ValidationResults, RequestLevelEffect, CheckResults, UpdateResults, Joined, WithStatus, CheckLoop,
        UpdateLoop, ValidationFrom, CheckedOutcome;
      var validations := ValidateServiceRequest(sr);
      if validations.Failure? {
        return Failure(validations.fault);
      }
      if HasError(validations.value) {
        var answer := JoinResults(validations.value);
        return Success(answer);
      }
      if Request in sr.operators {
        var level := ProcessRequestLevelOperations(db, sr);
        if level.Failure? {
          return Success(ServiceResponse(Failed, Some(NotProcessedMessage(sr.messageId, level.fault.message))));
        }
      }
      r := CheckThenUpdate(env, sr, now, cacheOrder);
    }

    /** The rest of processServiceRequest once the request is valid and its request-level
        operations are done. */
    method CheckThenUpdate(env: CA.Env, sr: ServiceRequest, now: int, cacheOrder: seq<string>)
        returns (r: Result<ServiceResponse>)
      requires Valid() && CA.ValidEnv(env)
      requires IterationOrder(cacheOrder, clientAttributes.savedRequestsCache.cache.Keys)
      modifies db, clientAttributes.templateCache, clientAttributes.savedRequestsCache,
        clientAttributes.savedRequestsCache.cache.Values
      ensures var o := CheckedOutcome(flags, env, old(db.tables), old(clientAttributes.templateCache.cache),
                                      old(clientAttributes.savedRequestsCache.cache), cacheOrder, sr, now);
        r == o.result && db.tables == o.tables && clientAttributes.templateCache.cache == o.templates
        && CA.StoredUnder(clientAttributes.savedRequestsCache.cache, old(clientAttributes.savedRequestsCache.cache),
                          AttributesKey(sr), o.store)
        && StampedIf(o.lookedUp, old(clientAttributes.savedRequestsCache.cache), AttributesKey(sr), now)
      ensures Valid()
    {
      hide CheckResults, UpdateResults, Joined, WithStatus, CheckLoop, UpdateLoop;
      var checks := GetCheckResults(env, sr, now, cacheOrder);
      if checks.Failure? {
        return Failure(checks.fault);
      }
      if HasError(checks.value) {
        var answer := JoinResults(checks.value);
        return Success(answer);
      }
      var warnings := WithStatus(checks.value, OkWithWarnings);
      var updates := GetUpdateResults(env, sr, now);
      if updates.Failure? {
        return Success(ServiceResponse(Failed, Some(UPDATE_FAILED + LINE_SEPARATOR + updates.fault.message)));
      }
      if exists i :: 0 <= i < |updates.value| && updates.value[i].status != Ok {
        var answer := JoinResults(updates.value + warnings);
        return Success(answer);
      }
      if warnings != [] {
        var answer := JoinResults(warnings);
        return Success(answer);
      }
      return Success(ServiceResponse(Ok, None));
    }
  }
}
