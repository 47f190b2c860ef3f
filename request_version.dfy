/** The request-version operator (RequestVersionServiceOperator): a request may only replace the
    stored one with a strictly newer version, and a successful update records the new version. */
module RequestVersionOperator {
  import opened Wrappers
  import JavaText
  import opened IdLists
  import opened OperatorsModel
  import opened ServiceData
  import opened Storage
  import opened IdentifierQueries

  const NULL_POINTER := RuntimeFault("NullPointerException")

  /** validateRequest. Unlike the identifiers operator it reads id_integration through
      `get(...).getIdValue()` without asking whether the list holds one, so a versioned,
      non-empty list without id_integration throws. */
  function ValidateRequest(sr: ServiceRequest): (r: Result<bool>)
    ensures r.Failure? <==>
      sr.requestVersion.Some? && sr.idList.Some? && |sr.idList.value| > 0 && !Contains(sr.idList.value, IdIntegration)
    ensures r.Success? ==> (r.value <==> (sr.requestVersion.Some? && sr.idList.Some? && |sr.idList.value| > 0
      && HasValue(sr.idList.value, IdIntegration)
      && (HasValue(sr.idList.value, IdMasterSystem) || HasValue(sr.idList.value, IdFilial))))
  {
    if sr.requestVersion.None? || sr.idList.None? || |sr.idList.value| == 0 then Success(false)
    else
      var ids := sr.idList.value;
      LookupsAgree(ids, IdIntegration);
      LookupsAgree(ids, IdMasterSystem);
      LookupsAgree(ids, IdFilial);
      match Get(ids, IdIntegration)
      case None => Failure(NULL_POINTER)
      case Some(integration) =>
        Success(!JavaText.IsNullOrBlank(integration.idValue)
          && ((Contains(ids, IdMasterSystem) && !JavaText.IsNullOrBlank(Get(ids, IdMasterSystem).value.idValue))
              || (Contains(ids, IdFilial) && !JavaText.IsNullOrBlank(Get(ids, IdFilial).value.idValue))))
  }

  /** `rs.getInt(1)` on the row a query found: a NULL version reads as 0. */
  function VersionAt(rows: seq<IdentifierRow>, k: Option<nat>): (r: Option<int>)
    requires k.Some? ==> k.value < |rows|
    ensures r.None? <==> k.None?
    ensures r.Some? ==> r.value == rows[k.value].requestVersion.GetOr(0)
  {
    if k.Some? then Some(rows[k.value].requestVersion.GetOr(0)) else None
  }

  /** getRequestVersionFromDB: the version stored under the master-system tuple when the request
      has a non-blank master-system identifier; when that gave nothing, the version stored under
      the filial tuple when the request has a non-blank filial identifier. Each query reads
      id_integration through `get(...).getIdValue()` and throws when the list has none. */
  function StoredVersion(rows: seq<IdentifierRow>, ctr: ControlTypeRequest): (r: Result<Option<int>>)
    ensures r.Success? ==> ctr.requestIdentifiers.Some?
  {
    match ctr.requestIdentifiers
    case None => Failure(NULL_POINTER)
    case Some(ids) =>
      var flow := FlowName(ctr.dataFlowType);
      var byMaster: Result<Option<int>> :=
        if !HasValue(ids, IdMasterSystem) then Success(None)
        else if !Contains(ids, IdIntegration) then Failure(NULL_POINTER)
        else Success(VersionAt(rows, FirstMatch(rows, ByMasterSystem(flow, ctr.filial, ids))));
      if byMaster.Success? && byMaster.value.None? && HasValue(ids, IdFilial) then
        if !Contains(ids, IdIntegration) then Failure(NULL_POINTER)
        else Success(VersionAt(rows, FirstMatch(rows, ByFilial(flow, ctr.filial, ids))))
      else byMaster
  }

  /** Where the identifier lookup finds a row, the version lookup finds a version: it runs the
      same two queries in the same order, and getInt reads a NULL version as 0. */
  lemma {:induction false} StoredRowHasVersion(rows: seq<IdentifierRow>, ctr: ControlTypeRequest)
    requires IdentifiersFromDB(rows, ctr).Success? && IdentifiersFromDB(rows, ctr).value != []
    ensures StoredVersion(rows, ctr).Success? && StoredVersion(rows, ctr).value.Some?
  {
    var ids := ctr.requestIdentifiers.value;
    var flow := FlowName(ctr.dataFlowType);
    var k := StoredRow(rows, flow, ctr.filial, ids);
    assert k.Some?;
    assert HasValue(ids, IdIntegration);
    assert Contains(ids, IdIntegration);
  }

  /** getRequestVersionFromDB, step by step. */
  method GetRequestVersionFromDB(db: Database, ctr: ControlTypeRequest) returns (r: Result<Option<int>>)
    ensures r == StoredVersion(db.tables.identifiers, ctr)
  {
    if ctr.requestIdentifiers.None? {
      return Failure(NULL_POINTER);
    }
    var ids := ctr.requestIdentifiers.value;
    var flow := FlowName(ctr.dataFlowType);
    var requestVersion: Option<int> := None;
    if HasValue(ids, IdMasterSystem) {
      if !Contains(ids, IdIntegration) {
        return Failure(NULL_POINTER);
      }
      var found := FirstMatch(db.tables.identifiers, ByMasterSystem(flow, ctr.filial, ids));
      if found.Some? {
        requestVersion := Some(db.tables.identifiers[found.value].requestVersion.GetOr(0));
      }
    }
    if requestVersion.None? && HasValue(ids, IdFilial) {
      if !Contains(ids, IdIntegration) {
        return Failure(NULL_POINTER);
      }
      var found := FirstMatch(db.tables.identifiers, ByFilial(flow, ctr.filial, ids));
      if found.Some? {
        requestVersion := Some(db.tables.identifiers[found.value].requestVersion.GetOr(0));
      }
    }
    return Success(requestVersion);
  }

  /** The version lookup throws exactly when there is no identifier list, or when a query is due
      and the list has no id_integration. */
  lemma StoredVersionThrows(rows: seq<IdentifierRow>, ctr: ControlTypeRequest)
    ensures StoredVersion(rows, ctr).Failure? <==>
      ctr.requestIdentifiers.None?
      || (!Contains(ctr.requestIdentifiers.value, IdIntegration)
          && (HasValue(ctr.requestIdentifiers.value, IdMasterSystem) || HasValue(ctr.requestIdentifiers.value, IdFilial)))
    ensures StoredVersion(rows, ctr).Failure? ==> StoredVersion(rows, ctr).fault == NULL_POINTER
  {
  }

  /** When the request has a non-blank id_integration, the version is read from the very row
      getIdentifiersFromDB finds, so the two lookups agree on what is stored. */
  lemma StoredVersionFromStoredRow(rows: seq<IdentifierRow>, ctr: ControlTypeRequest)
    requires ctr.requestIdentifiers.Some? && HasValue(ctr.requestIdentifiers.value, IdIntegration)
    ensures var k := StoredRow(rows, FlowName(ctr.dataFlowType), ctr.filial, ctr.requestIdentifiers.value);
      (k.Some? ==> k.value < |rows|) && StoredVersion(rows, ctr) == Success(VersionAt(rows, k))
  {
    var ids := ctr.requestIdentifiers.value;
    LookupsAgree(ids, IdIntegration);
    StoredRowFound(rows, FlowName(ctr.dataFlowType), ctr.filial, ids);
  }

  const MUST_BE_ONE := "Номер версии создаваемого обращения должен быть равен 1"

  /** The error for a version that is not newer than the stored one, quoting the stored one. */
  function OutdatedMessage(saved: int): string {
    "Версия передаваемого обращения устарела. Пожалуйста, получите актуальную версию '"
      + JavaText.IntToString(saved) + "' перед обновлением"
  }

  /** checkRequestVersion. With nothing stored, the request passes when its version is 1 (a null
      version throws on unboxing) or when it has a non-blank id_integration. With a version
      stored, it passes only when that version is strictly lower than its own (a null version
      throws). */
  function CheckRequestVersion(rows: seq<IdentifierRow>, ctr: ControlTypeRequest): Result<ControlTypeResult> {
    var t := ctr.controlType;
    CaughtResult(t,
      match StoredVersion(rows, ctr)
      case Failure(f) => Failure(f)
      case Success(saved) =>
        if saved.None? then
          match VersionIsOne(ctr.requestVersion)
          case Failure(f) => Failure(f)
          case Success(isOne) =>
            if isOne || HasValue(ctr.requestIdentifiers.value, IdIntegration) then Success(Passed(t))
            else Success(ControlTypeResult(t, Error, Some(MUST_BE_ONE)))
        else if ctr.requestVersion.None? then Failure(NULL_POINTER)
        else if saved.value < ctr.requestVersion.value then Success(Passed(t))
        else Success(ControlTypeResult(t, Error, Some(OutdatedMessage(saved.value)))))
  }

  /** Against a stored version the check passes if and only if the incoming version is strictly
      newer; otherwise the error quotes the stored version, and resending the same version is
      rejected. */
  lemma CheckAgainstStoredVersion(rows: seq<IdentifierRow>, ctr: ControlTypeRequest, saved: int, v: int)
    requires StoredVersion(rows, ctr) == Success(Some(saved)) && ctr.requestVersion == Some(v)
    ensures CheckRequestVersion(rows, ctr).Success?
    ensures CheckRequestVersion(rows, ctr).value.status == Ok <==> saved < v
    ensures CheckRequestVersion(rows, ctr).value.status != Ok ==>
      CheckRequestVersion(rows, ctr).value == ControlTypeResult(ctr.controlType, Error, Some(OutdatedMessage(saved)))
    ensures v == saved ==> CheckRequestVersion(rows, ctr).value.status == Error
  {
  }

  /** With no stored version the check passes for a first version or a request with a non-blank
      id_integration and otherwise demands version 1; a request without a version throws. */
  lemma CheckWithoutStoredVersion(rows: seq<IdentifierRow>, ctr: ControlTypeRequest)
    requires StoredVersion(rows, ctr) == Success(None)
    ensures var r := CheckRequestVersion(rows, ctr);
      if ctr.requestVersion.None? then r == Failure(NULL_POINTER)
      else if ctr.requestVersion == Some(1) || HasValue(ctr.requestIdentifiers.value, IdIntegration) then r == Success(Passed(ctr.controlType))
      else r == Success(ControlTypeResult(ctr.controlType, Error, Some(MUST_BE_ONE)))
  {
  }

  /** `SET request_version=? WHERE flow=? AND filial=? AND id_master_system=? AND filial_id=?`. */
  function ByMasterAndFilialId(flow: string, filial: string, ids: seq<RequestIdentifier>): Where {
    Where(flow, filial, [Cond(IdMasterSystem, GetValue(ids, IdMasterSystem)), Cond(FilialId, GetValue(ids, FilialId))])
  }

  /** `SET request_version=? WHERE flow=? AND filial=? AND id_filial=? AND filial_id=?`. */
  function ByFilialAndFilialId(flow: string, filial: string, ids: seq<RequestIdentifier>): Where {
    Where(flow, filial, [Cond(IdFilial, GetValue(ids, IdFilial)), Cond(FilialId, GetValue(ids, FilialId))])
  }

  function SetVersion(v: int): Assignment {
    Assignment(Some(Some(v)), map[])
  }

  /** Binding an update's parameters succeeds: setInt unboxes the version and filial_id is read
      through `get(...).getIdValue()`. */
  predicate CanBindUpdate(ctr: ControlTypeRequest, ids: seq<RequestIdentifier>) {
    ctr.requestVersion.Some? && Contains(ids, FilialId)
  }

  const VERSION_NOT_UPDATED := "Обновление версии обращения не выполнено."

  /** updateVersionInDb: the master-system update when the request has a non-blank master-system
      identifier; the filial update when that touched no row and the request has a non-blank
      filial identifier; a service fault when neither touched a row. Rows are picked by
      filial_id, not by id_integration. A statement that throws while binding has written
      nothing, and neither has one that matched no row, so every failure leaves the table
      as it was. */
  function UpdateVersionEffect(t: Tables, ctr: ControlTypeRequest): Effect<()> {
    match ctr.requestIdentifiers
    case None => Effect(t, Failure(NULL_POINTER))
    case Some(ids) =>
      var flow := FlowName(ctr.dataFlowType);
      var byMaster := ByMasterAndFilialId(flow, ctr.filial, ids);
      var byFilial := ByFilialAndFilialId(flow, ctr.filial, ids);
      if HasValue(ids, IdMasterSystem) && !CanBindUpdate(ctr, ids) then Effect(t, Failure(NULL_POINTER))
      else if HasValue(ids, IdMasterSystem) && MatchCount(t.identifiers, byMaster) > 0 then
        Effect(t.(identifiers := UpdateWhere(t.identifiers, byMaster, SetVersion(ctr.requestVersion.value))), Success(()))
      else if HasValue(ids, IdFilial) && !CanBindUpdate(ctr, ids) then Effect(t, Failure(NULL_POINTER))
      else if HasValue(ids, IdFilial) && MatchCount(t.identifiers, byFilial) > 0 then
        Effect(t.(identifiers := UpdateWhere(t.identifiers, byFilial, SetVersion(ctr.requestVersion.value))), Success(()))
      else Effect(t, Failure(ServiceFault(VERSION_NOT_UPDATED)))
  }

  /** updateVersionInDb, statement by statement with its update count. */
  method UpdateVersionInDb(db: Database, ctr: ControlTypeRequest) returns (r: Result<()>)
    modifies db
    ensures Effect(db.tables, r) == UpdateVersionEffect(old(db.tables), ctr)
  {
    if ctr.requestIdentifiers.None? {
      return Failure(NULL_POINTER);
    }
    var ids := ctr.requestIdentifiers.value;
    var flow := FlowName(ctr.dataFlowType);
    var updateCount := 0;
    if HasValue(ids, IdMasterSystem) {
      if !CanBindUpdate(ctr, ids) {
        return Failure(NULL_POINTER);
      }
      var w := ByMasterAndFilialId(flow, ctr.filial, ids);
      updateCount := MatchCount(db.tables.identifiers, w);
      if updateCount == 0 {
        UpdateWhereNoMatch(db.tables.identifiers, w, SetVersion(ctr.requestVersion.value));
      }
      db.tables := db.tables.(identifiers := UpdateWhere(db.tables.identifiers, w, SetVersion(ctr.requestVersion.value)));
    }
    assert updateCount == 0 ==> db.tables == old(db.tables);
    if updateCount == 0 && HasValue(ids, IdFilial) {
      if !CanBindUpdate(ctr, ids) {
        return Failure(NULL_POINTER);
      }
      var w := ByFilialAndFilialId(flow, ctr.filial, ids);
      updateCount := MatchCount(db.tables.identifiers, w);
      if updateCount == 0 {
        UpdateWhereNoMatch(db.tables.identifiers, w, SetVersion(ctr.requestVersion.value));
      }
      db.tables := db.tables.(identifiers := UpdateWhere(db.tables.identifiers, w, SetVersion(ctr.requestVersion.value)));
    }
    if updateCount == 0 {
      return Failure(ServiceFault(VERSION_NOT_UPDATED));
    }
    return Success(());
  }

  /** With the parameters bound, the update fails with "not updated" exactly when neither of
      the statements it is entitled to run matches a row, and a failure writes nothing. */
  lemma UpdateVersionFailsIffNothingMatches(t: Tables, ctr: ControlTypeRequest)
    requires ctr.requestIdentifiers.Some? && CanBindUpdate(ctr, ctr.requestIdentifiers.value)
    ensures var ids := ctr.requestIdentifiers.value;
      var flow := FlowName(ctr.dataFlowType);
      UpdateVersionEffect(t, ctr).result == Failure(ServiceFault(VERSION_NOT_UPDATED)) <==>
        (!HasValue(ids, IdMasterSystem) || MatchCount(t.identifiers, ByMasterAndFilialId(flow, ctr.filial, ids)) == 0)
        && (!HasValue(ids, IdFilial) || MatchCount(t.identifiers, ByFilialAndFilialId(flow, ctr.filial, ids)) == 0)
    ensures UpdateVersionEffect(t, ctr).result.Failure? ==> UpdateVersionEffect(t, ctr).tables == t
  {
  }

  /** What a successful update may do to one row: keep its flow, filial and identifiers, and
      change it only by giving it the request's version when it carries the request's filial_id
      together with its master-system or filial identifier. */
  predicate VersionSetOn(before: IdentifierRow, after: IdentifierRow, ctr: ControlTypeRequest)
    requires ctr.requestIdentifiers.Some?
  {
    var ids := ctr.requestIdentifiers.value;
    after.flow == before.flow && after.filial == before.filial && after.columns == before.columns
    && (after != before ==> (
      after.requestVersion == ctr.requestVersion
      && SqlEquals(Column(before.columns, FilialId), GetValue(ids, FilialId))
      && (SqlEquals(Column(before.columns, IdMasterSystem), GetValue(ids, IdMasterSystem))
          || SqlEquals(Column(before.columns, IdFilial), GetValue(ids, IdFilial)))))
  }

  /** The version update of one row under either clause. */
  lemma SetVersionOnRow(row: IdentifierRow, ctr: ControlTypeRequest, w: Where)
    requires ctr.requestIdentifiers.Some? && ctr.requestVersion.Some?
    requires var ids := ctr.requestIdentifiers.value;
      var flow := FlowName(ctr.dataFlowType);
      w == ByMasterAndFilialId(flow, ctr.filial, ids) || w == ByFilialAndFilialId(flow, ctr.filial, ids)
    ensures VersionSetOn(row, if Holds(row, w) then Assign(row, SetVersion(ctr.requestVersion.value)) else row, ctr)
  {
    if Holds(row, w) {
      assert SqlEquals(Column(row.columns, w.conds[0].id), w.conds[0].value);
      assert SqlEquals(Column(row.columns, w.conds[1].id), w.conds[1].value);
      assert Assign(row, SetVersion(ctr.requestVersion.value)).columns == row.columns;
    }
  }

  /** A successful update changes nothing but versions, row by row as VersionSetOn allows, and
      it gave at least one row the request's version. */
  lemma UpdateVersionRows(t: Tables, ctr: ControlTypeRequest)
    requires UpdateVersionEffect(t, ctr).result.Success?
    ensures ctr.requestIdentifiers.Some? && ctr.requestVersion.Some?
    ensures UpdateVersionEffect(t, ctr).tables.(identifiers := t.identifiers) == t
    ensures |UpdateVersionEffect(t, ctr).tables.identifiers| == |t.identifiers|
    ensures forall i :: 0 <= i < |t.identifiers| ==>
      VersionSetOn(t.identifiers[i], UpdateVersionEffect(t, ctr).tables.identifiers[i], ctr)
    ensures exists i :: (0 <= i < |t.identifiers|
      && UpdateVersionEffect(t, ctr).tables.identifiers[i].requestVersion == ctr.requestVersion
      && SqlEquals(Column(t.identifiers[i].columns, FilialId), GetValue(ctr.requestIdentifiers.value, FilialId)))
  {
    var ids := ctr.requestIdentifiers.value;
    var flow := FlowName(ctr.dataFlowType);
    var v := ctr.requestVersion.value;
    var w := if HasValue(ids, IdMasterSystem) && MatchCount(t.identifiers, ByMasterAndFilialId(flow, ctr.filial, ids)) > 0
      then ByMasterAndFilialId(flow, ctr.filial, ids) else ByFilialAndFilialId(flow, ctr.filial, ids);
    var after := UpdateWhere(t.identifiers, w, SetVersion(v));
    assert UpdateVersionEffect(t, ctr).tables.identifiers == after;
    forall i | 0 <= i < |t.identifiers|
      ensures VersionSetOn(t.identifiers[i], after[i], ctr)
    {
      SetVersionOnRow(t.identifiers[i], ctr, w);
    }
    var k := FirstMatch(t.identifiers, w);
    assert k.Some?;
    assert after[k.value].requestVersion == Some(v);
    assert SqlEquals(Column(t.identifiers[k.value].columns, w.conds[1].id), w.conds[1].value);
  }

  /** As written, id_integration plays no part in the update: a row with the request's flow,
      filial, master-system identifier and filial_id gets the new version even though its
      id_integration differs from the request's. */
  lemma IntegrationIsNotConsulted(ctr: ControlTypeRequest, row: IdentifierRow, v: int)
    requires ctr.requestVersion == Some(v) && ctr.requestIdentifiers.Some?
    requires var ids := ctr.requestIdentifiers.value;
      HasValue(ids, IdMasterSystem) && Contains(ids, FilialId)
      && row.flow == FlowName(ctr.dataFlowType) && row.filial == ctr.filial
      && Column(row.columns, IdMasterSystem) == GetValue(ids, IdMasterSystem)
      && SqlEquals(Column(row.columns, FilialId), GetValue(ids, FilialId))
      && Column(row.columns, IdIntegration) != GetValue(ids, IdIntegration)
    ensures var t := Tables([row], [], [], []);
      UpdateVersionEffect(t, ctr).result.Success?
      && UpdateVersionEffect(t, ctr).tables.identifiers == [row.(requestVersion := Some(v))]
  {
    var ids := ctr.requestIdentifiers.value;
    var w := ByMasterAndFilialId(FlowName(ctr.dataFlowType), ctr.filial, ids);
    HasValueByGetValue(ids, IdMasterSystem);
    assert Holds(row, w);
    assert MatchCount([row], w) == 1;
    var a := Assign(row, SetVersion(v));
    assert a.columns == row.columns;
  }

  /** The row insertVersionToDb adds: the version and five identifiers (request_type_id is not
      written). */
  function InsertedVersionRow(flow: string, filial: string, v: int, ids: seq<RequestIdentifier>): IdentifierRow {
    IdentifierRow(flow, filial, Some(v), ColumnsOf(map[
      IdIntegration := GetValue(ids, IdIntegration),
      IdMasterSystem := GetValue(ids, IdMasterSystem),
      IdFilial := GetValue(ids, IdFilial),
      FilialId := GetValue(ids, FilialId),
      IdMainCheckSystem := GetValue(ids, IdMainCheckSystem)]))
  }

  /** The inserted row holds the request's value of every identifier but the request type. */
  lemma InsertedVersionRowColumns(flow: string, filial: string, v: int, ids: seq<RequestIdentifier>, id: Id)
    requires id != RequestTypeId
    ensures Column(InsertedVersionRow(flow, filial, v, ids).columns, id) == GetValue(ids, id)
  {
  }

  /** insertVersionToDb. Binding throws when there is no version or no identifier list; nothing
      is written then. */
  function InsertVersionEffect(t: Tables, ctr: ControlTypeRequest): Effect<()> {
    if ctr.requestVersion.None? || ctr.requestIdentifiers.None? then Effect(t, Failure(NULL_POINTER))
    else
      var row := InsertedVersionRow(FlowName(ctr.dataFlowType), ctr.filial, ctr.requestVersion.value, ctr.requestIdentifiers.value);
      Effect(t.(identifiers := t.identifiers + [row]), Success(()))
  }

  method InsertVersionToDb(db: Database, ctr: ControlTypeRequest) returns (r: Result<()>)
    modifies db
    ensures Effect(db.tables, r) == InsertVersionEffect(old(db.tables), ctr)
  {
    if ctr.requestVersion.None? || ctr.requestIdentifiers.None? {
      return Failure(NULL_POINTER);
    }
    var row := InsertedVersionRow(FlowName(ctr.dataFlowType), ctr.filial, ctr.requestVersion.value, ctr.requestIdentifiers.value);
    db.tables := db.tables.(identifiers := db.tables.identifiers + [row]);
    return Success(());
  }

  /** updateRequestVersionInDB: insert when getIdentifiersFromDB finds nothing, update
      otherwise. */
  function UpdateRequestVersionEffect(t: Tables, ctr: ControlTypeRequest): Effect<()> {
    match IdentifiersFromDB(t.identifiers, ctr)
    case Failure(f) => Effect(t, Failure(f))
    case Success(stored) =>
      if |stored| == 0 then InsertVersionEffect(t, ctr) else UpdateVersionEffect(t, ctr)
  }

  method UpdateRequestVersionInDB(db: Database, ctr: ControlTypeRequest) returns (r: Result<()>)
    modifies db
    ensures Effect(db.tables, r) == UpdateRequestVersionEffect(old(db.tables), ctr)
  {
    var stored := GetIdentifiersFromDB(db, ctr);
    if stored.Failure? {
      return Failure(stored.fault);
    }
    if |stored.value| == 0 {
      r := InsertVersionToDb(db, ctr);
    } else {
      r := UpdateVersionInDb(db, ctr);
    }
  }

  /** A first version is recorded where the check will look: when nothing was stored for a
      request with a version, a non-blank id_integration and a non-blank master-system or filial
      identifier, the update succeeds, the version lookup then reads back the request's version,
      and the same request is rejected as outdated if it comes again. */
  lemma FirstVersionIsFoundAgain(t: Tables, ctr: ControlTypeRequest, v: int)
    requires ctr.requestVersion == Some(v) && ctr.requestIdentifiers.Some?
    requires IdentifiersFromDB(t.identifiers, ctr) == Success([])
    requires var ids := ctr.requestIdentifiers.value;
      HasValue(ids, IdIntegration) && (HasValue(ids, IdMasterSystem) || HasValue(ids, IdFilial))
    ensures UpdateRequestVersionEffect(t, ctr).result.Success?
    ensures StoredVersion(UpdateRequestVersionEffect(t, ctr).tables.identifiers, ctr) == Success(Some(v))
    ensures CheckRequestVersion(UpdateRequestVersionEffect(t, ctr).tables.identifiers, ctr)
      == Success(ControlTypeResult(ctr.controlType, Error, Some(OutdatedMessage(v))))
  {
    hide CheckRequestVersion, OutdatedMessage;
    var ids := ctr.requestIdentifiers.value;
    var flow := FlowName(ctr.dataFlowType);
    var row := InsertedVersionRow(flow, ctr.filial, v, ids);
    var after := t.identifiers + [row];
    assert UpdateRequestVersionEffect(t, ctr).tables.identifiers == after;
    assert StoredRow(t.identifiers, flow, ctr.filial, ids).None?;
    InsertedVersionRowColumns(flow, ctr.filial, v, ids, IdIntegration);
    InsertedVersionRowColumns(flow, ctr.filial, v, ids, IdMasterSystem);
    InsertedVersionRowColumns(flow, ctr.filial, v, ids, IdFilial);
    AppendedRowFound(t.identifiers, flow, ctr.filial, ids, row);
    StoredVersionFromStoredRow(after, ctr);
    assert after[|t.identifiers|] == row;
    hide StoredRow, UpdateRequestVersionEffect;
    CheckAgainstStoredVersion(after, ctr, v, v);
  }
}
