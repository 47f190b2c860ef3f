/** The control-identifiers operator (ControlIdentifiersServiceOperator): the identifiers a
    request carries are compared with the ones stored for it, and identifiers stored blank are
    filled in from the request. */
module ControlIdentifiersOperator {
  import opened Wrappers
  import JavaText
  import opened IdLists
  import opened OperatorsModel
  import opened ServiceData
  import opened Storage
  import opened IdentifierQueries

  /** `contains(id) && !isBlank(get(id).getIdValue())`, the way the validation spells the
      test. */
  function PresentAndNotBlank(ids: seq<RequestIdentifier>, id: Id): (r: bool)
    ensures r <==> HasValue(ids, id)
  {
    LookupsAgree(ids, id);
    Contains(ids, id) && !JavaText.IsNullOrBlank(Get(ids, id).value.idValue)
  }

  /** validateRequest: a version, a non-empty identifier list, a non-blank id_integration and a
      non-blank master-system or filial identifier. */
  function ValidateRequest(sr: ServiceRequest): (r: bool)
    ensures r <==> (sr.requestVersion.Some? && sr.idList.Some? && |sr.idList.value| > 0
      && HasValue(sr.idList.value, IdIntegration)
      && (HasValue(sr.idList.value, IdMasterSystem) || HasValue(sr.idList.value, IdFilial)))
  {
    sr.requestVersion.Some? && sr.idList.Some? && |sr.idList.value| > 0
    && PresentAndNotBlank(sr.idList.value, IdIntegration)
    && (PresentAndNotBlank(sr.idList.value, IdMasterSystem) || PresentAndNotBlank(sr.idList.value, IdFilial))
  }

  /** A request that passes validation always qualifies for one of the two stored-row lookups,
      so nothing stored for it escapes the check. */
  lemma ValidatedRequestIsLookedUp(sr: ServiceRequest, rows: seq<IdentifierRow>)
    requires ValidateRequest(sr)
    ensures var ids := sr.idList.value;
      StoredRow(rows, FlowName(sr.dataFlowType), sr.filialName, ids).None? <==>
        (!HasValue(ids, IdMasterSystem) || FirstMatch(rows, ByMasterSystem(FlowName(sr.dataFlowType), sr.filialName, ids)).None?)
        && (!HasValue(ids, IdFilial) || FirstMatch(rows, ByFilial(FlowName(sr.dataFlowType), sr.filialName, ids)).None?)
  {
    StoredRowFound(rows, FlowName(sr.dataFlowType), sr.filialName, sr.idList.value);
  }

  const NOT_FOUND := "Обращение с указанными идентификаторами не найдено"

  /** The message for a stored identifier the request gives a different value. */
  function IncorrectValueMessage(id: Id): string {
    match id
    case RequestTypeId => "Тип обращения не может быть изменен"
    case IdIntegration => "Некорректное значение идентификатора Id-Integration"
    case IdMainCheckSystem => "Некорректное значение идентификатора Id-MainCheckSystem"
    case IdMasterSystem => "Некорректное значение идентификатора Id-Мастер-системы"
    case IdFilial => "Некорректное значение идентификатора Id-Филиала"
    case FilialId => "Некорректное значение кода орг. структуры"
  }

  /** The message for a stored identifier the request lacks or leaves blank. */
  function MissingMessage(id: Id): string {
    match id
    case RequestTypeId => "Не указан тип обращения"
    case IdIntegration => "Отсутствует идентификатор Id-Integration"
    case IdMainCheckSystem => "Отсутствует идентификатор Id-MainCheckSystem"
    case IdMasterSystem => "Отсутствует идентификатор Id-Мастер-системы"
    case IdFilial => "Отсутствует идентификатор Id-Филиала"
    case FilialId => "Отсутствует код орг. структуры"
  }

  /** The verdict on one stored identifier: the request's value is compared with the stored one
      whatever the stored one is, null and blank included. */
  function IdentifierError(stored: RequestIdentifier, ids: seq<RequestIdentifier>): seq<string> {
    if HasValue(ids, stored.idName) then
      if GetValue(ids, stored.idName) != stored.idValue then [IncorrectValueMessage(stored.idName)] else []
    else [MissingMessage(stored.idName)]
  }

  /** The errors of checkIdentifiers, in the order of the stored identifiers. */
  function IdentifierErrors(stored: seq<RequestIdentifier>, ids: seq<RequestIdentifier>): (r: seq<string>)
    ensures |r| <= |stored|
  {
    if |stored| == 0 then []
    else IdentifierErrors(stored[..|stored| - 1], ids) + IdentifierError(stored[|stored| - 1], ids)
  }

  /** The stored identifier is matched: the request has it non-blank and with the same value. */
  predicate Matched(stored: RequestIdentifier, ids: seq<RequestIdentifier>) {
    HasValue(ids, stored.idName) && GetValue(ids, stored.idName) == stored.idValue
  }

  /** No errors exactly when every stored identifier is matched. */
  lemma {:induction false} NoErrorsIffAllMatched(stored: seq<RequestIdentifier>, ids: seq<RequestIdentifier>)
    ensures IdentifierErrors(stored, ids) == [] <==> forall i :: 0 <= i < |stored| ==> Matched(stored[i], ids)
  {
    hide IncorrectValueMessage, MissingMessage, HasValue, GetValue;
    if |stored| > 0 {
      var init, last := stored[..|stored| - 1], stored[|stored| - 1];
      NoErrorsIffAllMatched(init, ids);
      assert IdentifierError(last, ids) == [] <==> Matched(last, ids);
      assert forall i :: 0 <= i < |init| ==> init[i] == stored[i];
    }
  }

  /** A stored identifier that is null or blank is never matched: it is reported as incorrect
      when the request supplies a non-blank value and as missing otherwise. */
  lemma BlankStoredIsReported(stored: RequestIdentifier, ids: seq<RequestIdentifier>)
    requires JavaText.IsNullOrBlank(stored.idValue)
    ensures IdentifierError(stored, ids) ==
      if HasValue(ids, stored.idName) then [IncorrectValueMessage(stored.idName)] else [MissingMessage(stored.idName)]
  {
    HasValueByGetValue(ids, stored.idName);
  }

  /** The identifier is stored null or blank, so updateMissingIdentifiers may fill it. */
  predicate StoredBlank(stored: RequestIdentifier) {
    JavaText.IsNullOrBlank(stored.idValue)
  }

  /** The SET part of updateMissingIdentifiers: every identifier stored blank that the request
      names, set to the request's value (which may itself be null). */
  function MissingValues(stored: seq<RequestIdentifier>, ids: seq<RequestIdentifier>): (m: map<Id, Option<string>>)
    ensures forall id :: id in m <==> exists i :: 0 <= i < |stored| && stored[i].idName == id && StoredBlank(stored[i]) && Contains(ids, id)
    ensures forall id :: id in m ==> m[id] == GetValue(ids, id)
  {
    if |stored| == 0 then map[]
    else
      var init := stored[..|stored| - 1];
      var s := stored[|stored| - 1];
      var m := MissingValues(init, ids);
      assert forall i :: 0 <= i < |init| ==> init[i] == stored[i];
      if StoredBlank(s) && Contains(ids, s.idName) then m[s.idName := GetValue(ids, s.idName)] else m
  }

  /** The WHERE part beyond flow and filial: every identifier stored non-blank must keep its
      stored value. */
  function KeptConds(stored: seq<RequestIdentifier>): (conds: seq<Cond>)
    ensures forall c :: c in conds <==> exists i :: 0 <= i < |stored| && !StoredBlank(stored[i]) && c == Cond(stored[i].idName, stored[i].idValue)
  {
    if |stored| == 0 then []
    else
      var init := stored[..|stored| - 1];
      var s := stored[|stored| - 1];
      assert forall i :: 0 <= i < |init| ==> init[i] == stored[i];
      if StoredBlank(s) then KeptConds(init) else KeptConds(init) + [Cond(s.idName, s.idValue)]
  }

  /** updateMissingIdentifiers as a transformation of the table. */
  function UpdateMissingRows(rows: seq<IdentifierRow>, flow: string, filial: string,
                             stored: seq<RequestIdentifier>, ids: seq<RequestIdentifier>): seq<IdentifierRow>
  {
    var values := MissingValues(stored, ids);
    if values == map[] then rows else UpdateWhere(rows, Where(flow, filial, KeptConds(stored)), Assignment(None, values))
  }

  /** Nothing is written when no identifier stored blank is named in the request. */
  lemma UpdateMissingNoOp(rows: seq<IdentifierRow>, flow: string, filial: string,
                          stored: seq<RequestIdentifier>, ids: seq<RequestIdentifier>)
    requires forall i :: 0 <= i < |stored| ==> !(StoredBlank(stored[i]) && Contains(ids, stored[i].idName))
    ensures UpdateMissingRows(rows, flow, filial, stored, ids) == rows
  {
  }

  /** A row of the flow and filial that keeps every non-blank stored value. */
  predicate KeepsStored(row: IdentifierRow, flow: string, filial: string, stored: seq<RequestIdentifier>) {
    row.flow == flow && row.filial == filial
    && forall i :: 0 <= i < |stored| && !StoredBlank(stored[i]) ==> SqlEquals(Column(row.columns, stored[i].idName), stored[i].idValue)
  }

  lemma KeepsStoredIsClause(row: IdentifierRow, flow: string, filial: string, stored: seq<RequestIdentifier>)
    ensures KeepsStored(row, flow, filial, stored) <==> Holds(row, Where(flow, filial, KeptConds(stored)))
  {
    var conds := KeptConds(stored);
    if KeepsStored(row, flow, filial, stored) {
      forall k | 0 <= k < |conds| ensures SqlEquals(Column(row.columns, conds[k].id), conds[k].value) {
        assert conds[k] in conds;
      }
    }
    if Holds(row, Where(flow, filial, conds)) {
      forall i | 0 <= i < |stored| && !StoredBlank(stored[i])
        ensures SqlEquals(Column(row.columns, stored[i].idName), stored[i].idValue)
      {
        var c := Cond(stored[i].idName, stored[i].idValue);
        assert c in conds;
        var k :| 0 <= k < |conds| && conds[k] == c;
      }
    }
  }

  /** What the update does to each row: a row of the flow and filial that keeps every non-blank
      stored value gets exactly the blank-stored identifiers the request names, set to the
      request's values; every other row, and every other column, stays as it was. The version,
      flow and filial are never touched. */
  lemma UpdateMissingEffect(rows: seq<IdentifierRow>, flow: string, filial: string,
                            stored: seq<RequestIdentifier>, ids: seq<RequestIdentifier>, i: nat, id: Id)
    requires i < |rows|
    ensures var after := UpdateMissingRows(rows, flow, filial, stored, ids);
      |after| == |rows|
      && after[i].flow == rows[i].flow && after[i].filial == rows[i].filial
      && after[i].requestVersion == rows[i].requestVersion
      && (!KeepsStored(rows[i], flow, filial, stored) ==> after[i] == rows[i])
      && Column(after[i].columns, id) ==
        if KeepsStored(rows[i], flow, filial, stored)
          && exists j :: 0 <= j < |stored| && stored[j].idName == id && StoredBlank(stored[j]) && Contains(ids, id)
        then GetValue(ids, id) else Column(rows[i].columns, id)
  {
    KeepsStoredIsClause(rows[i], flow, filial, stored);
  }

  /** A column stored non-blank is never overwritten, in any row, when the stored identifiers
      name each kind once (as a stored row read back always does). */
  lemma UpdateMissingKeepsNonBlank(rows: seq<IdentifierRow>, flow: string, filial: string,
                                   stored: seq<RequestIdentifier>, ids: seq<RequestIdentifier>, i: nat, j: nat)
    requires DistinctNames(stored)
    requires i < |rows| && j < |stored| && !StoredBlank(stored[j])
    ensures Column(UpdateMissingRows(rows, flow, filial, stored, ids)[i].columns, stored[j].idName)
      == Column(rows[i].columns, stored[j].idName)
  {
    UpdateMissingEffect(rows, flow, filial, stored, ids, i, stored[j].idName);
  }

  /** updateMissingIdentifiers: build the SET list and the WHERE list, then run the update when
      there is something to set. The update count is not looked at. */
  method UpdateMissingIdentifiers(db: Database, ctr: ControlTypeRequest, stored: seq<RequestIdentifier>)
    requires ctr.requestIdentifiers.Some?
    modifies db
    ensures db.tables == old(db.tables).(identifiers := UpdateMissingRows(old(db.tables.identifiers),
      FlowName(ctr.dataFlowType), ctr.filial, stored, ctr.requestIdentifiers.value))
  {
    var ids := ctr.requestIdentifiers.value;
    var values: map<Id, Option<string>> := map[];
    for i := 0 to |stored|
      invariant values == MissingValues(stored[..i], ids)
    {
      assert stored[..i + 1][..i] == stored[..i];
      var id := stored[i];
      if StoredBlank(id) && Contains(ids, id.idName) {
        values := values[id.idName := GetValue(ids, id.idName)];
      }
    }
    assert stored[..|stored|] == stored;
    if values == map[] {
      return;
    }
    var conds: seq<Cond> := [];
    for i := 0 to |stored|
      invariant conds == KeptConds(stored[..i])
    {
      assert stored[..i + 1][..i] == stored[..i];
      var id := stored[i];
      if !StoredBlank(id) {
        conds := conds + [Cond(id.idName, id.idValue)];
      }
    }
    var w := Where(FlowName(ctr.dataFlowType), ctr.filial, conds);
    db.tables := db.tables.(identifiers := UpdateWhere(db.tables.identifiers, w, Assignment(None, values)));
  }

  /** checkIdentifiers: first fill in the missing identifiers, then compare. */
  function CheckIdentifiersEffect(t: Tables, ctr: ControlTypeRequest, stored: seq<RequestIdentifier>): (e: Effect<seq<string>>)
    requires ctr.requestIdentifiers.Some?
  {
    Effect(t.(identifiers := UpdateMissingRows(t.identifiers, FlowName(ctr.dataFlowType), ctr.filial, stored, ctr.requestIdentifiers.value)),
      Success(IdentifierErrors(stored, ctr.requestIdentifiers.value)))
  }

  /** checkIdentifiers, with its loop over the stored identifiers. */
  method CheckIdentifiers(db: Database, ctr: ControlTypeRequest, stored: seq<RequestIdentifier>) returns (errors: seq<string>)
    requires ctr.requestIdentifiers.Some?
    modifies db
    ensures Effect(db.tables, Success(errors)) == CheckIdentifiersEffect(old(db.tables), ctr, stored)
  {
    var ids := ctr.requestIdentifiers.value;
    UpdateMissingIdentifiers(db, ctr, stored);
    errors := [];
    for i := 0 to |stored|
      invariant errors == IdentifierErrors(stored[..i], ids)
    {
      assert stored[..i + 1][..i] == stored[..i];
      var id := stored[i];
      if HasValue(ids, id.idName) {
        if GetValue(ids, id.idName) != id.idValue {
          errors := errors + [IncorrectValueMessage(id.idName)];
        }
      } else {
        errors := errors + [MissingMessage(id.idName)];
      }
    }
    assert stored[..|stored|] == stored;
  }

  /** The row insertIdentifiersToDb adds: all six identifiers of the request and no version. */
  function InsertedIdentifiersRow(flow: string, filial: string, ids: seq<RequestIdentifier>): IdentifierRow {
    IdentifierRow(flow, filial, None, ColumnsOf(map[
      IdIntegration := GetValue(ids, IdIntegration),
      IdMasterSystem := GetValue(ids, IdMasterSystem),
      IdFilial := GetValue(ids, IdFilial),
      FilialId := GetValue(ids, FilialId),
      IdMainCheckSystem := GetValue(ids, IdMainCheckSystem),
      RequestTypeId := GetValue(ids, RequestTypeId)]))
  }

  /** saveIdentifiersToDB: insert when nothing is stored, otherwise fill in what is missing. */
  function SaveIdentifiersEffect(t: Tables, ctr: ControlTypeRequest): Effect<()> {
    match IdentifiersFromDB(t.identifiers, ctr)
    case Failure(f) => Effect(t, Failure(f))
    case Success(stored) =>
      var flow := FlowName(ctr.dataFlowType);
      if |stored| == 0 then
        Effect(t.(identifiers := t.identifiers + [InsertedIdentifiersRow(flow, ctr.filial, ctr.requestIdentifiers.value)]), Success(()))
      else
        Effect(t.(identifiers := UpdateMissingRows(t.identifiers, flow, ctr.filial, stored, ctr.requestIdentifiers.value)), Success(()))
  }

  method SaveIdentifiersToDB(db: Database, ctr: ControlTypeRequest) returns (r: Result<()>)
    modifies db
    ensures Effect(db.tables, r) == SaveIdentifiersEffect(old(db.tables), ctr)
  {
    var stored := GetIdentifiersFromDB(db, ctr);
    if stored.Failure? {
      return Failure(stored.fault);
    }
    if |stored.value| == 0 {
      var row := InsertedIdentifiersRow(FlowName(ctr.dataFlowType), ctr.filial, ctr.requestIdentifiers.value);
      db.tables := db.tables.(identifiers := db.tables.identifiers + [row]);
    } else {
      UpdateMissingIdentifiers(db, ctr, stored.value);
    }
    return Success(());
  }

  /** The inserted row holds each of the request's identifier values. */
  lemma InsertedRowColumns(flow: string, filial: string, ids: seq<RequestIdentifier>, id: Id)
    ensures Column(InsertedIdentifiersRow(flow, filial, ids).columns, id) == GetValue(ids, id)
  {
  }

  /** When nothing was stored, the inserted row is the one the lookup finds. */
  lemma InsertedRowFound(rows: seq<IdentifierRow>, flow: string, filial: string, ids: seq<RequestIdentifier>)
    requires StoredRow(rows, flow, filial, ids).None?
    requires HasValue(ids, IdIntegration) && (HasValue(ids, IdMasterSystem) || HasValue(ids, IdFilial))
    ensures StoredRow(rows + [InsertedIdentifiersRow(flow, filial, ids)], flow, filial, ids) == Some(|rows|)
  {
    var row := InsertedIdentifiersRow(flow, filial, ids);
    InsertedRowColumns(flow, filial, ids, IdIntegration);
    InsertedRowColumns(flow, filial, ids, IdMasterSystem);
    InsertedRowColumns(flow, filial, ids, IdFilial);
    AppendedRowFound(rows, flow, filial, ids, row);
  }

  /** A first save is found again: when nothing was stored for a request that has a non-blank
      id_integration and a non-blank master-system or filial identifier, after the save the
      lookup reads back exactly the request's identifiers. */
  lemma SaveThenLookup(t: Tables, ctr: ControlTypeRequest, id: Id)
    requires ctr.requestIdentifiers.Some?
    requires IdentifiersFromDB(t.identifiers, ctr) == Success([])
    requires var ids := ctr.requestIdentifiers.value;
      HasValue(ids, IdIntegration) && (HasValue(ids, IdMasterSystem) || HasValue(ids, IdFilial))
    ensures SaveIdentifiersEffect(t, ctr).result.Success?
    ensures var after := SaveIdentifiersEffect(t, ctr).tables;
      IdentifiersFromDB(after.identifiers, ctr).Success?
      && GetValue(IdentifiersFromDB(after.identifiers, ctr).value, id) == GetValue(ctr.requestIdentifiers.value, id)
  {
    var ids := ctr.requestIdentifiers.value;
    var flow := FlowName(ctr.dataFlowType);
    var row := InsertedIdentifiersRow(flow, ctr.filial, ids);
    var after := t.identifiers + [row];
    assert SaveIdentifiersEffect(t, ctr).tables.identifiers == after;
    InsertedRowFound(t.identifiers, flow, ctr.filial, ids);
    assert after[|t.identifiers|] == row;
    assert IdentifiersFromDB(after, ctr) == Success(RowIdentifiers(row.columns));
    RowIdentifiersRoundTrip(row.columns, id);
    InsertedRowColumns(flow, ctr.filial, ids, id);
  }

  /** checkControlIdentifiers. Only a RequestControlServiceException becomes a FAILED result; a
      runtime exception propagates. */
  function CheckControlIdentifiersEffect(t: Tables, ctr: ControlTypeRequest): Effect<ControlTypeResult> {
    match IdentifiersFromDB(t.identifiers, ctr)
    case Failure(f) => Caught(ctr.controlType, Effect(t, Failure(f)))
    case Success(stored) =>
      if |stored| == 0 then
        match VersionIsOne(ctr.requestVersion)
        case Failure(f) => Effect(t, Failure(f))
        case Success(isOne) =>
          if isOne || HasValue(ctr.requestIdentifiers.value, IdIntegration) then Effect(t, Success(Passed(ctr.controlType)))
          else Effect(t, Success(ControlTypeResult(ctr.controlType, Error, Some(NOT_FOUND))))
      else
        var e := CheckIdentifiersEffect(t, ctr, stored);
        var errors := IdentifierErrors(stored, ctr.requestIdentifiers.value);
        Effect(e.tables, Success(
          if errors == [] then Passed(ctr.controlType)
          else ControlTypeResult(ctr.controlType, Error, Some(JavaText.Join(ERROR_SEPARATOR, errors)))))
  }

  /** `catch (RequestControlServiceException e)`: a service fault becomes FAILED with its
      message; anything else passes through. */
  function Caught(t: ControlType, e: Effect<ControlTypeResult>): (r: Effect<ControlTypeResult>)
    ensures r.tables == e.tables
    ensures e.result.Failure? && e.result.fault.ServiceFault? ==>
      r.result == Success(ControlTypeResult(t, Failed, Some(e.result.fault.message)))
    ensures !(e.result.Failure? && e.result.fault.ServiceFault?) ==> r == e
  {
    Effect(e.tables, CaughtResult(t, e.result))
  }

  method CheckControlIdentifiers(db: Database, ctr: ControlTypeRequest) returns (r: Result<ControlTypeResult>)
    modifies db
    ensures Effect(db.tables, r) == CheckControlIdentifiersEffect(old(db.tables), ctr)
  {
    var stored := GetIdentifiersFromDB(db, ctr);
    if stored.Failure? {
      var caught := Caught(ctr.controlType, Effect(db.tables, Failure(stored.fault)));
      return caught.result;
    }
    if |stored.value| == 0 {
      var isOne := VersionIsOne(ctr.requestVersion);
      if isOne.Failure? {
        return Failure(isOne.fault);
      }
      if isOne.value || HasValue(ctr.requestIdentifiers.value, IdIntegration) {
        return Success(Passed(ctr.controlType));
      }
      return Success(ControlTypeResult(ctr.controlType, Error, Some(NOT_FOUND)));
    }
    var errors := CheckIdentifiers(db, ctr, stored.value);
    if errors == [] {
      return Success(Passed(ctr.controlType));
    }
    return Success(ControlTypeResult(ctr.controlType, Error, Some(JavaText.Join(ERROR_SEPARATOR, errors))));
  }

  /** With nothing stored, the check never writes: it throws when the request has no version,
      passes when the version is 1 or id_integration is non-blank, and otherwise reports that
      nothing was found. */
  lemma CheckWithoutStoredRow(t: Tables, ctr: ControlTypeRequest)
    requires IdentifiersFromDB(t.identifiers, ctr) == Success([])
    ensures CheckControlIdentifiersEffect(t, ctr).tables == t
    ensures var r := CheckControlIdentifiersEffect(t, ctr).result;
      if ctr.requestVersion.None? then r.Failure? && r.fault.RuntimeFault?
      else if ctr.requestVersion == Some(1) || HasValue(ctr.requestIdentifiers.value, IdIntegration) then r == Success(Passed(ctr.controlType))
      else r == Success(ControlTypeResult(ctr.controlType, Error, Some(NOT_FOUND)))
  {
  }

  /** With a stored row, the check passes exactly when every stored identifier is matched, and
      it has filled in the missing identifiers whatever the verdict. */
  lemma CheckWithStoredRow(t: Tables, ctr: ControlTypeRequest)
    requires IdentifiersFromDB(t.identifiers, ctr).Success? && IdentifiersFromDB(t.identifiers, ctr).value != []
    ensures var stored := IdentifiersFromDB(t.identifiers, ctr).value;
      var e := CheckControlIdentifiersEffect(t, ctr);
      e.result.Success?
      && (e.result.value.status == Ok <==> forall i :: 0 <= i < |stored| ==> Matched(stored[i], ctr.requestIdentifiers.value))
      && (e.result.value.status == Ok || e.result.value.status == Error)
      && e.tables.identifiers == UpdateMissingRows(t.identifiers, FlowName(ctr.dataFlowType), ctr.filial, stored, ctr.requestIdentifiers.value)
  {
    var stored := IdentifiersFromDB(t.identifiers, ctr).value;
    NoErrorsIffAllMatched(stored, ctr.requestIdentifiers.value);
  }
}
