/** The part of RequestControlService that writes request_identifiers itself rather than through
    an operator: the fused save of identifiers and version, its insert and its update, and the
    delete that restoring from the cache starts with. Also the per-operator requests it builds
    (generateControlTypeRequest). */
module RequestRows {
  import opened Wrappers
  import JavaText
  import opened IdLists
  import opened OperatorsModel
  import opened ServiceData
  import opened Storage
  import opened IdentifierQueries
  import opened RequestVersionOperator

  /** generateControlTypeRequest: the part of the request each operator is given. The
      client-attributes request holds only the master-system identifier, put in a list with
      List.of, which throws on a missing list and on a null element alike. */
  function GenerateControlTypeRequest(ct: ControlType, sr: ServiceRequest): (r: Result<ControlTypeRequest>)
    ensures r.Success? ==> r.value.controlType == ct && r.value.dataFlowType == sr.dataFlowType && r.value.filial == sr.filialName
    ensures r.Failure? <==> ct == ClientAttributes && (sr.idList.None? || !Contains(sr.idList.value, IdMasterSystem))
    ensures r.Success? && ct != ClientAttributes ==> r.value.requestIdentifiers == sr.idList
    ensures r.Success? && ct == ClientAttributes ==> r.value.requestIdentifiers == Some([Get(sr.idList.value, IdMasterSystem).value])
    ensures r.Success? ==> r.value.requestVersion == if ct == Request || ct == RequestVersion then sr.requestVersion else None
    ensures r.Success? ==> r.value.request == if ct == Request || ct == ClientAttributes then sr.checkRequestBody else None
  {
    var flow, filial := sr.dataFlowType, sr.filialName;
    match ct
    case Request => Success(ControlTypeRequest(ct, flow, filial, sr.requestVersion, sr.checkRequestBody, sr.idList))
    case RequestVersion => Success(ControlTypeRequest(ct, flow, filial, sr.requestVersion, None, sr.idList))
    case ControlIdentifiers => Success(ControlTypeRequest(ct, flow, filial, None, None, sr.idList))
    case ClientAttributes =>
      if sr.idList.None? then Failure(NULL_POINTER)
      else
        LookupsAgree(sr.idList.value, IdMasterSystem);
        match Get(sr.idList.value, IdMasterSystem)
        case None => Failure(NULL_POINTER)
        case Some(id) => Success(ControlTypeRequest(ct, flow, filial, None, sr.checkRequestBody, Some([id])))
  }

  /** The request for the whole request (control type REQUEST), which never fails. */
  function RequestCtr(sr: ServiceRequest): (ctr: ControlTypeRequest)
    ensures GenerateControlTypeRequest(Request, sr) == Success(ctr)
    ensures ctr.requestVersion == sr.requestVersion && ctr.requestIdentifiers == sr.idList
  {
    ControlTypeRequest(Request, sr.dataFlowType, sr.filialName, sr.requestVersion, sr.checkRequestBody, sr.idList)
  }

  // ---------------------------------------------------------------------------------------
  // insertIdentifiersAndRequestVersionToDB

  /** The row insertIdentifiersAndRequestVersionToDB adds: the version and all six
      identifiers. */
  function InsertedRequestRow(flow: string, filial: string, v: int, ids: seq<RequestIdentifier>): IdentifierRow {
    IdentifierRow(flow, filial, Some(v), ColumnsOf(map[
      IdIntegration := GetValue(ids, IdIntegration),
      IdMasterSystem := GetValue(ids, IdMasterSystem),
      IdFilial := GetValue(ids, IdFilial),
      FilialId := GetValue(ids, FilialId),
      IdMainCheckSystem := GetValue(ids, IdMainCheckSystem),
      RequestTypeId := GetValue(ids, RequestTypeId)]))
  }

  /** insertIdentifiersAndRequestVersionToDB. Binding a null version, or reading a missing
      identifier list, throws before anything is written; the update count is not looked at. */
  function InsertRequestEffect(t: Tables, ctr: ControlTypeRequest): Effect<()> {
    if ctr.requestVersion.None? || ctr.requestIdentifiers.None? then Effect(t, Failure(NULL_POINTER))
    else
      var row := InsertedRequestRow(FlowName(ctr.dataFlowType), ctr.filial, ctr.requestVersion.value, ctr.requestIdentifiers.value);
      Effect(t.(identifiers := t.identifiers + [row]), Success(()))
  }

  method InsertIdentifiersAndRequestVersionToDB(db: Database, ctr: ControlTypeRequest) returns (r: Result<()>)
    modifies db
    ensures Effect(db.tables, r) == InsertRequestEffect(old(db.tables), ctr)
  {
    if ctr.requestVersion.None? || ctr.requestIdentifiers.None? {
      return Failure(NULL_POINTER);
    }
    var row := InsertedRequestRow(FlowName(ctr.dataFlowType), ctr.filial, ctr.requestVersion.value, ctr.requestIdentifiers.value);
    db.tables := db.tables.(identifiers := db.tables.identifiers + [row]);
    return Success(());
  }

  /** The inserted row holds the version and each of the request's identifier values. */
  lemma InsertedRequestRowColumns(flow: string, filial: string, v: int, ids: seq<RequestIdentifier>, id: Id)
    ensures InsertedRequestRow(flow, filial, v, ids).requestVersion == Some(v)
    ensures Column(InsertedRequestRow(flow, filial, v, ids).columns, id) == GetValue(ids, id)
  {
  }

  // ---------------------------------------------------------------------------------------
  // updateVersionAndMissingIdentifiers

  /** The test updateVersionAndMissingIdentifiers applies to a stored identifier: null or
      empty. Unlike the identifiers operator it does not treat a whitespace-only value as
      missing. */
  predicate StoredEmpty(stored: RequestIdentifier) {
    JavaText.IsNullOrEmpty(stored.idValue)
  }

  /** The SET part after request_version: every identifier stored empty that the request
      names, set to the request's value (which may be null). */
  function EmptyValues(stored: seq<RequestIdentifier>, ids: seq<RequestIdentifier>): (m: map<Id, Option<string>>)
    ensures forall id :: id in m <==> exists i :: 0 <= i < |stored| && stored[i].idName == id && StoredEmpty(stored[i]) && Contains(ids, id)
    ensures forall id :: id in m ==> m[id] == GetValue(ids, id)
  {
    if |stored| == 0 then map[]
    else
      var init := stored[..|stored| - 1];
      var s := stored[|stored| - 1];
      var m := EmptyValues(init, ids);
      assert forall i :: 0 <= i < |init| ==> init[i] == stored[i];
      if StoredEmpty(s) && Contains(ids, s.idName) then m[s.idName := GetValue(ids, s.idName)] else m
  }

  /** The WHERE part after flow and filial: every identifier stored non-empty keeps its stored
      value. */
  function StoredConds(stored: seq<RequestIdentifier>): (conds: seq<Cond>)
    ensures forall c :: c in conds <==> exists i :: 0 <= i < |stored| && !StoredEmpty(stored[i]) && c == Cond(stored[i].idName, stored[i].idValue)
  {
    if |stored| == 0 then []
    else
      var init := stored[..|stored| - 1];
      var s := stored[|stored| - 1];
      assert forall i :: 0 <= i < |init| ==> init[i] == stored[i];
      if StoredEmpty(s) then StoredConds(init) else StoredConds(init) + [Cond(s.idName, s.idValue)]
  }

  const NOT_UPDATED := "Не удалось обновить данные по идентификаторам и версии обращения в базе данных."

  /** updateVersionAndMissingIdentifiers: set the version, and the identifiers stored empty that
      the request names, on every row of the flow and filial that keeps the non-empty stored
      values. Binding a null version throws; updating no row is a database error. */
  function UpdateVersionAndMissingEffect(t: Tables, ctr: ControlTypeRequest, stored: seq<RequestIdentifier>): Effect<()>
    requires ctr.requestIdentifiers.Some?
  {
    var w := Where(FlowName(ctr.dataFlowType), ctr.filial, StoredConds(stored));
    if ctr.requestVersion.None? then Effect(t, Failure(NULL_POINTER))
    else if MatchCount(t.identifiers, w) == 0 then Effect(t, Failure(ServiceFault(NOT_UPDATED)))
    else
      var a := Assignment(Some(ctr.requestVersion), EmptyValues(stored, ctr.requestIdentifiers.value));
      Effect(t.(identifiers := UpdateWhere(t.identifiers, w, a)), Success(()))
  }

  /** updateVersionAndMissingIdentifiers, building the SET list and the WHERE list in loops. */
  method UpdateVersionAndMissingIdentifiers(db: Database, ctr: ControlTypeRequest, stored: seq<RequestIdentifier>)
      returns (r: Result<()>)
    requires ctr.requestIdentifiers.Some?
    modifies db
    ensures Effect(db.tables, r) == UpdateVersionAndMissingEffect(old(db.tables), ctr, stored)
  {
    var ids := ctr.requestIdentifiers.value;
    var values: map<Id, Option<string>> := map[];
    for i := 0 to |stored|
      invariant values == EmptyValues(stored[..i], ids)
    {
      assert stored[..i + 1][..i] == stored[..i];
      if StoredEmpty(stored[i]) && Contains(ids, stored[i].idName) {
        values := values[stored[i].idName := GetValue(ids, stored[i].idName)];
      }
    }
    var conds: seq<Cond> := [];
    for i := 0 to |stored|
      invariant conds == StoredConds(stored[..i])
    {
      assert stored[..i + 1][..i] == stored[..i];
      if !StoredEmpty(stored[i]) {
        conds := conds + [Cond(stored[i].idName, stored[i].idValue)];
      }
    }
    assert stored[..|stored|] == stored;
    if ctr.requestVersion.None? {
      return Failure(NULL_POINTER);
    }
    var w := Where(FlowName(ctr.dataFlowType), ctr.filial, conds);
    var updateCount := MatchCount(db.tables.identifiers, w);
    db.tables := db.tables.(identifiers := UpdateWhere(db.tables.identifiers, w, Assignment(Some(ctr.requestVersion), values)));
    if updateCount == 0 {
      UpdateWhereNoMatch(old(db.tables.identifiers), w, Assignment(Some(ctr.requestVersion), values));
      return Failure(ServiceFault(NOT_UPDATED));
    }
    return Success(());
  }

  /** A row of the flow and filial that holds every non-empty stored value. */
  predicate KeepsNonEmpty(row: IdentifierRow, flow: string, filial: string, stored: seq<RequestIdentifier>) {
    row.flow == flow && row.filial == filial
    && forall i :: 0 <= i < |stored| && !StoredEmpty(stored[i]) ==> SqlEquals(Column(row.columns, stored[i].idName), stored[i].idValue)
  }

  lemma KeepsNonEmptyIsClause(row: IdentifierRow, flow: string, filial: string, stored: seq<RequestIdentifier>)
    ensures KeepsNonEmpty(row, flow, filial, stored) <==> Holds(row, Where(flow, filial, StoredConds(stored)))
  {
    var conds := StoredConds(stored);
    if KeepsNonEmpty(row, flow, filial, stored) {
      forall k | 0 <= k < |conds| ensures SqlEquals(Column(row.columns, conds[k].id), conds[k].value) {
        assert conds[k] in conds;
      }
    }
    if Holds(row, Where(flow, filial, conds)) {
      forall i | 0 <= i < |stored| && !StoredEmpty(stored[i])
        ensures SqlEquals(Column(row.columns, stored[i].idName), stored[i].idValue)
      {
        var c := Cond(stored[i].idName, stored[i].idValue);
        assert c in conds;
        var k :| 0 <= k < |conds| && conds[k] == c;
      }
    }
  }

  /** What the update does to each row: a row of the flow and filial that holds every non-empty
      stored value gets the request's version and the request's values for the identifiers
      stored empty that it names; every other row is left as it was. */
  lemma UpdateVersionAndMissingRow(t: Tables, ctr: ControlTypeRequest, stored: seq<RequestIdentifier>, i: nat, id: Id)
    requires ctr.requestIdentifiers.Some?
    requires UpdateVersionAndMissingEffect(t, ctr, stored).result.Success?
    requires i < |t.identifiers|
    ensures ctr.requestVersion.Some?
    ensures var after := UpdateVersionAndMissingEffect(t, ctr, stored).tables.identifiers;
      var row := t.identifiers[i];
      var ids := ctr.requestIdentifiers.value;
      |after| == |t.identifiers|
      && (!KeepsNonEmpty(row, FlowName(ctr.dataFlowType), ctr.filial, stored) ==> after[i] == row)
      && (KeepsNonEmpty(row, FlowName(ctr.dataFlowType), ctr.filial, stored) ==>
            after[i].flow == row.flow && after[i].filial == row.filial
            && after[i].requestVersion == ctr.requestVersion
            && Column(after[i].columns, id) ==
              if (exists j :: 0 <= j < |stored| && stored[j].idName == id && StoredEmpty(stored[j])) && Contains(ids, id)
              then GetValue(ids, id) else Column(row.columns, id))
  {
    KeepsNonEmptyIsClause(t.identifiers[i], FlowName(ctr.dataFlowType), ctr.filial, stored);
  }

  /** The row the identifiers were read from always satisfies the update's WHERE clause. */
  lemma ReadRowKeepsNonEmpty(row: IdentifierRow)
    ensures KeepsNonEmpty(row, row.flow, row.filial, RowIdentifiers(row.columns))
  {
  }

  /** Where the two updates part ways: a value stored as whitespace only is kept as a WHERE
      condition here and is not filled in, whereas the identifiers operator would fill it. */
  lemma WhitespaceStoredIsKept(stored: seq<RequestIdentifier>, ids: seq<RequestIdentifier>, j: nat)
    requires j < |stored| && stored[j].idValue.Some? && stored[j].idValue.value == " "
    requires forall i :: 0 <= i < |stored| && i != j ==> stored[i].idName != stored[j].idName
    ensures stored[j].idName !in EmptyValues(stored, ids)
    ensures Cond(stored[j].idName, stored[j].idValue) in StoredConds(stored)
    ensures JavaText.IsNullOrBlank(stored[j].idValue)
  {
    assert stored[j].idValue.value[0] == ' ';
  }

  // ---------------------------------------------------------------------------------------
  // saveIdentifiersAndRequestVersionToDB

  /** saveIdentifiersAndRequestVersionToDB: a version 1 is always inserted; otherwise the row is
      inserted when nothing is stored and updated when something is. A null version throws on
      unboxing. */
  function SaveIdentifiersAndVersionEffect(t: Tables, ctr: ControlTypeRequest): Effect<()> {
    match VersionIsOne(ctr.requestVersion)
    case Failure(f) => Effect(t, Failure(f))
    case Success(isOne) =>
      if isOne then InsertRequestEffect(t, ctr)
      else
        match IdentifiersFromDB(t.identifiers, ctr)
        case Failure(f) => Effect(t, Failure(f))
        case Success(stored) =>
          if |stored| == 0 then InsertRequestEffect(t, ctr) else UpdateVersionAndMissingEffect(t, ctr, stored)
  }

  method SaveIdentifiersAndRequestVersionToDB(db: Database, ctr: ControlTypeRequest) returns (r: Result<()>)
    modifies db
    ensures Effect(db.tables, r) == SaveIdentifiersAndVersionEffect(old(db.tables), ctr)
  {
    var isOne := VersionIsOne(ctr.requestVersion);
    if isOne.Failure? {
      return Failure(isOne.fault);
    }
    if isOne.value {
      r := InsertIdentifiersAndRequestVersionToDB(db, ctr);
      return;
    }
    var stored := GetIdentifiersFromDB(db, ctr);
    if stored.Failure? {
      return Failure(stored.fault);
    }
    if |stored.value| == 0 {
      r := InsertIdentifiersAndRequestVersionToDB(db, ctr);
    } else {
      r := UpdateVersionAndMissingIdentifiers(db, ctr, stored.value);
    }
  }

  /** A version 1 is appended as a new row whatever is already stored for the request. */
  lemma FirstVersionAlwaysInserts(t: Tables, ctr: ControlTypeRequest)
    requires ctr.requestVersion == Some(1) && ctr.requestIdentifiers.Some?
    ensures var e := SaveIdentifiersAndVersionEffect(t, ctr);
      e.result == Success(())
      && e.tables == t.(identifiers := t.identifiers + [InsertedRequestRow(FlowName(ctr.dataFlowType), ctr.filial, 1, ctr.requestIdentifiers.value)])
  {
  }

  /** When nothing is stored, the save is found again: the lookup then reads the new row, which
      holds the request's version and identifiers. */
  lemma SaveThenLookupFindsVersion(t: Tables, ctr: ControlTypeRequest, v: int)
    requires ctr.requestVersion == Some(v) && ctr.requestIdentifiers.Some?
    requires IdentifiersFromDB(t.identifiers, ctr) == Success([])
    requires var ids := ctr.requestIdentifiers.value;
      HasValue(ids, IdIntegration) && (HasValue(ids, IdMasterSystem) || HasValue(ids, IdFilial))
    ensures var e := SaveIdentifiersAndVersionEffect(t, ctr);
      var ids := ctr.requestIdentifiers.value;
      var k := StoredRow(e.tables.identifiers, FlowName(ctr.dataFlowType), ctr.filial, ids);
      e.result == Success(())
      && k == Some(|t.identifiers|)
      && e.tables.identifiers[k.value].requestVersion == Some(v)
      && forall id :: Column(e.tables.identifiers[k.value].columns, id) == GetValue(ids, id)
  {
    var ids := ctr.requestIdentifiers.value;
    var flow := FlowName(ctr.dataFlowType);
    var row := InsertedRequestRow(flow, ctr.filial, v, ids);
    var e := SaveIdentifiersAndVersionEffect(t, ctr);
    assert e.tables.identifiers == t.identifiers + [row];
    assert StoredRow(t.identifiers, flow, ctr.filial, ids).None?;
    InsertedRequestRowColumns(flow, ctr.filial, v, ids, IdIntegration);
    InsertedRequestRowColumns(flow, ctr.filial, v, ids, IdMasterSystem);
    InsertedRequestRowColumns(flow, ctr.filial, v, ids, IdFilial);
    AppendedRowFound(t.identifiers, flow, ctr.filial, ids, row);
    forall id ensures Column(row.columns, id) == GetValue(ids, id) {
      InsertedRequestRowColumns(flow, ctr.filial, v, ids, id);
    }
  }

  /** When a row is stored and the version is not 1, the save updates: it succeeds, and the row
      the lookup found now carries the request's version. */
  lemma SaveUpdatesFoundRow(t: Tables, ctr: ControlTypeRequest, v: int)
    requires ctr.requestVersion == Some(v) && v != 1 && ctr.requestIdentifiers.Some?
    requires IdentifiersFromDB(t.identifiers, ctr).Success? && IdentifiersFromDB(t.identifiers, ctr).value != []
    ensures var k := StoredRow(t.identifiers, FlowName(ctr.dataFlowType), ctr.filial, ctr.requestIdentifiers.value);
      var e := SaveIdentifiersAndVersionEffect(t, ctr);
      k.Some? && k.value < |t.identifiers|
      && e.result == Success(())
      && |e.tables.identifiers| == |t.identifiers|
      && e.tables.identifiers[k.value].requestVersion == Some(v)
  {
    var ids := ctr.requestIdentifiers.value;
    var flow := FlowName(ctr.dataFlowType);
    var k := StoredRow(t.identifiers, flow, ctr.filial, ids);
    StoredRowFound(t.identifiers, flow, ctr.filial, ids);
    var row := t.identifiers[k.value];
    var stored := RowIdentifiers(row.columns);
    assert IdentifiersFromDB(t.identifiers, ctr).value == stored;
    ReadRowKeepsNonEmpty(row);
    var w := Where(flow, ctr.filial, StoredConds(stored));
    KeepsNonEmptyIsClause(row, flow, ctr.filial, stored);
    assert Holds(t.identifiers[k.value], w);
    assert MatchCount(t.identifiers, w) != 0;
    UpdateVersionAndMissingRow(t, ctr, stored, k.value, IdIntegration);
  }

  // ---------------------------------------------------------------------------------------
  // deleteFromRequestIdentifiers

  const NOTHING_TO_DELETE := "Недостаточно данных для удаления данных из базы данных"

  /** The master-system tuple is used when the request has non-blank master-system and
      integration identifiers. */
  predicate DeletesByMaster(ids: seq<RequestIdentifier>) {
    HasValue(ids, IdMasterSystem) && HasValue(ids, IdIntegration)
  }

  /** The filial tuple is used when the first delete removed nothing and the request has
      non-blank filial and integration identifiers. */
  predicate DeletesByFilial(ids: seq<RequestIdentifier>) {
    HasValue(ids, IdFilial) && HasValue(ids, IdIntegration)
  }

  /** deleteFromRequestIdentifiers: delete every row under the master-system tuple; when that
      removed nothing, every row under the filial tuple; when that too removed nothing, fail. */
  function DeleteIdentifiersEffect(t: Tables, ctr: ControlTypeRequest): Effect<()> {
    match ctr.requestIdentifiers
    case None => Effect(t, Failure(NULL_POINTER))
    case Some(ids) =>
      var flow := FlowName(ctr.dataFlowType);
      var byMaster := ByMasterSystem(flow, ctr.filial, ids);
      var byFilial := ByFilial(flow, ctr.filial, ids);
      var count := if DeletesByMaster(ids) then MatchCount(t.identifiers, byMaster) else 0;
      var rows := if DeletesByMaster(ids) then DeleteWhere(t.identifiers, byMaster) else t.identifiers;
      var second := count == 0 && DeletesByFilial(ids);
      var count2 := if second then MatchCount(rows, byFilial) else count;
      var rows2 := if second then DeleteWhere(rows, byFilial) else rows;
      Effect(t.(identifiers := rows2), if count2 == 0 then Failure(ServiceFault(NOTHING_TO_DELETE)) else Success(()))
  }

  method DeleteFromRequestIdentifiers(db: Database, ctr: ControlTypeRequest) returns (r: Result<()>)
    modifies db
    ensures Effect(db.tables, r) == DeleteIdentifiersEffect(old(db.tables), ctr)
  {
    if ctr.requestIdentifiers.None? {
      return Failure(NULL_POINTER);
    }
    var ids := ctr.requestIdentifiers.value;
    var flow := FlowName(ctr.dataFlowType);
    var updateCount := 0;
    if DeletesByMaster(ids) {
      var w := ByMasterSystem(flow, ctr.filial, ids);
      updateCount := MatchCount(db.tables.identifiers, w);
      db.tables := db.tables.(identifiers := DeleteWhere(db.tables.identifiers, w));
    }
    if updateCount == 0 && DeletesByFilial(ids) {
      var w := ByFilial(flow, ctr.filial, ids);
      updateCount := MatchCount(db.tables.identifiers, w);
      db.tables := db.tables.(identifiers := DeleteWhere(db.tables.identifiers, w));
    }
    if updateCount == 0 {
      return Failure(ServiceFault(NOTHING_TO_DELETE));
    }
    return Success(());
  }

  /** A failed delete removes nothing; a successful one removes at least one row, and no row of
      the tuple it used is left. */
  lemma {:induction false} DeleteRemovesTuple(t: Tables, ctr: ControlTypeRequest)
    requires ctr.requestIdentifiers.Some?
    ensures DeleteIdentifiersEffect(t, ctr).result.Failure? ==> DeleteIdentifiersEffect(t, ctr).tables == t
    ensures var e := DeleteIdentifiersEffect(t, ctr);
      e.result.Success? ==> |e.tables.identifiers| < |t.identifiers|
    ensures var e := DeleteIdentifiersEffect(t, ctr);
      var ids := ctr.requestIdentifiers.value;
      var byMaster := ByMasterSystem(FlowName(ctr.dataFlowType), ctr.filial, ids);
      e.result.Success? && DeletesByMaster(ids) && MatchCount(t.identifiers, byMaster) > 0 ==>
        forall row :: row in e.tables.identifiers ==> !Holds(row, byMaster)
    ensures var e := DeleteIdentifiersEffect(t, ctr);
      var ids := ctr.requestIdentifiers.value;
      var byMaster := ByMasterSystem(FlowName(ctr.dataFlowType), ctr.filial, ids);
      var byFilial := ByFilial(FlowName(ctr.dataFlowType), ctr.filial, ids);
      e.result.Success? && (DeletesByMaster(ids) ==> MatchCount(t.identifiers, byMaster) == 0) ==>
        forall row :: row in e.tables.identifiers ==> !Holds(row, byFilial)
  {
    var ids := ctr.requestIdentifiers.value;
    var flow := FlowName(ctr.dataFlowType);
    var byMaster := ByMasterSystem(flow, ctr.filial, ids);
    var byFilial := ByFilial(flow, ctr.filial, ids);
    if DeletesByMaster(ids) && MatchCount(t.identifiers, byMaster) == 0 {
      DeleteWhereNoMatch(t.identifiers, byMaster);
    }
    var rows := if DeletesByMaster(ids) then DeleteWhere(t.identifiers, byMaster) else t.identifiers;
    if DeletesByFilial(ids) && MatchCount(rows, byFilial) == 0 {
      DeleteWhereNoMatch(rows, byFilial);
    }
  }
}
