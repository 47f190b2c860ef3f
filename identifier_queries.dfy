/** The static helpers of RequestControlService that every operator uses to read the stored
    identifiers of a request: getIdentifiersFromResultSet and getIdentifiersFromDB. */
module IdentifierQueries {
  import opened Wrappers
  import opened IdLists
  import opened ServiceData
  import opened Storage

  /** getIdentifiersFromResultSet on a row: the six identifiers in the order the query selects
      them. */
  function RowIdentifiers(columns: map<Id, string>): (r: seq<RequestIdentifier>)
    ensures |r| == 6
  {
    [ RequestIdentifier(IdIntegration, Column(columns, IdIntegration)),
      RequestIdentifier(IdMasterSystem, Column(columns, IdMasterSystem)),
      RequestIdentifier(IdFilial, Column(columns, IdFilial)),
      RequestIdentifier(IdMainCheckSystem, Column(columns, IdMainCheckSystem)),
      RequestIdentifier(FilialId, Column(columns, FilialId)),
      RequestIdentifier(RequestTypeId, Column(columns, RequestTypeId)) ]
  }

  /** The lookups find the identifier at `k` when it is the first with its name. */
  lemma LookupAt(ids: seq<RequestIdentifier>, id: Id, k: nat)
    requires FirstWithName(ids, id, k)
    ensures Contains(ids, id) && Get(ids, id) == Some(ids[k]) && GetValue(ids, id) == ids[k].idValue
  {
    var i :| FirstWithName(ids, id, i) && ids[i] == Get(ids, id).value;
    FirstWithNameUnique(ids, id, i, k);
    LookupsAgree(ids, id);
  }

  /** The index at which getIdentifiersFromResultSet places each kind. */
  function RowIndex(id: Id): (k: nat)
    ensures k < 6
  {
    match id
    case IdIntegration => 0
    case IdMasterSystem => 1
    case IdFilial => 2
    case IdMainCheckSystem => 3
    case FilialId => 4
    case RequestTypeId => 5
  }

  /** Reading a row back as identifiers loses nothing: every kind is there, first at its own
      index, and its value is the column's. */
  lemma RowIdentifiersRoundTrip(columns: map<Id, string>, id: Id)
    ensures Contains(RowIdentifiers(columns), id)
    ensures Get(RowIdentifiers(columns), id) == Some(RequestIdentifier(id, Column(columns, id)))
    ensures GetValue(RowIdentifiers(columns), id) == Column(columns, id)
    ensures DistinctNames(RowIdentifiers(columns))
  {
    var r := RowIdentifiers(columns);
    assert forall j :: 0 <= j < 6 ==> r[j].idName != id <==> j != RowIndex(id);
    LookupAt(r, id, RowIndex(id));
  }

  /** The clause of the master-system query: flow, filial, id_master_system, id_integration. */
  function ByMasterSystem(flow: string, filial: string, ids: seq<RequestIdentifier>): Where {
    Where(flow, filial, [Cond(IdMasterSystem, GetValue(ids, IdMasterSystem)), Cond(IdIntegration, GetValue(ids, IdIntegration))])
  }

  /** The clause of the filial query: flow, filial, id_filial, id_integration. */
  function ByFilial(flow: string, filial: string, ids: seq<RequestIdentifier>): Where {
    Where(flow, filial, [Cond(IdFilial, GetValue(ids, IdFilial)), Cond(IdIntegration, GetValue(ids, IdIntegration))])
  }

  /** The stored row the lookup reads: first by the master-system tuple when the request has
      both that identifier and id_integration, then, if that found nothing, by the filial tuple
      when the request has both of those. */
  function StoredRow(rows: seq<IdentifierRow>, flow: string, filial: string, ids: seq<RequestIdentifier>): Option<nat> {
    var byMaster :=
      if HasValue(ids, IdMasterSystem) && HasValue(ids, IdIntegration) then FirstMatch(rows, ByMasterSystem(flow, filial, ids))
      else None;
    if byMaster.None? && HasValue(ids, IdFilial) && HasValue(ids, IdIntegration) then FirstMatch(rows, ByFilial(flow, filial, ids))
    else byMaster
  }

  /** A row appended to the table is the one the lookup finds when nothing was found before and
      the row carries the request's flow, filial and identifying values. */
  lemma AppendedRowFound(rows: seq<IdentifierRow>, flow: string, filial: string, ids: seq<RequestIdentifier>, row: IdentifierRow)
    requires StoredRow(rows, flow, filial, ids).None?
    requires HasValue(ids, IdIntegration) && (HasValue(ids, IdMasterSystem) || HasValue(ids, IdFilial))
    requires row.flow == flow && row.filial == filial
    requires Column(row.columns, IdIntegration) == GetValue(ids, IdIntegration)
    requires Column(row.columns, IdMasterSystem) == GetValue(ids, IdMasterSystem)
    requires Column(row.columns, IdFilial) == GetValue(ids, IdFilial)
    ensures StoredRow(rows + [row], flow, filial, ids) == Some(|rows|)
  {
    StoredRowFound(rows, flow, filial, ids);
    HasValueByGetValue(ids, IdIntegration);
    if HasValue(ids, IdMasterSystem) {
      HasValueByGetValue(ids, IdMasterSystem);
      AppendedRowHolds(rows, row, ByMasterSystem(flow, filial, ids));
    } else {
      HasValueByGetValue(ids, IdFilial);
      AppendedRowHolds(rows, row, ByFilial(flow, filial, ids));
    }
  }

  /** A row appended after no row matched is the first match when it satisfies both conditions. */
  lemma AppendedRowHolds(rows: seq<IdentifierRow>, row: IdentifierRow, w: Where)
    requires FirstMatch(rows, w).None? && row.flow == w.flow && row.filial == w.filial && |w.conds| == 2
    requires SqlEquals(Column(row.columns, w.conds[0].id), w.conds[0].value)
    requires SqlEquals(Column(row.columns, w.conds[1].id), w.conds[1].value)
    ensures FirstMatch(rows + [row], w) == Some(|rows|)
  {
    assert Holds(row, w);
    FirstMatchAppend(rows, row, w);
  }

  /** getIdentifiersFromDB as a function of the table: the stored identifiers, or none. A
      missing identifier list is dereferenced and throws. */
  function IdentifiersFromDB(rows: seq<IdentifierRow>, ctr: ControlTypeRequest): Result<seq<RequestIdentifier>> {
    match ctr.requestIdentifiers
    case None => Failure(RuntimeFault("NullPointerException"))
    case Some(ids) =>
      var k := StoredRow(rows, FlowName(ctr.dataFlowType), ctr.filial, ids);
      Success(if k.Some? then RowIdentifiers(rows[k.value].columns) else [])
  }

  /** What the lookup finds is a row of the request's flow and filial whose id_integration and
      master-system or filial identifier equal the request's non-blank ones; when a master-system
      row exists it wins; and nothing is found only when neither tuple matches any row. */
  lemma StoredRowFound(rows: seq<IdentifierRow>, flow: string, filial: string, ids: seq<RequestIdentifier>)
    ensures var k := StoredRow(rows, flow, filial, ids);
      k.Some? ==> (
        k.value < |rows| && rows[k.value].flow == flow && rows[k.value].filial == filial
        && HasValue(ids, IdIntegration)
        && Column(rows[k.value].columns, IdIntegration) == GetValue(ids, IdIntegration)
        && ((HasValue(ids, IdMasterSystem) && Column(rows[k.value].columns, IdMasterSystem) == GetValue(ids, IdMasterSystem))
            || (HasValue(ids, IdFilial) && Column(rows[k.value].columns, IdFilial) == GetValue(ids, IdFilial))))
    ensures (HasValue(ids, IdMasterSystem) && HasValue(ids, IdIntegration)
      && FirstMatch(rows, ByMasterSystem(flow, filial, ids)).Some?) ==>
        StoredRow(rows, flow, filial, ids) == FirstMatch(rows, ByMasterSystem(flow, filial, ids))
    ensures StoredRow(rows, flow, filial, ids).None? <==>
      (!(HasValue(ids, IdMasterSystem) && HasValue(ids, IdIntegration)) || FirstMatch(rows, ByMasterSystem(flow, filial, ids)).None?)
      && (!(HasValue(ids, IdFilial) && HasValue(ids, IdIntegration)) || FirstMatch(rows, ByFilial(flow, filial, ids)).None?)
  {
    var k := StoredRow(rows, flow, filial, ids);
    if k.Some? {
      var w := if HasValue(ids, IdMasterSystem) && HasValue(ids, IdIntegration) && FirstMatch(rows, ByMasterSystem(flow, filial, ids)).Some?
        then ByMasterSystem(flow, filial, ids) else ByFilial(flow, filial, ids);
      assert Holds(rows[k.value], w);
      assert SqlEquals(Column(rows[k.value].columns, w.conds[0].id), w.conds[0].value);
      assert SqlEquals(Column(rows[k.value].columns, w.conds[1].id), w.conds[1].value);
      HasValueByGetValue(ids, IdIntegration);
    }
  }

  /** getIdentifiersFromDB, step by step. */
  method GetIdentifiersFromDB(db: Database, ctr: ControlTypeRequest) returns (r: Result<seq<RequestIdentifier>>)
    ensures r == IdentifiersFromDB(db.tables.identifiers, ctr)
  {
    if ctr.requestIdentifiers.None? {
      return Failure(RuntimeFault("NullPointerException"));
    }
    var ids := ctr.requestIdentifiers.value;
    var flow := FlowName(ctr.dataFlowType);
    var identifiers: seq<RequestIdentifier> := [];
    var found: Option<nat> := None;
    if HasValue(ids, IdMasterSystem) && HasValue(ids, IdIntegration) {
      found := FirstMatch(db.tables.identifiers, ByMasterSystem(flow, ctr.filial, ids));
      if found.Some? {
        identifiers := RowIdentifiers(db.tables.identifiers[found.value].columns);
      }
    }
    if |identifiers| == 0 && HasValue(ids, IdFilial) && HasValue(ids, IdIntegration) {
      found := FirstMatch(db.tables.identifiers, ByFilial(flow, ctr.filial, ids));
      if found.Some? {
        identifiers := RowIdentifiers(db.tables.identifiers[found.value].columns);
      }
    }
    return Success(identifiers);
  }
}
