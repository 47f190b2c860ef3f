/** The four tables the service keeps, held in memory in place of the JDBC connection. A table
    is a sequence of rows in the order a query visits them, so `rs.next()` reads the first
    matching row. A column that holds SQL NULL is absent from a row's `columns` map. The saved
    request column holds the parsed document, the tree its text parses back to; the template
    column holds the text itself, which is parsed only when a template is read. */
module Storage {
  import opened Wrappers
  import opened IdLists
  import opened XmlTree

  /** A row of request_identifiers. */
  datatype IdentifierRow = IdentifierRow(
    flow: string,
    filial: string,
    requestVersion: Option<int>,
    columns: map<Id, string>)

  /** The identifier column's value, null when absent. */
  function Column(columns: map<Id, string>, id: Id): (r: Option<string>)
    ensures r.Some? <==> id in columns
    ensures r.Some? ==> r.value == columns[id]
  {
    if id in columns then Some(columns[id]) else None
  }

  /** The columns a row gets from values that may be null: a null value leaves the column NULL. */
  function ColumnsOf(values: map<Id, Option<string>>): (r: map<Id, string>)
    ensures forall id :: Column(r, id) == if id in values then values[id] else None
  {
    map id | id in values && values[id].Some? :: values[id].value
  }

  /** SQL `column = ?`: true only when both sides are non-null and equal. */
  predicate SqlEquals(column: Option<string>, parameter: Option<string>) {
    column.Some? && column == parameter
  }

  /** One `column = ?` of a WHERE clause, with its bound parameter. */
  datatype Cond = Cond(id: Id, value: Option<string>)

  /** `WHERE flow=? AND filial=? AND c1=? AND ...`. */
  datatype Where = Where(flow: string, filial: string, conds: seq<Cond>)

  predicate Holds(row: IdentifierRow, w: Where) {
    row.flow == w.flow && row.filial == w.filial
    && forall i :: 0 <= i < |w.conds| ==> SqlEquals(Column(row.columns, w.conds[i].id), w.conds[i].value)
  }

  /** The row a SELECT reads with one `rs.next()`: the first that satisfies the clause. */
  function FirstMatch(rows: seq<IdentifierRow>, w: Where): (r: Option<nat>)
    ensures r.None? <==> forall i :: 0 <= i < |rows| ==> !Holds(rows[i], w)
    ensures r.Some? ==> r.value < |rows| && Holds(rows[r.value], w)
    ensures r.Some? ==> forall j :: 0 <= j < r.value ==> !Holds(rows[j], w)
  {
    if |rows| == 0 then None
    else if Holds(rows[0], w) then Some(0)
    else
      var r := FirstMatch(rows[1..], w);
      assert forall i :: 1 <= i < |rows| ==> rows[i] == rows[1..][i - 1];
      if r.None? then None else Some(r.value + 1)
  }

  /** A row appended to the table is what a SELECT finds when no earlier row qualified. */
  lemma FirstMatchAppend(rows: seq<IdentifierRow>, row: IdentifierRow, w: Where)
    requires FirstMatch(rows, w).None?
    ensures FirstMatch(rows + [row], w) == if Holds(row, w) then Some(|rows|) else None
  {
    var all := rows + [row];
    assert forall i :: 0 <= i < |rows| ==> all[i] == rows[i];
    assert all[|rows|] == row;
  }

  /** The update count of a statement with this WHERE clause. */
  function MatchCount(rows: seq<IdentifierRow>, w: Where): (r: nat)
    ensures r <= |rows|
    ensures r == 0 <==> forall i :: 0 <= i < |rows| ==> !Holds(rows[i], w)
  {
    if |rows| == 0 then 0
    else
      var r := MatchCount(rows[1..], w);
      assert forall i :: 1 <= i < |rows| ==> rows[i] == rows[1..][i - 1];
      (if Holds(rows[0], w) then 1 else 0) + r
  }

  /** The SET part of an UPDATE: optionally the version, and some identifier columns, each set
      to a value that may be null. */
  datatype Assignment = Assignment(version: Option<Option<int>>, values: map<Id, Option<string>>)

  function Assign(row: IdentifierRow, a: Assignment): (r: IdentifierRow)
    ensures r.flow == row.flow && r.filial == row.filial
    ensures r.requestVersion == if a.version.Some? then a.version.value else row.requestVersion
    ensures forall id :: Column(r.columns, id) == if id in a.values then a.values[id] else Column(row.columns, id)
  {
    var columns := map id | (id in a.values && a.values[id].Some?) || (id !in a.values && id in row.columns)
      :: if id in a.values then a.values[id].value else row.columns[id];
    IdentifierRow(row.flow, row.filial, if a.version.Some? then a.version.value else row.requestVersion, columns)
  }

  /** UPDATE ... SET a WHERE w: every row that satisfies the clause is assigned, the rest are
      left alone, and the order of the rows is kept. */
  function UpdateWhere(rows: seq<IdentifierRow>, w: Where, a: Assignment): (r: seq<IdentifierRow>)
    ensures |r| == |rows|
    ensures forall i :: 0 <= i < |rows| ==> r[i] == if Holds(rows[i], w) then Assign(rows[i], a) else rows[i]
  {
    seq(|rows|, i requires 0 <= i < |rows| => if Holds(rows[i], w) then Assign(rows[i], a) else rows[i])
  }

  /** An UPDATE that matches no row leaves the table as it was. */
  lemma UpdateWhereNoMatch(rows: seq<IdentifierRow>, w: Where, a: Assignment)
    requires MatchCount(rows, w) == 0
    ensures UpdateWhere(rows, w, a) == rows
  {
  }

  /** DELETE ... WHERE w: the rows that do not satisfy the clause, in their order. */
  function DeleteWhere(rows: seq<IdentifierRow>, w: Where): (r: seq<IdentifierRow>)
    ensures |r| + MatchCount(rows, w) == |rows|
    ensures forall row :: row in r <==> row in rows && !Holds(row, w)
  {
    if |rows| == 0 then []
    else
      var rest := DeleteWhere(rows[1..], w);
      assert forall row :: row in rows <==> row == rows[0] || row in rows[1..];
      if Holds(rows[0], w) then rest else [rows[0]] + rest
  }

  /** A DELETE that matches no row leaves the table as it was. */
  lemma {:induction false} DeleteWhereNoMatch(rows: seq<IdentifierRow>, w: Where)
    requires MatchCount(rows, w) == 0
    ensures DeleteWhere(rows, w) == rows
  {
    if |rows| > 0 {
      assert !Holds(rows[0], w);
      DeleteWhereNoMatch(rows[1..], w);
      assert rows == [rows[0]] + rows[1..];
    }
  }

  /** A row of request_cache. */
  datatype CacheRow = CacheRow(
    messageId: string,
    flow: string,
    filial: string,
    requestVersion: Option<int>,
    columns: map<Id, string>)

  /** The first cached row for the message. */
  function FirstCached(rows: seq<CacheRow>, messageId: string): (r: Option<nat>)
    ensures r.None? <==> forall i :: 0 <= i < |rows| ==> rows[i].messageId != messageId
    ensures r.Some? ==> r.value < |rows| && rows[r.value].messageId == messageId
    ensures r.Some? ==> forall j :: 0 <= j < r.value ==> rows[j].messageId != messageId
  {
    if |rows| == 0 then None
    else if rows[0].messageId == messageId then Some(0)
    else
      var r := FirstCached(rows[1..], messageId);
      assert forall i :: 1 <= i < |rows| ==> rows[i] == rows[1..][i - 1];
      if r.None? then None else Some(r.value + 1)
  }

  /** DELETE FROM request_cache WHERE messageId=?. */
  function DeleteCached(rows: seq<CacheRow>, messageId: string): (r: seq<CacheRow>)
    ensures |r| <= |rows|
    ensures |r| == |rows| <==> FirstCached(rows, messageId).None?
    ensures forall row :: row in r <==> row in rows && row.messageId != messageId
  {
    if |rows| == 0 then []
    else
      var rest := DeleteCached(rows[1..], messageId);
      assert forall row :: row in rows <==> row == rows[0] || row in rows[1..];
      if rows[0].messageId == messageId then rest else [rows[0]] + rest
  }

  /** A row of client_attrs_requests. The message id is the master-system identifier, which may
      be null. */
  datatype SavedRequestRow = SavedRequestRow(
    flow: string,
    filial: string,
    messageId: Option<string>,
    updatedAt: int,
    request: XNode)

  /** `flow=? AND filial=? AND message_id=?` on client_attrs_requests. */
  predicate SavedRequestKey(row: SavedRequestRow, flow: string, filial: string, messageId: Option<string>) {
    row.flow == flow && row.filial == filial && SqlEquals(row.messageId, messageId)
  }

  /** The first saved request under the key. */
  function FirstSaved(rows: seq<SavedRequestRow>, flow: string, filial: string, messageId: Option<string>): (r: Option<nat>)
    ensures r.None? <==> forall i :: 0 <= i < |rows| ==> !SavedRequestKey(rows[i], flow, filial, messageId)
    ensures r.Some? ==> r.value < |rows| && SavedRequestKey(rows[r.value], flow, filial, messageId)
    ensures r.Some? ==> forall j :: 0 <= j < r.value ==> !SavedRequestKey(rows[j], flow, filial, messageId)
  {
    if |rows| == 0 then None
    else if SavedRequestKey(rows[0], flow, filial, messageId) then Some(0)
    else
      var r := FirstSaved(rows[1..], flow, filial, messageId);
      assert forall i :: 1 <= i < |rows| ==> rows[i] == rows[1..][i - 1];
      if r.None? then None else Some(r.value + 1)
  }

  /** A row of client_attrs_templates; the template is the text as saved, None for SQL NULL. */
  datatype TemplateRow = TemplateRow(flow: string, createdAt: int, name: string, template: Option<string>)

  /** The template in effect at `timestamp` (`created_at < ? ORDER BY created_at DESC LIMIT 1`):
      among the flow's templates created strictly before the timestamp, the latest; of equally
      late ones, the first in the table. */
  function EffectiveTemplate(rows: seq<TemplateRow>, flow: string, timestamp: int): (r: Option<nat>)
    ensures r.None? <==> forall i :: 0 <= i < |rows| ==> !(rows[i].flow == flow && rows[i].createdAt < timestamp)
    ensures r.Some? ==> r.value < |rows| && rows[r.value].flow == flow && rows[r.value].createdAt < timestamp
    ensures r.Some? ==> forall i :: 0 <= i < |rows| && rows[i].flow == flow && rows[i].createdAt < timestamp ==>
      rows[i].createdAt <= rows[r.value].createdAt
  {
    if |rows| == 0 then None
    else
      var rest := EffectiveTemplate(rows[1..], flow, timestamp);
      assert forall i :: 1 <= i < |rows| ==> rows[i] == rows[1..][i - 1];
      var here := rows[0].flow == flow && rows[0].createdAt < timestamp;
      if rest.None? then (if here then Some(0) else None)
      else if here && rows[0].createdAt >= rows[1..][rest.value].createdAt then Some(0)
      else Some(rest.value + 1)
  }

  /** A row that is not in effect at the timestamp, added at the end of the table, leaves the
      template in effect as it was. */
  lemma {:induction false} EffectiveTemplateIgnoresAppended(rows: seq<TemplateRow>, row: TemplateRow, flow: string,
                                                             timestamp: int)
    requires !(row.flow == flow && row.createdAt < timestamp)
    ensures EffectiveTemplate(rows + [row], flow, timestamp) == EffectiveTemplate(rows, flow, timestamp)
  {
    if |rows| > 0 {
      assert (rows + [row])[1..] == rows[1..] + [row];
      EffectiveTemplateIgnoresAppended(rows[1..], row, flow, timestamp);
    }
  }

  /** `SELECT DISTINCT flow ... GROUP BY flow`: each flow that has a template, once. */
  function TemplateFlows(rows: seq<TemplateRow>): (r: seq<string>)
    ensures forall f :: f in r <==> exists i :: 0 <= i < |rows| && rows[i].flow == f
    ensures forall i, j :: 0 <= i < j < |r| ==> r[i] != r[j]
  {
    if |rows| == 0 then []
    else
      var rest := TemplateFlows(rows[1..]);
      assert forall i :: 1 <= i < |rows| ==> rows[i] == rows[1..][i - 1];
      if rows[0].flow in rest then rest
      else
        assert forall f :: f in [rows[0].flow] + rest <==> f == rows[0].flow || f in rest;
        [rows[0].flow] + rest
  }

  /** The contents of all four tables. */
  datatype Tables = Tables(
    identifiers: seq<IdentifierRow>,
    cache: seq<CacheRow>,
    requests: seq<SavedRequestRow>,
    templates: seq<TemplateRow>)

  /** What an operation leaves behind: the tables after its writes, which persist even when it
      then throws, and what it returns or throws. */
  datatype Effect<T> = Effect(tables: Tables, result: Result<T>)

  /** The database behind the connection. Each operation's writes are applied in sequence. */
  class Database {
    var tables: Tables

    constructor (tables: Tables)
      ensures this.tables == tables
    {
      this.tables := tables;
    }
  }
}
