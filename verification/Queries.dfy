/** A resolved query and the row pipeline around it: shared/event-normalization.ts,
    shared/projection.ts, shared/column-filter.ts and the read columns of server/pulse-sql.ts. */
module Queries {
  import opened Values
  import Filter
  import opened SqlPredicate
  import MergeCore

  /** The source table's rows by primary key. */
  type Table = map<Value, Row>

  /** `columns` are the table's JS keys, `selected` the visible ones (also the ones a WHERE may
      name), `pkKey` the pk column's JS key. */
  datatype Query = Query(
    where: Filter.WhereAst, schema: Schema, columns: set<string>, selected: set<string>, pkKey: string,
    order: Order, limit: Option<nat>)

  ghost predicate WfQuery(q: Query) {
    && q.pkKey in q.columns && q.selected <= q.columns && q.selected != {}
    && "$pk" !in q.columns
    && Build(q.where, q.selected).Clause?
  }

  /** A complete source row: every column present, its pk usable and of the column's type. */
  ghost predicate WfRow(q: Query, kind: MergeCore.PkKind, row: Row) {
    && row.Keys == q.columns
    && (forall k :: k in row ==> row[k] != Undefined)
    && IsPkComparable(Field(row, q.pkKey)) && MergeCore.OfKind(kind, Field(row, q.pkKey))
  }

  ghost predicate WfTable(q: Query, kind: MergeCore.PkKind, t: Table) {
    forall pk :: pk in t ==> WfRow(q, kind, t[pk]) && Field(t[pk], q.pkKey) == pk
  }

  // ----- extractRow -----

  function Extract(raw: Row, columns: set<string>, prefix: string): Row {
    map k | k in columns && Field(raw, prefix + k) != Undefined :: Field(raw, prefix + k)
  }

  function ExtractRow(raw: Row, columns: set<string>, prefix: string): Option<Row> {
    var row := Extract(raw, columns, prefix);
    if row == map[] then None else Some(row)
  }

  /** extractRow as written: the result record is filled key by key. */
  method ExtractRowByKey(raw: Row, columns: set<string>, prefix: string) returns (r: Option<Row>)
    ensures r == ExtractRow(raw, columns, prefix)
  {
    var row: Row := map[];
    var rest := columns;
    while rest != {}
      invariant rest <= columns
      invariant row == Extract(raw, columns - rest, prefix)
    {
      var k :| k in rest;
      var value := Field(raw, prefix + k);
      rest := rest - {k};
      if value != Undefined {
        row := row[k := value];
      }
    }
    assert columns - rest == columns;
    return if |row| > 0 then Some(row) else None;
  }

  lemma ExtractOfFullRow(q: Query, kind: MergeCore.PkKind, row: Row)
    requires q.pkKey in q.columns && WfRow(q, kind, row)
    ensures ExtractRow(row, q.columns, "") == Some(row)
  {
    assert forall k: string :: "" + k == k;
    assert Extract(row, q.columns, "") == row;
    assert q.pkKey in row;
  }

  // ----- column selection and identity -----

  function ApplyColumnFilter(row: Row, selected: set<string>): Row {
    if selected == {} then row
    else map k | k in row && (k == "$pk" || k in selected) :: row[k]
  }

  /** applyColumnFilter as written: `$pk` first, then the selected keys one by one. */
  method ApplyColumnFilterByKey(row: Row, selected: set<string>) returns (result: Row)
    ensures result == ApplyColumnFilter(row, selected)
  {
    if |selected| == 0 { return row; }
    result := map[];
    if "$pk" in row { result := result["$pk" := row["$pk"]]; }
    var rest := row.Keys - {"$pk"};
    while rest != {}
      invariant rest <= row.Keys - {"$pk"}
      invariant result == map k | k in row && k !in rest && (k == "$pk" || k in selected) :: row[k]
    {
      var k :| k in rest;
      rest := rest - {k};
      if k in selected { result := result[k := row[k]]; }
    }
  }

  /** addPrimaryKey on a row that has its pk. */
  function AddPrimaryKey(q: Query, row: Row): Row {
    row["$pk" := Field(row, q.pkKey)]
  }

  /** The two consumers: in-process collections, and HTTP clients, whose rows carry `$pk`. */
  datatype Lens = Embedded | Wire

  function Project(lens: Lens, q: Query, row: Row): Row {
    ApplyColumnFilter(if lens.Wire? then AddPrimaryKey(q, row) else row, q.selected)
  }

  /** Events are filtered in memory for a collection and in SQL for a pull. */
  predicate Matches(lens: Lens, q: Query, row: Row) {
    if lens.Embedded? then Filter.EvalAst(q.schema.num, q.where, row) else SqlMatches(q, row)
  }

  predicate SqlMatches(q: Query, row: Row) {
    Build(q.where, q.selected).Clause? && EvalClause(q.schema, Build(q.where, q.selected).p, row) == True
  }

  /** The rows a consumer should be looking at when the table is `t`. */
  function ViewOfTable(lens: Lens, q: Query, t: Table): MergeCore.View {
    map pk | pk in t && Matches(lens, q, t[pk]) :: Project(lens, q, t[pk])
  }

  // ----- the baseline SELECT -----

  function ReadColumns(q: Query): set<string> {
    q.selected + {q.pkKey}
  }

  function ReadRow(q: Query, row: Row): Row {
    map k | k in row && k in ReadColumns(q) :: row[k]
  }

  /** SELECT filters in SQL whoever asks, and reads the selected columns and the pk. */
  function SelectView(lens: Lens, q: Query, t: Table): MergeCore.View {
    map pk | pk in t && SqlMatches(q, t[pk]) :: Project(lens, q, ReadRow(q, t[pk]))
  }

  /** Deselecting every column turns the column filter off, and then a SELECTed row (pk only) and an
      event row (everything) project differently unless the pk is the whole row. */
  lemma ProjectionsAgree(lens: Lens, q: Query, kind: MergeCore.PkKind, row: Row)
    requires q.pkKey in q.columns && q.selected <= q.columns && "$pk" !in q.columns
    requires WfRow(q, kind, row)
    ensures Project(lens, q, ReadRow(q, row)) == Project(lens, q, row) <==>
            (q.selected != {} || q.columns == {q.pkKey})
  {
    var a, b := Project(lens, q, ReadRow(q, row)), Project(lens, q, row);
    assert Field(ReadRow(q, row), q.pkKey) == Field(row, q.pkKey);
    if q.selected != {} {
      assert a == b;
    } else if q.columns == {q.pkKey} {
      assert ReadRow(q, row) == row;
    } else {
      assert q.columns != {q.pkKey};
      var k :| k in q.columns && k != q.pkKey;
      assert k in b && k !in a;
    }
  }

  /** Baseline and events look at the same rows: always over HTTP; in process whenever the two
      filters agree on every row of the table. */
  lemma SelectMeetsView(lens: Lens, q: Query, kind: MergeCore.PkKind, t: Table)
    requires WfQuery(q) && WfTable(q, kind, t)
    requires lens.Embedded? ==> forall pk :: pk in t ==> (Matches(lens, q, t[pk]) <==> SqlMatches(q, t[pk]))
    ensures SelectView(lens, q, t) == ViewOfTable(lens, q, t)
  {
    hide Filter.EvalAst, SqlMatches, Project;
    forall pk | pk in t { ProjectionsAgree(lens, q, kind, t[pk]); }
  }
}
