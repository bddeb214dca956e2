/** The durable path of one event: buildEventRow of server/pulse-store.ts, and what a pull makes of
    the stored row in server/sdk.ts. */
module Events {
  import opened Values
  import opened MergeCore
  import opened Queries
  import opened Wal

  datatype Op = OpInsert | OpUpdate | OpDelete | OpSnapshot

  /** A row of an events table: the generated `$snapshot`, `$op` and the source columns with their
      `$old_` twins. */
  datatype EventRow = EventRow(snapshot: nat, op: Op, cols: Row)

  const OLD := "$old_"

  function OldName(k: string): string { OLD + k }

  /** toOldRowValues. */
  function ToOldRowValues(row: Row): Row {
    var names := set k | k in row :: OldName(k);
    map name | name in names && |name| >= |OLD| && name[|OLD|..] in row :: row[name[|OLD|..]]
  }

  /** withPrimaryKeyValue. */
  function WithPrimaryKey(row: Row, pkKey: string, pk: Value): Row {
    if Field(row, pkKey).Undefined? then row[pkKey := pk] else row
  }

  /** buildEventRow. A delete stores its old row on both sides, an insert its new one. */
  function BuildEventRow(pkKey: string, op: Op, pk: Value, row: Row, oldRow: Row): Row {
    var newData := WithPrimaryKey(row, pkKey, pk);
    var oldData := if op.OpInsert? then newData else WithPrimaryKey(oldRow, pkKey, pk);
    map[pkKey := pk] + (if op.OpDelete? then oldData else newData) + ToOldRowValues(oldData)
  }

  /** The stored form of a decoded event. */
  function Stored(pkKey: string, snapshot: nat, e: Pending): EventRow {
    match e
    case PendingInsert(pk, row) => EventRow(snapshot, OpInsert, BuildEventRow(pkKey, OpInsert, pk, row, map[]))
    case PendingUpdate(pk, row, oldRow) => EventRow(snapshot, OpUpdate, BuildEventRow(pkKey, OpUpdate, pk, row, oldRow))
    case PendingDelete(pk, oldRow) => EventRow(snapshot, OpDelete, BuildEventRow(pkKey, OpDelete, pk, map[], oldRow))
  }

  /** buildEventsTable refuses a source column that looks like a derived one. */
  predicate ReservedName(name: string) {
    name == "$snapshot" || name == "$op" || name == "$timestamp" || OLD <= name
  }

  ghost predicate NoReservedColumns(q: Query) {
    forall k :: k in q.columns ==> !ReservedName(k)
  }

  lemma OldNamesAreFresh(k: string)
    ensures OLD <= OldName(k) && OldName(k)[|OLD|..] == k
  {
  }

  /** What a stored row holds under a source column and under its `$old_` twin. */
  lemma StoredField(q: Query, op: Op, pk: Value, row: Row, oldRow: Row, k: string)
    requires NoReservedColumns(q) && k in q.columns && q.pkKey in q.columns
    requires row.Keys == q.columns && oldRow.Keys == q.columns
    requires !Field(row, q.pkKey).Undefined? && !Field(oldRow, q.pkKey).Undefined?
    ensures
      var cols := BuildEventRow(q.pkKey, op, pk, row, oldRow);
      Field(cols, "" + k) == (if op.OpDelete? then oldRow[k] else row[k]) &&
      Field(cols, OLD + k) == (if op.OpInsert? then row[k] else oldRow[k])
  {
    OldNamesAreFresh(k);
    var stored := ToOldRowValues(if op.OpInsert? then row else oldRow);
    assert "" + k == k && OldName(k) in stored;
    forall name | name in stored ensures name != k {
      assert OLD <= name;
    }
  }

  /** Reading back: both sides of a stored row come out as they went in. */
  lemma StoredReadsBack(q: Query, op: Op, pk: Value, row: Row, oldRow: Row)
    requires NoReservedColumns(q) && q.pkKey in q.columns && Field(row, q.pkKey) == Field(oldRow, q.pkKey) == pk
    requires row.Keys == q.columns && oldRow.Keys == q.columns
    requires forall k :: k in row ==> row[k] != Undefined
    requires forall k :: k in oldRow ==> oldRow[k] != Undefined
    ensures
      var cols := BuildEventRow(q.pkKey, op, pk, row, oldRow);
      Extract(cols, q.columns, "") == (if op.OpDelete? then oldRow else row) &&
      Extract(cols, q.columns, OLD) == (if op.OpInsert? then row else oldRow) &&
      Field(cols, q.pkKey) == pk
  {
    assert q.pkKey in row && q.pkKey in oldRow;
    var cols := BuildEventRow(q.pkKey, op, pk, row, oldRow);
    var stored, prior := if op.OpDelete? then oldRow else row, if op.OpInsert? then row else oldRow;
    forall k | k in q.columns
      ensures Field(cols, "" + k) == stored[k] && Field(cols, OLD + k) == prior[k]
    {
      StoredField(q, op, pk, row, oldRow, k);
    }
    ExtractIs(cols, q.columns, "", stored);
    ExtractIs(cols, q.columns, OLD, prior);
    assert "" + q.pkKey == q.pkKey;
  }

  lemma ExtractIs(raw: Row, columns: set<string>, prefix: string, row: Row)
    requires row.Keys == columns
    requires forall k :: k in columns ==> row[k] != Undefined && Field(raw, prefix + k) == row[k]
    ensures Extract(raw, columns, prefix) == row
  {
  }

  // ----- the pull side -----

  /** What a subscriber's window lets a limited query insert: isInsertPrepend. */
  function WindowGate(q: Query, rangeStart: Option<Value>, rangeEnd: Option<Value>): Gate {
    Ranged(q.order, q.limit, rangeStart, rangeEnd)
  }

  function NewSide(q: Query, er: EventRow): Option<Row> { ExtractRow(er.cols, q.columns, "") }

  function OldSide(q: Query, er: EventRow): Option<Row> { ExtractRow(er.cols, q.columns, OLD) }

  predicate SideMatches(q: Query, side: Option<Row>) {
    SqlMatches(q, if side.Some? then side.value else map[])
  }

  /** The WHERE of the events query, `$snapshot` aside. */
  predicate Picked(q: Query, er: EventRow) {
    PickedSides(q, er.op, NewSide(q, er), OldSide(q, er))
  }

  predicate PickedSides(q: Query, op: Op, row: Option<Row>, oldRow: Option<Row>) {
    match op
    case OpInsert => SideMatches(q, row)
    case OpUpdate => SideMatches(q, row) || SideMatches(q, oldRow)
    case OpDelete => SideMatches(q, oldRow)
    case OpSnapshot => true
  }

  /** The wire event a picked row becomes, if any: one turn of the loop in
      buildIncrementalResponse, for a query without transform. */
  function WireEvent(q: Query, gate: Gate, er: EventRow): Option<Event> {
    WireFromSides(q, gate, er.op, Field(er.cols, q.pkKey), NewSide(q, er), OldSide(q, er))
  }

  function WireFromSides(q: Query, gate: Gate, op: Op, pk: Value, row: Option<Row>,
      oldRow: Option<Row>): Option<Event> {
    if !IsPkComparable(pk) then None
    else match op
      case OpInsert =>
        if row.None? || !Accepts(gate, pk) then None
        else Some(Insert(Project(Wire, q, row.value), pk))
      case OpUpdate =>
        var matchesNew := SideMatches(q, row) && row.Some?;
        var matchesOld := SideMatches(q, oldRow) && oldRow.Some?;
        if !matchesNew && !matchesOld then None
        else Some(Update(
          if matchesNew then Project(Wire, q, row.value)
          else if row.Some? then map["$pk" := Field(Project(Wire, q, row.value), "$pk")] else map[],
          if matchesOld then Project(Wire, q, oldRow.value) else map[],
          pk, matchesNew))
      case OpDelete =>
        if oldRow.None? || !SideMatches(q, oldRow) then None
        else Some(Delete(Project(Wire, q, oldRow.value), pk))
      case OpSnapshot => None
  }

  /** A pull's treatment of one decoded event, through the events table. */
  function PulledEvent(q: Query, gate: Gate, snapshot: nat, e: Pending): Option<Event> {
    var er := Stored(q.pkKey, snapshot, e);
    if Picked(q, er) then WireEvent(q, gate, er) else None
  }

  lemma WireRowKeepsPk(q: Query, row: Row)
    ensures Field(Project(Wire, q, row), "$pk") == Field(row, q.pkKey)
  {
  }

  lemma StoredSides(q: Query, kind: PkKind, t: Table, snapshot: nat, e: Pending)
    requires WfQuery(q) && NoReservedColumns(q) && WfTable(q, kind, t) && WfPending(q, kind, t, e)
    ensures
      var er := Stored(q.pkKey, snapshot, e);
      NewSide(q, er) == Some(if e.PendingDelete? then e.oldRow else e.row) &&
      OldSide(q, er) == Some(if e.PendingInsert? then e.row else e.oldRow) &&
      Field(er.cols, q.pkKey) == e.pk
  {
    match e
    case PendingInsert(pk, row) =>
      StoredReadsBack(q, OpInsert, pk, row, row);
      assert q.pkKey in row;
    case PendingUpdate(pk, row, oldRow) =>
      StoredReadsBack(q, OpUpdate, pk, row, oldRow);
      assert q.pkKey in row && q.pkKey in oldRow;
    case PendingDelete(pk, oldRow) =>
      StoredReadsBack(q, OpDelete, pk, oldRow, oldRow);
      assert q.pkKey in oldRow;
  }

  function StoredOp(e: Pending): Op {
    if e.PendingInsert? then OpInsert else if e.PendingUpdate? then OpUpdate else OpDelete
  }

  lemma SidesAreScoped(q: Query, gate: Gate, e: Pending)
    requires IsPkComparable(e.pk)
    requires !e.PendingDelete? ==> Field(e.row, q.pkKey) == e.pk
    ensures
      var row := Some(if e.PendingDelete? then e.oldRow else e.row);
      var oldRow := Some(if e.PendingInsert? then e.row else e.oldRow);
      (if PickedSides(q, StoredOp(e), row, oldRow) then WireFromSides(q, gate, StoredOp(e), e.pk, row, oldRow)
        else None) ==
      (if e.PendingInsert? && !Accepts(gate, e.pk) then None else ScopedEvent(Wire, q, e))
  {
    if e.PendingUpdate? { WireRowKeepsPk(q, e.row); }
  }

  /** Storing an event, reading it back and filtering it in SQL gives the scoped event, except for
      an insert outside a limited window. */
  lemma PulledEventIsScoped(q: Query, kind: PkKind, t: Table, gate: Gate, snapshot: nat, e: Pending)
    requires WfQuery(q) && NoReservedColumns(q) && WfTable(q, kind, t) && WfPending(q, kind, t, e)
    ensures PulledEvent(q, gate, snapshot, e) ==
      if e.PendingInsert? && !Accepts(gate, e.pk) then None else ScopedEvent(Wire, q, e)
  {
    StoredSides(q, kind, t, snapshot, e);
    PendingIsKeyed(q, kind, t, e);
    SidesAreScoped(q, gate, e);
  }

  lemma PendingIsKeyed(q: Query, kind: PkKind, t: Table, e: Pending)
    requires WfTable(q, kind, t) && WfPending(q, kind, t, e)
    ensures IsPkComparable(e.pk) && OfKind(kind, e.pk)
    ensures !e.PendingDelete? ==> Field(e.row, q.pkKey) == e.pk && WfRow(q, kind, e.row)
    ensures !e.PendingInsert? ==> Field(e.oldRow, q.pkKey) == e.pk && WfRow(q, kind, e.oldRow)
  {
  }

  /** Merging the scoped wire event refreshes the wire view, insert gate aside. */
  lemma WireEventRefreshes(q: Query, view: View, gate: Gate, e: Pending)
    requires IsPkComparable(e.pk) && gate.Ranged?
    requires !e.PendingDelete? ==> Field(e.row, q.pkKey) == e.pk
    requires e.PendingInsert? ==> Accepts(gate, e.pk)
    ensures
      var event := ScopedEvent(Wire, q, e);
      Refresh(Wire, q, view, e) == if event.None? then view else Step(gate, view, event.value)
  {
    if !e.PendingDelete? { WireRowKeepsPk(q, e.row); }
  }

  function DeliverPull(q: Query, gate: Gate, snapshot: nat, view: View, e: Pending): View {
    var event := PulledEvent(q, gate, snapshot, e);
    if event.None? then view else Step(gate, view, event.value)
  }

  /** For an unlimited query the whole durable path is refreshing the view. */
  lemma PullRefreshes(q: Query, kind: PkKind, t: Table, gate: Gate, snapshot: nat, view: View, e: Pending)
    requires WfQuery(q) && NoReservedColumns(q) && WfTable(q, kind, t) && WfPending(q, kind, t, e)
    requires gate.Ranged? && gate.limit.None?
    ensures DeliverPull(q, gate, snapshot, view, e) == Refresh(Wire, q, view, e)
  {
    PulledEventIsScoped(q, kind, t, gate, snapshot, e);
    PendingIsKeyed(q, kind, t, e);
    WireEventRefreshes(q, view, gate, e);
  }

  // ----- the two paths -----

  function StripPk(row: Row): Row {
    row - {"$pk"}
  }

  function StripView(view: View): View {
    map pk | pk in view :: StripPk(view[pk])
  }

  lemma ProjectionsDifferByPk(q: Query, row: Row)
    requires "$pk" !in row
    ensures StripPk(Project(Wire, q, row)) == Project(Embedded, q, row)
  {
  }

  /** The two paths change the view alike: persisting an event, reading it back and pulling it does
      to a client's rows, `$pk` aside, what tapping it does to a collection's. */
  lemma TwoPathsAgree(q: Query, kind: PkKind, t: Table, gate: Gate, snapshot: nat, view: View, e: Pending)
    requires WfQuery(q) && NoReservedColumns(q) && WfTable(q, kind, t) && WfPending(q, kind, t, e)
    requires gate.Ranged? && gate.limit.None?
    requires !e.PendingDelete? ==> (Matches(Embedded, q, e.row) <==> Matches(Wire, q, e.row))
    requires !e.PendingInsert? ==> (Matches(Embedded, q, e.oldRow) <==> Matches(Wire, q, e.oldRow))
    ensures StripView(DeliverPull(q, gate, snapshot, view, e)) == DeliverTap(q, StripView(view), e)
  {
    PullRefreshes(q, kind, t, gate, snapshot, view, e);
    TapRefreshes(q, kind, t, StripView(view), e);
    PendingIsKeyed(q, kind, t, e);
    StripRefresh(q, view, e);
  }

  lemma StripRefresh(q: Query, view: View, e: Pending)
    requires !e.PendingDelete? ==> "$pk" !in e.row && (Matches(Embedded, q, e.row) <==> Matches(Wire, q, e.row))
    requires !e.PendingInsert? ==> (Matches(Embedded, q, e.oldRow) <==> Matches(Wire, q, e.oldRow))
    ensures StripView(Refresh(Wire, q, view, e)) == Refresh(Embedded, q, StripView(view), e)
  {
    if !e.PendingDelete? { ProjectionsDifferByPk(q, e.row); }
  }
}
