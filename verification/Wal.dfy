/** From the WAL to view events: decodeInto of server/pulse-runtime.ts and
    client/embedded/tap-events.ts. */
module Wal {
  import opened Values
  import Filter
  import opened MergeCore
  import opened Queries

  datatype OldKind = FullOld | KeyOld | NoOld

  /** A row event as the driver delivers it. */
  datatype WalEvent =
    | WalInsert(new_: Row)
    | WalUpdate(oldKind: OldKind, old_: Row, new_: Row, keyChanged: bool)
    | WalDelete(oldKind: OldKind, old_: Row)

  /** A decoded event. A delete carries no new row. */
  datatype Pending =
    | PendingInsert(pk: Value, row: Row)
    | PendingUpdate(pk: Value, row: Row, oldRow: Row)
    | PendingDelete(pk: Value, oldRow: Row)

  predicate UsablePk(pk: Value) {
    !Filter.Nullish(pk)
  }

  /** The events decodeInto pushes for one row event of a table with pk key `pkKey`. */
  function Decode(pkKey: string, event: WalEvent): seq<Pending> {
    match event
    case WalInsert(new_) =>
      var pk := Field(new_, pkKey);
      if UsablePk(pk) then [PendingInsert(pk, new_)] else []
    case WalDelete(oldKind, old_) =>
      var pk := Field(old_, pkKey);
      if oldKind.FullOld? && UsablePk(pk) then [PendingDelete(pk, old_)] else []
    case WalUpdate(oldKind, old_, new_, keyChanged) =>
      var pk, oldPk := Field(new_, pkKey), Field(old_, pkKey);
      if !oldKind.FullOld? || !UsablePk(pk) then []
      else if keyChanged && UsablePk(oldPk) then [PendingDelete(oldPk, old_), PendingInsert(pk, new_)]
      else [PendingUpdate(pk, new_, old_)]
  }

  /** applyTransaction's loop over one transaction's row events. */
  function DecodeAll(pkKey: string, events: seq<WalEvent>): seq<Pending> {
    if events == [] then []
    else DecodeAll(pkKey, events[..|events| - 1]) + Decode(pkKey, events[|events| - 1])
  }

  // ----- what the events mean for the source table -----

  function ApplyWal(pkKey: string, t: Table, event: WalEvent): Table {
    match event
    case WalInsert(new_) => t[Field(new_, pkKey) := new_]
    case WalUpdate(_, old_, new_, _) => (t - {Field(old_, pkKey)})[Field(new_, pkKey) := new_]
    case WalDelete(_, old_) => t - {Field(old_, pkKey)}
  }

  /** What Postgres sends for a table under REPLICA IDENTITY FULL whose every intermediate state is
      pk-unique. */
  ghost predicate WfWal(q: Query, kind: PkKind, t: Table, event: WalEvent) {
    match event
    case WalInsert(new_) => WfRow(q, kind, new_) && Field(new_, q.pkKey) !in t
    case WalUpdate(oldKind, old_, new_, keyChanged) =>
      var oldPk, pk := Field(old_, q.pkKey), Field(new_, q.pkKey);
      && oldKind.FullOld? && WfRow(q, kind, new_) && oldPk in t && t[oldPk] == old_
      && (keyChanged <==> oldPk != pk) && (keyChanged ==> pk !in t)
    case WalDelete(oldKind, old_) =>
      var pk := Field(old_, q.pkKey);
      oldKind.FullOld? && pk in t && t[pk] == old_
  }

  function ApplyPending(t: Table, e: Pending): Table {
    if e.PendingDelete? then t - {e.pk} else t[e.pk := e.row]
  }

  ghost predicate WfPending(q: Query, kind: PkKind, t: Table, e: Pending) {
    match e
    case PendingInsert(pk, row) => WfRow(q, kind, row) && Field(row, q.pkKey) == pk && pk !in t
    case PendingUpdate(pk, row, oldRow) =>
      WfRow(q, kind, row) && Field(row, q.pkKey) == pk && pk in t && t[pk] == oldRow
    case PendingDelete(pk, oldRow) => pk in t && t[pk] == oldRow
  }

  function ApplyPendings(t: Table, es: seq<Pending>): Table {
    if es == [] then t else ApplyPending(ApplyPendings(t, es[..|es| - 1]), es[|es| - 1])
  }

  ghost predicate WfPendingAt(q: Query, kind: PkKind, t: Table, es: seq<Pending>, i: nat)
    requires i < |es|
  {
    WfPending(q, kind, ApplyPendings(t, es[..i]), es[i])
  }

  ghost predicate WfPendings(q: Query, kind: PkKind, t: Table, es: seq<Pending>) {
    forall i :: 0 <= i < |es| ==> WfPendingAt(q, kind, t, es, i)
  }

  /** Decoding loses nothing: the decoded events are well-formed one after the other and take the
      table where the row event takes it. A pk change becomes delete then insert. */
  lemma DecodeTracksTable(q: Query, kind: PkKind, t: Table, event: WalEvent)
    requires WfQuery(q) && WfTable(q, kind, t) && WfWal(q, kind, t, event)
    ensures WfPendings(q, kind, t, Decode(q.pkKey, event))
    ensures ApplyPendings(t, Decode(q.pkKey, event)) == ApplyWal(q.pkKey, t, event)
    ensures WfTable(q, kind, ApplyWal(q.pkKey, t, event))
  {
    var es := Decode(q.pkKey, event);
    if |es| == 2 {
      TwoPendings(q, kind, t, es[0], es[1]);
      assert es == [es[0], es[1]];
    } else {
      OnePending(q, kind, t, es[0]);
      assert es == [es[0]];
      if event.WalUpdate? {
        assert (t - {Field(event.old_, q.pkKey)})[Field(event.new_, q.pkKey) := event.new_]
            == t[Field(event.new_, q.pkKey) := event.new_];
      }
    }
  }

  lemma OnePending(q: Query, kind: PkKind, t: Table, e: Pending)
    ensures ApplyPendings(t, [e]) == ApplyPending(t, e)
    ensures WfPending(q, kind, t, e) ==> WfPendings(q, kind, t, [e])
  {
    assert [e][..0] == [];
  }

  lemma TwoPendings(q: Query, kind: PkKind, t: Table, a: Pending, b: Pending)
    ensures ApplyPendings(t, [a, b]) == ApplyPending(ApplyPending(t, a), b)
    ensures WfPending(q, kind, t, a) && WfPending(q, kind, ApplyPending(t, a), b) ==> WfPendings(q, kind, t, [a, b])
  {
    OnePending(q, kind, t, a);
    assert [a, b][..1] == [a] && [a, b][..0] == [];
  }

  ghost predicate WfWalAt(q: Query, kind: PkKind, t: Table, events: seq<WalEvent>, i: nat)
    requires i < |events|
  {
    WfWal(q, kind, ApplyWals(q.pkKey, t, events[..i]), events[i])
  }

  ghost predicate WfWals(q: Query, kind: PkKind, t: Table, events: seq<WalEvent>) {
    forall i :: 0 <= i < |events| ==> WfWalAt(q, kind, t, events, i)
  }

  function ApplyWals(pkKey: string, t: Table, events: seq<WalEvent>): Table {
    if events == [] then t else ApplyWal(pkKey, ApplyWals(pkKey, t, events[..|events| - 1]), events[|events| - 1])
  }

  lemma {:induction false} ApplyPendingsConcat(t: Table, a: seq<Pending>, b: seq<Pending>)
    ensures ApplyPendings(t, a + b) == ApplyPendings(ApplyPendings(t, a), b)
    decreases |b|
  {
    if b == [] {
      assert a + b == a;
    } else {
      ApplyPendingsConcat(t, a, b[..|b| - 1]);
      assert (a + b)[..|a + b| - 1] == a + b[..|b| - 1];
    }
  }

  lemma WfPendingsConcat(q: Query, kind: PkKind, t: Table, a: seq<Pending>, b: seq<Pending>)
    requires WfPendings(q, kind, t, a) && WfPendings(q, kind, ApplyPendings(t, a), b)
    ensures WfPendings(q, kind, t, a + b)
  {
    forall i | 0 <= i < |a + b| ensures WfPendingAt(q, kind, t, a + b, i) {
      if i < |a| {
        assert (a + b)[..i] == a[..i] && WfPendingAt(q, kind, t, a, i);
      } else {
        assert WfPendingAt(q, kind, ApplyPendings(t, a), b, i - |a|);
        assert (a + b)[..i] == a + b[..i - |a|];
        ApplyPendingsConcat(t, a, b[..i - |a|]);
      }
    }
  }

  /** The same for a whole transaction. */
  lemma {:induction false} DecodeAllTracksTable(q: Query, kind: PkKind, t: Table, events: seq<WalEvent>)
    requires WfQuery(q) && WfTable(q, kind, t) && WfWals(q, kind, t, events)
    ensures WfPendings(q, kind, t, DecodeAll(q.pkKey, events))
    ensures ApplyPendings(t, DecodeAll(q.pkKey, events)) == ApplyWals(q.pkKey, t, events)
    ensures WfTable(q, kind, ApplyWals(q.pkKey, t, events))
    decreases |events|
  {
    if events != [] {
      hide WfQuery, WfTable, WfWal, WfPendings, Decode, ApplyWal;
      var init, last := events[..|events| - 1], events[|events| - 1];
      forall i | 0 <= i < |init| ensures WfWalAt(q, kind, t, init, i) {
        assert init[..i] == events[..i] && WfWalAt(q, kind, t, events, i);
      }
      assert WfWalAt(q, kind, t, events, |init|);
      DecodeAllTracksTable(q, kind, t, init);
      DecodeTracksTable(q, kind, ApplyWals(q.pkKey, t, init), last);
      ApplyPendingsConcat(t, DecodeAll(q.pkKey, init), Decode(q.pkKey, last));
      WfPendingsConcat(q, kind, t, DecodeAll(q.pkKey, init), Decode(q.pkKey, last));
    }
  }

  // ----- tap events -----

  function NewRowOf(e: Pending): Row {
    if e.PendingDelete? then map[] else e.row
  }

  /** buildTapEvent. */
  function BuildTapEvent(q: Query, e: Pending): Option<Event> {
    BuildFromSides(q, e,
      ExtractRow(NewRowOf(e), q.columns, ""),
      if e.PendingInsert? then None else ExtractRow(e.oldRow, q.columns, ""))
  }

  /** A row without its pk makes projectEmbeddedRows throw, and the tap then drops the event; None
      covers that too. */
  function BuildFromSides(q: Query, e: Pending, newRow: Option<Row>, oldRow: Option<Row>): Option<Event> {
    var matchesNew := newRow.Some? && Filter.EvalAst(q.schema.num, q.where, newRow.value);
    var matchesOld := oldRow.Some? && Filter.EvalAst(q.schema.num, q.where, oldRow.value);
    match e
    case PendingInsert(_, _) =>
      if !matchesNew || Field(newRow.value, q.pkKey).Undefined? then None
      else Some(Insert(ApplyColumnFilter(newRow.value, q.selected), Field(newRow.value, q.pkKey)))
    case PendingUpdate(_, _, _) =>
      if !matchesNew && !matchesOld then None
      else if newRow.Some? && Field(newRow.value, q.pkKey).Undefined? then None
      else if oldRow.Some? && Field(oldRow.value, q.pkKey).Undefined? then None
      else Some(Update(
        if matchesNew then ApplyColumnFilter(newRow.value, q.selected) else map[],
        if matchesOld then ApplyColumnFilter(oldRow.value, q.selected) else map[],
        Field(if newRow.Some? then newRow.value else oldRow.value, q.pkKey),
        matchesNew))
    case PendingDelete(_, _) =>
      if !matchesOld || Field(oldRow.value, q.pkKey).Undefined? then None
      else Some(Delete(ApplyColumnFilter(oldRow.value, q.selected), Field(oldRow.value, q.pkKey)))
  }

  /** What a decoded event does to a consumer's view, whatever the view holds. */
  function Refresh(lens: Lens, q: Query, view: View, e: Pending): View {
    match e
    case PendingInsert(pk, row) =>
      if Matches(lens, q, row) && pk !in view then view[pk := Project(lens, q, row)] else view
    case PendingUpdate(pk, row, oldRow) =>
      if Matches(lens, q, row) then view[pk := Project(lens, q, row)]
      else if Matches(lens, q, oldRow) then view - {pk}
      else view
    case PendingDelete(pk, oldRow) => if Matches(lens, q, oldRow) then view - {pk} else view
  }

  function DeliverTap(q: Query, view: View, e: Pending): View {
    var event := BuildTapEvent(q, e);
    if event.None? then view else Step(FullSet, view, event.value)
  }

  /** The event a consumer should see: an insert if the new row matches, a delete if the old one
      did, an update if either does, naming each side only when it matches. */
  function ScopedEvent(lens: Lens, q: Query, e: Pending): Option<Event> {
    match e
    case PendingInsert(pk, row) =>
      if Matches(lens, q, row) then Some(Insert(Project(lens, q, row), pk)) else None
    case PendingUpdate(pk, row, oldRow) =>
      if !Matches(lens, q, row) && !Matches(lens, q, oldRow) then None
      else Some(Update(
        if Matches(lens, q, row) then Project(lens, q, row)
        else if lens.Wire? then map["$pk" := pk] else map[],
        if Matches(lens, q, oldRow) then Project(lens, q, oldRow) else map[],
        pk, Matches(lens, q, row)))
    case PendingDelete(pk, oldRow) =>
      if Matches(lens, q, oldRow) then Some(Delete(Project(lens, q, oldRow), pk)) else None
  }

  lemma TapEventIsScoped(q: Query, kind: PkKind, t: Table, e: Pending)
    requires WfQuery(q) && WfTable(q, kind, t) && WfPending(q, kind, t, e)
    ensures BuildTapEvent(q, e) == ScopedEvent(Embedded, q, e)
  {
    if !e.PendingDelete? { ExtractOfFullRow(q, kind, e.row); }
    if !e.PendingInsert? { ExtractOfFullRow(q, kind, e.oldRow); }
    FullSidesAreScoped(q, e);
  }

  lemma FullSidesAreScoped(q: Query, e: Pending)
    requires !e.PendingDelete? ==> Field(e.row, q.pkKey) == e.pk
    requires !e.PendingInsert? ==> Field(e.oldRow, q.pkKey) == e.pk
    requires !e.pk.Undefined?
    ensures BuildFromSides(q, e,
      if e.PendingDelete? then None else Some(e.row),
      if e.PendingInsert? then None else Some(e.oldRow)) == ScopedEvent(Embedded, q, e)
  {
  }

  lemma ScopedEventRefreshes(q: Query, view: View, e: Pending)
    requires IsPkComparable(e.pk)
    ensures
      var event := ScopedEvent(Embedded, q, e);
      Refresh(Embedded, q, view, e) == if event.None? then view else Step(FullSet, view, event.value)
  {
  }

  /** Tap-building and merging an event is refreshing the view by it, on any view. */
  lemma TapRefreshes(q: Query, kind: PkKind, t: Table, view: View, e: Pending)
    requires WfQuery(q) && WfTable(q, kind, t) && WfPending(q, kind, t, e)
    ensures DeliverTap(q, view, e) == Refresh(Embedded, q, view, e)
  {
    TapEventIsScoped(q, kind, t, e);
    ScopedEventRefreshes(q, view, e);
  }
}
