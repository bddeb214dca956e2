/** The pull protocol as a machine, for a query without transform, limited or not: commits, ingestion
    into the events table, seeding and rotation on the server; subscribe, incremental pulls, resets
    and load-mores at one client (server/sdk.ts, client/pulse-query.ts). */
module HttpMachine {
  import opened Values
  import opened MergeCore
  import opened Queries
  import Wal
  import opened Replay
  import opened Limited
  import opened Events
  import opened Pull
  import PulseQuery
  import opened Paging

  /** `h[..logged]` is ingested; the current epoch's table holds `off` (0 or 1) marker row and then
      the rows of `h[base..logged]`. The client has rows, a token and its window; up to `edge`, when
      there is one, it holds every matching row. A subscribe or reset handler that has read the
      cursor but not yet run its SELECT is `reading`. */
  datatype Http = Http(
    h: History, logged: nat, base: nat, log: seq<EventRow>, off: nat, epoch: nat, used: set<nat>,
    client: Client, tokenEpoch: nat, since: nat, window: Window, edge: Option<Value>, reading: Option<nat>)

  datatype Action =
    | Commit(events: seq<Wal.Pending>)
    | Ingest(snapshot: nat)
    | Seed(snapshot: nat, cols: Row)
    | Rotate(epoch: nat, b: nat)
    | ReadCursor
    | Subscribe
    | Reset
    | PullIncrement(cap: nat)
    | LoadMore

  // ----- windows and resets -----

  /** buildResetWhereClause's pk condition. */
  predicate InResetWindow(order: Order, window: Window, pk: Value) {
    if order.Desc? then window.rangeStart.None? || !PkLess(pk, window.rangeStart.value)
    else window.rangeEnd.None? || !PkLess(window.rangeEnd.value, pk)
  }

  /** The rows a reset returns. */
  function ResetView(q: Query, window: Window, t: Table): View {
    var full := SelectView(Wire, q, t);
    map pk | pk in full && InResetWindow(q.order, window, pk) :: full[pk]
  }

  ghost predicate ResetCovers(q: Query, window: Window, t: Table) {
    forall pk :: pk in SelectView(Wire, q, t) ==> InResetWindow(q.order, window, pk)
  }

  // ----- actions -----

  /** The number of event rows (marker aside) a cursor has behind it. */
  function Position(log: seq<EventRow>, off: nat, since: nat): nat
  {
    if |log| <= off then 0
    else if log[|log| - 1].snapshot <= since then |log| - off
    else Position(log[..|log| - 1], off, since)
  }

  function At(s: Http): nat { s.base + Position(s.log, s.off, s.since) }

  function TableNow(w: World, s: Http): Table { TableAt(w, s.h, |s.h|) }

  /** The client's rows in display order. */
  ghost function ShownBy(w: World, s: Http): seq<Entry> {
    if Keyed(w.kind, s.client.view) then Listing(w.q.order, w.kind, s.client.view) else []
  }

  ghost function NextCursor(w: World, s: Http): Option<Value> {
    CursorOf(w.q.order, ShownBy(w, s), s.window)
  }

  /** A rotation happens with no handler in mid-request; its new log starts at some later commit. A
      load-more request is not in flight together with a pull. */
  ghost predicate Enabled(w: World, s: Http, a: Action) {
    match a
    case Commit(events) =>
      Wal.WfPendings(w.q, w.kind, TableNow(w, s), events) && (w.q.limit.Some? ==> Monotone(w, s.h + events))
    case Ingest(snapshot) => s.logged < |s.h| && snapshot > LatestSnapshot(s.log)
    case Seed(snapshot, _) => s.log == [] && snapshot > 0
    case Rotate(epoch, b) => epoch !in s.used && s.logged <= b <= |s.h| && s.reading.None?
    case ReadCursor => s.reading.None?
    case Subscribe => s.reading.Some?
    case Reset => s.reading.Some?
    case PullIncrement(cap) =>
      s.tokenEpoch == s.epoch && s.reading.None? && Incremental(w.q, s.window, s.since, s.log, cap).Delta?
    case LoadMore => s.reading.None? && NextCursor(w, s).Some?
  }

  /** What is assumed of the world: row events as Postgres sends them, and, for a limited query only,
      primary keys handed out in display-first order. */
  ghost predicate Sound(w: World, s: Http) {
    w.lens.Wire? && WfWorld(w, s.h) && NoReservedColumns(w.q) && (w.q.limit.Some? ==> Monotone(w, s.h))
  }

  function GateNow(w: World, s: Http): Gate {
    WindowGate(w.q, s.window.rangeStart, s.window.rangeEnd)
  }

  ghost function Perform(w: World, s: Http, a: Action): Http
    requires Sound(w, s) && Enabled(w, s, a)
  {
    hide FirstPage, ResetRows, NextCursor, Incremental, WfWorld, Monotone, Stored;
    match a
    case Commit(events) => s.(h := s.h + events)
    case Ingest(snapshot) => Ingested(w.q.pkKey, s, snapshot)
    case Seed(snapshot, cols) => s.(log := [EventRow(snapshot, OpSnapshot, cols)], off := 1)
    case Rotate(epoch, b) => Rotated(s, epoch, b)
    case ReadCursor => s.(reading := Some(LatestSnapshot(s.log)))
    case Subscribe => Rebase(w, s, FirstPage(w, s))
    case Reset => Rebase(w, s, ResetRows(w, s))
    case PullIncrement(cap) => Pulled(w, s, Incremental(w.q, s.window, s.since, s.log, cap))
    case LoadMore => MoreLoaded(w, s, NextCursor(w, s).value)
  }

  function Ingested(pkKey: string, s: Http, snapshot: nat): Http
    requires s.logged < |s.h|
  {
    s.(log := s.log + [Stored(pkKey, snapshot, s.h[s.logged])], logged := s.logged + 1)
  }

  function Rotated(s: Http, epoch: nat, b: nat): Http {
    s.(epoch := epoch, used := s.used + {epoch}, log := [], off := 0, base := b, logged := b)
  }

  ghost function Pulled(w: World, s: Http, r: Increment): Http
    requires r.Delta?
  {
    s.(client := s.client.(view := Fold(GateNow(w, s), s.client.view, r.events),
                           seen := s.logged, reach := Max(s.client.reach, s.logged),
                           past := StillOut(GateNow(w, s), s.client.past, s.h, s.client.seen, s.logged)),
       since := r.next, window := r.window)
  }

  ghost function MoreLoaded(w: World, s: Http, cursor: Value): Http
    requires Sound(w, s)
  {
    var window := PulseQuery.LoadMoreAnswer(w.q.order, ListingNow(w, s), s.window, cursor, w.q.limit).window;
    s.(client := Loaded(w, s.h, s.client, Restrict(SelectNow(w, s), LoadedRows(w, s, cursor))),
       window := window,
       edge := if s.edge.Some? && !Before(w.q.order, s.edge.value, cursor) then Trailing(w.q.order, window) else None)
  }

  ghost function LoadedRows(w: World, s: Http, cursor: Value): seq<Entry>
    requires Sound(w, s)
  {
    PulseQuery.Cut(PulseQuery.After(w.q.order, ListingNow(w, s), cursor), w.q.limit).0
  }

  ghost function SelectNow(w: World, s: Http): View {
    SelectView(Wire, w.q, TableNow(w, s))
  }

  /** What the query's SELECT without its LIMIT returns now. */
  ghost function ListingNow(w: World, s: Http): seq<Entry>
    requires Sound(w, s)
  {
    SelectIsKeyed(w, s.h);
    Listing(w.q.order, w.kind, SelectNow(w, s))
  }

  ghost function FirstPage(w: World, s: Http): seq<Entry>
    requires Sound(w, s)
  {
    PulseQuery.Cut(ListingNow(w, s), w.q.limit).0
  }

  ghost function ResetRows(w: World, s: Http): seq<Entry>
    requires Sound(w, s)
  {
    SelectIsKeyed(w, s.h);
    Listing(w.q.order, w.kind, ResetView(w.q, s.window, TableNow(w, s)))
  }

  function Restrict(view: View, es: seq<Entry>): View {
    map pk | pk in view && Entry(pk, view[pk]) in es :: view[pk]
  }

  /** A completed subscribe or reset: rows from now, the cursor read before them. */
  ghost function Rebase(w: World, s: Http, rows: seq<Entry>): Http
    requires s.reading.Some?
  {
    var s', ends := s.(tokenEpoch := s.epoch, since := s.reading.value, reading := None), EndsOf(w.q.order, rows);
    s'.(client := Fresh(w, s.h, Restrict(SelectNow(w, s), rows), At(s'), |s.h|),
        window := ends, edge := Trailing(w.q.order, ends))
  }

  // ----- the invariant -----

  /** Row `i` of the log is the stored form of its event. */
  predicate StoredAt(pkKey: string, h: History, base: nat, off: nat, log: seq<EventRow>, i: nat)
    requires off <= i < |log| && base + i - off < |h|
  {
    log[i] == Stored(pkKey, log[i].snapshot, h[base + i - off])
  }

  predicate AllStored(pkKey: string, h: History, base: nat, off: nat, log: seq<EventRow>)
    requires base + |log| <= |h| + off
  {
    forall i :: off <= i < |log| ==> StoredAt(pkKey, h, base, off, log, i)
  }

  ghost predicate Increasing(log: seq<EventRow>) {
    forall i, j :: 0 <= i < j < |log| ==> log[i].snapshot < log[j].snapshot
  }

  ghost predicate LogOk(w: World, s: Http) {
    && s.base <= s.logged <= |s.h| && s.off <= 1 && |s.log| == s.off + s.logged - s.base
    && (s.off == 1 ==> s.log[0].op.OpSnapshot?)
    && AllStored(w.q.pkKey, s.h, s.base, s.off, s.log) && Increasing(s.log)
  }

  predicate Visible(q: Query, e: Wal.Pending) {
    Wal.ScopedEvent(Wire, q, e).Some?
  }

  /** A token of the current epoch: what lies between its position and what the client has consumed
      the query cannot see. */
  ghost predicate TokenOk(w: World, s: Http) {
    s.since <= LatestSnapshot(s.log) && At(s) <= s.client.seen <= s.logged <= |s.h| &&
    forall i :: At(s) <= i < s.client.seen ==> !Visible(w.q, s.h[i])
  }

  ghost predicate EdgeOk(order: Order, window: Window, edge: Option<Value>, past: iset<Value>) {
    edge.Some? ==> Trailing(order, window) == edge && forall pk :: pk in past ==> Before(order, edge.value, pk)
  }

  ghost predicate LimitOk(w: World, s: Http) {
    && Admits(w, s.h, s.client, s.window.rangeStart, s.window.rangeEnd)
    && Proper(s.window) && EdgeOk(w.q.order, s.window, s.edge, s.client.past)
  }

  ghost predicate Inv(w: World, s: Http) {
    && Sound(w, s) && LogOk(w, s)
    && s.epoch in s.used && s.tokenEpoch in s.used
    && (s.reading.Some? ==> s.reading.value <= LatestSnapshot(s.log))
    && Agrees(w, s.h, s.client)
    && (w.q.limit.Some? ==> LimitOk(w, s))
    && (s.tokenEpoch == s.epoch ==> TokenOk(w, s))
  }

  // ----- facts about logs -----

  lemma SelectIsKeyed(w: World, h: History)
    requires WfWorld(w, h)
    ensures Keyed(w.kind, SelectView(w.lens, w.q, TableAt(w, h, |h|)))
  {
    TablesAreWf(w, h, |h|);
  }

  /** Exactly the rows at or before the cursor are behind its position. */
  lemma {:induction false} PositionSplits(log: seq<EventRow>, off: nat, since: nat)
    requires Increasing(log)
    ensures off <= |log| ==> Position(log, off, since) <= |log| - off
    ensures forall i :: off <= i < |log| ==> (log[i].snapshot <= since <==> i - off < Position(log, off, since))
  {
    if |log| > off && log[|log| - 1].snapshot > since {
      PositionSplits(log[..|log| - 1], off, since);
    }
  }
}
