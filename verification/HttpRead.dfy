/** What subscribe, reset and load-more, which read the table itself, do to the invariant of the pull
    protocol. */
module HttpRead {
  import opened Values
  import opened MergeCore
  import Queries
  import opened Replay
  import opened Limited
  import Pull
  import opened PulseQuery
  import opened Paging
  import opened HttpMachine
  import HttpPull

  /** SELECT returns the view of the table, sorted. */
  lemma ListingNowIs(w: World, s: Http)
    requires Sound(w, s)
    ensures SelectNow(w, s) == ViewAt(w, s.h, |s.h|) && Keyed(w.kind, SelectNow(w, s))
    ensures IsListing(w.q.order, w.kind, SelectNow(w, s), ListingNow(w, s))
  {
    SelectIsKeyed(w, s.h);
    TablesAreWf(w, s.h, |s.h|);
    assert s.h[..|s.h|] == s.h;
    Queries.SelectMeetsView(Queries.Wire, w.q, w.kind, TableNow(w, s));
    ListingIs(w.q.order, w.kind, SelectNow(w, s));
  }

  ghost predicate IsListing(order: Order, kind: PkKind, view: View, es: seq<Entry>) {
    && Sorted(order, es) && AllComparable(es) && AllOfKind(kind, es)
    && (forall pk :: pk in view ==> Entry(pk, view[pk]) in es)
    && (forall e :: e in es ==> e.pk in view && view[e.pk] == e.row)
  }

  lemma ListingIs(order: Order, kind: PkKind, view: View)
    requires Keyed(kind, view)
    ensures IsListing(order, kind, view, Listing(order, kind, view))
  {
    ListingIsSorted(order, kind, view);
  }

  /** Rows that make a baseline: sorted, from the view, with what is left out beyond the last. */
  ghost predicate Baseline(order: Order, view: View, rows: seq<Entry>) {
    && Sorted(order, rows) && AllComparable(rows)
    && (forall e :: e in rows ==> e.pk in view && view[e.pk] == e.row)
    && (rows != [] ==> forall pk :: pk in view && Entry(pk, view[pk]) !in rows ==>
      Before(order, rows[|rows| - 1].pk, pk))
  }

  lemma FirstPageIsBaseline(w: World, s: Http)
    requires Sound(w, s)
    ensures Baseline(w.q.order, SelectNow(w, s), FirstPage(w, s))
  {
    ListingNowIs(w, s);
    CutIsBaseline(w.q.order, w.kind, SelectNow(w, s), ListingNow(w, s), w.q.limit);
  }

  lemma CutIsBaseline(order: Order, kind: PkKind, view: View, es: seq<Entry>, limit: Option<nat>)
    requires IsListing(order, kind, view, es)
    ensures Baseline(order, view, Cut(es, limit).0)
  {
    var rows := Cut(es, limit).0;
    assert forall i :: 0 <= i < |rows| ==> rows[i] == es[i] && es[i] in es;
    forall pk | pk in view && Entry(pk, view[pk]) !in rows ensures rows != [] ==>
      Before(order, rows[|rows| - 1].pk, pk) {
      CutLeavesTail(order, es, limit, Entry(pk, view[pk]));
    }
  }

  lemma ResetRowsAreBaseline(w: World, s: Http)
    requires Sound(w, s)
    ensures Baseline(w.q.order, SelectNow(w, s), ResetRows(w, s))
  {
    SelectIsKeyed(w, s.h);
    var view, part, rows := SelectNow(w, s), ResetView(w.q, s.window, TableNow(w, s)), ResetRows(w, s);
    ListingIs(w.q.order, w.kind, part);
    forall pk | pk in view && Entry(pk, view[pk]) !in rows && rows != []
      ensures Before(w.q.order, rows[|rows| - 1].pk, pk)
    {
      assert pk !in part;
      assert rows[|rows| - 1] in rows;
      BesideResetWindow(w, s.window, rows[|rows| - 1].pk, pk);
    }
  }

  lemma BesideResetWindow(w: World, window: Pull.Window, inside: Value, outside: Value)
    requires InResetWindow(w.q.order, window, inside) && !InResetWindow(w.q.order, window, outside)
    requires SameKind(inside, outside)
    ensures Before(w.q.order, inside, outside)
  {
    var trailing := Trailing(w.q.order, window).value;
    PkLessTotal(inside, outside);
    BeforeIsStrictOrder(w.q.order, trailing, outside, inside);
  }

  /** A baseline is a client in agreement, whose rows and window the gate knows. */
  lemma RebaseAgrees(w: World, s: Http, rows: seq<Entry>)
    requires Sound(w, s) && LogOk(w, s) && s.reading.Some? && Baseline(w.q.order, SelectNow(w, s), rows)
    ensures
      var s' := Rebase(w, s, rows);
      Agrees(w, s'.h, s'.client) && LimitOk(w, s') && s'.client.seen == At(s')
  {
    hide Sound, LogOk, Baseline, Agrees, Admits, EndsOf, SelectNow, Restrict, EdgeOk, Position;
    RebasedClient(w, s, rows);
    RebasedWindow(w, s, rows);
  }

  lemma RebasedClient(w: World, s: Http, rows: seq<Entry>)
    requires Sound(w, s) && LogOk(w, s) && s.reading.Some? && Baseline(w.q.order, SelectNow(w, s), rows)
    ensures
      var s' := Rebase(w, s, rows);
      Agrees(w, s.h, s'.client) && Admits(w, s.h, s'.client, s'.window.rangeStart, s'.window.rangeEnd)
  {
    var view, ends, at := SelectNow(w, s), EndsOf(w.q.order, rows), At(s.(since := s.reading.value));
    hide SelectNow, ListingNow, Baseline, EndsOf, Restrict, Fresh, Agrees, Admits, IsListing, Increasing, AllStored;
    ListingNowIs(w, s);
    PositionSplits(s.log, s.off, s.reading.value);
    hide Sound;
    RestrictHoldsEnds(w.q.order, view, rows);
    hide PartOf, Position;
    assert at <= |s.h|;
    RebasedIs(w, s, rows);
    hide Rebase, At;
    FreshAgrees(w, s.h, Restrict(view, rows), at, |s.h|);
  }

  lemma RebasedIs(w: World, s: Http, rows: seq<Entry>)
    requires s.reading.Some?
    ensures Rebase(w, s, rows).client ==
      Fresh(w, s.h, Restrict(SelectNow(w, s), rows), At(s.(since := s.reading.value)), |s.h|)
    ensures Rebase(w, s, rows).window == EndsOf(w.q.order, rows)
  {
    hide Fresh, Restrict, SelectNow, EndsOf, Position;
  }

  lemma RebasedWindow(w: World, s: Http, rows: seq<Entry>)
    requires Sound(w, s) && s.reading.Some? && Baseline(w.q.order, SelectNow(w, s), rows)
    ensures
      var s' := Rebase(w, s, rows);
      Proper(s'.window) && EdgeOk(w.q.order, s'.window, s'.edge, s'.client.past)
  {
    var view := SelectNow(w, s);
    hide SelectNow, ListingNow, ViewAt, Fresh, IsListing, Restrict;
    ListingNowIs(w, s);
    FreshPast(w, s, view, rows);
    hide Sound, Rebase;
    EndsAreProper(w.q.order, rows);
    RebaseWindowIs(w, s, rows);
    hide EndsOf, Proper, Sorted;
  }

  lemma RebaseWindowIs(w: World, s: Http, rows: seq<Entry>)
    requires s.reading.Some?
    ensures
      var s' := Rebase(w, s, rows);
      s'.window == EndsOf(w.q.order, rows) && s'.edge == Trailing(w.q.order, s'.window)
    ensures EndsOf(w.q.order, rows) == Pull.Window(None, None) || rows != []
  {
    hide Fresh, SelectNow, Restrict;
  }

  lemma RestrictHoldsEnds(order: Order, view: View, rows: seq<Entry>)
    requires Baseline(order, view, rows)
    ensures PartOf(Restrict(view, rows), view)
    ensures
      var ends := EndsOf(order, rows);
      && (ends.rangeStart.Some? ==> ends.rangeStart.value in Restrict(view, rows))
      && (ends.rangeEnd.Some? ==> ends.rangeEnd.value in Restrict(view, rows))
  {
    if rows != [] {
      assert rows[0] in rows && rows[|rows| - 1] in rows;
    }
  }

  lemma RebaseKeepsInv(w: World, s: Http, rows: seq<Entry>)
    requires Inv(w, s) && s.reading.Some? && Baseline(w.q.order, SelectNow(w, s), rows)
    ensures Inv(w, Rebase(w, s, rows))
  {
    hide Agrees, LimitOk, Baseline, Fresh, WfWorld;
    PositionSplits(s.log, s.off, s.reading.value);
    RebaseAgrees(w, s, rows);
  }

  lemma ViewIsKeyed(w: World, h: History, c: Client)
    requires WfWorld(w, h) && Agrees(w, h, c)
    ensures Keyed(w.kind, c.view)
  {
    forall pk | pk in c.view ensures IsPkComparable(pk) && OfKind(w.kind, pk) {
      assert AgreesAt(w, h, c, pk);
      var i :| c.seen <= i <= c.reach && Look(c.view, pk) == Look(ViewAt(w, h, i), pk);
      TablesAreWf(w, h, i);
      assert pk in TableAt(w, h, i);
    }
  }

  lemma LoadedRowsAre(w: World, s: Http, cursor: Value)
    requires Sound(w, s)
    ensures
      var view, rows := SelectNow(w, s), LoadedRows(w, s, cursor);
      && Sorted(w.q.order, rows) && AllComparable(rows)
      && (forall e :: e in rows ==> e.pk in view && view[e.pk] == e.row && Before(w.q.order, cursor, e.pk))
      && (rows != [] ==> forall pk :: pk in view && Entry(pk, view[pk]) !in rows && Before(w.q.order, cursor, pk) ==>
            Before(w.q.order, rows[|rows| - 1].pk, pk))
  {
    hide SelectNow, ListingNow;
    ListingNowIs(w, s);
    hide Sound;
    PageOfListing(w.q.order, w.kind, SelectNow(w, s), ListingNow(w, s), cursor, w.q.limit);
    hide IsListing, Sorted, AllComparable, Cut, After;
  }

  lemma PageOfListing(order: Order, kind: PkKind, view: View, listing: seq<Entry>, cursor: Value, limit: Option<nat>)
    requires IsListing(order, kind, view, listing)
    ensures
      var rows := Cut(After(order, listing, cursor), limit).0;
      && Sorted(order, rows) && AllComparable(rows)
      && (forall e :: e in rows ==> e.pk in view && view[e.pk] == e.row && Before(order, cursor, e.pk))
      && (rows != [] ==> forall pk :: pk in view && Entry(pk, view[pk]) !in rows && Before(order, cursor, pk) ==>
            Before(order, rows[|rows| - 1].pk, pk))
  {
    hide After;
    PageIsSorted(order, listing, cursor, limit);
    AfterHolds(order, listing, cursor);
    var rest := After(order, listing, cursor);
    var rows := Cut(rest, limit).0;
    assert forall e :: e in rows ==> e in rest;
    forall pk | pk in view && Entry(pk, view[pk]) !in rows && Before(order, cursor, pk) && rows != []
      ensures Before(order, rows[|rows| - 1].pk, pk)
    {
      CutLeavesTail(order, rest, limit, Entry(pk, view[pk]));
    }
  }

  /** The cursor is a row the gate has seen. */
  lemma CursorIsSeen(w: World, s: Http)
    requires Inv(w, s) && w.q.limit.Some? && NextCursor(w, s).Some?
    ensures Seen(w, s.h, Front(s.client), NextCursor(w, s).value)
    ensures IsPkComparable(NextCursor(w, s).value) && OfKind(w.kind, NextCursor(w, s).value)
  {
    ViewIsKeyed(w, s.h, s.client);
    var cursor := NextCursor(w, s).value;
    var j :| 0 <= j <= Front(s.client) && j <= |s.h| && cursor in TableAt(w, s.h, j);
    TablesAreWf(w, s.h, j);
  }

  lemma EdgeAfterLoad(w: World, s: Http)
    requires Inv(w, s) && Enabled(w, s, LoadMore) && w.q.limit.Some?
    requires s.edge.Some? && !Before(w.q.order, s.edge.value, NextCursor(w, s).value)
    ensures
      var s' := Perform(w, s, LoadMore);
      EdgeOk(w.q.order, s'.window, s'.edge, s'.client.past)
  {
    CursorIsSeen(w, s);
    InvGives(w, s);
    LoadMoreIs(w, s);
    hide *;
    EdgeMoves(w, s, NextCursor(w, s).value);
  }

  lemma LoadMoreIs(w: World, s: Http)
    requires Sound(w, s) && Enabled(w, s, LoadMore)
    ensures NextCursor(w, s).Some? && Perform(w, s, LoadMore) == MoreLoaded(w, s, NextCursor(w, s).value)
  {
    hide MoreLoaded, NextCursor, Sound;
  }

  lemma InvGives(w: World, s: Http)
    requires Inv(w, s)
    ensures Sound(w, s) && LogOk(w, s) && Agrees(w, s.h, s.client) && (w.q.limit.Some? ==> LimitOk(w, s))
    ensures s.tokenEpoch == s.epoch ==> TokenOk(w, s)
  {
    hide Sound, LogOk, Agrees, LimitOk, TokenOk;
  }

  lemma EdgeMoves(w: World, s: Http, cursor: Value)
    requires Sound(w, s) && LimitOk(w, s) && IsPkComparable(cursor) && OfKind(w.kind, cursor)
    requires s.edge.Some? && !Before(w.q.order, s.edge.value, cursor)
    ensures
      var s' := MoreLoaded(w, s, cursor);
      EdgeOk(w.q.order, s'.window, s'.edge, s'.client.past)
  {
    var order, view, rows := w.q.order, SelectNow(w, s), LoadedRows(w, s, cursor);
    var s' := MoreLoaded(w, s, cursor);
    hide ListingNow, SelectNow, Admits, LoadMoreAnswer, After, Cut, IsListing, Sorted, AllComparable, ViewAt;
    ListingNowIs(w, s);
    LoadedRowsAre(w, s, cursor);
    MovedEnd(w, s, cursor);
    EdgeIsOfKind(w, s);
    StillBehind(w, s, cursor);
    hide Sound, LoadedRows, MoreLoaded;
    BeyondLoaded(order, w.kind, s.edge.value, cursor, view, rows, s'.client.past, s'.edge);
  }

  lemma MovedEnd(w: World, s: Http, cursor: Value)
    requires Sound(w, s) && Proper(s.window) && s.edge.Some? && Trailing(w.q.order, s.window) == s.edge
    requires !Before(w.q.order, s.edge.value, cursor)
    ensures
      var s', rows := MoreLoaded(w, s, cursor), LoadedRows(w, s, cursor);
      && Trailing(w.q.order, s'.window) == s'.edge
      && (s'.edge == s.edge || (rows != [] && s'.edge == Some(rows[|rows| - 1].pk)))
  {
    hide ListingNow, SelectNow, After, Cut, LoadMoreAnswer;
    ListingNowIs(w, s);
    hide Sound;
    LoadedWindow(w.q.order, ListingNow(w, s), s.window, cursor, w.q.limit);
  }

  lemma StillBehind(w: World, s: Http, cursor: Value)
    requires Sound(w, s) && SelectNow(w, s) == ViewAt(w, s.h, |s.h|)
    ensures
      var view, rows := SelectNow(w, s), LoadedRows(w, s, cursor);
      forall pk :: pk in MoreLoaded(w, s, cursor).client.past ==>
        pk in s.client.past && pk in view && Entry(pk, view[pk]) !in rows
  {
    hide LoadedRows, SelectNow, ListingNow, LoadMoreAnswer, ViewAt;
  }

  lemma EdgeIsOfKind(w: World, s: Http)
    requires Sound(w, s) && LimitOk(w, s) && s.edge.Some?
    ensures IsPkComparable(s.edge.value) && OfKind(w.kind, s.edge.value)
  {
    var edge := s.edge.value;
    assert Seen(w, s.h, Front(s.client), edge);
    var j :| 0 <= j <= Front(s.client) && j <= |s.h| && edge in TableAt(w, s.h, j);
    TablesAreWf(w, s.h, j);
  }

  /** What a load-more behind a cursor at or before the edge still leaves out lies beyond its rows. */
  lemma BeyondLoaded(order: Order, kind: PkKind, edge: Value, cursor: Value, view: View, rows: seq<Entry>,
      past: iset<Value>, trailing: Option<Value>)
    requires IsPkComparable(edge) && IsPkComparable(cursor) && OfKind(kind, edge) && OfKind(kind, cursor)
    requires !Before(order, edge, cursor)
    requires forall pk :: pk in past ==> Before(order, edge, pk) && pk in view && Entry(pk, view[pk]) !in rows
    requires rows != [] ==> forall pk :: pk in view && Entry(pk, view[pk]) !in rows && Before(order, cursor, pk) ==>
      Before(order, rows[|rows| - 1].pk, pk)
    requires trailing == Some(edge) || (rows != [] && trailing == Some(rows[|rows| - 1].pk))
    ensures forall pk :: pk in past ==> Before(order, trailing.value, pk)
  {
    forall pk | pk in past ensures Before(order, trailing.value, pk) {
      BeforeIsStrictOrder(order, cursor, edge, pk);
    }
  }

  lemma LoadMoreAdmits(w: World, s: Http)
    requires Inv(w, s) && Enabled(w, s, LoadMore) && w.q.limit.Some?
    ensures
      var s' := Perform(w, s, LoadMore);
      Admits(w, s'.h, s'.client, s'.window.rangeStart, s'.window.rangeEnd) && Proper(s'.window)
  {
    CursorIsSeen(w, s);
    InvGives(w, s);
    LoadMoreIs(w, s);
    hide Inv, Sound, MoreLoaded, Perform, Enabled, NextCursor, Seen, Admits, Agrees, EdgeOk;
    MoreAdmits(w, s, NextCursor(w, s).value);
  }

  lemma MoreAdmits(w: World, s: Http, cursor: Value)
    requires Sound(w, s) && w.q.limit.Some? && Agrees(w, s.h, s.client)
    requires Admits(w, s.h, s.client, s.window.rangeStart, s.window.rangeEnd) && Proper(s.window)
    requires Seen(w, s.h, Front(s.client), cursor)
    ensures
      var s' := MoreLoaded(w, s, cursor);
      Admits(w, s.h, s'.client, s'.window.rangeStart, s'.window.rangeEnd) && Proper(s'.window)
  {
    LoadedRowsAreSeen(w, s, cursor);
    LoadedBounds(w, s, cursor);
    hide Seen, Admits, Agrees, SelectNow, ListingNow, LoadedRows, Sound, Restrict, HttpPull.BoundsFrom, Proper;
    var s' := MoreLoaded(w, s, cursor);
    HttpPull.BoundsAdmit(w, s.h, s'.client, s.window, s'.window, Front(s.client));
  }

  lemma LoadedBounds(w: World, s: Http, cursor: Value)
    requires Sound(w, s) && Proper(s.window)
    requires
      var rows := LoadedRows(w, s, cursor);
      rows != [] ==> Seen(w, s.h, Front(s.client), rows[0].pk) && Seen(w, s.h, Front(s.client), rows[|rows| - 1].pk)
    ensures
      var window := MoreLoaded(w, s, cursor).window;
      Proper(window) && HttpPull.BoundsFrom(w, s.h, s.window, window, Front(s.client))
  {
    ListingNowIs(w, s);
    var order, listing, limit := w.q.order, ListingNow(w, s), w.q.limit;
    LoadedWindow(order, listing, s.window, cursor, limit);
    var window := LoadMoreAnswer(order, listing, s.window, cursor, limit).window;
    assert MoreLoaded(w, s, cursor).window == window &&
      LoadedRows(w, s, cursor) == Cut(After(order, listing, cursor), limit).0;
    hide *;
    EndsAreFrom(w, s.h, Front(s.client), s.window, window, Cut(After(order, listing, cursor), limit).0);
  }

  lemma EndsAreFrom(w: World, h: History, m: nat, window: Pull.Window, window': Pull.Window, rows: seq<Entry>)
    requires rows != [] ==> Seen(w, h, m, rows[0].pk) && Seen(w, h, m, rows[|rows| - 1].pk)
    requires Leading(w.q.order, window') == Leading(w.q.order, window) ||
             (rows != [] && Leading(w.q.order, window') == Some(rows[0].pk))
    requires Trailing(w.q.order, window') == Trailing(w.q.order, window) ||
             (rows != [] && Trailing(w.q.order, window') == Some(rows[|rows| - 1].pk))
    ensures HttpPull.BoundsFrom(w, h, window, window', m)
  {
    hide Seen;
  }

  lemma LoadedRowsAreSeen(w: World, s: Http, cursor: Value)
    requires Sound(w, s) && w.q.limit.Some? && Agrees(w, s.h, s.client)
    requires Admits(w, s.h, s.client, s.window.rangeStart, s.window.rangeEnd)
    requires Seen(w, s.h, Front(s.client), cursor)
    ensures
      var rows := LoadedRows(w, s, cursor);
      && (rows != [] ==>
            Seen(w, s.h, Front(s.client), rows[0].pk) && Seen(w, s.h, Front(s.client), rows[|rows| - 1].pk))
      && Admits(w, s.h, Loaded(w, s.h, s.client, Restrict(SelectNow(w, s), rows)), s.window.rangeStart,
        s.window.rangeEnd)
  {
    var view, rows := SelectNow(w, s), LoadedRows(w, s, cursor);
    ListingNowIs(w, s);
    LoadedRowsAre(w, s, cursor);
    RestrictKeeps(w.q.order, cursor, view, rows);
    hide *;
    LoadedAdmits(w, s.h, s.client, Restrict(view, rows), cursor, s.window.rangeStart, s.window.rangeEnd);
  }

  lemma RestrictKeeps(order: Order, cursor: Value, view: View, rows: seq<Entry>)
    requires forall e :: e in rows ==> e.pk in view && view[e.pk] == e.row && Before(order, cursor, e.pk)
    ensures
      var loaded := Restrict(view, rows);
      && PartOf(loaded, view) && (forall pk :: pk in loaded ==> Before(order, cursor, pk))
      && (rows != [] ==> rows[0].pk in loaded && rows[|rows| - 1].pk in loaded)
  {
    if rows != [] {
      assert rows[0] in rows && rows[|rows| - 1] in rows;
    }
  }

  lemma LoadMoreAgrees(w: World, s: Http)
    requires Inv(w, s) && Enabled(w, s, LoadMore)
    ensures Agrees(w, s.h, Perform(w, s, LoadMore).client)
  {
    InvGives(w, s);
    LoadMoreIs(w, s);
    ListingNowIs(w, s);
    var cursor, view := NextCursor(w, s).value, SelectNow(w, s);
    LoadedRowsAre(w, s, cursor);
    var rows := LoadedRows(w, s, cursor);
    RestrictKeeps(w.q.order, cursor, view, rows);
    assert MoreLoaded(w, s, cursor).client == Loaded(w, s.h, s.client, Restrict(view, rows));
    hide *;
    LoadedAgrees(w, s.h, s.client, Restrict(view, rows));
  }

  lemma LoadMoreKeepsInv(w: World, s: Http)
    requires Inv(w, s) && Enabled(w, s, LoadMore)
    ensures Inv(w, Perform(w, s, LoadMore))
  {
    var s' := Perform(w, s, LoadMore);
    InvGives(w, s);
    LoadMoreAgrees(w, s);
    if w.q.limit.Some? {
      LoadMoreAdmits(w, s);
      if s'.edge.Some? { EdgeAfterLoad(w, s); }
    }
    LoadMoreIs(w, s);
    hide Perform, Enabled, NextCursor, Sound, Restrict, LoadMoreAnswer, LoadedRows, EdgeOk, Admits, Agrees, LogOk,
        Proper;
    assert w.q.limit.Some? ==> LimitOk(w, s');
    assert SameServer(s, s') && s'.since == s.since && s'.client.seen == s.client.seen;
    hide LimitOk, MoreLoaded;
    MovedClientKeepsInv(w, s, s');
  }

  /** The parts a load-more does not touch. */
  ghost predicate SameServer(s: Http, s': Http) {
    s'.h == s.h && s'.logged == s.logged && s'.base == s.base && s'.log == s.log && s'.off == s.off &&
    s'.epoch == s.epoch && s'.used == s.used && s'.tokenEpoch == s.tokenEpoch && s'.reading == s.reading
  }

  lemma MovedClientKeepsInv(w: World, s: Http, s': Http)
    requires Inv(w, s) && SameServer(s, s') && s'.since == s.since && s'.client.seen == s.client.seen
    requires Agrees(w, s.h, s'.client) && (w.q.limit.Some? ==> LimitOk(w, s'))
    ensures Inv(w, s')
  {
    hide Agrees, LimitOk, Visible, WfWorld, Monotone, AllStored, Increasing, Pull.LatestSnapshot;
  }

  lemma FreshPast(w: World, s: Http, view: View, rows: seq<Entry>)
    requires s.reading.Some? && view == SelectNow(w, s) == ViewAt(w, s.h, |s.h|)
    ensures
      var past := Rebase(w, s, rows).client.past;
      forall pk :: pk in past <==> pk in view && Entry(pk, view[pk]) !in rows
  {
    hide SelectNow, ViewAt, EndsOf;
  }

  lemma ListedExactly(order: Order, kind: PkKind, view: View, part: View, rows: seq<Entry>)
    requires IsListing(order, kind, part, rows) && PartOf(part, view)
    ensures forall pk :: pk in view ==> (Entry(pk, view[pk]) in rows <==> pk in part)
  {
    forall pk | pk in view ensures Entry(pk, view[pk]) in rows <==> pk in part {
      assert pk in part ==> Entry(pk, part[pk]) in rows;
    }
  }
}
