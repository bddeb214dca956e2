/** What an incremental pull, and the server behind it, do to the invariant of the pull protocol. */
module HttpPull {
  import opened Values
  import opened MergeCore
  import opened Queries
  import opened Wal
  import opened Replay
  import opened Limited
  import opened Events
  import opened Pull
  import opened Paging
  import opened HttpMachine

  lemma {:induction false} InvisibleIsSilent(w: World, gate: Gate, view: View, es: seq<Pending>)
    requires w.lens.Wire? && forall i :: 0 <= i < |es| ==> !Visible(w.q, es[i])
    ensures GatedRefreshAll(w, gate, view, es) == view
  {
    if es != [] {
      InvisibleIsSilent(w, gate, view, es[..|es| - 1]);
    }
  }

  /** The event a limited query's client is sent. */
  function GatedEvent(q: Query, gate: Gate, e: Pending): Option<Event> {
    if Takes(gate, e) then ScopedEvent(Wire, q, e) else None
  }

  lemma RowIsScoped(w: World, s: Http, gate: Gate, i: nat)
    requires Sound(w, s) && LogOk(w, s) && s.off <= i < |s.log|
    ensures
      RowScoped(w.q, gate, s.log[i], s.h[s.base + i - s.off]) && KeyedEvent(w.q, s.h[s.base + i - s.off])
  {
    hide Stored, RowScoped, KeyedEvent, WfTable, WfPendings, WfPending, TableAt, Increasing, Monotone;
    var k := s.base + i - s.off;
    assert StoredAt(w.q.pkKey, s.h, s.base, s.off, s.log, i);
    assert s.log[i] == Stored(w.q.pkKey, s.log[i].snapshot, s.h[k]);
    EventIsWf(w, s.h, k);
    assert WfQuery(w.q) && NoReservedColumns(w.q);
    hide *;
    StoredIsScoped(w, TableAt(w, s.h, k), gate, s.log[i].snapshot, s.h[k]);
  }

  lemma StoredIsScoped(w: World, t: Table, gate: Gate, snapshot: nat, e: Pending)
    requires WfQuery(w.q) && NoReservedColumns(w.q) && WfTable(w.q, w.kind, t) && WfPending(w.q, w.kind, t, e)
    ensures RowScoped(w.q, gate, Stored(w.q.pkKey, snapshot, e), e) && KeyedEvent(w.q, e)
  {
    PulledEventIsScoped(w.q, w.kind, t, gate, snapshot, e);
    PendingIsKeyed(w.q, w.kind, t, e);
    hide Picked, WireEvent, ScopedEvent, Stored, WfQuery, WfTable, WfPending;
  }

  function One(event: Option<Event>): seq<Event> {
    if event.Some? then [event.value] else []
  }

  /** The events of a stretch of history that the gate lets through and the query can see, as the wire
      carries them. */
  function GatedAll(q: Query, gate: Gate, es: seq<Pending>): seq<Event> {
    if es == [] then []
    else GatedAll(q, gate, es[..|es| - 1]) + One(GatedEvent(q, gate, es[|es| - 1]))
  }

  /** A stored row is picked and wired as its event is scoped. */
  ghost predicate RowScoped(q: Query, gate: Gate, er: EventRow, e: Pending) {
    (if Picked(q, er) then WireEvent(q, gate, er) else None) == GatedEvent(q, gate, e)
  }

  lemma WiredSnoc(q: Query, gate: Gate, since: nat, log: seq<EventRow>, er: EventRow, e: Pending)
    requires RowScoped(q, gate, er, e)
    ensures Wired(q, gate, PickedSince(q, since, log + [er])) ==
      Wired(q, gate, PickedSince(q, since, log)) +
      if er.snapshot > since then One(GatedEvent(q, gate, e)) else []
  {
    assert (log + [er])[..|log|] == log;
    var init := PickedSince(q, since, log);
    assert (init + [er])[..|init|] == init;
    assert init + [] == init && Wired(q, gate, init) + [] == Wired(q, gate, init);
  }

  lemma GatedAllSnoc(q: Query, gate: Gate, es: seq<Pending>, e: Pending)
    ensures GatedAll(q, gate, es + [e]) == GatedAll(q, gate, es) + One(GatedEvent(q, gate, e))
  {
    hide GatedEvent, One;
    assert (es + [e])[..|es|] == es;
  }

  lemma GatedAllStep(q: Query, gate: Gate, h: History, at: nat, i: nat)
    requires at <= i < |h|
    ensures GatedAll(q, gate, h[at..i + 1]) == GatedAll(q, gate, h[at..i]) + One(GatedEvent(q, gate, h[i]))
  {
    hide *;
    assert h[at..i + 1] == h[at..i] + [h[i]];
    GatedAllSnoc(q, gate, h[at..i], h[i]);
  }

  /** Row `k` is the stored form of its event, and behind the cursor exactly when that event is behind
      the cursor's position. */
  ghost predicate RowOk(q: Query, gate: Gate, h: History, base: nat, off: nat, since: nat, at: nat,
      log: seq<EventRow>, k: nat)
    requires off <= k < |log| && base + k - off < |h|
  {
    (log[k].snapshot <= since <==> base + k - off < at) && RowScoped(q, gate, log[k], h[base + k - off])
  }

  /** The events of an incremental answer are exactly the visible events of the history past the
      cursor's position, in order. */
  lemma {:induction false} PulledAreGated(q: Query, gate: Gate, h: History, base: nat, off: nat, since: nat, at: nat,
      log: seq<EventRow>)
    requires off <= |log| && base + |log| - off <= |h| && base <= at
    requires forall k :: 0 <= k < off ==> log[k].snapshot <= since
    requires forall k :: off <= k < |log| ==> RowOk(q, gate, h, base, off, since, at, log, k)
    ensures Wired(q, gate, PickedSince(q, since, log)) == GatedFrom(q, gate, h, at, base + |log| - off)
    decreases |log|, 1
  {
    if |log| == off {
      hide RowOk, Picked, GatedAll, Wired;
      MarkerBehind(q, since, log);
      assert Wired(q, gate, []) == [] by { WiredNone(q, gate); }
    } else {
      PulledAreGatedStep(q, gate, h, base, off, since, at, log);
    }
  }

  lemma WiredNone(q: Query, gate: Gate)
    ensures Wired(q, gate, []) == []
  {
  }

  lemma PulledAreGatedStep(q: Query, gate: Gate, h: History, base: nat, off: nat, since: nat, at: nat,
      log: seq<EventRow>)
    requires off < |log| && base + |log| - off <= |h| && base <= at
    requires forall k :: 0 <= k < off ==> log[k].snapshot <= since
    requires forall k :: off <= k < |log| ==> RowOk(q, gate, h, base, off, since, at, log, k)
    ensures Wired(q, gate, PickedSince(q, since, log)) == GatedFrom(q, gate, h, at, base + |log| - off)
    decreases |log|, 0
  {
    hide RowScoped, Wired, PickedSince, GatedAll;
    var n := |log| - 1;
    assert RowOk(q, gate, h, base, off, since, at, log, n);
    assert log == log[..n] + [log[n]];
    EarlierRowsOk(q, gate, h, base, off, since, at, log);
    assert RowScoped(q, gate, log[n], h[base + n - off]) && (log[n].snapshot <= since <==> base + n - off < at);
    hide *;
    PulledAreGated(q, gate, h, base, off, since, at, log[..n]);
    WiredSnoc(q, gate, since, log[..n], log[n], h[base + n - off]);
    GatedFromStep(q, gate, h, at, base + n - off);
  }

  lemma EarlierRowsOk(q: Query, gate: Gate, h: History, base: nat, off: nat, since: nat, at: nat, log: seq<EventRow>)
    requires off < |log| && base + |log| - off <= |h|
    requires forall k :: off <= k < |log| ==> RowOk(q, gate, h, base, off, since, at, log, k)
    ensures
      var init := log[..|log| - 1];
      forall k :: off <= k < |init| ==> RowOk(q, gate, h, base, off, since, at, init, k)
  {
    hide RowScoped;
    var init := log[..|log| - 1];
    forall k | off <= k < |init| ensures RowOk(q, gate, h, base, off, since, at, init, k) {
      assert RowOk(q, gate, h, base, off, since, at, log, k);
    }
  }

  function GatedFrom(q: Query, gate: Gate, h: History, at: nat, upto: nat): seq<Event>
    requires upto <= |h|
  {
    if upto <= at then [] else GatedAll(q, gate, h[at..upto])
  }

  lemma GatedFromStep(q: Query, gate: Gate, h: History, at: nat, i: nat)
    requires i < |h|
    ensures GatedFrom(q, gate, h, at, i + 1) ==
      GatedFrom(q, gate, h, at, i) + if i >= at then One(GatedEvent(q, gate, h[i])) else []
  {
    if i >= at {
      GatedAllStep(q, gate, h, at, i);
      assert i == at ==> h[at..i] == [];
    }
  }

  ghost predicate KeyedEvent(q: Query, e: Pending) {
    IsPkComparable(e.pk) && (!e.PendingDelete? ==> Field(e.row, q.pkKey) == e.pk)
  }

  /** Merging those events refreshes the view by the whole stretch. */
  lemma {:induction false} GatedFold(w: World, gate: Gate, view: View, es: seq<Pending>)
    requires w.lens.Wire? && gate.Ranged?
    requires forall i :: 0 <= i < |es| ==> KeyedEvent(w.q, es[i])
    ensures Fold(gate, view, GatedAll(w.q, gate, es)) == GatedRefreshAll(w, gate, view, es)
  {
    if es != [] {
      var n := |es| - 1;
      GatedFold(w, gate, view, es[..n]);
      var before, event := GatedAll(w.q, gate, es[..n]), GatedEvent(w.q, gate, es[n]);
      GatedEventRefreshes(w, gate, Fold(gate, view, before), es[n]);
      hide GatedEvent, GatedRefresh, Step, KeyedEvent;
      if event.Some? {
        FoldSnoc(gate, view, before, event.value);
      } else {
        assert before + [] == before;
      }
    }
  }

  lemma GatedEventRefreshes(w: World, gate: Gate, view: View, e: Pending)
    requires w.lens.Wire? && gate.Ranged? && KeyedEvent(w.q, e)
    ensures
      var event := GatedEvent(w.q, gate, e);
      GatedRefresh(w, gate, view, e) == if event.None? then view else Step(gate, view, event.value)
  {
    if Takes(gate, e) {
      WireEventRefreshes(w.q, view, gate, e);
    }
  }

  /** An insert was let through, and its row is in the history. */
  ghost predicate InsertOk(w: World, gate: Gate, h: History, upto: nat, e: Event) {
    e.Insert? ==> Accepts(gate, e.pk) && Seen(w, h, upto, e.pk)
  }

  ghost predicate AllInsertsOk(w: World, gate: Gate, h: History, upto: nat, events: seq<Event>) {
    forall e :: e in events ==> InsertOk(w, gate, h, upto, e)
  }

  lemma {:induction false} GatedInserts(w: World, gate: Gate, h: History, at: nat, upto: nat)
    requires at <= upto <= |h|
    ensures AllInsertsOk(w, gate, h, upto, GatedAll(w.q, gate, h[at..upto]))
    decreases upto, 1
  {
    if at == upto {
      NothingGated(w.q, gate, h, at);
      hide GatedAll;
    } else {
      GatedInsertsStep(w, gate, h, at, upto);
    }
  }

  lemma GatedInsertsStep(w: World, gate: Gate, h: History, at: nat, upto: nat)
    requires at < upto <= |h|
    ensures AllInsertsOk(w, gate, h, upto, GatedAll(w.q, gate, h[at..upto]))
    decreases upto, 0
  {
    hide *;
    GatedInserts(w, gate, h, at, upto - 1);
    GatedInsert(w, gate, h, upto - 1);
    GatedAllStep(w.q, gate, h, at, upto - 1);
    InsertsStayOk(w, gate, h, upto - 1, GatedAll(w.q, gate, h[at..upto - 1]), GatedEvent(w.q, gate, h[upto - 1]));
  }

  lemma InsertsStayOk(w: World, gate: Gate, h: History, upto: nat, events: seq<Event>, event: Option<Event>)
    requires AllInsertsOk(w, gate, h, upto, events)
    requires event.Some? ==> InsertOk(w, gate, h, upto + 1, event.value)
    ensures AllInsertsOk(w, gate, h, upto + 1, events + One(event))
  {
    forall e | e in events ensures InsertOk(w, gate, h, upto + 1, e) {
      assert InsertOk(w, gate, h, upto, e);
      if e.Insert? { SeenLater(w, h, upto, upto + 1, e.pk); }
    }
    hide InsertOk;
  }

  lemma GatedInsert(w: World, gate: Gate, h: History, i: nat)
    requires i < |h|
    ensures
      var e := GatedEvent(w.q, gate, h[i]);
      e.Some? ==> InsertOk(w, gate, h, i + 1, e.value)
  {
    TableAtStep(w, h, i);
    assert h[i].PendingInsert? ==> h[i].pk in TableAt(w, h, i + 1);
  }

  lemma {:induction false} MarkerBehind(q: Query, since: nat, log: seq<EventRow>)
    requires forall i :: 0 <= i < |log| ==> log[i].snapshot <= since
    ensures PickedSince(q, since, log) == []
  {
    if log != [] { MarkerBehind(q, since, log[..|log| - 1]); }
  }

  /** A pull that answers with events has the marker behind its cursor. */
  lemma DeltaHasNoMarker(w: World, s: Http, cap: nat)
    requires LogOk(w, s) && Incremental(w.q, s.window, s.since, s.log, cap).Delta?
    ensures forall i :: 0 <= i < s.off ==> s.log[i].snapshot <= s.since
  {
    if s.off == 1 {
      PickedAreLogged(w.q, s.since, s.log);
      LatestIsMax(s.log);
      assert s.log[0] in s.log;
    }
  }

  lemma DeltaIsPicked(q: Query, window: Window, since: nat, log: seq<EventRow>, cap: nat)
    requires Incremental(q, window, since, log, cap).Delta?
    ensures
      var r := Incremental(q, window, since, log, cap);
      && r.events == Wired(q, WindowGate(q, window.rangeStart, window.rangeEnd), PickedSince(q, since, log))
      && since <= r.next <= MaxNat(since, LatestSnapshot(log))
      && PickedSince(q, r.next, log) == []
  {
    NothingPastNext(q, since, log);
    PickedAreLogged(q, since, log);
    LatestIsMax(log);
    LatestIsMax(PickedSince(q, since, log));
  }

  lemma UnpickedIsInvisible(w: World, s: Http, next: nat, k: nat)
    requires Sound(w, s) && LogOk(w, s) && PickedSince(w.q, next, s.log) == []
    requires s.off <= k < |s.log| && s.log[k].snapshot > next
    ensures !Visible(w.q, s.h[s.base + k - s.off])
  {
    RowIsScoped(w, s, WindowGate(w.q, None, None), k);
    PickedAreLogged(w.q, next, s.log);
    assert s.log[k] in s.log;
  }

  /** What a cursor past every picked row has before it the query cannot see. */
  lemma RestIsInvisible(w: World, s: Http, next: nat)
    requires Sound(w, s) && LogOk(w, s) && PickedSince(w.q, next, s.log) == []
    ensures
      var at := s.base + Position(s.log, s.off, next);
      at <= s.logged && forall i :: at <= i < s.logged ==> !Visible(w.q, s.h[i])
  {
    hide Visible, Picked, WfWorld;
    PositionSplits(s.log, s.off, next);
    forall i | s.base + Position(s.log, s.off, next) <= i < s.logged ensures !Visible(w.q, s.h[i]) {
      UnpickedIsInvisible(w, s, next, s.off + i - s.base);
    }
  }

  lemma PullMovesToken(w: World, s: Http, cap: nat)
    requires Inv(w, s) && Enabled(w, s, PullIncrement(cap))
    ensures TokenOk(w, Perform(w, s, PullIncrement(cap)))
  {
    DeltaIsPicked(w.q, s.window, s.since, s.log, cap);
    RestIsInvisible(w, s, Incremental(w.q, s.window, s.since, s.log, cap).next);
  }

  lemma {:induction false} GatedSplits(w: World, gate: Gate, view: View, a: seq<Pending>, b: seq<Pending>)
    ensures GatedRefreshAll(w, gate, view, a + b) == GatedRefreshAll(w, gate, GatedRefreshAll(w, gate, view, a), b)
    decreases |b|
  {
    if b == [] {
      assert a + b == a;
    } else {
      GatedSplits(w, gate, view, a, b[..|b| - 1]);
      assert (a + b)[..|a + b| - 1] == a + b[..|b| - 1];
    }
  }

  lemma SkipInvisible(w: World, gate: Gate, view: View, h: History, a: nat, b: nat, c: nat)
    requires w.lens.Wire? && a <= b <= c <= |h| && forall i :: a <= i < b ==> !Visible(w.q, h[i])
    ensures GatedRefreshAll(w, gate, view, h[a..c]) == GatedRefreshAll(w, gate, view, h[b..c])
  {
    assert h[a..c] == h[a..b] + h[b..c];
    GatedSplits(w, gate, view, h[a..b], h[b..c]);
    InvisibleIsSilent(w, gate, view, h[a..b]);
  }

  ghost predicate MarkerBehindCursor(s: Http) {
    s.off <= |s.log| && forall i :: 0 <= i < s.off ==> s.log[i].snapshot <= s.since
  }

  /** The events a pull answers with are those of the history past the token's position. */
  lemma PulledEvents(w: World, s: Http, gate: Gate)
    requires Sound(w, s) && LogOk(w, s) && MarkerBehindCursor(s)
    ensures At(s) <= s.logged
    ensures Wired(w.q, gate, PickedSince(w.q, s.since, s.log)) == GatedAll(w.q, gate, s.h[At(s)..s.logged])
  {
    hide Position, AllStored, Increasing, Sound, GatedAll, Wired, PickedSince, RowOk;
    PositionSplits(s.log, s.off, s.since);
    RowsAreOk(w, s, gate);
    var at := At(s);
    assert s.base <= at <= s.logged == s.base + |s.log| - s.off;
    assert forall k :: 0 <= k < s.off ==> s.log[k].snapshot <= s.since;
    hide *;
    PulledAreGated(w.q, gate, s.h, s.base, s.off, s.since, at, s.log);
    NothingGated(w.q, gate, s.h, at);
  }

  lemma NothingGated(q: Query, gate: Gate, h: History, at: nat)
    requires at <= |h|
    ensures GatedAll(q, gate, h[at..at]) == []
  {
  }

  lemma RowsAreOk(w: World, s: Http, gate: Gate)
    requires Sound(w, s) && LogOk(w, s)
    ensures s.off <= |s.log| && s.base + |s.log| - s.off <= |s.h|
    ensures forall k :: s.off <= k < |s.log| ==> RowOk(w.q, gate, s.h, s.base, s.off, s.since, At(s), s.log, k)
  {
    hide RowScoped, KeyedEvent, Sound, AllStored;
    PositionSplits(s.log, s.off, s.since);
    forall k | s.off <= k < |s.log| ensures RowOk(w.q, gate, s.h, s.base, s.off, s.since, At(s), s.log, k) {
      RowIsScoped(w, s, gate, k);
    }
  }

  /** The client's view after a pull that answers with events. */
  lemma PulledView(w: World, s: Http, gate: Gate)
    requires Sound(w, s) && LogOk(w, s) && TokenOk(w, s) && gate.Ranged? && MarkerBehindCursor(s)
    ensures Fold(gate, s.client.view, Wired(w.q, gate, PickedSince(w.q, s.since, s.log)))
         == GatedRefreshAll(w, gate, s.client.view, s.h[s.client.seen..s.logged])
  {
    hide Visible, KeyedEvent, Wired, PickedSince;
    var at := At(s);
    PulledEvents(w, s, gate);
    StretchIsKeyed(w, s.h, at, s.logged);
    GatedFold(w, gate, s.client.view, s.h[at..s.logged]);
    SkipInvisible(w, gate, s.client.view, s.h, at, s.client.seen, s.logged);
  }

  lemma StretchIsKeyed(w: World, h: History, a: nat, b: nat)
    requires WfWorld(w, h) && a <= b <= |h|
    ensures forall i :: 0 <= i < b - a ==> KeyedEvent(w.q, h[a..b][i])
  {
    forall i | a <= i < b ensures KeyedEvent(w.q, h[i]) {
      EventIsWf(w, h, i);
      PendingIsKeyed(w.q, w.kind, TableAt(w, h, i), h[i]);
    }
  }

  /** A pull moves the client on to all that is logged, through its gate. */
  lemma PullConsumes(w: World, s: Http, cap: nat)
    requires Inv(w, s) && Enabled(w, s, PullIncrement(cap))
    ensures s.client.seen <= s.logged <= |s.h|
    ensures Perform(w, s, PullIncrement(cap)).client == ConsumeUpto(w, s.h, GateNow(w, s), s.client, s.logged)
  {
    hide Wired, PickedSince, GatedRefreshAll, Visible, StoredAt, WfTable, Agrees, LimitOk;
    DeltaIsPicked(w.q, s.window, s.since, s.log, cap);
    DeltaHasNoMarker(w, s, cap);
    PulledView(w, s, GateNow(w, s));
  }

  lemma PullKeepsAgreement(w: World, s: Http, cap: nat)
    requires Inv(w, s) && Enabled(w, s, PullIncrement(cap))
    ensures
      var s' := Perform(w, s, PullIncrement(cap));
      && Agrees(w, s'.h, s'.client)
      && (w.q.limit.Some? ==> Admits(w, s.h, s'.client, s.window.rangeStart, s.window.rangeEnd))
  {
    hide Agrees, Admits, ConsumeUpto, Wired, PickedSince;
    PullConsumes(w, s, cap);
    ConsumeAllAgrees(w, s.h, s.client, GateNow(w, s), s.logged);
  }

  /** The window after a pull: both ends known, the trailing one unmoved. */
  lemma PullMovesWindow(w: World, s: Http, cap: nat)
    requires Inv(w, s) && Enabled(w, s, PullIncrement(cap)) && w.q.limit.Some?
    ensures
      var s' := Perform(w, s, PullIncrement(cap));
      && Proper(s'.window)
      && (s.window.rangeStart.Some? ==> Trailing(w.q.order, s'.window) == Trailing(w.q.order, s.window))
      && BoundsFrom(w, s.h, s.window, s'.window, s.logged)
  {
    var events := Incremental(w.q, s.window, s.since, s.log, cap).events;
    PullInserts(w, s, cap);
    DeltaWidens(w.q, s.window, s.since, s.log, cap);
    hide Incremental, LogOk, Sound, Agrees, Admits;
    WidenFrom(w, s.h, s.window, events, s.logged);
    WidenAllStaysProper(s.window, events);
    if s.window.rangeStart.Some? { TrailingStays(w.q.order, s.window, events); }
  }

  lemma DeltaWidens(q: Query, window: Window, since: nat, log: seq<EventRow>, cap: nat)
    requires Incremental(q, window, since, log, cap).Delta?
    ensures
      var r := Incremental(q, window, since, log, cap);
      r.window == WidenAll(window, r.events)
  {
  }

  lemma PullInserts(w: World, s: Http, cap: nat)
    requires Inv(w, s) && Enabled(w, s, PullIncrement(cap))
    ensures
      var events := Incremental(w.q, s.window, s.since, s.log, cap).events;
      forall e :: e in events && e.Insert? ==> Accepts(GateNow(w, s), e.pk) && Seen(w, s.h, s.logged, e.pk)
  {
    hide Agrees, LimitOk, Accepts, Seen, AllInsertsOk, Incremental;
    var events := Incremental(w.q, s.window, s.since, s.log, cap).events;
    PulledInsertsOk(w, s, cap);
    InsertsAreOk(w, GateNow(w, s), s.h, s.logged, events);
  }

  lemma PulledInsertsOk(w: World, s: Http, cap: nat)
    requires Inv(w, s) && Enabled(w, s, PullIncrement(cap))
    ensures s.logged <= |s.h|
    ensures AllInsertsOk(w, GateNow(w, s), s.h, s.logged, Incremental(w.q, s.window, s.since, s.log, cap).events)
  {
    hide Wired, PickedSince, Agrees, LimitOk, Visible, GatedAll, AllInsertsOk, Incremental, TokenOk, AllStored,
        Increasing;
    DeltaIsPicked(w.q, s.window, s.since, s.log, cap);
    DeltaHasNoMarker(w, s, cap);
    assert s.logged <= |s.h|;
    PulledEvents(w, s, GateNow(w, s));
    hide *;
    GatedInserts(w, GateNow(w, s), s.h, At(s), s.logged);
  }

  lemma InsertsAreOk(w: World, gate: Gate, h: History, upto: nat, events: seq<Event>)
    requires AllInsertsOk(w, gate, h, upto, events)
    ensures forall e :: e in events && e.Insert? ==> Accepts(gate, e.pk) && Seen(w, h, upto, e.pk)
  {
    hide Accepts, Seen;
    forall e | e in events && e.Insert? ensures Accepts(gate, e.pk) && Seen(w, h, upto, e.pk) {
      assert InsertOk(w, gate, h, upto, e);
    }
  }

  ghost predicate BoundsFrom(w: World, h: History, window: Window, window': Window, m: nat) {
    && (window'.rangeStart == window.rangeStart ||
      (window'.rangeStart.Some? && Seen(w, h, m, window'.rangeStart.value)))
    && (window'.rangeEnd == window.rangeEnd || (window'.rangeEnd.Some? && Seen(w, h, m, window'.rangeEnd.value)))
  }

  lemma {:induction false} WidenFrom(w: World, h: History, window: Window, events: seq<Event>, m: nat)
    requires forall e :: e in events && e.Insert? ==> Seen(w, h, m, e.pk)
    ensures BoundsFrom(w, h, window, WidenAll(window, events), m)
  {
    hide Seen;
    if events != [] {
      var init, last := events[..|events| - 1], events[|events| - 1];
      assert last in events && forall e :: e in init ==> e in events;
      WidenFrom(w, h, window, init, m);
    }
  }

  lemma BoundsAdmit(w: World, h: History, c: Client, window: Window, window': Window, m: nat)
    requires Admits(w, h, c, window.rangeStart, window.rangeEnd) && BoundsFrom(w, h, window, window', m)
    requires m <= Front(c)
    ensures Admits(w, h, c, window'.rangeStart, window'.rangeEnd)
  {
    if window'.rangeStart != window.rangeStart { SeenLater(w, h, m, Front(c), window'.rangeStart.value); }
    if window'.rangeEnd != window.rangeEnd { SeenLater(w, h, m, Front(c), window'.rangeEnd.value); }
  }

  // ----- server actions -----

  lemma LogGrows(log: seq<EventRow>, er: EventRow)
    requires er.snapshot > LatestSnapshot(log)
    ensures forall i :: 0 <= i < |log| ==> log[i].snapshot < er.snapshot
    ensures LatestSnapshot(log + [er]) == er.snapshot
  {
    assert (log + [er])[..|log|] == log;
    LatestIsMax(log);
    forall i | 0 <= i < |log| ensures log[i].snapshot < er.snapshot {
      assert log[i] in log;
    }
  }

  lemma PositionStays(log: seq<EventRow>, er: EventRow, off: nat, since: nat)
    requires er.snapshot > since && off <= |log|
    ensures Position(log + [er], off, since) == Position(log, off, since)
  {
    assert (log + [er])[..|log|] == log;
  }

  lemma IngestKeepsInv(w: World, s: Http, snapshot: nat)
    requires Inv(w, s) && Enabled(w, s, Ingest(snapshot))
    ensures Inv(w, Perform(w, s, Ingest(snapshot)))
  {
    var er := Stored(w.q.pkKey, snapshot, s.h[s.logged]);
    LogGrows(s.log, er);
    IngestKeepsLog(w, s, snapshot);
    if s.tokenEpoch == s.epoch { PositionStays(s.log, er, s.off, s.since); }
  }

  lemma IngestKeepsLog(w: World, s: Http, snapshot: nat)
    requires Sound(w, s) && LogOk(w, s) && Enabled(w, s, Ingest(snapshot))
    ensures LogOk(w, Perform(w, s, Ingest(snapshot)))
  {
    hide Stored, AllStored, Sound, Increasing, LatestSnapshot;
    StoredGrows(w.q.pkKey, s.h, s.base, s.off, s.log, snapshot);
    StoredSnapshot(w.q.pkKey, snapshot, s.h[s.logged]);
    IncreasingGrows(s.log, Stored(w.q.pkKey, snapshot, s.h[s.logged]));
    assert Perform(w, s, Ingest(snapshot)) == Ingested(w.q.pkKey, s, snapshot);
  }

  lemma IncreasingGrows(log: seq<EventRow>, er: EventRow)
    requires Increasing(log) && er.snapshot > LatestSnapshot(log)
    ensures Increasing(log + [er])
  {
    LogGrows(log, er);
  }

  lemma StoredGrows(pkKey: string, h: History, base: nat, off: nat, log: seq<EventRow>, snapshot: nat)
    requires off <= |log| && base + |log| - off < |h| && AllStored(pkKey, h, base, off, log)
    ensures AllStored(pkKey, h, base, off, log + [Stored(pkKey, snapshot, h[base + |log| - off])])
  {
    hide Stored;
    var longer := log + [Stored(pkKey, snapshot, h[base + |log| - off])];
    StoredSnapshot(pkKey, snapshot, h[base + |log| - off]);
    forall i | off <= i < |longer| ensures StoredAt(pkKey, h, base, off, longer, i) {
      if i < |log| { assert StoredAt(pkKey, h, base, off, log, i); }
    }
  }

  lemma StoredSnapshot(pkKey: string, snapshot: nat, e: Pending)
    ensures Stored(pkKey, snapshot, e).snapshot == snapshot
  {
  }
}
