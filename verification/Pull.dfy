/** server/sdk.ts: the stateless pull. A cursor into the events table goes in, the events since then
    or the verdict that a reset is due come out. */
module Pull {
  import opened Values
  import opened MergeCore
  import opened Queries
  import opened Events

  /** The client's window, echoed on every request. */
  datatype Window = Window(rangeStart: Option<Value>, rangeEnd: Option<Value>)

  datatype Reason = StaleEpoch | Cap | Marker

  datatype Increment =
    | ResetDue(reason: Reason)
    | Delta(events: seq<Event>, window: Window, next: nat)

  // ----- the specification -----

  function LatestSnapshot(log: seq<EventRow>): nat {
    if log == [] then 0
    else MaxNat(LatestSnapshot(log[..|log| - 1]), log[|log| - 1].snapshot)
  }

  function MaxNat(a: nat, b: nat): nat { if a < b then b else a }

  /** The events query without its LIMIT. */
  function PickedSince(q: Query, since: nat, log: seq<EventRow>): seq<EventRow> {
    if log == [] then []
    else
      var last := log[|log| - 1];
      PickedSince(q, since, log[..|log| - 1]) + if last.snapshot > since && Picked(q, last) then [last] else []
  }

  function Wired(q: Query, gate: Gate, rows: seq<EventRow>): seq<Event> {
    if rows == [] then []
    else
      var event := WireEvent(q, gate, rows[|rows| - 1]);
      Wired(q, gate, rows[..|rows| - 1]) + if event.Some? then [event.value] else []
  }

  function Lower(bound: Option<Value>, pk: Value): Option<Value> {
    if bound.None? || PkLess(pk, bound.value) then Some(pk) else bound
  }

  function Raise(bound: Option<Value>, pk: Value): Option<Value> {
    if bound.None? || PkLess(bound.value, pk) then Some(pk) else bound
  }

  function Widen(window: Window, event: Event): Window {
    if event.Insert? && IsPkComparable(event.pk)
    then Window(Lower(window.rangeStart, event.pk), Raise(window.rangeEnd, event.pk))
    else window
  }

  function WidenAll(window: Window, events: seq<Event>): Window {
    if events == [] then window else Widen(WidenAll(window, events[..|events| - 1]), events[|events| - 1])
  }

  function Incremental(q: Query, window: Window, since: nat, log: seq<EventRow>, cap: nat): Increment {
    var picked := PickedSince(q, since, log);
    if since >= LatestSnapshot(log) then Delta([], window, since)
    else if |picked| > cap then ResetDue(Cap)
    else if exists er :: er in picked && er.op.OpSnapshot? then ResetDue(Marker)
    else
      var events := Wired(q, WindowGate(q, window.rangeStart, window.rangeEnd), picked);
      Delta(events, WidenAll(window, events), MaxNat(since, LatestSnapshot(picked)))
  }

  // ----- the handlers' loops -----

  ghost predicate WindowOfKind(kind: PkKind, window: Window) {
    RangeOfKind(kind, window.rangeStart) && RangeOfKind(kind, window.rangeEnd)
  }

  /** computeUpdatedRange. */
  method ComputeUpdatedRange(window: Window, events: seq<Event>, ghost kind: PkKind) returns (r: Window)
    requires WindowOfKind(kind, window) && forall i :: 0 <= i < |events| ==> OfKind(kind, events[i].pk)
    ensures r == WidenAll(window, events) && WindowOfKind(kind, r)
  {
    var nextStart, nextEnd := window.rangeStart, window.rangeEnd;
    for i := 0 to |events|
      invariant Window(nextStart, nextEnd) == WidenAll(window, events[..i])
      invariant RangeOfKind(kind, nextStart) && RangeOfKind(kind, nextEnd)
    {
      assert events[..i + 1][..i] == events[..i];
      var event := events[i];
      if !event.Insert? { continue; }
      if !IsPkComparable(event.pk) { continue; }
      if nextStart.None? || ComparePkValues(event.pk, nextStart.value) < 0 { nextStart := Some(event.pk); }
      if nextEnd.None? || ComparePkValues(event.pk, nextEnd.value) > 0 { nextEnd := Some(event.pk); }
    }
    assert events[..|events|] == events;
    r := Window(nextStart, nextEnd);
  }

  /** What widening means: the new window is the tightest one around the old window and the pks of
      the inserted rows. */
  lemma {:induction false} WidenedIsTightest(kind: PkKind, window: Window, events: seq<Event>)
    requires WindowOfKind(kind, window) && forall i :: 0 <= i < |events| ==> OfKind(kind, events[i].pk)
    ensures
      var r := WidenAll(window, events);
      && WindowOfKind(kind, r)
      && (forall i :: 0 <= i < |events| && events[i].Insert? && IsPkComparable(events[i].pk) ==>
            r.rangeStart.Some? && !PkLess(events[i].pk, r.rangeStart.value) &&
            r.rangeEnd.Some? && !PkLess(r.rangeEnd.value, events[i].pk))
      && (window.rangeStart.Some? ==> r.rangeStart.Some? && !PkLess(window.rangeStart.value, r.rangeStart.value))
      && (window.rangeEnd.Some? ==> r.rangeEnd.Some? && !PkLess(r.rangeEnd.value, window.rangeEnd.value))
      && (r.rangeStart != window.rangeStart ==> exists e :: e in events && e.Insert? && r.rangeStart == Some(e.pk))
      && (r.rangeEnd != window.rangeEnd ==> exists e :: e in events && e.Insert? && r.rangeEnd == Some(e.pk))
  {
    if window.rangeStart.Some? { PkLessTotal(window.rangeStart.value, window.rangeStart.value); }
    if window.rangeEnd.Some? { PkLessTotal(window.rangeEnd.value, window.rangeEnd.value); }
    if events != [] {
      var init, last := events[..|events| - 1], events[|events| - 1];
      WidenedIsTightest(kind, window, init);
      assert last in events && forall e :: e in init ==> e in events;
      PkLessTotal(last.pk, last.pk);
      var before := WidenAll(window, init);
      if last.Insert? && IsPkComparable(last.pk) {
        WidenStep(kind, window, before, init, last);
      }
      forall i | 0 <= i < |events| ensures events[i] == last || (i < |init| && events[i] == init[i]) {}
    }
  }

  lemma WidenStep(kind: PkKind, window: Window, before: Window, init: seq<Event>, last: Event)
    requires WindowOfKind(kind, before) && IsPkComparable(last.pk) && OfKind(kind, last.pk) && last.Insert?
    requires forall i :: 0 <= i < |init| ==> OfKind(kind, init[i].pk)
    ensures
      var r := Widen(before, last);
      && r.rangeStart.Some? && !PkLess(last.pk, r.rangeStart.value)
      && r.rangeEnd.Some? && !PkLess(r.rangeEnd.value, last.pk)
      && (before.rangeStart.Some? ==>
            forall pk :: IsPkComparable(pk) && OfKind(kind, pk) && !PkLess(pk, before.rangeStart.value) ==>
              !PkLess(pk, r.rangeStart.value))
      && (before.rangeEnd.Some? ==>
            forall pk :: IsPkComparable(pk) && OfKind(kind, pk) && !PkLess(before.rangeEnd.value, pk) ==>
              !PkLess(r.rangeEnd.value, pk))
      && (before.rangeStart.Some? ==> !PkLess(before.rangeStart.value, r.rangeStart.value))
      && (before.rangeEnd.Some? ==> !PkLess(r.rangeEnd.value, before.rangeEnd.value))
  {
    PkLessTotal(last.pk, last.pk);
    if before.rangeStart.Some? {
      var b := before.rangeStart.value;
      PkLessTotal(b, b);
      PkLessTotal(b, last.pk);
      forall pk | PkLess(pk, last.pk) && PkLess(last.pk, b) ensures PkLess(pk, b) {
        BeforeIsStrictOrder(Asc, pk, last.pk, b);
      }
    }
    if before.rangeEnd.Some? {
      var b := before.rangeEnd.value;
      PkLessTotal(b, b);
      PkLessTotal(b, last.pk);
      forall pk | PkLess(b, last.pk) && PkLess(last.pk, pk) ensures PkLess(b, pk) {
        BeforeIsStrictOrder(Asc, b, last.pk, pk);
      }
    }
  }

  /** buildIncrementalResponse. The newest snapshot is read from the events table as it is first, the
      rows from the table as it has grown to since; `rawEvents` is the events query with its LIMIT of
      cap + 1. Either way the answer is the specification's for the table as it was at one moment. */
  method BuildIncrementalResponse(q: Query, window: Window, since: nat, first: seq<EventRow>, log: seq<EventRow>,
      cap: nat, ghost kind: PkKind)
    returns (r: Increment)
    requires WindowOfKind(kind, window) && first <= log
    requires forall i :: 0 <= i < |log| ==> OfKind(kind, Field(log[i].cols, q.pkKey))
    ensures r == Incremental(q, window, since, if since >= LatestSnapshot(first) then first else log, cap)
  {
    if since >= LatestSnapshot(first) { return Delta([], window, since); }
    LatestGrows(first, log);
    PickedAreLogged(q, since, log);
    var picked := PickedSince(q, since, log);
    var rawEvents := if |picked| > cap + 1 then picked[..cap + 1] else picked;
    if |rawEvents| > cap { return ResetDue(Cap); }
    if exists er :: er in rawEvents && er.op.OpSnapshot? { return ResetDue(Marker); }
    var gate := WindowGate(q, window.rangeStart, window.rangeEnd);
    assert forall j :: 0 <= j < |rawEvents| ==> rawEvents[j] in log;
    var events, nextSnapshot := NormalizeEvents(q, gate, since, rawEvents, kind);
    var nextRange := ComputeUpdatedRange(window, events, kind);
    r := Delta(events, nextRange, nextSnapshot);
  }

  /** Its event loop. */
  method NormalizeEvents(q: Query, gate: Gate, since: nat, rawEvents: seq<EventRow>, ghost kind: PkKind)
    returns (events: seq<Event>, nextSnapshot: nat)
    requires forall i :: 0 <= i < |rawEvents| ==> OfKind(kind, Field(rawEvents[i].cols, q.pkKey))
    ensures events == Wired(q, gate, rawEvents)
    ensures nextSnapshot == MaxNat(since, LatestSnapshot(rawEvents))
    ensures forall j :: 0 <= j < |events| ==> OfKind(kind, events[j].pk)
  {
    hide PickedSides, SqlMatches, Project;
    events, nextSnapshot := [], since;
    for i := 0 to |rawEvents|
      invariant events == Wired(q, gate, rawEvents[..i])
      invariant nextSnapshot == MaxNat(since, LatestSnapshot(rawEvents[..i]))
      invariant forall j :: 0 <= j < |events| ==> OfKind(kind, events[j].pk)
    {
      assert rawEvents[..i + 1][..i] == rawEvents[..i];
      nextSnapshot := MaxNat(nextSnapshot, rawEvents[i].snapshot);
      var event := WireEvent(q, gate, rawEvents[i]);
      if event.Some? {
        events := events + [event.value];
      }
    }
    assert rawEvents[..|rawEvents|] == rawEvents;
  }

  lemma LatestGrows(first: seq<EventRow>, log: seq<EventRow>)
    requires first <= log
    ensures LatestSnapshot(first) <= LatestSnapshot(log)
  {
    LatestIsMax(first);
    LatestIsMax(log);
    assert forall er :: er in first ==> er in log;
  }

  // ----- cursor completeness -----

  lemma {:induction false} PickedAreLogged(q: Query, since: nat, log: seq<EventRow>)
    ensures forall er :: er in PickedSince(q, since, log) <==> er in log && er.snapshot > since && Picked(q, er)
  {
    if log != [] {
      PickedAreLogged(q, since, log[..|log| - 1]);
      assert log == log[..|log| - 1] + [log[|log| - 1]];
    }
  }

  lemma {:induction false} LatestIsMax(log: seq<EventRow>)
    ensures forall er :: er in log ==> er.snapshot <= LatestSnapshot(log)
    ensures LatestSnapshot(log) == 0 || exists er :: er in log && er.snapshot == LatestSnapshot(log)
  {
    if log != [] {
      LatestIsMax(log[..|log| - 1]);
      assert log == log[..|log| - 1] + [log[|log| - 1]];
    }
  }

  lemma {:induction false} WiresAll(q: Query, gate: Gate, rows: seq<EventRow>)
    requires forall i :: 0 <= i < |rows| ==> WireEvent(q, gate, rows[i]).Some?
    ensures |Wired(q, gate, rows)| == |rows|
    ensures forall i :: 0 <= i < |rows| ==> Some(Wired(q, gate, rows)[i]) == WireEvent(q, gate, rows[i])
  {
    hide WireEvent;
    if rows != [] {
      WiresAll(q, gate, rows[..|rows| - 1]);
    }
  }

  /** A stored event row that a pull can address and read: comparable pk, both sides present. */
  predicate Addressable(q: Query, er: EventRow) {
    !er.op.OpSnapshot? && IsPkComparable(Field(er.cols, q.pkKey)) && NewSide(q, er).Some? && OldSide(q, er).Some?
  }

  lemma AddressableWires(q: Query, gate: Gate, er: EventRow)
    requires Picked(q, er) && Addressable(q, er)
    requires gate.Ranged? && gate.limit.None?
    ensures WireEvent(q, gate, er).Some?
  {
  }

  /** Past the newest picked row nothing is picked. */
  lemma NothingPastNext(q: Query, since: nat, log: seq<EventRow>)
    ensures PickedSince(q, MaxNat(since, LatestSnapshot(PickedSince(q, since, log))), log) == []
    ensures since >= LatestSnapshot(log) ==> PickedSince(q, since, log) == []
  {
    var picked := PickedSince(q, since, log);
    var next := MaxNat(since, LatestSnapshot(picked));
    PickedAreLogged(q, since, log);
    PickedAreLogged(q, next, log);
    LatestIsMax(log);
    LatestIsMax(picked);
    var beyond := PickedSince(q, next, log);
    assert forall er :: er in beyond ==> er in picked;
    if picked != [] {
      assert picked[0] in log;
    }
    EmptyIfNoMember(beyond);
  }

  lemma EmptyIfNoMember(rows: seq<EventRow>)
    ensures rows == [] || exists er :: er in rows
  {
    if rows != [] { assert rows[0] in rows; }
  }

  /** An incremental answer never moves the cursor back and leaves nothing behind: its events are, in
      log order and once each, those of every picked row past the old cursor, and no picked row lies
      past the new one. An answer that would not be complete is a reset instead. */
  lemma CursorIsComplete(q: Query, window: Window, since: nat, log: seq<EventRow>, cap: nat)
    requires q.limit.None?
    requires forall er :: er in log && Picked(q, er) && !er.op.OpSnapshot? ==> Addressable(q, er)
    ensures
      var r := Incremental(q, window, since, log, cap);
      var picked := PickedSince(q, since, log);
      var gate := WindowGate(q, window.rangeStart, window.rangeEnd);
      match r
      case Delta(events, _, next) =>
        && since <= next && PickedSince(q, next, log) == []
        && |events| == |picked| <= cap
        && (forall i :: 0 <= i < |picked| ==>
              since < picked[i].snapshot <= next && Some(events[i]) == WireEvent(q, gate, picked[i]))
      case ResetDue(reason) =>
        |picked| > cap || exists er :: er in picked && er.op.OpSnapshot?
  {
    var picked := PickedSince(q, since, log);
    var gate := WindowGate(q, window.rangeStart, window.rangeEnd);
    NothingPastNext(q, since, log);
    PickedAreLogged(q, since, log);
    LatestIsMax(picked);
    if Incremental(q, window, since, log, cap).Delta? {
      forall i | 0 <= i < |picked|
        ensures WireEvent(q, gate, picked[i]).Some?
        ensures since < picked[i].snapshot <= LatestSnapshot(picked)
      {
        assert picked[i] in picked;
        AddressableWires(q, gate, picked[i]);
      }
      WiresAll(q, gate, picked);
    }
  }

  /** An answer carries nothing and moves nothing exactly when nothing is picked. */
  lemma QuietIff(q: Query, window: Window, since: nat, log: seq<EventRow>, cap: nat)
    ensures Incremental(q, window, since, log, cap) == Delta([], window, since) <==> PickedSince(q, since, log) == []
  {
    var picked := PickedSince(q, since, log);
    PickedAreLogged(q, since, log);
    LatestIsMax(picked);
    NothingPastNext(q, since, log);
    if picked != [] { assert picked[0] in picked; }
  }

  /** The new cursor stands at the old one or at a logged row, and nothing is picked past it. */
  lemma NextIsLogged(q: Query, window: Window, since: nat, log: seq<EventRow>, cap: nat)
    ensures
      var r := Incremental(q, window, since, log, cap);
      r.Delta? ==> r.next <= MaxNat(since, LatestSnapshot(log)) && PickedSince(q, r.next, log) == []
  {
    var picked := PickedSince(q, since, log);
    PickedAreLogged(q, since, log);
    LatestIsMax(log);
    LatestIsMax(picked);
    NothingPastNext(q, since, log);
  }

  /** The token a reset hands out is quiet until something the query can see is logged: pulling with
      it answers nothing and moves nothing. */
  lemma ResetIsQuiet(q: Query, window: Window, log: seq<EventRow>, more: seq<EventRow>, cap: nat)
    requires forall er :: er in more ==> er.snapshot > LatestSnapshot(log)
    ensures Incremental(q, window, LatestSnapshot(log), log + more, cap) == Delta([], window, LatestSnapshot(log)) <==>
            forall er :: er in more ==> !Picked(q, er)
  {
    hide Picked, PickedSince, Incremental;
    var since := LatestSnapshot(log);
    QuietIff(q, window, since, log + more, cap);
    NothingPicked(q, since, log, more);
    LatestIsMax(log);
  }

  lemma NothingPicked(q: Query, since: nat, log: seq<EventRow>, more: seq<EventRow>)
    ensures PickedSince(q, since, log + more) == [] <==>
            forall er :: er in log + more && er.snapshot > since ==> !Picked(q, er)
  {
    hide Picked;
    PickedAreLogged(q, since, log + more);
    EmptyIfNoMember(PickedSince(q, since, log + more));
  }
}
