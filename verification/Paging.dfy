/** Windows and pages: the pks at a page's ends, resets, and what a load-more cursor leaves behind
    (server/sdk.ts, client/pulse-query.ts). */
module Paging {
  import opened Values
  import opened MergeCore
  import opened Pull
  import opened PulseQuery

  function Leading(order: Order, window: Window): Option<Value> {
    if order.Desc? then window.rangeEnd else window.rangeStart
  }

  function Trailing(order: Order, window: Window): Option<Value> {
    if order.Desc? then window.rangeStart else window.rangeEnd
  }

  /** A window has both ends or none, in order. */
  predicate Proper(window: Window) {
    && (window.rangeStart.Some? <==> window.rangeEnd.Some?)
    && (window.rangeStart.Some? ==> !PkLess(window.rangeEnd.value, window.rangeStart.value))
  }

  function EndsOf(order: Order, es: seq<Entry>): Window {
    Window(EndPk(es, order.Desc?), EndPk(es, order.Asc?))
  }

  lemma EndsAreProper(order: Order, es: seq<Entry>)
    requires Sorted(order, es) && AllComparable(es)
    ensures Proper(EndsOf(order, es))
    ensures es != [] ==>
      Trailing(order, EndsOf(order, es)) == Some(es[|es| - 1].pk) && Leading(order, EndsOf(order, es)) == Some(es[0].pk)
  {
    if |es| > 0 {
      PkLessTotal(es[0].pk, es[0].pk);
      assert |es| > 1 ==> Precedes(order, es[0].pk, es[|es| - 1].pk);
      PkLessTotal(es[0].pk, es[|es| - 1].pk);
    }
  }

  // ----- widening -----

  lemma WidenStaysProper(window: Window, event: Event)
    requires Proper(window)
    ensures Proper(Widen(window, event))
  {
    if event.Insert? && IsPkComparable(event.pk) && window.rangeStart.Some? {
      BeforeIsStrictOrder(Asc, window.rangeEnd.value, event.pk, window.rangeStart.value);
    }
    PkLessTotal(event.pk, event.pk);
  }

  lemma {:induction false} WidenAllStaysProper(window: Window, events: seq<Event>)
    requires Proper(window)
    ensures Proper(WidenAll(window, events))
  {
    if events != [] {
      WidenAllStaysProper(window, events[..|events| - 1]);
      WidenStaysProper(WidenAll(window, events[..|events| - 1]), events[|events| - 1]);
    }
  }

  /** Inserts that come before the leading edge move that edge alone. */
  lemma {:induction false} TrailingStays(order: Order, window: Window, events: seq<Event>)
    requires Proper(window) && window.rangeStart.Some?
    requires forall e :: e in events && e.Insert? ==> Before(order, e.pk, Leading(order, window).value)
    ensures
      var r := WidenAll(window, events);
      && Trailing(order, r) == Trailing(order, window) && Leading(order, r).Some?
      && (Leading(order, r) == Leading(order, window) ||
          Before(order, Leading(order, r).value, Leading(order, window).value))
  {
    if events != [] {
      var init, last := events[..|events| - 1], events[|events| - 1];
      assert forall e :: e in init ==> e in events;
      TrailingStays(order, window, init);
      assert last in events;
      if last.Insert? {
        BeforeIsStrictOrder(order, Trailing(order, window).value, last.pk, Leading(order, window).value);
      }
    }
  }

  // ----- rows behind a cursor -----

  lemma {:induction false} AfterHolds(order: Order, listing: seq<Entry>, cursor: Value)
    requires Sorted(order, listing)
    ensures Sorted(order, After(order, listing, cursor))
    ensures forall e :: e in After(order, listing, cursor) <==> e in listing && Before(order, cursor, e.pk)
  {
    if listing != [] {
      var init, last := listing[..|listing| - 1], listing[|listing| - 1];
      AfterHolds(order, init, cursor);
      assert listing == init + [last];
      var es := After(order, init, cursor);
      forall i | 0 <= i < |es| ensures Precedes(order, es[i].pk, last.pk) {
        assert es[i] in es;
        var j :| 0 <= j < |init| && init[j] == es[i];
        assert Precedes(order, listing[j].pk, listing[|init|].pk);
      }
    }
  }

  /** A page that is cut short leaves out only rows beyond its last. */
  lemma CutLeavesTail(order: Order, rest: seq<Entry>, limit: Option<nat>, e: Entry)
    requires Sorted(order, rest) && AllComparable(rest) && e in rest && e !in Cut(rest, limit).0
    ensures limit.Some? && Cut(rest, limit).1
    ensures
      var rows := Cut(rest, limit).0;
      rows != [] ==> Before(order, rows[|rows| - 1].pk, e.pk)
  {
    var rows := Cut(rest, limit).0;
    var i :| 0 <= i < |rest| && rest[i] == e;
    assert forall k :: 0 <= k < |rows| ==> rows[k] in rows && rows[k] == rest[k];
    assert rows != [] ==> Precedes(order, rest[|rows| - 1].pk, rest[i].pk);
  }

  /** Either bound of a load-more's window is an old one or a loaded row's. */
  lemma LoadedWindow(order: Order, listing: seq<Entry>, window: Window, cursor: Value, limit: Option<nat>)
    requires Sorted(order, listing) && AllComparable(listing) && Proper(window)
    ensures
      var rows := Cut(After(order, listing, cursor), limit).0;
      var r := LoadMoreAnswer(order, listing, window, cursor, limit).window;
      && Proper(r)
      && (Leading(order, r) == Leading(order, window) || (rows != [] && Leading(order, r) == Some(rows[0].pk)))
      && (Trailing(order, r) == Trailing(order, window) ||
        (rows != [] && Trailing(order, r) == Some(rows[|rows| - 1].pk)))
  {
    PageIsSorted(order, listing, cursor, limit);
    var rows := Cut(After(order, listing, cursor), limit).0;
    hide After, Cut;
    SpreadIsEnds(order, rows);
    EndsAreProper(order, rows);
    hide Spread, Sorted, AllComparable;
    JoinedIsProper(order, window, EndsOf(order, rows));
  }

  lemma PageIsSorted(order: Order, listing: seq<Entry>, cursor: Value, limit: Option<nat>)
    requires Sorted(order, listing) && AllComparable(listing)
    ensures
      var rest := After(order, listing, cursor);
      && Sorted(order, rest) && AllComparable(rest)
      && Sorted(order, Cut(rest, limit).0) && AllComparable(Cut(rest, limit).0)
  {
    hide After, Sorted, Cut;
    var rest := After(order, listing, cursor);
    AfterHolds(order, listing, cursor);
    assert forall i :: 0 <= i < |rest| ==> rest[i] in rest;
    CutIsSorted(order, rest, limit);
  }

  lemma CutIsSorted(order: Order, rest: seq<Entry>, limit: Option<nat>)
    requires Sorted(order, rest) && AllComparable(rest)
    ensures Sorted(order, Cut(rest, limit).0) && AllComparable(Cut(rest, limit).0)
  {
  }

  function Joined(a: Window, b: Window): Window {
    Window(Join(a.rangeStart, b.rangeStart, true), Join(a.rangeEnd, b.rangeEnd, false))
  }

  lemma JoinedIsProper(order: Order, a: Window, b: Window)
    requires Proper(a) && Proper(b)
    ensures
      var r := Joined(a, b);
      && Proper(r) && (b.rangeStart.None? ==> r == a)
      && (Leading(order, r) == Leading(order, a) || Leading(order, r) == Leading(order, b))
      && (Trailing(order, r) == Trailing(order, a) || Trailing(order, r) == Trailing(order, b))
  {
    if a.rangeStart.Some? && b.rangeStart.Some? {
      var s1, e1, s2, e2 := a.rangeStart.value, a.rangeEnd.value, b.rangeStart.value, b.rangeEnd.value;
      BeforeIsStrictOrder(Asc, e1, s2, s1);
      BeforeIsStrictOrder(Asc, e1, e2, s1);
    }
  }

  // ----- what load-more leaves behind -----

  /** The request's cursor: the pk shown furthest in display order, or the window's trailing end. */
  function CursorOf(order: Order, shown: seq<Entry>, window: Window): Option<Value> {
    if shown != [] then Some(shown[|shown| - 1].pk) else Trailing(order, window)
  }

  /** A matching row is neither shown, nor loaded, nor still to be loaded by the next request. */
  ghost predicate Skipped(order: Order, listing: seq<Entry>, shown: seq<Entry>, window: Window, limit: Option<nat>,
      e: Entry)
    requires CursorOf(order, shown, window).Some?
  {
    var cursor := CursorOf(order, shown, window).value;
    var loaded := Cut(After(order, listing, cursor), limit).0;
    var more := shown + loaded;
    && e in listing && e !in more
    && CursorOf(order, more, window).Some?
    && e !in After(order, listing, CursorOf(order, more, window).value)
  }

  /** A load-more skips exactly the matching rows that lie before the furthest row shown and are not
      shown themselves. */
  lemma LoadMoreSkips(order: Order, kind: PkKind, listing: seq<Entry>, shown: seq<Entry>, window: Window,
      limit: Option<nat>, e: Entry)
    requires Sorted(order, listing) && AllComparable(listing) && AllOfKind(kind, listing)
    requires CursorOf(order, shown, window).Some?
    requires limit.Some? ==> limit.value >= 1
    ensures
      var cursor := CursorOf(order, shown, window).value;
      Skipped(order, listing, shown, window, limit, e) <==> e in listing && e !in shown && !Before(order, cursor, e.pk)
  {
    var cursor := CursorOf(order, shown, window).value;
    var rest := After(order, listing, cursor);
    var loaded := Cut(rest, limit).0;
    var more := shown + loaded;
    AfterHolds(order, listing, cursor);
    AfterHolds(order, listing, CursorOf(order, more, window).value);
    PageIsSorted(order, listing, cursor, limit);
    hide After;
    assert forall x :: x in loaded ==> x in rest;
    if loaded == [] {
      assert more == shown;
      if e in rest { CutLeavesTail(order, rest, limit, e); }
    } else {
      var next := more[|more| - 1];
      assert next == loaded[|loaded| - 1] && next in rest;
      hide Cut, Sorted, AllComparable, AllOfKind;
      BeforeIsStrictOrder(order, cursor, next.pk, e.pk);
      if e in rest && e !in loaded { CutLeavesTail(order, rest, limit, e); }
    }
  }
}
