/** View maintenance over an at-least-once log: what refreshing a view by each event in turn does
    when the view may already be ahead of the log. Both delivery paths rest on it. */
module Replay {
  import opened Values
  import opened MergeCore
  import opened Queries
  import opened Wal

  /** One consumer of one table; `start` is the table before the first event. */
  datatype World = World(lens: Lens, q: Query, kind: PkKind, start: Table)

  type History = seq<Pending>

  ghost predicate WfWorld(w: World, h: History) {
    WfQuery(w.q) && WfTable(w.q, w.kind, w.start) && WfPendings(w.q, w.kind, w.start, h)
  }

  function TableAt(w: World, h: History, i: nat): Table
    requires i <= |h|
  {
    ApplyPendings(w.start, h[..i])
  }

  function ViewAt(w: World, h: History, i: nat): View
    requires i <= |h|
  {
    ViewOfTable(w.lens, w.q, TableAt(w, h, i))
  }

  function Max(a: nat, b: nat): nat {
    if a < b then b else a
  }

  function Look(v: View, pk: Value): Option<Row> {
    if pk in v then Some(v[pk]) else None
  }

  lemma SameLooks(a: View, b: View)
    requires forall pk :: Look(a, pk) == Look(b, pk)
    ensures a == b
  {
    forall pk ensures pk in a <==> pk in b {
      assert Look(a, pk) == Look(b, pk);
    }
    assert a.Keys == b.Keys;
    forall pk | pk in a ensures a[pk] == b[pk] {
      assert Look(a, pk) == Look(b, pk);
    }
  }

  // ----- one event -----

  lemma WfTableSteps(q: Query, kind: PkKind, t: Table, e: Pending)
    requires WfTable(q, kind, t) && WfPending(q, kind, t, e)
    ensures WfTable(q, kind, ApplyPending(t, e))
  {
  }

  lemma TableAtStep(w: World, h: History, i: nat)
    requires i < |h|
    ensures TableAt(w, h, i + 1) == ApplyPending(TableAt(w, h, i), h[i])
  {
    assert h[..i + 1][..i] == h[..i];
  }

  lemma EventIsWf(w: World, h: History, i: nat)
    requires WfWorld(w, h) && i < |h|
    ensures WfTable(w.q, w.kind, TableAt(w, h, i))
    ensures WfPending(w.q, w.kind, TableAt(w, h, i), h[i])
  {
    TablesAreWf(w, h, i);
    assert WfPendingAt(w.q, w.kind, w.start, h, i);
  }

  lemma {:induction false} TablesAreWf(w: World, h: History, i: nat)
    requires WfWorld(w, h) && i <= |h|
    ensures WfTable(w.q, w.kind, TableAt(w, h, i))
  {
    if i > 0 {
      TablesAreWf(w, h, i - 1);
      TableAtStep(w, h, i - 1);
      assert WfPendingAt(w.q, w.kind, w.start, h, i - 1);
      WfTableSteps(w.q, w.kind, TableAt(w, h, i - 1), h[i - 1]);
    }
  }

  /** One event against any view: afterwards each pk shows the current row, unless it showed
      something else than the current row before and was left alone. Inserts never overwrite and
      non-matching events are suppressed, yet no pk that was current stops being so. */
  lemma RefreshCatches(lens: Lens, q: Query, kind: PkKind, t: Table, view: View, e: Pending, pk: Value)
    requires WfPending(q, kind, t, e)
    ensures
      var after, current, next := Look(Refresh(lens, q, view, e), pk), Look(ViewOfTable(lens, q, t), pk),
                                  Look(ViewOfTable(lens, q, ApplyPending(t, e)), pk);
      after == next || (after == Look(view, pk) && Look(view, pk) != current)
  {
  }

  /** The view-maintenance square: refreshing the view of a table by an event gives the view of the
      table after the event. */
  lemma RefreshSquare(lens: Lens, q: Query, kind: PkKind, t: Table, e: Pending)
    requires WfPending(q, kind, t, e)
    ensures Refresh(lens, q, ViewOfTable(lens, q, t), e) == ViewOfTable(lens, q, ApplyPending(t, e))
  {
    forall pk
      ensures Look(Refresh(lens, q, ViewOfTable(lens, q, t), e), pk) ==
              Look(ViewOfTable(lens, q, ApplyPending(t, e)), pk)
    {
      RefreshCatches(lens, q, kind, t, ViewOfTable(lens, q, t), e, pk);
    }
    SameLooks(Refresh(lens, q, ViewOfTable(lens, q, t), e), ViewOfTable(lens, q, ApplyPending(t, e)));
  }

  /** The same square from the WAL down: decode a row event, build tap events, merge them. */
  lemma WalSquare(q: Query, kind: PkKind, t: Table, event: WalEvent)
    requires WfQuery(q) && WfTable(q, kind, t) && WfWal(q, kind, t, event)
    ensures DeliverTaps(q, ViewOfTable(Embedded, q, t), Decode(q.pkKey, event))
         == ViewOfTable(Embedded, q, ApplyWal(q.pkKey, t, event))
  {
    DecodeTracksTable(q, kind, t, event);
    TapsTrack(q, kind, t, Decode(q.pkKey, event));
  }

  function DeliverTaps(q: Query, view: View, es: seq<Pending>): View {
    if es == [] then view else DeliverTap(q, DeliverTaps(q, view, es[..|es| - 1]), es[|es| - 1])
  }

  lemma {:induction false} TapsTrack(q: Query, kind: PkKind, t: Table, es: seq<Pending>)
    requires WfQuery(q) && WfTable(q, kind, t) && WfPendings(q, kind, t, es)
    ensures DeliverTaps(q, ViewOfTable(Embedded, q, t), es) == ViewOfTable(Embedded, q, ApplyPendings(t, es))
    ensures WfTable(q, kind, ApplyPendings(t, es))
  {
    hide BuildTapEvent, Matches, Project, Refresh, WfTable, WfPending;
    if es != [] {
      var init, last := es[..|es| - 1], es[|es| - 1];
      forall i | 0 <= i < |init| ensures WfPendingAt(q, kind, t, init, i) {
        assert init[..i] == es[..i] && WfPendingAt(q, kind, t, es, i);
      }
      TapsTrack(q, kind, t, init);
      assert WfPendingAt(q, kind, t, es, |init|);
      TapRefreshes(q, kind, ApplyPendings(t, init), ViewOfTable(Embedded, q, ApplyPendings(t, init)), last);
      RefreshSquare(Embedded, q, kind, ApplyPendings(t, init), last);
      WfTableSteps(q, kind, ApplyPendings(t, init), last);
    }
  }

  // ----- runs of events -----

  function RefreshAll(w: World, view: View, es: seq<Pending>): View {
    if es == [] then view
    else Refresh(w.lens, w.q, RefreshAll(w, view, es[..|es| - 1]), es[|es| - 1])
  }

  lemma {:induction false} RefreshAllSplits(w: World, view: View, a: seq<Pending>, b: seq<Pending>)
    ensures RefreshAll(w, view, a + b) == RefreshAll(w, RefreshAll(w, view, a), b)
    decreases |b|
  {
    if b == [] {
      assert a + b == a;
    } else {
      RefreshAllSplits(w, view, a, b[..|b| - 1]);
      assert (a + b)[..|a + b| - 1] == a + b[..|b| - 1];
    }
  }

  /** At `pk` the view shows what the table gave at some point between `lo` and `hi`. */
  ghost predicate Shows(w: World, h: History, view: View, lo: nat, hi: nat, pk: Value)
    requires hi <= |h|
  {
    exists i :: lo <= i <= hi && Look(view, pk) == Look(ViewAt(w, h, i), pk)
  }

  /** Every pk does, each for a point of its own: a view between two log positions. */
  ghost predicate Within(w: World, h: History, view: View, lo: nat, hi: nat) {
    lo <= hi <= |h| && forall pk :: Shows(w, h, view, lo, hi, pk)
  }

  lemma ExactIsWithin(w: World, h: History, i: nat)
    requires i <= |h|
    ensures Within(w, h, ViewAt(w, h, i), i, i)
  {
    forall pk ensures Shows(w, h, ViewAt(w, h, i), i, i, pk) {
      assert Look(ViewAt(w, h, i), pk) == Look(ViewAt(w, h, i), pk);
    }
  }

  /** Once the two positions meet the view is exact. */
  lemma WithinPointIsExact(w: World, h: History, view: View, i: nat)
    requires Within(w, h, view, i, i)
    ensures view == ViewAt(w, h, i)
  {
    forall pk ensures Look(view, pk) == Look(ViewAt(w, h, i), pk) {
      assert Shows(w, h, view, i, i, pk);
    }
    SameLooks(view, ViewAt(w, h, i));
  }

  lemma WithinWidens(w: World, h: History, view: View, lo: nat, hi: nat, lo': nat, hi': nat)
    requires Within(w, h, view, lo, hi) && lo' <= lo && hi <= hi' <= |h|
    ensures Within(w, h, view, lo', hi')
  {
    forall pk ensures Shows(w, h, view, lo', hi', pk) {
      assert Shows(w, h, view, lo, hi, pk);
      var i :| lo <= i <= hi && Look(view, pk) == Look(ViewAt(w, h, i), pk);
    }
  }

  /** More history behind it changes nothing. */
  lemma WithinExtends(w: World, h: History, more: History, view: View, lo: nat, hi: nat)
    requires Within(w, h, view, lo, hi)
    ensures Within(w, h + more, view, lo, hi)
  {
    forall pk ensures Shows(w, h + more, view, lo, hi, pk) {
      assert Shows(w, h, view, lo, hi, pk);
      var i :| lo <= i <= hi && Look(view, pk) == Look(ViewAt(w, h, i), pk);
      assert (h + more)[..i] == h[..i];
      assert Look(view, pk) == Look(ViewAt(w, h + more, i), pk);
    }
  }

  /** Refreshing by the event at the lower position moves that position on by one. */
  lemma Advance(w: World, h: History, view: View, lo: nat, hi: nat)
    requires WfWorld(w, h) && Within(w, h, view, lo, hi) && lo < |h|
    ensures Within(w, h, Refresh(w.lens, w.q, view, h[lo]), lo + 1, Max(lo + 1, hi))
  {
    var view', lo', hi' := Refresh(w.lens, w.q, view, h[lo]), lo + 1, Max(lo + 1, hi);
    forall pk ensures Shows(w, h, view', lo', hi', pk) {
      AdvanceAt(w, h, view, lo, hi, pk);
    }
  }

  lemma AdvanceAt(w: World, h: History, view: View, lo: nat, hi: nat, pk: Value)
    requires WfWorld(w, h) && lo <= hi <= |h| && lo < |h| && Shows(w, h, view, lo, hi, pk)
    ensures Shows(w, h, Refresh(w.lens, w.q, view, h[lo]), lo + 1, Max(lo + 1, hi), pk)
  {
    var view' := Refresh(w.lens, w.q, view, h[lo]);
    TableAtStep(w, h, lo);
    EventIsWf(w, h, lo);
    var i :| lo <= i <= hi && Look(view, pk) == Look(ViewAt(w, h, i), pk);
    RefreshCatches(w.lens, w.q, w.kind, TableAt(w, h, lo), view, h[lo], pk);
    if Look(view', pk) != Look(ViewAt(w, h, lo + 1), pk) {
      assert i != lo && Look(view', pk) == Look(ViewAt(w, h, i), pk);
    }
  }

  lemma RefreshAllStep(w: World, view: View, h: History, lo: nat, i: nat)
    requires lo <= i < |h|
    ensures RefreshAll(w, view, h[lo..i + 1]) == Refresh(w.lens, w.q, RefreshAll(w, view, h[lo..i]), h[i])
  {
    assert h[lo..i + 1] == h[lo..i] + [h[i]];
  }

  lemma {:induction false} AdvanceAll(w: World, h: History, view: View, lo: nat, hi: nat, upto: nat)
    requires WfWorld(w, h) && Within(w, h, view, lo, hi) && lo <= upto <= |h|
    ensures Within(w, h, RefreshAll(w, view, h[lo..upto]), upto, Max(upto, hi))
    decreases upto
  {
    if lo < upto {
      AdvanceAll(w, h, view, lo, hi, upto - 1);
      RefreshAllStep(w, view, h, lo, upto - 1);
      Advance(w, h, RefreshAll(w, view, h[lo..upto - 1]), upto - 1, Max(upto - 1, hi));
    }
  }

  /** Replay absorption: start from the baseline at `b`, replay everything from any earlier `from`,
      and at every n at or past `b` the view is exactly the view of the table at n. Before that,
      each pk shows the table as it stood somewhere between the replay and the baseline. */
  lemma ReplayIsAbsorbed(w: World, h: History, from: nat, b: nat, n: nat)
    requires WfWorld(w, h) && from <= b <= |h| && from <= n <= |h|
    ensures n >= b ==> RefreshAll(w, ViewAt(w, h, b), h[from..n]) == ViewAt(w, h, n)
    ensures n < b ==> Within(w, h, RefreshAll(w, ViewAt(w, h, b), h[from..n]), n, b)
  {
    ExactIsWithin(w, h, b);
    WithinWidens(w, h, ViewAt(w, h, b), b, b, from, b);
    AdvanceAll(w, h, ViewAt(w, h, b), from, b, n);
    if n >= b {
      WithinPointIsExact(w, h, RefreshAll(w, ViewAt(w, h, b), h[from..n]), n);
    }
  }
}
