/** The HTTP client's class against the machine of the pull protocol: what `PulseQuery` does to its
    merge core on a baseline and on a load-more is what the machine does to the client's view. (A pull
    needs no more than its contract: both fold the events under the same gate.) */
module HttpClient {
  import opened Values
  import opened MergeCore
  import Replay
  import opened PulseQuery
  import Paging
  import opened HttpMachine
  import opened HttpRead

  /** The entries and map of a client's core stand for a view. */
  ghost predicate Represents(w: Replay.World, index: map<Value, Entry>, es: seq<Entry>, view: View) {
    Coherent(w.q.order, w.kind, index, es) && AllComparable(es) && ViewOf(index) == view
  }

  lemma RepresentsListing(w: Replay.World, index: map<Value, Entry>, es: seq<Entry>, view: View)
    requires Represents(w, index, es, view)
    ensures Keyed(w.kind, view) && es == Listing(w.q.order, w.kind, view)
  {
    ListingIsUnique(w.q.order, w.kind, index, es);
  }

  /** A core rebuilt from a baseline's rows holds the baseline's view. */
  lemma BaselineIsRepresented(w: Replay.World, s: Http, rows: seq<Entry>, index: map<Value, Entry>)
    requires Inv(w, s) && s.reading.Some? && Baseline(w.q.order, SelectNow(w, s), rows)
    requires Mirrors(index, rows)
    ensures Represents(w, index, rows, Rebase(w, s, rows).client.view)
  {
    InvGives(w, s);
    ListingNowIs(w, s);
    var view := SelectNow(w, s);
    hide SelectNow, Inv, IsListing, Sorted;
    assert AllOfKind(w.kind, rows) by {
      forall i | 0 <= i < |rows| ensures OfKind(w.kind, rows[i].pk) { assert rows[i] in rows; }
    }
    MirrorIsRestriction(index, rows, view);
  }

  lemma MirrorIsRestriction(index: map<Value, Entry>, rows: seq<Entry>, view: View)
    requires Mirrors(index, rows) && AllComparable(rows)
    requires forall e :: e in rows ==> e.pk in view && view[e.pk] == e.row
    ensures ViewOf(index) == Restrict(view, rows)
  {
    var part := Restrict(view, rows);
    forall k ensures (k in index <==> k in part) && (k in index ==> index[k].row == part[k]) {
      if k in index {
        assert index[k] in rows && index[k] == Entry(k, view[k]);
      }
      if k in part {
        var i :| 0 <= i < |rows| && rows[i] == Entry(k, view[k]);
        assert rows[i].pk in index;
      }
    }
    assert ViewOf(index).Keys == part.Keys;
  }

  /** A load-more page is new to the core as a whole, continues its order, and takes its view where the
      machine takes the client's. */
  lemma LoadMoreIsRepresented(w: Replay.World, s: Http, index: map<Value, Entry>, es: seq<Entry>, index': map<Value,
      Entry>)
    requires Inv(w, s) && Enabled(w, s, LoadMore) && Represents(w, index, es, s.client.view)
    requires Mirrors(index', es + LoadedRows(w, s, NextCursor(w, s).value))
    ensures
      var rows := LoadedRows(w, s, NextCursor(w, s).value);
      && NextCursor(w, s) == Paging.CursorOf(w.q.order, es, s.window)
      && Unheld(index, rows) == rows && Sorted(w.q.order, es + rows)
      && ViewOf(index') == Perform(w, s, LoadMore).client.view
  {
    RepresentsListing(w, index, es, s.client.view);
    InvGives(w, s);
    LoadMoreIs(w, s);
    assert NextCursor(w, s) == Paging.CursorOf(w.q.order, es, s.window);
    hide *;
    MoreIsRepresented(w, s, NextCursor(w, s).value, index, es, index');
  }

  lemma MoreIsRepresented(w: Replay.World, s: Http, cursor: Value, index: map<Value, Entry>, es: seq<Entry>,
      index': map<Value, Entry>)
    requires Sound(w, s) && Represents(w, index, es, s.client.view) &&
      Paging.CursorOf(w.q.order, es, s.window) == Some(cursor)
    requires Mirrors(index', es + LoadedRows(w, s, cursor))
    ensures
      var rows := LoadedRows(w, s, cursor);
      && Unheld(index, rows) == rows && Sorted(w.q.order, es + rows)
      && ViewOf(index') == MoreLoaded(w, s, cursor).client.view
  {
    hide MoreLoaded, LoadedRows, SelectNow;
    LoadedRowsAre(w, s, cursor);
    MoreLoadedIs(w, s, cursor);
    PartsOf(w, index, es, s.client.view);
    assert es != [] ==> cursor == es[|es| - 1].pk;
    hide *;
    PageIsRepresented(w.q.order, index, es, LoadedRows(w, s, cursor), index', SelectNow(w, s), cursor);
  }

  lemma PartsOf(w: Replay.World, index: map<Value, Entry>, es: seq<Entry>, view: View)
    requires Represents(w, index, es, view)
    ensures Mirrors(index, es) && Sorted(w.q.order, es) && AllComparable(es) && ViewOf(index) == view
  {
  }

  lemma PageIsRepresented(order: Order, index: map<Value, Entry>, es: seq<Entry>, rows: seq<Entry>,
      index': map<Value, Entry>, view: View, cursor: Value)
    requires Mirrors(index, es) && Sorted(order, es) && AllComparable(es) && (es != [] ==> cursor == es[|es| - 1].pk)
    requires Sorted(order, rows) && AllComparable(rows) && Mirrors(index', es + rows)
    requires forall e :: e in rows ==> e.pk in view && view[e.pk] == e.row && Before(order, cursor, e.pk)
    ensures Unheld(index, rows) == rows && Sorted(order, es + rows)
    ensures ViewOf(index') == ViewOf(index) + Restrict(view, rows)
  {
    hide Mirrors, Sorted, AllComparable, Restrict, Before, Unheld;
    assert forall i :: 0 <= i < |rows| ==> rows[i] in rows;
    PageContinues(order, es, rows, cursor);
    PageIsNew(order, index, es, rows);
    AppendedView(index, es, rows, index', view);
  }

  lemma MoreLoadedIs(w: Replay.World, s: Http, cursor: Value)
    requires Sound(w, s)
    ensures MoreLoaded(w, s, cursor).client.view == s.client.view + Restrict(SelectNow(w, s), LoadedRows(w, s, cursor))
  {
    hide LoadedRows, SelectNow, Restrict, ListingNow, LoadMoreAnswer;
  }

  lemma PageContinues(order: Order, es: seq<Entry>, rows: seq<Entry>, cursor: Value)
    requires Sorted(order, es) && Sorted(order, rows) && AllComparable(es)
    requires es != [] ==> cursor == es[|es| - 1].pk
    requires forall i :: 0 <= i < |rows| ==> Before(order, cursor, rows[i].pk)
    ensures Sorted(order, es + rows)
  {
    forall i, j | 0 <= i < |es| && 0 <= j < |rows| ensures Before(order, es[i].pk, rows[j].pk) {
      if i < |es| - 1 {
        assert Precedes(order, es[i].pk, es[|es| - 1].pk);
        BeforeIsStrictOrder(order, es[i].pk, cursor, rows[j].pk);
      }
    }
    var all := es + rows;
    forall i, j | 0 <= i < j < |all| ensures Precedes(order, all[i].pk, all[j].pk) {
      if j < |es| {
        assert Precedes(order, es[i].pk, es[j].pk);
      } else if i >= |es| {
        assert Precedes(order, rows[i - |es|].pk, rows[j - |es|].pk);
      } else {
        assert Before(order, es[i].pk, rows[j - |es|].pk);
      }
    }
  }

  lemma PageIsNew(order: Order, index: map<Value, Entry>, es: seq<Entry>, rows: seq<Entry>)
    requires Mirrors(index, es) && Sorted(order, es + rows) && AllComparable(es) && AllComparable(rows)
    ensures Unheld(index, rows) == rows
  {
    forall i | 0 <= i < |rows| ensures rows[i].pk !in index {
      if rows[i].pk in index {
        var j :| 0 <= j < |es| && es[j] == index[rows[i].pk];
        assert (es + rows)[j] == es[j] && (es + rows)[|es| + i] == rows[i];
        assert Precedes(order, (es + rows)[j].pk, (es + rows)[|es| + i].pk);
        PkLessTotal(rows[i].pk, rows[i].pk);
      }
    }
    AllUnheld(index, rows);
  }

  lemma AppendedView(index: map<Value, Entry>, es: seq<Entry>, rows: seq<Entry>, index': map<Value, Entry>, view: View)
    requires Mirrors(index, es) && Mirrors(index', es + rows) && AllComparable(es) && AllComparable(rows)
    requires forall e :: e in rows ==> e.pk in view && view[e.pk] == e.row
    ensures ViewOf(index') == ViewOf(index) + Restrict(view, rows)
  {
    var whole := ViewOf(index) + Restrict(view, rows);
    forall k ensures k in index' <==> k in whole && (k in index' ==> index'[k].row == whole[k]) {
      AppendedAt(index, es, rows, index', view, k);
    }
    assert ViewOf(index').Keys == whole.Keys;
  }

  lemma AppendedAt(index: map<Value, Entry>, es: seq<Entry>, rows: seq<Entry>, index': map<Value, Entry>, view: View,
      k: Value)
    requires Mirrors(index, es) && Mirrors(index', es + rows) && AllComparable(es) && AllComparable(rows)
    requires forall e :: e in rows ==> e.pk in view && view[e.pk] == e.row
    ensures
      var whole := ViewOf(index) + Restrict(view, rows);
      (k in index' <==> k in whole) && (k in index' ==> index'[k].row == whole[k])
  {
    var all := es + rows;
    if k in index' {
      assert index'[k] in all;
      var i :| 0 <= i < |all| && all[i] == index'[k];
      if i < |es| { assert es[i].pk in index; } else { assert rows[i - |es|] in rows; }
    }
    if k in index {
      var i :| 0 <= i < |es| && es[i] == index[k];
      assert all[i].pk in index' && index'[all[i].pk] == all[i];
    }
    if k in Restrict(view, rows) {
      var i :| 0 <= i < |rows| && rows[i] == Entry(k, view[k]);
      assert all[|es| + i].pk in index' && index'[all[|es| + i].pk] == all[|es| + i];
    }
  }
}
