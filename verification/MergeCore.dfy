/** shared/pulse-merge-core.ts and shared/ranged-merge-core.ts: a sorted entry array beside a
    pk map, fed by batches of events. `View` is the plain map both of them stand for. */
module MergeCore {
  import opened Values

  datatype Event =
    | Insert(row: Row, pk: Value)
    | Update(row: Row, oldRow: Row, pk: Value, matchesNew: bool)
    | Delete(oldRow: Row, pk: Value)

  datatype Entry = Entry(pk: Value, row: Row)

  type View = map<Value, Row>

  /** The type of the source table's pk column; every comparable pk one core meets has it. */
  datatype PkKind = Numbers | Strings

  predicate OfKind(kind: PkKind, pk: Value) {
    IsPkComparable(pk) ==> if kind.Numbers? then pk.Num? else pk.Str?
  }

  predicate RangeOfKind(kind: PkKind, bound: Option<Value>) {
    bound.Some? ==> IsPkComparable(bound.value) && OfKind(kind, bound.value)
  }

  /** What decides whether a new insert is taken: nothing in the full-set core, the window in
      the ranged one. */
  datatype Gate =
    | FullSet
    | Ranged(order: Order, limit: Option<int>, rangeStart: Option<Value>, rangeEnd: Option<Value>)

  predicate Accepts(gate: Gate, pk: Value) {
    match gate
    case FullSet => true
    case Ranged(order, limit, rangeStart, rangeEnd) =>
      limit.None? || rangeStart.None? || rangeEnd.None? ||
      Before(order, pk, if order.Desc? then rangeEnd.value else rangeStart.value)
  }

  /** The identity an event addresses state by: the full-set core reads `pk`, the ranged one the
      wire row's `$pk` except for deletes. */
  function EventPk(gate: Gate, event: Event): Value {
    if gate.FullSet? || event.Delete? then event.pk else Field(event.row, "$pk")
  }

  // ----- the specification: events over a plain map -----

  function Step(gate: Gate, view: View, event: Event): View {
    var pk := EventPk(gate, event);
    if !IsPkComparable(pk) then view
    else match event
      case Insert(row, _) => if pk in view || !Accepts(gate, pk) then view else view[pk := row]
      case Update(row, _, _, matchesNew) => if matchesNew then view[pk := row] else view - {pk}
      case Delete(_, _) => view - {pk}
  }

  function Fold(gate: Gate, view: View, events: seq<Event>): View {
    if events == [] then view
    else Step(gate, Fold(gate, view, events[..|events| - 1]), events[|events| - 1])
  }

  /** The event writes state: it adds, replaces or removes a row. */
  predicate Effective(gate: Gate, view: View, event: Event) {
    var pk := EventPk(gate, event);
    IsPkComparable(pk) &&
    match event
    case Insert(_, _) => pk !in view && Accepts(gate, pk)
    case Update(_, _, _, matchesNew) => matchesNew || pk in view
    case Delete(_, _) => pk in view
  }

  ghost predicate SomeEffective(gate: Gate, view: View, events: seq<Event>) {
    exists i :: 0 <= i < |events| && Effective(gate, Fold(gate, view, events[..i]), events[i])
  }

  lemma FoldSnoc(gate: Gate, view: View, events: seq<Event>, event: Event)
    ensures Fold(gate, view, events + [event]) == Step(gate, Fold(gate, view, events), event)
  {
    assert (events + [event])[..|events|] == events;
  }

  lemma SomeEffectiveGrows(gate: Gate, view: View, events: seq<Event>, event: Event)
    ensures SomeEffective(gate, view, events + [event]) <==>
            SomeEffective(gate, view, events) || Effective(gate, Fold(gate, view, events), event)
    ensures Fold(gate, view, events + [event]) == Step(gate, Fold(gate, view, events), event)
  {
    var longer := events + [event];
    assert longer[..|events|] == events;
    forall i | 0 <= i < |events|
      ensures Effective(gate, Fold(gate, view, longer[..i]), longer[i]) <==>
              Effective(gate, Fold(gate, view, events[..i]), events[i])
    {
      assert longer[..i] == events[..i];
    }
    assert Effective(gate, Fold(gate, view, longer[..|events|]), longer[|events|]) <==>
           Effective(gate, Fold(gate, view, events), event);
  }

  lemma BatchStep(gate: Gate, view: View, events: seq<Event>, i: nat)
    requires i < |events|
    ensures Fold(gate, view, events[..i + 1]) == Step(gate, Fold(gate, view, events[..i]), events[i])
    ensures SomeEffective(gate, view, events[..i + 1]) <==>
            SomeEffective(gate, view, events[..i]) || Effective(gate, Fold(gate, view, events[..i]), events[i])
  {
    assert events[..i + 1] == events[..i] + [events[i]];
    SomeEffectiveGrows(gate, view, events[..i], events[i]);
  }

  /** Batches may be concatenated or split anywhere as long as the gate does not move. */
  lemma {:induction false} FoldSplits(gate: Gate, view: View, first: seq<Event>, second: seq<Event>)
    ensures Fold(gate, view, first + second) == Fold(gate, Fold(gate, view, first), second)
    decreases |second|
  {
    if second == [] {
      assert first + second == first;
    } else {
      var init := second[..|second| - 1];
      FoldSplits(gate, view, first, init);
      assert (first + second)[..|first + second| - 1] == first + init;
    }
  }

  /** A batch that reports no mutation changed nothing. */
  lemma {:induction false} IneffectiveBatchIsSilent(gate: Gate, view: View, events: seq<Event>)
    requires !SomeEffective(gate, view, events)
    ensures Fold(gate, view, events) == view
  {
    if events != [] {
      var init := events[..|events| - 1];
      forall i | 0 <= i < |init|
        ensures !Effective(gate, Fold(gate, view, init[..i]), init[i])
      {
        assert init[..i] == events[..i];
      }
      IneffectiveBatchIsSilent(gate, view, init);
      assert !Effective(gate, Fold(gate, view, events[..|init|]), events[|init|]);
    }
  }

  // ----- sorted entries -----

  /** Entries with a non-comparable pk come first and are never compared; the rest are strictly
      ordered, so they carry distinct pks. */
  predicate Precedes(order: Order, a: Value, b: Value) {
    !IsPkComparable(a) || Before(order, a, b)
  }

  ghost predicate Sorted(order: Order, es: seq<Entry>) {
    forall i, j :: 0 <= i < j < |es| ==> Precedes(order, es[i].pk, es[j].pk)
  }

  function RowsOf(es: seq<Entry>): (rows: seq<Row>)
    ensures |rows| == |es|
    ensures forall i :: 0 <= i < |es| ==> rows[i] == es[i].row
  {
    seq(|es|, i requires 0 <= i < |es| => es[i].row)
  }

  /** The pk map and the entries hold the same comparable entries. */
  ghost predicate Mirrors(index: map<Value, Entry>, es: seq<Entry>) {
    (forall i :: 0 <= i < |es| && IsPkComparable(es[i].pk) ==>
                   es[i].pk in index && index[es[i].pk] == es[i]) &&
    (forall k :: k in index ==> IsPkComparable(k) && index[k].pk == k && index[k] in es)
  }

  ghost predicate AllOfKind(kind: PkKind, es: seq<Entry>) {
    forall i :: 0 <= i < |es| ==> OfKind(kind, es[i].pk)
  }

  /** What the two representations of one state agree on. */
  ghost predicate Coherent(order: Order, kind: PkKind, index: map<Value, Entry>, es: seq<Entry>) {
    Sorted(order, es) && AllOfKind(kind, es) && Mirrors(index, es)
  }

  /** The same non-comparable entries at the same places. */
  ghost predicate SameLoose(a: seq<Entry>, b: seq<Entry>) {
    (forall i :: 0 <= i < |a| && !IsPkComparable(a[i].pk) ==> i < |b| && b[i] == a[i]) &&
    (forall i :: 0 <= i < |b| && !IsPkComparable(b[i].pk) ==> i < |a| && b[i] == a[i])
  }

  lemma SameLooseChains(a: seq<Entry>, b: seq<Entry>, c: seq<Entry>)
    requires SameLoose(a, b) && SameLoose(b, c)
    ensures SameLoose(a, c)
  {
  }

  function ViewOf(index: map<Value, Entry>): View {
    map k | k in index :: index[k].row
  }

  lemma ViewOfUpdates(index: map<Value, Entry>, e: Entry)
    ensures ViewOf(index[e.pk := e]) == ViewOf(index)[e.pk := e.row]
    ensures ViewOf(index - {e.pk}) == ViewOf(index) - {e.pk}
  {
  }

  lemma InsertKeepsMirror(index: map<Value, Entry>, es: seq<Entry>, at: nat, e: Entry)
    requires Mirrors(index, es) && IsPkComparable(e.pk) && e.pk !in index && at <= |es|
    ensures Mirrors(index[e.pk := e], es[..at] + [e] + es[at..])
  {
    var es' := es[..at] + [e] + es[at..];
    var index' := index[e.pk := e];
    forall k | k in index' ensures index'[k] in es' {
      if k == e.pk {
        assert es'[at] == e;
      } else {
        var i :| 0 <= i < |es| && es[i] == index[k];
        assert es'[if i < at then i else i + 1] == index[k];
      }
    }
  }

  lemma InsertKeepsSorted(order: Order, kind: PkKind, index: map<Value, Entry>, es: seq<Entry>, at: nat, e: Entry)
    requires Coherent(order, kind, index, es)
    requires IsPkComparable(e.pk) && OfKind(kind, e.pk) && e.pk !in index
    requires at <= |es|
    requires forall i :: 0 <= i < at ==> Precedes(order, es[i].pk, e.pk)
    requires forall i :: at <= i < |es| ==> Before(order, e.pk, es[i].pk)
    ensures
      var es' := es[..at] + [e] + es[at..];
      Coherent(order, kind, index[e.pk := e], es') && SameLoose(es, es')
  {
    InsertKeepsMirror(index, es, at, e);
    InsertKeepsOrder(order, es, at, e);
    hide Mirrors, Sorted, SameLoose;
  }

  lemma InsertKeepsOrder(order: Order, es: seq<Entry>, at: nat, e: Entry)
    requires Sorted(order, es) && IsPkComparable(e.pk) && at <= |es|
    requires forall i :: 0 <= i < at ==> Precedes(order, es[i].pk, e.pk)
    requires forall i :: at <= i < |es| ==> Before(order, e.pk, es[i].pk)
    ensures
      var es' := es[..at] + [e] + es[at..];
      Sorted(order, es') && SameLoose(es, es')
  {
    var es' := es[..at] + [e] + es[at..];
    assert forall i :: 0 <= i < |es'| ==> es'[i] == if i < at then es[i] else if i == at then e else es[i - 1];
    assert forall i :: at <= i < |es| ==> IsPkComparable(es[i].pk);
    hide Before;
  }

  /** What comes before the middle of sorted entries comes before all behind it; what does not comes
      after all up to it. */
  lemma BesideMiddle(order: Order, es: seq<Entry>, mid: nat, pk: Value)
    requires Sorted(order, es) && mid < |es| && SameKind(pk, es[mid].pk) && pk != es[mid].pk
    ensures Before(order, pk, es[mid].pk) ==> forall i :: mid <= i < |es| ==> Before(order, pk, es[i].pk)
    ensures !Before(order, pk, es[mid].pk) ==> forall i :: 0 <= i <= mid ==> Precedes(order, es[i].pk, pk)
  {
    forall i | 0 <= i < |es|
      ensures i >= mid && Before(order, pk, es[mid].pk) ==> Before(order, pk, es[i].pk)
      ensures i <= mid && !Before(order, pk, es[mid].pk) ==> Precedes(order, es[i].pk, pk)
    {
      BeforeIsStrictOrder(order, pk, es[mid].pk, es[i].pk);
      BeforeIsStrictOrder(order, es[i].pk, es[mid].pk, pk);
      if i < mid {
        assert Precedes(order, es[i].pk, es[mid].pk);
      } else if i > mid {
        assert Precedes(order, es[mid].pk, es[i].pk);
      }
    }
  }

  lemma Spliced(order: Order, es: seq<Entry>, at: nat, e: Entry)
    requires Sorted(order, es) && IsPkComparable(e.pk) && at <= |es|
    requires forall i :: 0 <= i < at ==> Precedes(order, es[i].pk, e.pk)
    requires forall i :: at <= i < |es| ==> Before(order, e.pk, es[i].pk)
    ensures
      var es' := es[..at] + [e] + es[at..];
      Sorted(order, es') && multiset(es') == multiset(es) + multiset{e}
  {
    InsertKeepsOrder(order, es, at, e);
    hide Sorted, Before;
    assert es == es[..at] + es[at..];
  }

  lemma ReplaceKeepsSorted(order: Order, kind: PkKind, index: map<Value, Entry>, es: seq<Entry>, at: nat, e: Entry)
    requires Coherent(order, kind, index, es)
    requires at < |es| && es[at].pk == e.pk && IsPkComparable(e.pk)
    ensures
      var es' := es[at := e];
      Coherent(order, kind, index[e.pk := e], es') && SameLoose(es, es')
  {
    var es' := es[at := e];
    var index' := index[e.pk := e];
    PkLessTotal(e.pk, e.pk);
    forall k | k in index' ensures IsPkComparable(k) && index'[k].pk == k && index'[k] in es' {
      if k == e.pk {
        assert es'[at] == e;
      } else {
        var i :| 0 <= i < |es| && es[i] == index[k];
        assert es'[i] == index[k];
      }
    }
  }

  function Without(es: seq<Entry>, at: nat): (r: seq<Entry>)
    requires at < |es|
    ensures |r| == |es| - 1
    ensures forall i :: 0 <= i < |r| ==> r[i] == es[if i < at then i else i + 1]
  {
    es[..at] + es[at + 1..]
  }

  lemma RemovedPkIsUnique(order: Order, es: seq<Entry>, at: nat)
    requires Sorted(order, es)
    requires at < |es| && IsPkComparable(es[at].pk)
    ensures forall i :: 0 <= i < |es| && i != at ==> es[i].pk != es[at].pk
    ensures forall i :: at < i < |es| ==> IsPkComparable(es[i].pk)
  {
    PkLessTotal(es[at].pk, es[at].pk);
    forall i | 0 <= i < |es| && i != at
      ensures es[i].pk != es[at].pk && (i > at ==> IsPkComparable(es[i].pk))
    {
      assert if i < at then Precedes(order, es[i].pk, es[at].pk) else Precedes(order, es[at].pk, es[i].pk);
    }
  }

  lemma RemoveKeepsMirror(order: Order, index: map<Value, Entry>, es: seq<Entry>, at: nat)
    requires Sorted(order, es) && Mirrors(index, es)
    requires at < |es| && IsPkComparable(es[at].pk)
    ensures Mirrors(index - {es[at].pk}, Without(es, at))
  {
    RemovedPkIsUnique(order, es, at);
    var es' := Without(es, at);
    forall k | k in index && k != es[at].pk ensures index[k] in es' {
      var i :| 0 <= i < |es| && es[i] == index[k];
      assert es'[if i < at then i else i - 1] == index[k];
    }
  }

  lemma RemoveKeepsSorted(order: Order, kind: PkKind, index: map<Value, Entry>, es: seq<Entry>, at: nat)
    requires Coherent(order, kind, index, es)
    requires at < |es| && IsPkComparable(es[at].pk)
    ensures Coherent(order, kind, index - {es[at].pk}, Without(es, at))
    ensures SameLoose(es, Without(es, at))
  {
    RemovedPkIsUnique(order, es, at);
    RemoveKeepsMirror(order, index, es, at);
  }

  function KeyByPk(rows: seq<Row>): (es: seq<Entry>)
    ensures |es| == |rows| && forall i :: 0 <= i < |rows| ==> es[i] == Entry(Field(rows[i], "$pk"), rows[i])
  {
    seq(|rows|, i requires 0 <= i < |rows| => Entry(Field(rows[i], "$pk"), rows[i]))
  }

  /** The entries of a page that are comparable and not held yet. */
  function Unheld(index: map<Value, Entry>, es: seq<Entry>): (r: seq<Entry>)
    ensures forall i :: 0 <= i < |r| ==> IsPkComparable(r[i].pk)
  {
    if es == [] then []
    else
      var last := es[|es| - 1];
      Unheld(index, es[..|es| - 1]) + if IsPkComparable(last.pk) && last.pk !in index then [last] else []
  }

  /** In a sorted whole, the next comparable entry is new to the map. */
  lemma MirrorGrows(order: Order, index: map<Value, Entry>, es: seq<Entry>, e: Entry, whole: seq<Entry>)
    requires Mirrors(index, es) && Sorted(order, whole) && IsPkComparable(e.pk)
    requires |es| < |whole| && whole[..|es|] == es && whole[|es|] == e
    ensures Mirrors(index[e.pk := e], es + [e])
  {
    PkLessTotal(e.pk, e.pk);
    forall i | 0 <= i < |es| ensures es[i].pk != e.pk {
      assert es[i] == whole[i] && Precedes(order, whole[i].pk, whole[|es|].pk);
    }
    var index' := index[e.pk := e];
    forall k | k in index' ensures index'[k] in es + [e] {
      if k != e.pk { assert index[k] in es; }
    }
  }

  // ----- the listing a view determines -----

  ghost predicate Keyed(kind: PkKind, view: View) {
    forall k :: k in view ==> IsPkComparable(k) && OfKind(kind, k)
  }

  ghost predicate IsFirst(order: Order, keys: set<Value>, k: Value) {
    k in keys && forall k' :: k' in keys && k' != k ==> Before(order, k, k')
  }

  lemma {:induction false} FirstExists(order: Order, kind: PkKind, keys: set<Value>)
    requires keys != {} && forall k :: k in keys ==> IsPkComparable(k) && OfKind(kind, k)
    ensures exists k :: IsFirst(order, keys, k)
    decreases keys
  {
    var k :| k in keys;
    var rest := keys - {k};
    if rest == {} {
      assert forall k' :: k' in keys && k' != k ==> k' in rest;
      assert IsFirst(order, keys, k);
    } else {
      FirstExists(order, kind, rest);
      var m :| IsFirst(order, rest, m);
      var first := if Before(order, k, m) then k else m;
      forall k' | k' in keys && k' != first ensures Before(order, first, k') {
        BeforeIsStrictOrder(order, k, m, k');
        if k' != k {
          assert k' in rest;
        }
      }
      assert IsFirst(order, keys, first);
    }
  }

  /** The rows of a view in display order: what an ORDER BY pk query returns for it. */
  ghost function Listing(order: Order, kind: PkKind, view: View): (es: seq<Entry>)
    requires Keyed(kind, view)
    ensures |es| == |view|
    ensures forall i :: 0 <= i < |es| ==> es[i].pk in view && view[es[i].pk] == es[i].row
    decreases |view|
  {
    if view == map[] then []
    else
      FirstExists(order, kind, view.Keys);
      var k :| IsFirst(order, view.Keys, k);
      var rest := view - {k};
      assert rest.Keys == view.Keys - {k};
      assert |rest| < |view| by { assert |rest.Keys| == |view.Keys| - 1; }
      [Entry(k, view[k])] + Listing(order, kind, rest)
  }

  lemma {:induction false} ListingIsSorted(order: Order, kind: PkKind, view: View)
    requires Keyed(kind, view)
    ensures Sorted(order, Listing(order, kind, view))
    ensures forall k :: k in view ==> Entry(k, view[k]) in Listing(order, kind, view)
    decreases |view|
  {
    if view != map[] {
      FirstExists(order, kind, view.Keys);
      var es := Listing(order, kind, view);
      var rest := view - {es[0].pk};
      assert rest.Keys == view.Keys - {es[0].pk};
      assert |rest| < |view| by { assert |rest.Keys| == |view.Keys| - 1; }
      var tail := Listing(order, kind, rest);
      assert es == [Entry(es[0].pk, view[es[0].pk])] + tail;
      ListingIsSorted(order, kind, rest);
      SortedCons(order, es[0], tail);
      forall k | k in view ensures Entry(k, view[k]) in es {
        if k != es[0].pk {
          assert Entry(k, rest[k]) in tail;
        }
      }
    }
  }

  lemma SortedCons(order: Order, e: Entry, tail: seq<Entry>)
    requires Sorted(order, tail)
    requires forall i :: 0 <= i < |tail| ==> Precedes(order, e.pk, tail[i].pk)
    ensures Sorted(order, [e] + tail)
  {
  }

  /** Sorted entries are determined by the map they mirror, so two cores (or a core and a fresh
      SELECT) with equal views show equal lists. */
  lemma {:induction false} ListingIsUnique(order: Order, kind: PkKind, index: map<Value, Entry>, es: seq<Entry>)
    requires Coherent(order, kind, index, es)
    requires forall i :: 0 <= i < |es| ==> IsPkComparable(es[i].pk)
    ensures Keyed(kind, ViewOf(index))
    ensures es == Listing(order, kind, ViewOf(index))
    decreases |es|
  {
    if es == [] {
      EmptyMirror(index);
    } else {
      RemoveKeepsSorted(order, kind, index, es, 0);
      assert Without(es, 0) == es[1..];
      ListingIsUnique(order, kind, index - {es[0].pk}, es[1..]);
      ListingPeels(order, kind, index, es);
    }
  }

  lemma EmptyMirror(index: map<Value, Entry>)
    requires Mirrors(index, [])
    ensures ViewOf(index) == map[]
  {
    assert index.Keys == {};
  }

  lemma ListingPeels(order: Order, kind: PkKind, index: map<Value, Entry>, es: seq<Entry>)
    requires Coherent(order, kind, index, es)
    requires es != [] && IsPkComparable(es[0].pk)
    requires Keyed(kind, ViewOf(index)) && Keyed(kind, ViewOf(index - {es[0].pk}))
    requires es[1..] == Listing(order, kind, ViewOf(index - {es[0].pk}))
    ensures es == Listing(order, kind, ViewOf(index))
  {
    var view := ViewOf(index);
    assert es[0].pk in view;
    ViewOfUpdates(index, es[0]);
    FirstExists(order, kind, view.Keys);
    var k := Listing(order, kind, view)[0].pk;
    assert view.Keys == index.Keys;
    FirstKeyIsUnique(order, index, es, k);
    assert Listing(order, kind, view) == [Entry(k, view[k])] + Listing(order, kind, view - {k});
    assert es == [es[0]] + es[1..];
  }

  lemma FirstKeyIsUnique(order: Order, index: map<Value, Entry>, es: seq<Entry>, k: Value)
    requires Sorted(order, es) && Mirrors(index, es)
    requires es != [] && IsPkComparable(es[0].pk)
    requires IsFirst(order, index.Keys, k)
    ensures k == es[0].pk
  {
    if k != es[0].pk {
      assert index[k] in es;
      var i :| 0 <= i < |es| && es[i] == index[k];
      assert Precedes(order, es[0].pk, es[i].pk);
      BeforeIsStrictOrder(order, k, es[0].pk, k);
    }
  }

  // ----- the class -----

  class PulseMergeCore {
    const ranged: bool
    ghost const kind: PkKind
    var pkMap: map<Value, Entry>
    var entries: seq<Entry>
    var data: seq<Row>
    var order: Order
    var limit: Option<int>
    var rangeStart: Option<Value>
    var rangeEnd: Option<Value>

    ghost predicate Valid()
      reads this
    {
      Coherent(order, kind, pkMap, entries) &&
      data == RowsOf(entries) && RangeOfKind(kind, rangeStart) && RangeOfKind(kind, rangeEnd)
    }

    function Gate(): Gate
      reads `order, `limit, `rangeStart, `rangeEnd
    {
      if ranged then Ranged(order, limit, rangeStart, rangeEnd) else FullSet
    }

    function View(): View
      reads `pkMap
    {
      ViewOf(pkMap)
    }

    constructor (ranged: bool, order: Order, ghost kind: PkKind)
      ensures Valid() && View() == map[] && data == []
      ensures this.ranged == ranged && this.order == order && this.kind == kind
      ensures limit.None? && rangeStart.None? && rangeEnd.None?
    {
      this.ranged, this.order, this.kind := ranged, order, kind;
      pkMap, entries, data := map[], [], [];
      limit, rangeStart, rangeEnd := None, None, None;
    }

    /** Takes the given entries as they come. Entries sorted by a SELECT make a valid core. */
    method Rebuild(es: seq<Entry>)
      modifies this`pkMap, this`entries, this`data
      ensures entries == es && data == RowsOf(es)
      ensures Sorted(order, es) && AllOfKind(kind, es) ==> Mirrors(pkMap, es)
    {
      var nextPkMap: map<Value, Entry> := map[];
      for i := 0 to |es|
        invariant Sorted(order, es) ==> Mirrors(nextPkMap, es[..i])
      {
        ghost var before := nextPkMap;
        var entry := es[i];
        assert es[..i + 1] == es[..i] + [entry];
        if IsPkComparable(entry.pk) {
          nextPkMap := nextPkMap[entry.pk := entry];
          if Sorted(order, es) && entry.pk in before {
            assert before[entry.pk] in es[..i];
            PkLessTotal(entry.pk, entry.pk);
          }
        }
        if Sorted(order, es) {
          forall k | k in nextPkMap ensures nextPkMap[k] in es[..i + 1] {
            if k != entry.pk || !IsPkComparable(entry.pk) { assert before[k] in es[..i]; }
          }
        }
      }
      assert es[..|es|] == es;
      pkMap := nextPkMap;
      CommitEntries(es);
    }

    /** rebuildFromRows: wire rows carry their pk as `$pk`. */
    method RebuildFromRows(rows: seq<Row>)
      modifies this`pkMap, this`entries, this`data
      ensures entries == KeyByPk(rows) && data == rows
      ensures Sorted(order, entries) && AllOfKind(kind, entries) ==> Mirrors(pkMap, entries)
    {
      Rebuild(KeyByPk(rows));
      assert RowsOf(KeyByPk(rows)) == rows;
    }

    /** appendRows: a load-more page goes to the end, unsorted, minus rows already held. A page that
        continues the order keeps the core valid. */
    method AppendRows(rows: seq<Row>) returns (appended: bool)
      requires Valid()
      modifies this`pkMap, this`entries, this`data
      ensures entries == old(entries) + Unheld(old(pkMap), KeyByPk(rows))
      ensures data == RowsOf(entries)
      ensures appended <==> Unheld(old(pkMap), KeyByPk(rows)) != []
      ensures Sorted(order, entries) && AllOfKind(kind, entries) ==> Valid()
    {
      var keyed := KeyByPk(rows);
      var toAppend: seq<Entry> := [];
      for i := 0 to |keyed|
        invariant toAppend == Unheld(pkMap, keyed[..i])
      {
        assert keyed[..i + 1][..i] == keyed[..i];
        if !IsPkComparable(keyed[i].pk) { continue; }
        if keyed[i].pk in pkMap { continue; }
        toAppend := toAppend + [keyed[i]];
      }
      assert keyed[..|keyed|] == keyed;
      if |toAppend| == 0 {
        assert entries + toAppend == entries;
        return false;
      }
      RegisterAll(toAppend);
      CommitEntries(entries + toAppend);
      return true;
    }

    method RegisterAll(toAppend: seq<Entry>)
      requires Mirrors(pkMap, entries)
      requires forall i :: 0 <= i < |toAppend| ==> IsPkComparable(toAppend[i].pk)
      modifies this`pkMap
      ensures Sorted(order, entries + toAppend) ==> Mirrors(pkMap, entries + toAppend)
    {
      var es := entries;
      assert es + toAppend[..0] == es;
      for i := 0 to |toAppend|
        invariant Sorted(order, es + toAppend) ==> Mirrors(pkMap, es + toAppend[..i])
      {
        if Sorted(order, es + toAppend) {
          MirrorGrows(order, pkMap, es + toAppend[..i], toAppend[i], es + toAppend);
        }
        assert es + toAppend[..i + 1] == es + toAppend[..i] + [toAppend[i]];
        pkMap := pkMap[toAppend[i].pk := toAppend[i]];
      }
      assert toAppend[..|toAppend|] == toAppend;
    }

    method CommitEntries(es: seq<Entry>)
      modifies this`entries, this`data
      ensures entries == es && data == RowsOf(es)
    {
      entries := es;
      data := RowsOf(es);
    }

    method Clear()
      modifies this
      ensures Valid() && View() == map[] && entries == [] && data == []
      ensures order == old(order) && limit == old(limit)
      ensures if ranged then rangeStart.None? && rangeEnd.None?
              else rangeStart == old(rangeStart) && rangeEnd == old(rangeEnd)
      requires Valid()
    {
      pkMap := map[];
      CommitEntries([]);
      if ranged {
        rangeStart, rangeEnd := None, None;
      }
    }

    predicate AcceptInsert(pk: Value)
      reads this
      requires IsPkComparable(pk) && OfKind(kind, pk)
      requires RangeOfKind(kind, rangeStart) && RangeOfKind(kind, rangeEnd)
      ensures AcceptInsert(pk) <==> Accepts(Gate(), pk)
    {
      if !ranged || limit.None? || rangeStart.None? || rangeEnd.None? then true
      else if order.Desc? then ComparePkValues(pk, rangeEnd.value) > 0
      else ComparePkValues(pk, rangeStart.value) < 0
    }

    method InsertSorted(es: seq<Entry>, entry: Entry) returns (updated: seq<Entry>, ghost at: nat)
      requires Sorted(order, es) && AllOfKind(kind, es)
      requires IsPkComparable(entry.pk) && OfKind(kind, entry.pk)
      requires forall i :: 0 <= i < |es| ==> es[i].pk != entry.pk
      ensures Sorted(order, updated) && multiset(updated) == multiset(es) + multiset{entry}
      ensures at <= |es| && updated == es[..at] + [entry] + es[at..]
      ensures forall i :: 0 <= i < at ==> Precedes(order, es[i].pk, entry.pk)
      ensures forall i :: at <= i < |es| ==> Before(order, entry.pk, es[i].pk)
    {
      var low, high := 0, |es|;
      while low < high
        invariant 0 <= low <= high <= |es|
        invariant forall i :: 0 <= i < low ==> Precedes(order, es[i].pk, entry.pk)
        invariant forall i :: high <= i < |es| ==> Before(order, entry.pk, es[i].pk)
      {
        var mid := (low + high) / 2;
        var midPk := es[mid].pk;
        if !IsPkComparable(midPk) {
          assert forall i :: 0 <= i < mid ==> !IsPkComparable(es[i].pk) by {
            forall i | 0 <= i < mid ensures !IsPkComparable(es[i].pk) {
              assert Precedes(order, es[i].pk, es[mid].pk);
            }
          }
          low := mid + 1;
          continue;
        }
        var comparison := ComparePkValues(entry.pk, midPk);
        var goesBefore := if order.Desc? then comparison > 0 else comparison < 0;
        BesideMiddle(order, es, mid, entry.pk);
        if goesBefore {
          high := mid;
        } else {
          low := mid + 1;
        }
      }
      hide Sorted, Precedes, Before, IsPkComparable, OfKind;
      updated, at := es[..low] + [entry] + es[low..], low;
      Spliced(order, es, low, entry);
    }

    method IndexOf(es: seq<Entry>, entry: Entry) returns (at: int)
      ensures -1 <= at < |es|
      ensures at >= 0 ==> es[at] == entry
      ensures forall i :: 0 <= i < (if at < 0 then |es| else at) ==> es[i] != entry
    {
      at := 0;
      while at < |es|
        invariant 0 <= at <= |es| && forall i :: 0 <= i < at ==> es[i] != entry
      {
        if es[at] == entry { return; }
        at := at + 1;
      }
      at := -1;
    }

    /** Applies a batch. The new view is the fold of the batch over the old one, the entries stay
        its sorted image, and the result says whether any event wrote state. */
    method ApplyEvents(events: seq<Event>) returns (mutated: bool)
      requires Valid()
      requires forall i :: 0 <= i < |events| ==> OfKind(kind, EventPk(Gate(), events[i]))
      modifies this`pkMap, this`entries, this`data
      ensures Valid()
      ensures View() == Fold(Gate(), old(View()), events)
      ensures mutated <==> SomeEffective(Gate(), old(View()), events)
      ensures SameLoose(old(entries), entries)
    {
      if |events| == 0 {
        assert !SomeEffective(Gate(), View(), events);
        return false;
      }
      var updated;
      updated, mutated := MergeBatch(entries, events);
      if mutated { CommitEntries(updated); }
    }

    method MergeBatch(es: seq<Entry>, events: seq<Event>) returns (updated: seq<Entry>, mutated: bool)
      requires Coherent(order, kind, pkMap, es)
      requires RangeOfKind(kind, rangeStart) && RangeOfKind(kind, rangeEnd)
      requires forall i :: 0 <= i < |events| ==> OfKind(kind, EventPk(Gate(), events[i]))
      modifies this`pkMap
      ensures Coherent(order, kind, pkMap, updated) && SameLoose(es, updated)
      ensures View() == Fold(Gate(), old(View()), events)
      ensures mutated <==> SomeEffective(Gate(), old(View()), events)
      ensures !mutated ==> updated == es
    {
      ghost var gate, view := Gate(), View();
      assert !SomeEffective(gate, view, events[..0]) && Fold(gate, view, events[..0]) == view;
      assert SameLoose(es, es);
      hide Coherent, SameLoose, SomeEffective, Effective, Step, Fold, EventPk;
      updated, mutated := es, false;
      for i := 0 to |events|
        invariant Coherent(order, kind, pkMap, updated) && SameLoose(es, updated)
        invariant View() == Fold(gate, view, events[..i])
        invariant mutated <==> SomeEffective(gate, view, events[..i])
        invariant !mutated ==> updated == es
      {
        BatchStep(gate, view, events, i);
        ghost var before := updated;
        var effective;
        updated, effective := ApplyOne(updated, events[i]);
        SameLooseChains(es, before, updated);
        mutated := mutated || effective;
      }
      assert events[..|events|] == events;
    }

    /** One turn of the event loop: updates the pk map in place and returns the entries. */
    method ApplyOne(es: seq<Entry>, event: Event) returns (updated: seq<Entry>, effective: bool)
      requires Coherent(order, kind, pkMap, es)
      requires RangeOfKind(kind, rangeStart) && RangeOfKind(kind, rangeEnd)
      requires OfKind(kind, EventPk(Gate(), event))
      modifies this`pkMap
      ensures Coherent(order, kind, pkMap, updated) && SameLoose(es, updated)
      ensures View() == Step(Gate(), old(View()), event)
      ensures effective <==> Effective(Gate(), old(View()), event)
      ensures !effective ==> updated == es
    {
      var pk := EventPk(Gate(), event);
      updated, effective := es, false;
      if !IsPkComparable(pk) { return; }
      assert pk !in pkMap ==> View() - {pk} == View();
      match event {
        case Insert(row, _) =>
          if pk in pkMap { return; }
          if !AcceptInsert(pk) { return; }
          updated := AddEntry(es, Entry(pk, row));
        case Update(row, _, _, matchesNew) =>
          if pk in pkMap {
            if matchesNew {
              updated := ReplaceEntry(es, Entry(pk, row));
            } else {
              updated := RemoveEntry(es, pk);
            }
          } else if matchesNew {
            updated := AddEntry(es, Entry(pk, row));
          } else {
            return;
          }
        case Delete(_, _) =>
          if pk !in pkMap { return; }
          updated := RemoveEntry(es, pk);
      }
      effective := true;
    }

    method AddEntry(es: seq<Entry>, entry: Entry) returns (updated: seq<Entry>)
      requires Coherent(order, kind, pkMap, es)
      requires IsPkComparable(entry.pk) && OfKind(kind, entry.pk) && entry.pk !in pkMap
      modifies this`pkMap
      ensures View() == old(View())[entry.pk := entry.row]
      ensures Coherent(order, kind, pkMap, updated) && SameLoose(es, updated)
    {
      ghost var at;
      updated, at := InsertSorted(es, entry);
      InsertKeepsSorted(order, kind, pkMap, es, at, entry);
      ViewOfUpdates(pkMap, entry);
      pkMap := pkMap[entry.pk := entry];
    }

    method ReplaceEntry(es: seq<Entry>, entry: Entry) returns (updated: seq<Entry>)
      requires Coherent(order, kind, pkMap, es)
      requires entry.pk in pkMap
      modifies this`pkMap
      ensures View() == old(View())[entry.pk := entry.row]
      ensures Coherent(order, kind, pkMap, updated) && SameLoose(es, updated)
    {
      var existingIndex := IndexOf(es, pkMap[entry.pk]);
      ReplaceKeepsSorted(order, kind, pkMap, es, existingIndex, entry);
      ViewOfUpdates(pkMap, entry);
      pkMap := pkMap[entry.pk := entry];
      updated := es[existingIndex := entry];
    }

    method RemoveEntry(es: seq<Entry>, pk: Value) returns (updated: seq<Entry>)
      requires Coherent(order, kind, pkMap, es)
      requires pk in pkMap
      modifies this`pkMap
      ensures View() == old(View()) - {pk}
      ensures Coherent(order, kind, pkMap, updated) && SameLoose(es, updated)
    {
      var existingIndex := IndexOf(es, pkMap[pk]);
      RemoveKeepsSorted(order, kind, pkMap, es, existingIndex);
      ViewOfUpdates(pkMap, pkMap[pk]);
      pkMap := pkMap - {pk};
      updated := Without(es, existingIndex);
    }

    /** What the collection shows is a function of the view alone. */
    lemma DataIsListing()
      requires Valid()
      requires forall i :: 0 <= i < |entries| ==> IsPkComparable(entries[i].pk)
      ensures Keyed(kind, View())
      ensures data == RowsOf(Listing(order, kind, View()))
    {
      ListingIsUnique(order, kind, pkMap, entries);
    }
  }
}
