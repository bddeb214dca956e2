/** client/embedded/index.ts: one embedded collection. The closure variables of
    createPulseClient are fields here, and each stretch of code between two awaits is a method. */
module Collection {
  import opened Values
  import opened MergeCore
  import opened Queries
  import opened Wal

  /** A tapped event with its transaction's commit LSN. */
  datatype Tapped = Tapped(event: Pending, lsn: nat)

  /** What an onChange listener is told. */
  datatype Change = Change(events: seq<Event>, lsn: nat)

  /** The collection as a value. */
  datatype Coll = Coll(
    baselining: bool, buffer: seq<Tapped>, watermarkFloor: Option<nat>, handshakeGen: nat, view: View)

  // ----- the steps -----

  function TapStep(q: Query, c: Coll, tapped: Tapped): Coll {
    if c.baselining then c.(buffer := c.buffer + [tapped])
    else if c.watermarkFloor.Some? && tapped.lsn < c.watermarkFloor.value then c
    else c.(view := DeliverTap(q, c.view, tapped.event))
  }

  function BeginStep(c: Coll): Coll {
    c.(handshakeGen := c.handshakeGen + 1, baselining := true, buffer := [])
  }

  /** Draining the buffer over a fresh baseline: payloads below the watermark are skipped. */
  function Drain(q: Query, view: View, buffer: seq<Tapped>, watermark: nat): View {
    if buffer == [] then view
    else
      var before, last := Drain(q, view, buffer[..|buffer| - 1], watermark), buffer[|buffer| - 1];
      if last.lsn < watermark then before else DeliverTap(q, before, last.event)
  }

  /** What listeners are told of one merged event: nothing unless it changes state. */
  function Hears(q: Query, view: View, tapped: Tapped): seq<Change> {
    var event := BuildTapEvent(q, tapped.event);
    if event.Some? && Effective(FullSet, view, event.value) then [Change([event.value], tapped.lsn)] else []
  }

  /** And of a drained buffer. */
  function HearsDrain(q: Query, view: View, buffer: seq<Tapped>, watermark: nat): seq<Change> {
    if buffer == [] then []
    else
      var init, last := buffer[..|buffer| - 1], buffer[|buffer| - 1];
      HearsDrain(q, view, init, watermark) +
      if last.lsn < watermark then [] else Hears(q, Drain(q, view, init, watermark), last)
  }

  function ResolveStep(q: Query, c: Coll, gen: nat, baseline: View, watermark: nat): Coll {
    if gen != c.handshakeGen then c
    else Coll(false, [], Some(watermark), gen, Drain(q, baseline, c.buffer, watermark))
  }

  function RejectStep(c: Coll, gen: nat): Coll {
    if gen != c.handshakeGen then c else c.(baselining := false, buffer := [])
  }

  // ----- rows read by a baseline -----

  function ProjectRows(q: Query, rows: seq<Row>): (es: seq<Entry>)
    ensures |es| == |rows|
    ensures forall i :: 0 <= i < |rows| ==>
      es[i] == Entry(Field(rows[i], q.pkKey), ApplyColumnFilter(rows[i], q.selected))
  {
    seq(|rows|, i requires 0 <= i < |rows| => Entry(Field(rows[i], q.pkKey), ApplyColumnFilter(rows[i], q.selected)))
  }

  lemma MirrorOfListing(order: Order, kind: PkKind, view: View, index: map<Value, Entry>)
    requires Keyed(kind, view) && Mirrors(index, Listing(order, kind, view))
    ensures ViewOf(index) == view
  {
    var es := Listing(order, kind, view);
    ListingIsSorted(order, kind, view);
    forall k | k in view ensures k in index && index[k].row == view[k] {
      assert Entry(k, view[k]) in es;
      var i :| 0 <= i < |es| && es[i] == Entry(k, view[k]);
      assert IsPkComparable(es[i].pk);
    }
    forall k | k in index ensures k in view {
      assert index[k] in es;
    }
  }

  lemma ListingIsValid(order: Order, kind: PkKind, view: View)
    requires Keyed(kind, view)
    ensures
      var es := Listing(order, kind, view);
      Sorted(order, es) && AllOfKind(kind, es) && forall i :: 0 <= i < |es| ==> IsPkComparable(es[i].pk)
  {
    ListingIsSorted(order, kind, view);
  }

  class EmbeddedCollection {
    const q: Query
    const core: PulseMergeCore
    var baselining: bool
    var buffer: seq<Tapped>
    var watermarkFloor: Option<nat>
    var handshakeGen: nat
    var disposed: bool
    /** Every call made to the onChange listeners, oldest first. */
    var notified: seq<Change>

    /** The tap only ever addresses this collection's kind of pk. */
    ghost predicate Addressable(e: Pending)
      reads core
    {
      BuildTapEvent(q, e).Some? ==> OfKind(core.kind, BuildTapEvent(q, e).value.pk)
    }

    ghost predicate Valid()
      reads this, core
    {
      core.Valid() && !core.ranged && core.order == q.order &&
      (forall i :: 0 <= i < |core.entries| ==> IsPkComparable(core.entries[i].pk)) &&
      (forall i :: 0 <= i < |buffer| ==> Addressable(buffer[i].event))
    }

    function Abs(): Coll
      reads this, core
    {
      Coll(baselining, buffer, watermarkFloor, handshakeGen, core.View())
    }

    constructor (q: Query, ghost kind: PkKind)
      ensures Valid() && fresh(core) && core.kind == kind && this.q == q
      ensures Abs() == Coll(true, [], None, 0, map[])
      ensures !disposed && notified == []
    {
      this.q := q;
      core := new PulseMergeCore(false, q.order, kind);
      baselining, buffer, watermarkFloor, handshakeGen := true, [], None, 0;
      disposed, notified := false, [];
    }

    /** What the collection shows: the rows of its view, in the query's order. */
    method List() returns (rows: seq<Row>)
      requires Valid()
      ensures Keyed(core.kind, core.View())
      ensures rows == RowsOf(Listing(q.order, core.kind, core.View()))
    {
      core.DataIsListing();
      rows := core.data;
    }

    method Dispose()
      modifies `disposed
      ensures disposed
    {
      disposed := true;
    }

    method FireOnChange(events: seq<Event>, lsn: nat)
      modifies `notified
      ensures notified == if disposed then old(notified) else old(notified) + [Change(events, lsn)]
    {
      if disposed { return; }
      notified := notified + [Change(events, lsn)];
    }

    /** Listeners hear of an event exactly when it changed state and the collection still lives. */
    method ApplyEvent(walEvent: Pending, lsn: nat)
      requires Valid() && Addressable(walEvent)
      modifies `notified, core`pkMap, core`entries, core`data
      ensures Valid()
      ensures core.View() == DeliverTap(q, old(core.View()), walEvent)
      ensures notified == old(notified) + if disposed then [] else Hears(q, old(core.View()), Tapped(walEvent, lsn))
    {
      var event := BuildTapEvent(q, walEvent);
      assert notified + [] == notified;
      if event.None? { return; }
      var events := [event.value];
      assert events[..0] == [] && events[0] == event.value;
      var mutated := core.ApplyEvents(events);
      assert Fold(FullSet, old(core.View()), events[..0]) == old(core.View());
      if mutated { FireOnChange(events, lsn); }
    }

    method HandleTapEvent(walEvent: Pending, lsn: nat)
      requires Valid() && Addressable(walEvent)
      modifies `notified, `buffer, core`pkMap, core`entries, core`data
      ensures Valid()
      ensures Abs() == TapStep(q, old(Abs()), Tapped(walEvent, lsn))
      ensures notified == old(notified) +
        if disposed || old(baselining) || (watermarkFloor.Some? && lsn < watermarkFloor.value) then []
        else Hears(q, old(core.View()), Tapped(walEvent, lsn))
    {
      assert notified + [] == notified;
      if baselining {
        buffer := buffer + [Tapped(walEvent, lsn)];
        return;
      }
      if watermarkFloor.Some? && lsn < watermarkFloor.value { return; }
      ApplyEvent(walEvent, lsn);
    }

    /** runHandshake up to its await; the result is the token the rest of it carries. */
    method BeginHandshake() returns (gen: nat)
      requires Valid()
      modifies `handshakeGen, `baselining, `buffer
      ensures Valid()
      ensures Abs() == BeginStep(old(Abs())) && gen == handshakeGen
    {
      handshakeGen := handshakeGen + 1;
      gen := handshakeGen;
      baselining := true;
      buffer := [];
    }

    /** runHandshake after a rejected baseline read. */
    method RejectHandshake(gen: nat)
      requires Valid()
      modifies `baselining, `buffer
      ensures Valid()
      ensures Abs() == RejectStep(old(Abs()), gen)
    {
      if gen == handshakeGen {
        baselining := false;
        buffer := [];
      }
    }

    /** runHandshake after a completed baseline read. `rows` is what the SELECT returned, in order,
        and `baseline` the view those rows are the listing of. */
    method ResolveHandshake(gen: nat, rows: seq<Row>, watermark: nat, ghost baseline: View)
      returns (r: Option<nat>)
      requires Valid()
      requires Keyed(core.kind, baseline) && ProjectRows(q, rows) == Listing(q.order, core.kind, baseline)
      modifies this, core`pkMap, core`entries, core`data
      ensures Valid()
      ensures Abs() == ResolveStep(q, old(Abs()), gen, baseline, watermark)
      ensures r == if gen == old(handshakeGen) then Some(watermark) else None
      ensures disposed == old(disposed)
      ensures notified == old(notified) +
        if disposed || gen != old(handshakeGen) then [] else HearsDrain(q, baseline, old(buffer), watermark)
    {
      hide BuildTapEvent, Sorted, Mirrors, Drain, RowsOf, OfKind, Coherent, HearsDrain;
      assert notified + [] == notified;
      if gen != handshakeGen { return None; }
      RebuildBaseline(rows, baseline);
      var pending := buffer;
      buffer := [];
      baselining := false;
      watermarkFloor := Some(watermark);
      DrainBuffer(pending, watermark, baseline);
      return Some(watermark);
    }

    /** The core rebuilt from a baseline's rows shows that baseline. */
    method RebuildBaseline(rows: seq<Row>, ghost baseline: View)
      requires Valid()
      requires Keyed(core.kind, baseline) && ProjectRows(q, rows) == Listing(q.order, core.kind, baseline)
      modifies core`pkMap, core`entries, core`data
      ensures Valid() && core.View() == baseline
    {
      hide BuildTapEvent, Sorted, Mirrors, AllOfKind, RowsOf, OfKind, ViewOf, ProjectRows, Listing, Keyed;
      ListingIsValid(q.order, core.kind, baseline);
      core.Rebuild(ProjectRows(q, rows));
      MirrorOfListing(q.order, core.kind, baseline, core.pkMap);
    }

    method DrainBuffer(pending: seq<Tapped>, watermark: nat, ghost baseline: View)
      requires Valid() && core.View() == baseline
      requires forall i :: 0 <= i < |pending| ==> Addressable(pending[i].event)
      modifies `notified, core`pkMap, core`entries, core`data
      ensures Valid()
      ensures core.View() == Drain(q, baseline, pending, watermark)
      ensures notified == old(notified) + if disposed then [] else HearsDrain(q, baseline, pending, watermark)
    {
      hide BuildTapEvent, Hears, Coherent;
      for i := 0 to |pending|
        invariant Valid()
        invariant core.View() == Drain(q, baseline, pending[..i], watermark)
        invariant notified == old(notified) + if disposed then [] else HearsDrain(q, baseline, pending[..i], watermark)
      {
        assert pending[..i + 1][..i] == pending[..i];
        if pending[i].lsn < watermark { continue; }
        ApplyEvent(pending[i].event, pending[i].lsn);
      }
      assert pending[..|pending|] == pending;
    }
  }
}
