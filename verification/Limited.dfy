/** Replay behind the insert gate of a limited query, whose client holds part of the view. The gate
    (shared/pk-utils.ts, shared/ranged-merge-core.ts) takes an insert only at the leading edge of
    the window, and rests on primary keys being handed out in one direction. */
module Limited {
  import opened Values
  import opened MergeCore
  import opened Queries
  import opened Wal
  import opened Replay

  /** A client's rows against the history. Pulls have consumed `h[..seen]`, the last full set of rows
      was read at `lead`, the latest rows of any kind at `reach`. `past` are the rows that reading
      left out and no event has brought up since. */
  datatype Client = Client(view: View, past: iset<Value>, seen: nat, lead: nat, reach: nat)

  // ----- the monotonic-pk invariant -----

  /** The pk occurs in one of the tables up to `m`. */
  ghost predicate Seen(w: World, h: History, m: nat, pk: Value) {
    exists j :: 0 <= j <= m && j <= |h| && pk in TableAt(w, h, j)
  }

  ghost predicate NewestAt(w: World, h: History, i: nat)
    requires i < |h|
  {
    h[i].PendingInsert? ==> forall pk :: Seen(w, h, i, pk) ==> Before(w.q.order, h[i].pk, pk)
  }

  /** An inserted row comes, in display order, before every row seen until then. */
  ghost predicate Monotone(w: World, h: History) {
    forall i :: 0 <= i < |h| ==> NewestAt(w, h, i)
  }

  lemma SeenLater(w: World, h: History, m: nat, m': nat, pk: Value)
    requires Seen(w, h, m, pk) && m <= m'
    ensures Seen(w, h, m', pk)
  {
    var j :| 0 <= j <= m && j <= |h| && pk in TableAt(w, h, j);
  }

  lemma SeenExtends(w: World, h: History, more: History, m: nat, pk: Value)
    requires m <= |h|
    ensures Seen(w, h + more, m, pk) <==> Seen(w, h, m, pk)
  {
    forall j: nat | j <= m ensures TableAt(w, h + more, j) == TableAt(w, h, j) {
      assert (h + more)[..j] == h[..j];
    }
  }

  /** A present row that was not seen by `m` was inserted since, so it comes before all seen then. */
  lemma {:induction false} LaterComesBefore(w: World, h: History, m: nat, now: nat, pk: Value, seen: Value)
    requires WfWorld(w, h) && Monotone(w, h) && m <= now <= |h|
    requires pk in TableAt(w, h, now) && Seen(w, h, m, seen)
    ensures Seen(w, h, m, pk) || Before(w.q.order, pk, seen)
    decreases now
  {
    hide WfWorld, TableAt;
    if m < now {
      if pk in TableAt(w, h, now - 1) {
        LaterComesBefore(w, h, m, now - 1, pk, seen);
      } else {
        NewRowIsInserted(w, h, now - 1, pk);
        assert NewestAt(w, h, now - 1);
        SeenLater(w, h, m, now - 1, seen);
      }
    }
  }

  lemma NewRowIsInserted(w: World, h: History, i: nat, pk: Value)
    requires WfWorld(w, h) && i < |h| && pk in TableAt(w, h, i + 1) && pk !in TableAt(w, h, i)
    ensures h[i].PendingInsert? && h[i].pk == pk
  {
    TableAtStep(w, h, i);
    EventIsWf(w, h, i);
  }

  // ----- agreement -----

  /** At `pk` the client shows the table as it stood somewhere between what it has consumed and what
      it has read, or the row is one that was left out and is not shown. */
  ghost predicate AgreesAt(w: World, h: History, c: Client, pk: Value)
    requires c.reach <= |h|
  {
    Shows(w, h, c.view, c.seen, c.reach, pk) || (pk in c.past && pk !in c.view)
  }

  function Front(c: Client): nat { Max(c.seen, c.lead) }

  /** A row left out is in the view, and not shown. */
  ghost predicate LeftOutAt(w: World, h: History, c: Client, pk: Value)
    requires Front(c) <= |h|
  {
    pk in c.past ==> pk !in c.view && pk in ViewAt(w, h, Front(c))
  }

  ghost predicate Agrees(w: World, h: History, c: Client) {
    c.seen <= c.reach <= |h| && c.lead <= c.reach && (forall pk :: AgreesAt(w, h, c, pk)) &&
      forall pk :: LeftOutAt(w, h, c, pk)
  }

  /** A row not shown and still to come in the log was left out, or gone when last read: the gate may
      turn its insert away. */
  ghost predicate AwaitedAt(w: World, h: History, c: Client, pk: Value)
    requires c.reach <= |h|
  {
    pk in c.view || Seen(w, h, c.seen, pk) || pk in c.past || GoneAt(w, h, c.lead, c.reach, pk)
  }

  ghost predicate GoneAt(w: World, h: History, lo: nat, hi: nat, pk: Value)
    requires hi <= |h|
  {
    exists i :: lo <= i <= hi && pk !in ViewAt(w, h, i)
  }

  /** What keeps the gate from turning away a row it should let in. */
  ghost predicate Admits(w: World, h: History, c: Client, rangeStart: Option<Value>, rangeEnd: Option<Value>) {
    && c.lead <= c.reach <= |h|
    && (forall pk :: AwaitedAt(w, h, c, pk))
    && (rangeStart.Some? ==> Seen(w, h, Front(c), rangeStart.value))
    && (rangeEnd.Some? ==> Seen(w, h, Front(c), rangeEnd.value))
    && (forall pk :: pk in c.view ==> Seen(w, h, Front(c), pk))
  }

  /** Once the log is consumed past everything read, every row shown is the current one, and the rows
      missing are exactly those left out. */
  lemma AgreementIsExact(w: World, h: History, c: Client)
    requires Agrees(w, h, c) && c.seen == c.reach
    ensures forall pk :: pk in c.view ==> pk in ViewAt(w, h, c.seen) && c.view[pk] == ViewAt(w, h, c.seen)[pk]
    ensures forall pk :: pk in ViewAt(w, h, c.seen) && pk !in c.view <==> pk in c.past
    ensures c.view == ViewAt(w, h, c.seen) <==> forall pk :: pk !in c.past
  {
    var current := ViewAt(w, h, c.seen);
    forall pk
      ensures Look(c.view, pk) == Look(current, pk) || (pk in c.past && pk !in c.view)
      ensures pk in c.past ==> pk !in c.view && pk in current
    {
      assert AgreesAt(w, h, c, pk) && LeftOutAt(w, h, c, pk);
    }
    forall pk | pk in c.view ensures pk in current && c.view[pk] == current[pk] {
      assert Look(c.view, pk) == Look(current, pk);
    }
    forall pk ensures pk in current && pk !in c.view <==> pk in c.past {
      assert pk !in c.past ==> Look(c.view, pk) == Look(current, pk);
    }
    if forall pk :: pk !in c.past { SameLooks(c.view, current); }
  }

  // ----- one event -----

  /** The gate lets the event through. */
  predicate Takes(gate: Gate, e: Pending) {
    e.PendingInsert? ==> Accepts(gate, e.pk)
  }

  function GatedRefresh(w: World, gate: Gate, view: View, e: Pending): View {
    if Takes(gate, e) then Refresh(w.lens, w.q, view, e) else view
  }

  function Consume(w: World, h: History, gate: Gate, c: Client): Client
    requires c.seen < |h|
  {
    c.(view := GatedRefresh(w, gate, c.view, h[c.seen]), seen := c.seen + 1, reach := Max(c.seen + 1, c.reach),
       past := if Takes(gate, h[c.seen]) then c.past - iset{h[c.seen].pk} else c.past)
  }

  ghost predicate GateOf(w: World, h: History, c: Client, gate: Gate) {
    && gate.Ranged? && gate.order == w.q.order && gate.limit == w.q.limit
    && (gate.limit.Some? ==> Monotone(w, h) && Admits(w, h, c, gate.rangeStart, gate.rangeEnd))
  }

  /** A turned-away insert concerns a row that is shown, left out, or gone when last read. */
  lemma TurnedAway(w: World, h: History, c: Client, gate: Gate)
    requires WfWorld(w, h) && GateOf(w, h, c, gate) && c.seen < |h|
    requires !Takes(gate, h[c.seen])
    ensures
      var pk := h[c.seen].pk;
      c.reach <= |h| && !Seen(w, h, c.seen, pk) && c.seen < c.lead <= c.reach &&
      (pk in c.view || pk in c.past || GoneAt(w, h, c.lead, c.reach, pk))
  {
    var pk := h[c.seen].pk;
    assert NewestAt(w, h, c.seen);
    BeforeIsStrictOrder(w.q.order, pk, pk, pk);
    assert AwaitedAt(w, h, c, pk);
  }

  lemma ConsumeAt(w: World, h: History, c: Client, gate: Gate, pk: Value)
    requires WfWorld(w, h) && Agrees(w, h, c) && GateOf(w, h, c, gate) && c.seen < |h|
    ensures AgreesAt(w, h, Consume(w, h, gate, c), pk)
  {
    hide Matches, Project, Shows, Refresh, ApplyPending, WfTable, ViewAt, GoneAt;
    AgreesHere(w, h, c, pk);
    if Takes(gate, h[c.seen]) {
      TakenAt(w, h, c, gate, pk);
    } else {
      TableAtStep(w, h, c.seen);
      EventIsWf(w, h, c.seen);
      TurnedAway(w, h, c, gate);
      if pk != h[c.seen].pk { InsertElsewhere(w, h, c.seen, pk); }
      TurnedAwayAgrees(w, h, c, h[c.seen].pk, pk);
      assert Consume(w, h, gate, c) == c.(seen := c.seen + 1);
    }
  }

  lemma InsertElsewhere(w: World, h: History, i: nat, pk: Value)
    requires i < |h| && pk != h[i].pk
    ensures Look(ViewAt(w, h, i + 1), pk) == Look(ViewAt(w, h, i), pk)
  {
    hide Matches, Project;
    TableAtStep(w, h, i);
  }

  lemma AgreesHere(w: World, h: History, c: Client, pk: Value)
    requires Agrees(w, h, c)
    ensures c.reach <= |h| && AgreesAt(w, h, c, pk)
  {
  }

  lemma TakenAt(w: World, h: History, c: Client, gate: Gate, pk: Value)
    requires WfWorld(w, h) && c.reach <= |h| && AgreesAt(w, h, c, pk) && c.seen < |h| && Takes(gate, h[c.seen])
    ensures AgreesAt(w, h, Consume(w, h, gate, c), pk)
  {
    hide Matches, Project, Refresh, ApplyPending, WfWorld, WfPending, WfTable, ViewOfTable, Shows;
    var lo, e := c.seen, h[c.seen];
    TableAtStep(w, h, lo);
    EventIsWf(w, h, lo);
    RefreshCatches(w.lens, w.q, w.kind, TableAt(w, h, lo), c.view, e, pk);
    if e.pk !in c.view { RefreshAbsent(w.lens, w.q, w.kind, TableAt(w, h, lo), c.view, e); }
    TakenAgrees(w, h, c, Consume(w, h, gate, c), e.pk, pk);
  }

  /** A row that is not shown is brought up by any event of its own. */
  lemma RefreshAbsent(lens: Lens, q: Query, kind: PkKind, t: Table, view: View, e: Pending)
    requires WfPending(q, kind, t, e) && e.pk !in view
    ensures Look(Refresh(lens, q, view, e), e.pk) == Look(ViewOfTable(lens, q, ApplyPending(t, e)), e.pk)
  {
  }

  lemma TakenAgrees(w: World, h: History, c: Client, c': Client, new_: Value, pk: Value)
    requires c.reach <= |h| && AgreesAt(w, h, c, pk) && c.seen < |h|
    requires c'.seen == c.seen + 1 && c'.reach == Max(c'.seen, c.reach) && c'.past == c.past - iset{new_}
    requires Look(c'.view, pk) == Look(ViewAt(w, h, c'.seen), pk) ||
             (Look(c'.view, pk) == Look(c.view, pk) && Look(c.view, pk) != Look(ViewAt(w, h, c.seen), pk))
    requires pk == new_ && pk !in c.view ==> Look(c'.view, pk) == Look(ViewAt(w, h, c'.seen), pk)
    ensures AgreesAt(w, h, c', pk)
  {
    hide ViewAt;
    if Look(c'.view, pk) != Look(ViewAt(w, h, c'.seen), pk) && Shows(w, h, c.view, c.seen, c.reach, pk) {
      var i :| c.seen <= i <= c.reach && Look(c.view, pk) == Look(ViewAt(w, h, i), pk);
      assert i != c.seen && Look(c'.view, pk) == Look(ViewAt(w, h, i), pk);
    }
  }

  lemma TurnedAwayAgrees(w: World, h: History, c: Client, new_: Value, pk: Value)
    requires c.seen < c.lead <= c.reach <= |h| && AgreesAt(w, h, c, pk)
    requires pk != new_ ==> Look(ViewAt(w, h, c.seen + 1), pk) == Look(ViewAt(w, h, c.seen), pk)
    requires new_ !in TableAt(w, h, c.seen)
    requires new_ in c.view || new_ in c.past || GoneAt(w, h, c.lead, c.reach, new_)
    ensures AgreesAt(w, h, c.(seen := c.seen + 1), pk)
  {
    hide ViewAt;
    var lo := c.seen;
    if pk == new_ && pk !in c.view && pk !in c.past {
      var i :| c.lead <= i <= c.reach && pk !in ViewAt(w, h, i);
      assert Look(c.view, pk) == Look(ViewAt(w, h, i), pk);
    } else if pk in c.view || pk !in c.past {
      var i :| lo <= i <= c.reach && Look(c.view, pk) == Look(ViewAt(w, h, i), pk);
      NotInView(w, h, lo, new_);
      if i == lo {
        assert Look(c.view, pk) == Look(ViewAt(w, h, lo + 1), pk);
      }
    }
  }

  lemma NotInView(w: World, h: History, i: nat, pk: Value)
    requires i <= |h| && pk !in TableAt(w, h, i)
    ensures pk !in ViewAt(w, h, i)
  {
  }

  /** Left-out rows stay in the view, and hidden, until an event of their own comes through. */
  lemma ConsumeLeavesOut(w: World, h: History, c: Client, gate: Gate, pk: Value)
    requires WfWorld(w, h) && Agrees(w, h, c) && GateOf(w, h, c, gate) && c.seen < |h|
    ensures LeftOutAt(w, h, Consume(w, h, gate, c), pk)
  {
    assert LeftOutAt(w, h, c, pk);
    if Takes(gate, h[c.seen]) {
      TableAtStep(w, h, c.seen);
      if pk != h[c.seen].pk { OtherRowsStay(w, TableAt(w, h, c.seen), c.view, h[c.seen], pk); }
      hide Refresh, Matches, Project, ApplyPending;
    } else {
      TurnedAway(w, h, c, gate);
    }
  }

  lemma OtherRowsStay(w: World, t: Table, view: View, e: Pending, pk: Value)
    requires pk != e.pk
    ensures pk in Refresh(w.lens, w.q, view, e) <==> pk in view
    ensures pk in ViewOfTable(w.lens, w.q, ApplyPending(t, e)) <==> pk in ViewOfTable(w.lens, w.q, t)
  {
  }

  /** Consuming the next event keeps a client in agreement. */
  lemma ConsumeAgrees(w: World, h: History, c: Client, gate: Gate)
    requires WfWorld(w, h) && Agrees(w, h, c) && GateOf(w, h, c, gate) && c.seen < |h|
    ensures Agrees(w, h, Consume(w, h, gate, c))
    ensures GateOf(w, h, Consume(w, h, gate, c), gate)
  {
    hide AgreesAt, LeftOutAt, WfWorld, Admits, Monotone;
    var c' := Consume(w, h, gate, c);
    forall pk ensures AgreesAt(w, h, c', pk) { ConsumeAt(w, h, c, gate, pk); }
    forall pk ensures LeftOutAt(w, h, c', pk) { ConsumeLeavesOut(w, h, c, gate, pk); }
    if gate.limit.Some? { ConsumeAdmits(w, h, c, gate); }
  }

  lemma ConsumeAdmits(w: World, h: History, c: Client, gate: Gate)
    requires WfWorld(w, h) && GateOf(w, h, c, gate) && c.seen < |h| && gate.limit.Some?
    ensures Admits(w, h, Consume(w, h, gate, c), gate.rangeStart, gate.rangeEnd)
  {
    var c' := Consume(w, h, gate, c);
    hide Seen, AwaitedAt, Monotone, WfWorld, Refresh;
    EventIsSeen(w, h, c.seen);
    forall pk | Seen(w, h, Front(c), pk) ensures Seen(w, h, Front(c'), pk) { SeenLater(w, h, Front(c), Front(c'), pk); }
    SeenLater(w, h, c.seen + 1, Front(c'), h[c.seen].pk);
    forall pk ensures AwaitedAt(w, h, c', pk) { AwaitedLater(w, h, c, gate, pk); }
    forall pk | pk in c'.view ensures Seen(w, h, Front(c'), pk) { ShownBefore(w, h, c, gate, pk); }
  }

  lemma EventIsSeen(w: World, h: History, i: nat)
    requires WfWorld(w, h) && i < |h|
    ensures Seen(w, h, i + 1, h[i].pk)
  {
    TableAtStep(w, h, i);
    EventIsWf(w, h, i);
    assert h[i].pk in TableAt(w, h, if h[i].PendingDelete? then i else i + 1);
  }

  lemma ShownBefore(w: World, h: History, c: Client, gate: Gate, pk: Value)
    requires c.seen < |h| && pk in Consume(w, h, gate, c).view
    ensures pk == h[c.seen].pk || pk in c.view
  {
  }

  lemma AwaitedLater(w: World, h: History, c: Client, gate: Gate, pk: Value)
    requires WfWorld(w, h) && c.seen < |h| && c.lead <= c.reach <= |h| && AwaitedAt(w, h, c, pk)
    ensures AwaitedAt(w, h, Consume(w, h, gate, c), pk)
  {
    hide Matches, Project, ViewAt;
    var lo := c.seen;
    EventIsSeen(w, h, lo);
    hide WfWorld;
    if Seen(w, h, lo, pk) {
      SeenLater(w, h, lo, lo + 1, pk);
    } else if pk != h[lo].pk && GoneAt(w, h, c.lead, c.reach, pk) {
      var i :| c.lead <= i <= c.reach && pk !in ViewAt(w, h, i);
    }
  }

  // ----- a stretch of events -----

  function GatedRefreshAll(w: World, gate: Gate, view: View, es: seq<Pending>): View {
    if es == [] then view
    else GatedRefresh(w, gate, GatedRefreshAll(w, gate, view, es[..|es| - 1]), es[|es| - 1])
  }

  /** An event of the row came through. */
  ghost predicate Addressed(gate: Gate, h: History, lo: nat, upto: nat, pk: Value) {
    exists k :: lo <= k < upto && k < |h| && h[k].pk == pk && Takes(gate, h[k])
  }

  ghost function StillOut(gate: Gate, past: iset<Value>, h: History, lo: nat, upto: nat): iset<Value> {
    iset pk | pk in past && !Addressed(gate, h, lo, upto, pk)
  }

  ghost function ConsumeUpto(w: World, h: History, gate: Gate, c: Client, upto: nat): Client
    requires c.seen <= upto <= |h|
  {
    c.(view := GatedRefreshAll(w, gate, c.view, h[c.seen..upto]), seen := upto, reach := Max(upto, c.reach),
       past := StillOut(gate, c.past, h, c.seen, upto))
  }

  lemma StillOutStep(gate: Gate, past: iset<Value>, h: History, lo: nat, i: nat)
    requires lo <= i < |h|
    ensures StillOut(gate, past, h, lo, i + 1) ==
      if Takes(gate, h[i]) then StillOut(gate, past, h, lo, i) - iset{h[i].pk} else StillOut(gate, past, h, lo, i)
  {
    forall pk ensures Addressed(gate, h, lo, i + 1, pk) <==>
      Addressed(gate, h, lo, i, pk) || (pk == h[i].pk && Takes(gate, h[i])) {
      if Addressed(gate, h, lo, i, pk) {
        var k :| lo <= k < i && k < |h| && h[k].pk == pk && Takes(gate, h[k]);
      }
    }
  }

  lemma ConsumeNothing(w: World, h: History, gate: Gate, c: Client)
    requires c.seen <= c.reach && c.seen <= |h|
    ensures ConsumeUpto(w, h, gate, c, c.seen) == c
  {
    assert h[c.seen..c.seen] == [];
    assert StillOut(gate, c.past, h, c.seen, c.seen) == c.past;
  }

  lemma ConsumeStep(w: World, h: History, gate: Gate, c: Client, i: nat)
    requires c.seen <= i < |h|
    ensures Consume(w, h, gate, ConsumeUpto(w, h, gate, c, i)) == ConsumeUpto(w, h, gate, c, i + 1)
  {
    hide GatedRefresh, StillOut, Takes;
    assert h[c.seen..i + 1][..i - c.seen] == h[c.seen..i];
    StillOutStep(gate, c.past, h, c.seen, i);
  }

  /** Replay absorption for any client: whatever part of the view it started from, consuming the log
      in order keeps it in agreement. */
  lemma {:induction false} ConsumeAllAgrees(w: World, h: History, c: Client, gate: Gate, upto: nat)
    requires WfWorld(w, h) && Agrees(w, h, c) && GateOf(w, h, c, gate) && c.seen <= upto <= |h|
    ensures Agrees(w, h, ConsumeUpto(w, h, gate, c, upto))
    ensures GateOf(w, h, ConsumeUpto(w, h, gate, c, upto), gate)
    decreases upto
  {
    hide Agrees, GateOf, GatedRefresh, StillOut;
    if c.seen < upto {
      ConsumeAllAgrees(w, h, c, gate, upto - 1);
      ConsumeAgrees(w, h, ConsumeUpto(w, h, gate, c, upto - 1), gate);
      ConsumeStep(w, h, gate, c, upto - 1);
    } else {
      AgreesBounds(w, h, c);
      ConsumeNothing(w, h, gate, c);
    }
  }

  lemma AgreesBounds(w: World, h: History, c: Client)
    requires Agrees(w, h, c)
    ensures c.seen <= c.reach <= |h|
  {
  }

  // ----- reading rows -----

  /** A client that has just read part of the table at `now`, its cursor standing at `at`. */
  ghost function Fresh(w: World, h: History, shown: View, at: nat, now: nat): Client
    requires now <= |h|
  {
    Client(shown, (iset pk | pk in ViewAt(w, h, now) && pk !in shown), at, now, now)
  }

  ghost predicate PartOf(part: View, whole: View) {
    forall pk :: pk in part ==> pk in whole && part[pk] == whole[pk]
  }

  lemma FreshAgrees(w: World, h: History, shown: View, at: nat, now: nat)
    requires at <= now <= |h| && PartOf(shown, ViewAt(w, h, now))
    ensures Agrees(w, h, Fresh(w, h, shown, at, now))
    ensures forall rangeStart: Option<Value>, rangeEnd: Option<Value> ::
      (rangeStart.Some? ==> rangeStart.value in shown) && (rangeEnd.Some? ==> rangeEnd.value in shown) ==>
      Admits(w, h, Fresh(w, h, shown, at, now), rangeStart, rangeEnd)
  {
    var c := Fresh(w, h, shown, at, now);
    forall pk ensures AgreesAt(w, h, c, pk) && AwaitedAt(w, h, c, pk) && (pk in shown ==> Seen(w, h, Front(c), pk)) {
      if pk !in c.past {
        assert Look(shown, pk) == Look(ViewAt(w, h, now), pk);
      }
      if pk in shown { assert pk in TableAt(w, h, now); }
    }
  }

  /** A client that adds rows read now. What it still leaves out is what matches now and is not shown. */
  ghost function Loaded(w: World, h: History, c: Client, loaded: View): Client {
    var view := c.view + loaded;
    c.(view := view, past := (iset pk | pk in c.past && pk in ViewAt(w, h, |h|) && pk !in view), reach := |h|)
  }

  lemma LoadedAgrees(w: World, h: History, c: Client, loaded: View)
    requires Agrees(w, h, c) && PartOf(loaded, ViewAt(w, h, |h|))
    ensures Agrees(w, h, Loaded(w, h, c, loaded))
  {
    var c' := Loaded(w, h, c, loaded);
    forall pk ensures LeftOutAt(w, h, c', pk) { assert LeftOutAt(w, h, c, pk); }
    forall pk ensures AgreesAt(w, h, c', pk) {
      assert AgreesAt(w, h, c, pk);
      if pk in loaded {
        assert Look(c'.view, pk) == Look(ViewAt(w, h, |h|), pk);
      } else if Shows(w, h, c.view, c.seen, c.reach, pk) {
        var i :| c.seen <= i <= c.reach && Look(c.view, pk) == Look(ViewAt(w, h, i), pk);
        assert Look(c'.view, pk) == Look(ViewAt(w, h, i), pk);
      } else if pk !in ViewAt(w, h, |h|) {
        assert Look(c'.view, pk) == Look(ViewAt(w, h, |h|), pk);
      }
    }
  }

  /** Rows loaded behind a cursor the gate has seen are rows it has seen. */
  lemma LoadedAdmits(w: World, h: History, c: Client, loaded: View, cursor: Value, rangeStart: Option<Value>,
      rangeEnd: Option<Value>)
    requires WfWorld(w, h) && Monotone(w, h) && Agrees(w, h, c) && Admits(w, h, c, rangeStart, rangeEnd)
    requires PartOf(loaded, ViewAt(w, h, |h|)) && Seen(w, h, Front(c), cursor)
    requires forall pk :: pk in loaded ==> Before(w.q.order, cursor, pk)
    ensures Admits(w, h, Loaded(w, h, c, loaded), rangeStart, rangeEnd)
    ensures forall pk :: pk in loaded ==> Seen(w, h, Front(c), pk)
  {
    var c' := Loaded(w, h, c, loaded);
    forall pk | pk in loaded ensures Seen(w, h, Front(c), pk) {
      LaterComesBefore(w, h, Front(c), |h|, pk, cursor);
      BeforeIsStrictOrder(w.q.order, cursor, pk, cursor);
    }
    forall pk ensures AwaitedAt(w, h, c', pk) {
      assert AwaitedAt(w, h, c, pk);
      if GoneAt(w, h, c.lead, c.reach, pk) {
        var i :| c.lead <= i <= c.reach && pk !in ViewAt(w, h, i);
      } else if pk in c.past && pk !in c'.past && pk !in c'.view {
        assert pk !in ViewAt(w, h, |h|);
      }
    }
  }

  // ----- more history -----

  lemma ViewAtExtends(w: World, h: History, more: History, i: nat)
    requires i <= |h|
    ensures ViewAt(w, h + more, i) == ViewAt(w, h, i)
  {
    assert (h + more)[..i] == h[..i];
  }

  lemma AgreesExtends(w: World, h: History, more: History, c: Client)
    requires Agrees(w, h, c)
    ensures Agrees(w, h + more, c)
  {
    ViewAtExtends(w, h, more, Front(c));
    forall pk ensures LeftOutAt(w, h + more, c, pk) { assert LeftOutAt(w, h, c, pk); }
    forall pk ensures AgreesAt(w, h + more, c, pk) {
      assert AgreesAt(w, h, c, pk);
      if Shows(w, h, c.view, c.seen, c.reach, pk) {
        var i :| c.seen <= i <= c.reach && Look(c.view, pk) == Look(ViewAt(w, h, i), pk);
        ViewAtExtends(w, h, more, i);
        assert Look(c.view, pk) == Look(ViewAt(w, h + more, i), pk);
      }
    }
  }

  lemma AdmitsExtends(w: World, h: History, more: History, c: Client, rangeStart: Option<Value>,
      rangeEnd: Option<Value>)
    requires Agrees(w, h, c) && Admits(w, h, c, rangeStart, rangeEnd)
    ensures Admits(w, h + more, c, rangeStart, rangeEnd)
  {
    forall pk ensures Seen(w, h + more, Front(c), pk) <==> Seen(w, h, Front(c), pk) {
      SeenExtends(w, h, more, Front(c), pk);
    }
    forall pk ensures AwaitedAt(w, h + more, c, pk) {
      assert AwaitedAt(w, h, c, pk);
      SeenExtends(w, h, more, c.seen, pk);
      if GoneAt(w, h, c.lead, c.reach, pk) {
        var i :| c.lead <= i <= c.reach && pk !in ViewAt(w, h, i);
        ViewAtExtends(w, h, more, i);
      }
    }
  }
}
