/** Two runs of the pull protocol that end with a matching row missing: a reset when too many events are
    pending, and a load-more after an update has brought a row in. */
module HttpRuns {
  import opened Values
  import Filter
  import opened SqlPredicate
  import opened MergeCore
  import opened Queries
  import opened Wal
  import opened Replay
  import opened Limited
  import opened Events
  import opened Pull
  import PulseQuery
  import Paging
  import opened HttpMachine
  import HttpPull
  import opened HttpRead
  import opened HttpSync

  // ----- the table and the query -----

  function RowOf(n: real): Row { map["id" := Num(n)] }

  /** All rows, ascending. */
  function AllRows(schema: Schema, limit: Option<nat>): Query {
    Query(Filter.AlwaysTrue, schema, {"id"}, {"id"}, "id", Asc, limit)
  }

  function WorldOf(schema: Schema, limit: Option<nat>, start: Table): World {
    World(Wire, AllRows(schema, limit), Numbers, start)
  }

  lemma AllRowsMatch(schema: Schema, limit: Option<nat>)
    ensures WfQuery(AllRows(schema, limit)) && NoReservedColumns(AllRows(schema, limit))
    ensures forall row :: Matches(Wire, AllRows(schema, limit), row)
  {
  }

  lemma RowIsWf(schema: Schema, limit: Option<nat>, n: real)
    ensures WfRow(AllRows(schema, limit), Numbers, RowOf(n)) && Field(RowOf(n), "id") == Num(n)
  {
  }

  /** A server with an empty log, and a client that has not subscribed. */
  ghost function Begin(w: World): Http {
    Http([], 0, 0, [], 0, 0, {0, 1}, Fresh(w, [], map[], 0, 0), 1, 0, Window(None, None), None, None)
  }

  lemma BeginIsInitial(w: World)
    requires w.lens.Wire? && WfQuery(w.q) && NoReservedColumns(w.q) && WfTable(w.q, w.kind, w.start)
    ensures Initial(w, Begin(w)) && Inv(w, Begin(w))
  {
    InitialIsInv(w, Begin(w));
  }

  // ----- putting runs together -----

  lemma {:induction false} RunsSnoc(w: World, s0: Http, actions: seq<Action>, s: Http, a: Action)
    requires Inv(w, s0) && Runs(w, s0, actions, s) && Enabled(w, s, a)
    ensures Inv(w, s) && Runs(w, s0, actions + [a], Perform(w, s, a)) && Inv(w, Perform(w, s, a))
    decreases |actions|
  {
    hide Inv, Enabled, Perform;
    RunsKeepInv(w, s0, actions, s);
    ActionKeepsInv(w, s, a);
    if actions == [] {
      OneAction(w, s, a);
      assert actions + [a] == [a];
    } else {
      ActionKeepsInv(w, s0, actions[0]);
      RunsSnoc(w, Perform(w, s0, actions[0]), actions[1..], s, a);
      assert (actions + [a])[1..] == actions[1..] + [a];
    }
  }

  lemma OneAction(w: World, s: Http, a: Action)
    requires Inv(w, s) && Enabled(w, s, a)
    ensures Sound(w, s) && Runs(w, s, [a], Perform(w, s, a))
  {
    hide Perform, Enabled;
    InvGives(w, s);
    assert [a][1..] == [];
  }

  /** Reading the cursor and subscribing from the beginning. */
  lemma Subscribed(w: World, s0: Http) returns (actions: seq<Action>, s: Http)
    requires Initial(w, s0) && s0 == Begin(w)
    ensures Runs(w, s0, actions, s) && Inv(w, s)
    ensures s == Perform(w, Perform(w, s0, ReadCursor), Subscribe)
  {
    InitialIsInv(w, s0);
    assert Runs(w, s0, [], s0);
    RunsSnoc(w, s0, [], s0, ReadCursor);
    var s1 := Perform(w, s0, ReadCursor);
    RunsSnoc(w, s0, [] + [ReadCursor], s1, Subscribe);
    actions, s := [] + [ReadCursor] + [Subscribe], Perform(w, s1, Subscribe);
  }

  // ----- the first page -----

  /** The first page of an ascending table of numbers ends at its smallest row, if it takes one. */
  lemma FirstOfPage(w: World, s: Http, first: Value)
    requires Sound(w, s) && w.q.order == Asc && w.kind == Numbers
    requires first in SelectNow(w, s) && forall pk :: pk in SelectNow(w, s) && pk != first ==> PkLess(first, pk)
    requires w.q.limit.Some? ==> w.q.limit.value >= 1
    ensures FirstPage(w, s) != [] && FirstPage(w, s)[0] == Entry(first, SelectNow(w, s)[first])
    ensures w.q.limit == Some(1) ==> FirstPage(w, s) == [Entry(first, SelectNow(w, s)[first])]
  {
    hide SelectNow, ListingNow;
    ListingNowIs(w, s);
    hide Sound;
    FirstOfListing(w.kind, SelectNow(w, s), ListingNow(w, s), first);
  }

  lemma FirstOfListing(kind: PkKind, view: View, es: seq<Entry>, first: Value)
    requires IsListing(Asc, kind, view, es) && first in view
    requires forall pk :: pk in view && pk != first ==> PkLess(first, pk)
    ensures es != [] && es[0] == Entry(first, view[first])
  {
    var i :| 0 <= i < |es| && es[i] == Entry(first, view[first]);
    assert es[0] in es;
    assert i > 0 ==> Precedes(Asc, es[0].pk, es[i].pk);
    PkLessTotal(first, es[0].pk);
  }

  // ----- more events than a pull may carry -----

  /** Row 2 arrives and is then written again and again. */
  function Burst(n: nat): seq<Pending> {
    if n == 0 then []
    else if n == 1 then [PendingInsert(Num(2.0), RowOf(2.0))]
    else Burst(n - 1) + [PendingUpdate(Num(2.0), RowOf(2.0), RowOf(2.0))]
  }

  function OneRow(): Table { map[Num(1.0) := RowOf(1.0)] }

  function TwoRows(): Table { map[Num(1.0) := RowOf(1.0), Num(2.0) := RowOf(2.0)] }

  lemma {:induction false} BurstIs(schema: Schema, n: nat)
    ensures |Burst(n)| == n
    ensures ApplyPendings(OneRow(), Burst(n)) == if n == 0 then OneRow() else TwoRows()
    ensures WfPendings(AllRows(schema, None), Numbers, OneRow(), Burst(n))
  {
    if n > 0 {
      BurstIs(schema, n - 1);
      BurstStep(schema, n);
    }
  }

  lemma BurstStep(schema: Schema, n: nat)
    requires n > 0 && |Burst(n - 1)| == n - 1
    requires ApplyPendings(OneRow(), Burst(n - 1)) == if n == 1 then OneRow() else TwoRows()
    requires WfPendings(AllRows(schema, None), Numbers, OneRow(), Burst(n - 1))
    ensures |Burst(n)| == n && ApplyPendings(OneRow(), Burst(n)) == TwoRows()
    ensures WfPendings(AllRows(schema, None), Numbers, OneRow(), Burst(n))
  {
    var q, init, last := AllRows(schema, None), Burst(n - 1), Burst(n)[|Burst(n)| - 1];
    var before := if n == 1 then OneRow() else TwoRows();
    assert Burst(n) == init + [last];
    BurstLast(schema, n);
    hide *;
    OnePending(q, Numbers, before, last);
    WfPendingsConcat(q, Numbers, OneRow(), init, [last]);
    ApplyPendingsConcat(OneRow(), init, [last]);
  }

  lemma BurstLast(schema: Schema, n: nat)
    requires n > 0
    ensures
      var last, before := Burst(n)[|Burst(n)| - 1], if n == 1 then OneRow() else TwoRows();
      WfPending(AllRows(schema, None), Numbers, before, last) && ApplyPending(before, last) == TwoRows()
  {
    RowIsWf(schema, None, 2.0);
  }

  /** Ingesting the next n events. */
  lemma {:induction false} IngestMore(w: World, s0: Http, actions: seq<Action>, s: Http,
      n: nat) returns (actions': seq<Action>, s': Http)
    requires Inv(w, s0) && Runs(w, s0, actions, s) && s.logged + n <= |s.h|
    ensures Runs(w, s0, actions', s') && Inv(w, s')
    ensures s' == s.(logged := s.logged + n, log := s'.log) && |s'.log| == |s.log| + n && s'.log[..|s.log|] == s.log
    ensures forall k :: |s.log| <= k < |s'.log| ==> s'.log[k].snapshot > LatestSnapshot(s.log)
    ensures LatestSnapshot(s'.log) >= LatestSnapshot(s.log)
    decreases n
  {
    if n == 0 {
      RunsKeepInv(w, s0, actions, s);
      actions', s' := actions, s;
    } else {
      hide Inv, Runs, Stored;
      actions', s' := IngestMore(w, s0, actions, s, n - 1);
      var snapshot := LatestSnapshot(s'.log) + 1;
      RunsSnoc(w, s0, actions', s', Ingest(snapshot));
      HttpPull.LogGrows(s'.log, Stored(w.q.pkKey, snapshot, s'.h[s'.logged]));
      actions', s' := actions' + [Ingest(snapshot)], Perform(w, s', Ingest(snapshot));
    }
  }

  lemma {:induction false} AllPicked(schema: Schema, limit: Option<nat>, since: nat, log: seq<EventRow>)
    requires forall k :: 0 <= k < |log| ==> log[k].snapshot > since
    ensures PickedSince(AllRows(schema, limit), since, log) == log
  {
    if log != [] {
      AllPicked(schema, limit, since, log[..|log| - 1]);
      assert Picked(AllRows(schema, limit), log[|log| - 1]);
      assert log == log[..|log| - 1] + [log[|log| - 1]];
    }
  }

  lemma OverCap(schema: Schema, window: Window, log: seq<EventRow>, cap: nat)
    requires |log| > cap && forall k :: 0 <= k < |log| ==> log[k].snapshot > 0
    ensures Incremental(AllRows(schema, None), window, 0, log, cap) == ResetDue(Cap)
  {
    AllPicked(schema, None, 0, log);
    LatestIsMax(log);
    assert log[0] in log;
  }

  /** The run has reached a reset that is due because of the cap, the client pulls once more after it,
      has consumed everything, and still misses the row. */
  ghost predicate ResetLoses(w: World, cap: nat, s0: Http, earlier: seq<Action>, s: Http, s': Http, pk: Value) {
    && Initial(w, s0) && Runs(w, s0, earlier, s) && s.reading.Some?
    && Incremental(w.q, s.window, s.since, s.log, cap) == ResetDue(Cap)
    && PullsAfter(w, s, Reset, [Reset, PullIncrement(cap)], s')
    && s'.client.reach <= s'.client.seen == s'.logged == |s'.h|
    && pk in ViewAt(w, s'.h, |s'.h|) && pk !in s'.client.view
  }

  /** The subscriber's state before the burst. */
  lemma SubscribedToOne(schema: Schema, s0: Http) returns (actions: seq<Action>, s: Http)
    requires s0 == Begin(WorldOf(schema, None, OneRow()))
    ensures
      var w := WorldOf(schema, None, OneRow());
      && Initial(w, s0) && Runs(w, s0, actions, s) && Inv(w, s)
      && s.h == [] && s.logged == 0 && s.base == 0 && s.off == 0 && s.log == [] && s.epoch == s.tokenEpoch &&
        s.since == 0
      && s.reading.None? && s.window.rangeEnd == Some(Num(1.0))
  {
    var w := WorldOf(schema, None, OneRow());
    AllRowsMatch(schema, None);
    RowIsWf(schema, None, 1.0);
    BeginIsInitial(w);
    actions, s := Subscribed(w, s0);
    var s1 := Perform(w, s0, ReadCursor);
    InvGives(w, s1);
    PageOfOneRow(schema, s1);
    SubscribeIs(w, s1);
    hide Inv, Initial, Runs, OneRow, AllRows, Fresh, SelectNow, FirstPage, ListingNow;
  }

  lemma PageOfOneRow(schema: Schema, s: Http)
    requires Sound(WorldOf(schema, None, OneRow()), s) && s.h == []
    ensures Paging.EndsOf(Asc, FirstPage(WorldOf(schema, None, OneRow()), s)).rangeEnd == Some(Num(1.0))
  {
    var w := WorldOf(schema, None, OneRow());
    assert TableNow(w, s) == OneRow();
    OneRowMatches(schema, s);
    hide SelectNow, AllRows, OneRow, TableNow;
    FirstOfPage(w, s, Num(1.0));
    ListingNowIs(w, s);
    var page := FirstPage(w, s);
    assert page == ListingNow(w, s);
    hide FirstPage, ListingNow, Sound;
    assert page[|page| - 1] in page;
  }

  lemma OneRowMatches(schema: Schema, s: Http)
    requires TableNow(WorldOf(schema, None, OneRow()), s) == OneRow()
    ensures forall pk :: pk in SelectNow(WorldOf(schema, None, OneRow()), s) <==> pk == Num(1.0)
  {
    AllRowsMatch(schema, None);
  }

  /** The same client once the burst is committed and ingested. */
  lemma BurstPending(schema: Schema, cap: nat, s0: Http) returns (actions: seq<Action>, s: Http)
    requires s0 == Begin(WorldOf(schema, None, OneRow()))
    ensures
      var w := WorldOf(schema, None, OneRow());
      && Initial(w, s0) && Runs(w, s0, actions, s) && Inv(w, s)
      && s.h == Burst(cap + 1) && s.logged == |s.h| == |s.log| == cap + 1 && s.base == 0 && s.off == 0
      && s.epoch == s.tokenEpoch && s.since == 0 && s.reading.None? && s.window.rangeEnd == Some(Num(1.0))
      && forall k :: 0 <= k < |s.log| ==> s.log[k].snapshot > 0
  {
    var w := WorldOf(schema, None, OneRow());
    actions, s := SubscribedToOne(schema, s0);
    InitialIsInv(w, s0);
    hide Inv, Burst, WfPendings, OneRow, AllRows, Initial, Runs;
    BurstCommits(schema, cap, s);
    RunsSnoc(w, s0, actions, s, Commit(Burst(cap + 1)));
    actions, s := actions + [Commit(Burst(cap + 1))], Perform(w, s, Commit(Burst(cap + 1)));
    assert LatestSnapshot(s.log) == 0;
    actions, s := IngestMore(w, s0, actions, s, cap + 1);
  }

  lemma BurstCommits(schema: Schema, cap: nat, s: Http)
    requires s.h == []
    ensures |Burst(cap + 1)| == cap + 1 && Enabled(WorldOf(schema, None, OneRow()), s, Commit(Burst(cap + 1)))
  {
    BurstIs(schema, cap + 1);
    hide Burst, WfPendings;
    assert TableNow(WorldOf(schema, None, OneRow()), s) == OneRow();
  }

  /** The cap and the window together: for every cap there is a run in which a client of an unlimited
      query shows row 1; row 2 arrives and more events than a pull may carry are pending; the reset that
      follows leaves row 2 out, and the client, having consumed everything, does not show it. */
  lemma CapResetLosesRow(schema: Schema, cap: nat)
    ensures exists s0, earlier, s, s' :: ResetLoses(WorldOf(schema, None, OneRow()), cap, s0, earlier, s, s', Num(2.0))
  {
    var w := WorldOf(schema, None, OneRow());
    var s0 := Begin(w);
    var pulling, before := BurstPending(schema, cap, s0);
    OverCap(schema, before.window, before.log, cap);
    hide Inv, Initial, Runs, Burst, OneRow, Incremental, PullsAfter, LostAtReset, ViewAt, Position, ResetLoses, AllRows;
    var earlier, s := CursorRead(w, s0, pulling, before);
    var s' := AfterReset(w, s, cap);
    LossIs(schema, cap, s0, earlier, s, s');
  }

  lemma CursorRead(w: World, s0: Http, actions: seq<Action>, s: Http) returns (actions': seq<Action>, s': Http)
    requires Initial(w, s0) && Runs(w, s0, actions, s) && Inv(w, s) && s.reading.None?
    ensures Runs(w, s0, actions', s') && Inv(w, s') && s' == s.(reading := Some(LatestSnapshot(s.log)))
  {
    InvGives(w, s);
    InitialIsInv(w, s0);
    hide Inv, Runs, Sound;
    RunsSnoc(w, s0, actions, s, ReadCursor);
    actions', s' := actions + [ReadCursor], Perform(w, s, ReadCursor);
  }

  lemma LossIs(schema: Schema, cap: nat, s0: Http, earlier: seq<Action>, s: Http, s': Http)
    requires
      var w := WorldOf(schema, None, OneRow());
      && Initial(w, s0) && Runs(w, s0, earlier, s) && Inv(w, s)
      && Incremental(w.q, s.window, s.since, s.log, cap) == ResetDue(Cap)
      && s.h == s'.h == Burst(cap + 1) && s.logged == |s.h| == |s.log| && s.base == 0 && s.off == 0
      && s.reading == Some(LatestSnapshot(s.log)) && s.window.rangeEnd == Some(Num(1.0))
      && PullsAfter(w, s, Reset, [Reset, PullIncrement(cap)], s')
      && s'.client.reach <= s'.client.seen == s'.logged == |s'.h|
    ensures ResetLoses(WorldOf(schema, None, OneRow()), cap, s0, earlier, s, s', Num(2.0))
  {
    var w := WorldOf(schema, None, OneRow());
    assert w.q.limit.None?;
    hide Inv, Initial, Runs, Burst, OneRow, Incremental, PullsAfter, LostAtReset, ViewAt, AllRows;
    RowTwoIsLost(schema, cap, s, s');
    ResetIsWholeIff(w, s0, earlier, s, [Reset, PullIncrement(cap)], s');
  }

  /** The reset, and a pull with the token it returned. */
  lemma AfterReset(w: World, s: Http, cap: nat) returns (s': Http)
    requires Inv(w, s) && s.reading == Some(LatestSnapshot(s.log)) && s.logged == |s.h|
    ensures PullsAfter(w, s, Reset, [Reset, PullIncrement(cap)], s')
    ensures s'.h == s.h && s'.logged == s.logged && s'.client.reach <= s'.client.seen == |s.h|
  {
    var s1 := ResetState(w, s);
    s' := QuietPull(w, s1, cap);
    hide Inv, Perform, Enabled;
    OneAction(w, s1, PullIncrement(cap));
    InvGives(w, s);
    assert [Reset, PullIncrement(cap)][1..] == [PullIncrement(cap)];
  }

  lemma ResetState(w: World, s: Http) returns (s1: Http)
    requires Inv(w, s) && s.reading == Some(LatestSnapshot(s.log))
    ensures Enabled(w, s, Reset) && Sound(w, s) && s1 == Perform(w, s, Reset) && Inv(w, s1)
    ensures s1.h == s.h && s1.logged == s.logged && s1.log == s.log && s1.since == LatestSnapshot(s.log)
    ensures s1.tokenEpoch == s1.epoch && s1.reading.None? && s1.client.reach == |s.h|
  {
    InvGives(w, s);
    ResetIs(w, s);
    ActionKeepsInv(w, s, Reset);
    s1 := Perform(w, s, Reset);
    hide Inv, Perform, ResetRows, Sound, Restrict, SelectNow, Paging.EndsOf, LatestSnapshot;
  }

  lemma QuietPull(w: World, s: Http, cap: nat) returns (s': Http)
    requires Inv(w, s) && s.since == LatestSnapshot(s.log) && s.tokenEpoch == s.epoch && s.reading.None?
    requires s.logged == |s.h| == s.client.reach
    ensures Enabled(w, s, PullIncrement(cap)) && Sound(w, s) && s' == Perform(w, s, PullIncrement(cap))
    ensures s'.h == s.h && s'.logged == s.logged && s'.client.reach <= s'.client.seen == |s.h|
  {
    InvGives(w, s);
    hide Inv, Sound;
    s' := Perform(w, s, PullIncrement(cap));
  }

  lemma RowTwoIsLost(schema: Schema, cap: nat, s: Http, s': Http)
    requires
      var w := WorldOf(schema, None, OneRow());
      && Inv(w, s) && s.h == s'.h == Burst(cap + 1) && s.logged == |s.h| == |s.log| && s.base == 0 && s.off == 0
      && s.reading == Some(LatestSnapshot(s.log)) && s.window.rangeEnd == Some(Num(1.0)) && s'.client.seen == |s.h|
    ensures
      var w := WorldOf(schema, None, OneRow());
      LostAtReset(w, s, s', Num(2.0)) && Num(2.0) in ViewAt(w, s'.h, |s'.h|)
  {
    hide Inv, Burst, SelectNow, ViewAt;
    RowTwoIsThere(schema, cap, s);
    CursorAtEnd(s);
    assert !Touched(s'.h, CursorPosition(s), s'.client.seen, Num(2.0));
    hide Touched, CursorPosition;
  }

  lemma RowTwoIsThere(schema: Schema, cap: nat, s: Http)
    requires Inv(WorldOf(schema, None, OneRow()), s) && s.h == Burst(cap + 1)
    ensures
      var w := WorldOf(schema, None, OneRow());
      Num(2.0) in SelectNow(w, s) && SelectNow(w, s) == ViewAt(w, s.h, |s.h|)
  {
    var w := WorldOf(schema, None, OneRow());
    TableAfterBurst(schema, cap, s);
    InvGives(w, s);
    hide Inv, Burst, SelectNow, ViewAt, IsListing, ListingNow, Sound, TableNow, OneRow, TwoRows, AllRows;
    ListingNowIs(w, s);
    RowTwoMatches(schema, s);
  }

  lemma TableAfterBurst(schema: Schema, cap: nat, s: Http)
    requires s.h == Burst(cap + 1)
    ensures TableNow(WorldOf(schema, None, OneRow()), s) == TwoRows()
  {
    BurstIs(schema, cap + 1);
    hide Burst, WfPendings, ApplyPendings, OneRow, TwoRows, AllRows;
    assert s.h[..|s.h|] == s.h;
  }

  lemma CursorAtEnd(s: Http)
    requires s.reading == Some(LatestSnapshot(s.log)) && s.logged == |s.h| == |s.log| && s.base == 0 && s.off == 0
    ensures CursorPosition(s) == |s.h|
  {
    LatestIsMax(s.log);
    if s.log != [] { assert s.log[|s.log| - 1] in s.log; }
  }

  lemma RowTwoMatches(schema: Schema, s: Http)
    requires TableNow(WorldOf(schema, None, OneRow()), s) == TwoRows()
    ensures Num(2.0) in SelectNow(WorldOf(schema, None, OneRow()), s)
  {
    AllRowsMatch(schema, None);
  }

  // ----- an update past the window's end -----

  function FourRows(): Table {
    map[Num(1.0) := RowOf(1.0), Num(2.0) := RowOf(2.0), Num(3.0) := RowOf(3.0), Num(4.0) := RowOf(4.0)]
  }

  /** Row 3 is written, without changing. */
  function Rewrite(): Pending { PendingUpdate(Num(3.0), RowOf(3.0), RowOf(3.0)) }

  lemma RewriteIs(schema: Schema)
    ensures WfPendings(AllRows(schema, Some(1)), Numbers, FourRows(), [Rewrite()])
    ensures ApplyPendings(FourRows(), [Rewrite()]) == FourRows()
  {
    RowIsWf(schema, Some(1), 3.0);
    OnePending(AllRows(schema, Some(1)), Numbers, FourRows(), Rewrite());
  }

  lemma FourRowsAreWf(schema: Schema)
    ensures WfTable(AllRows(schema, Some(1)), Numbers, FourRows())
  {
    RowIsWf(schema, Some(1), 1.0);
    RowIsWf(schema, Some(1), 2.0);
    RowIsWf(schema, Some(1), 3.0);
    RowIsWf(schema, Some(1), 4.0);
  }

  /** The view of the four rows. */
  lemma FourRowsMatch(schema: Schema, s: Http)
    requires TableNow(WorldOf(schema, Some(1), FourRows()), s) == FourRows()
    ensures forall pk :: pk in SelectNow(WorldOf(schema, Some(1), FourRows()), s) <==> pk in FourRows()
  {
    AllRowsMatch(schema, Some(1));
  }

  /** A page of one row: the client shows row 1 and leaves out the other three. */
  lemma SubscribedToFour(schema: Schema, s0: Http) returns (actions: seq<Action>, s: Http)
    requires s0 == Begin(WorldOf(schema, Some(1), FourRows()))
    ensures
      var w := WorldOf(schema, Some(1), FourRows());
      && Initial(w, s0) && Runs(w, s0, actions, s) && Inv(w, s)
      && s.h == [] && s.logged == 0 && s.base == 0 && s.off == 0 && s.log == [] && s.epoch == s.tokenEpoch &&
        s.since == 0
      && s.reading.None? && s.client.seen == s.client.reach == 0
      && forall pk :: pk in s.client.past <==> pk in FourRows() && pk != Num(1.0)
  {
    var w := WorldOf(schema, Some(1), FourRows());
    AllRowsMatch(schema, Some(1));
    FourRowsAreWf(schema);
    BeginIsInitial(w);
    actions, s := Subscribed(w, s0);
    var s1 := Perform(w, s0, ReadCursor);
    ActionKeepsInv(w, s0, ReadCursor);
    FirstOfFour(schema, s1);
    SubscribeIs(w, s1);
    InvGives(w, s1);
    hide Inv, Initial, Runs, AllRows, FourRows, WfTable, FirstPage, SelectNow, Restrict, Paging.EndsOf, ViewAt;
  }

  lemma FirstOfFour(schema: Schema, s: Http)
    requires
      var w := WorldOf(schema, Some(1), FourRows());
      Inv(w, s) && s.h == [] && s.reading.Some?
    ensures
      var w := WorldOf(schema, Some(1), FourRows());
      Sound(w, s) && forall pk :: pk in Perform(w, s, Subscribe).client.past <==> pk in FourRows() && pk != Num(1.0)
  {
    var w := WorldOf(schema, Some(1), FourRows());
    assert TableNow(w, s) == FourRows();
    hide Inv, SelectNow, FirstPage, TableNow, Perform, Sound, AllRows;
    FourRowsMatch(schema, s);
    SmallestOfFour();
    hide FourRows;
    PageOfOne(w, s, Num(1.0));
  }

  lemma SmallestOfFour()
    ensures Num(1.0) in FourRows() && forall pk :: pk in FourRows() && pk != Num(1.0) ==> PkLess(Num(1.0), pk)
  {
  }

  /** A page of one row leaves out all but the smallest. */
  lemma PageOfOne(w: World, s: Http, first: Value)
    requires Inv(w, s) && s.reading.Some? && w.q.order == Asc && w.kind == Numbers && w.q.limit == Some(1)
    requires first in SelectNow(w, s) && forall pk :: pk in SelectNow(w, s) && pk != first ==> PkLess(first, pk)
    ensures Sound(w, s) && forall pk :: pk in Perform(w, s, Subscribe).client.past <==>
      pk in SelectNow(w, s) && pk != first
  {
    InvGives(w, s);
    hide Inv, SelectNow, FirstPage, Perform, Sound;
    FirstOfPage(w, s, first);
    SubscribeLeavesOut(w, s);
  }

  /** The write to row 3 is committed, ingested and pulled. */
  lemma RewrittenAndPulled(schema: Schema, s0: Http) returns (actions: seq<Action>, s: Http)
    requires s0 == Begin(WorldOf(schema, Some(1), FourRows()))
    ensures
      var w := WorldOf(schema, Some(1), FourRows());
      && Initial(w, s0) && Runs(w, s0, actions, s) && Inv(w, s)
      && s.h == [Rewrite()] && s.client.seen == s.client.reach == |s.h|
      && forall pk :: pk in s.client.past <==> pk in FourRows() && pk != Num(1.0) && pk != Num(3.0)
  {
    var w := WorldOf(schema, Some(1), FourRows());
    actions, s := SubscribedToFour(schema, s0);
    InitialIsInv(w, s0);
    RewriteIs(schema);
    assert TableNow(w, s) == FourRows();
    assert Monotone(w, s.h + [Rewrite()]) by { assert s.h + [Rewrite()] == [Rewrite()]; }
    hide Inv, WfPendings, Monotone;
    RunsSnoc(w, s0, actions, s, Commit([Rewrite()]));
    actions, s := actions + [Commit([Rewrite()])], Perform(w, s, Commit([Rewrite()]));
    assert s.h == [Rewrite()] && LatestSnapshot(s.log) == 0;
    actions, s := IngestMore(w, s0, actions, s, 1);
    actions, s := PullRewrite(schema, s0, actions, s);
  }

  lemma PullRewrite(schema: Schema, s0: Http, actions: seq<Action>, s: Http) returns (actions': seq<Action>, s': Http)
    requires
      var w := WorldOf(schema, Some(1), FourRows());
      && Inv(w, s0) && Runs(w, s0, actions, s) && Inv(w, s)
      && s.h == [Rewrite()] && s.logged == |s.log| == 1 && s.log[0].snapshot > 0 && s.epoch == s.tokenEpoch &&
        s.since == 0
      && s.off == 0 && s.reading.None? && s.client.seen == s.client.reach == 0
      && forall pk :: pk in s.client.past <==> pk in FourRows() && pk != Num(1.0)
    ensures
      var w := WorldOf(schema, Some(1), FourRows());
      && Runs(w, s0, actions', s') && Inv(w, s')
      && s'.h == s.h && s'.client.seen == s'.client.reach == 1
      && forall pk :: pk in s'.client.past <==> pk in FourRows() && pk != Num(1.0) && pk != Num(3.0)
  {
    var w := WorldOf(schema, Some(1), FourRows());
    StoredRewriteIsDelta(schema, s);
    hide Inv, Runs, Incremental, FourRows, Addressed, Rewrite;
    actions', s' := PulledOnce(w, s0, actions, s, 1);
    forall pk ensures Addressed(GateNow(w, s), s.h, 0, 1, pk) <==> pk == Num(3.0) {
      RewriteAddresses(GateNow(w, s), s.h, pk);
    }
  }

  lemma PulledOnce(w: World, s0: Http, actions: seq<Action>, s: Http, cap: nat) returns (actions': seq<Action>,
      s': Http)
    requires Inv(w, s0) && Runs(w, s0, actions, s) && Inv(w, s)
    requires s.tokenEpoch == s.epoch && s.reading.None? && Incremental(w.q, s.window, s.since, s.log, cap).Delta?
    ensures Runs(w, s0, actions', s') && Inv(w, s')
    ensures s'.h == s.h && s'.client.seen == s.logged && s'.client.reach == Max(s.client.reach, s.logged)
    ensures s'.client.past == StillOut(GateNow(w, s), s.client.past, s.h, s.client.seen, s.logged)
  {
    InvGives(w, s);
    assert Enabled(w, s, PullIncrement(cap));
    actions', s' := actions + [PullIncrement(cap)], Perform(w, s, PullIncrement(cap));
    hide Inv, Runs, Incremental, Sound, Enabled, Perform;
    RunsSnoc(w, s0, actions, s, PullIncrement(cap));
  }

  lemma RewriteAddresses(gate: Gate, h: History, pk: Value)
    requires h == [Rewrite()]
    ensures Addressed(gate, h, 0, 1, pk) <==> pk == Num(3.0)
  {
    assert h[0].pk == Num(3.0) && Takes(gate, h[0]);
  }

  lemma StoredRewriteIsDelta(schema: Schema, s: Http)
    requires
      var w := WorldOf(schema, Some(1), FourRows());
      Inv(w, s) && s.h == [Rewrite()] && s.logged == |s.log| == 1 && s.log[0].snapshot > 0 && s.off == 0 && s.since == 0
    ensures Incremental(AllRows(schema, Some(1)), s.window, 0, s.log, 1).Delta?
  {
    var w := WorldOf(schema, Some(1), FourRows());
    InvGives(w, s);
    hide Inv, Sound, FourRows, Increasing;
    assert StoredAt(w.q.pkKey, s.h, s.base, s.off, s.log, 0);
    assert s.log[0].op.OpUpdate?;
    OneUpdateIsDelta(schema, s.window, s.log);
  }

  lemma OneUpdateIsDelta(schema: Schema, window: Window, log: seq<EventRow>)
    requires |log| == 1 && log[0].snapshot > 0 && log[0].op.OpUpdate?
    ensures Incremental(AllRows(schema, Some(1)), window, 0, log, 1).Delta?
  {
    AllPicked(schema, Some(1), 0, log);
    hide AllRows, PickedSince, Wired;
    assert forall er :: er in log ==> er == log[0];
  }

  /** Row 3 is shown, so the cursor is row 3 or later. */
  lemma CursorPastTwo(schema: Schema, s: Http)
    requires
      var w := WorldOf(schema, Some(1), FourRows());
      && Inv(w, s) && s.h == [Rewrite()] && s.client.seen == s.client.reach == |s.h|
      && forall pk :: pk in s.client.past <==> pk in FourRows() && pk != Num(1.0) && pk != Num(3.0)
    ensures
      var w := WorldOf(schema, Some(1), FourRows());
      && Sound(w, s) && NextCursor(w, s).Some? && !Before(Asc, NextCursor(w, s).value, Num(2.0))
      && Num(2.0) in SelectNow(w, s) && Entry(Num(2.0), SelectNow(w, s)[Num(2.0)]) in ListingNow(w, s)
  {
    var w := WorldOf(schema, Some(1), FourRows());
    hide SelectNow, ListingNow, Sound, Inv, NextCursor, AllRows, ViewAt;
    assert Num(2.0) in FourRows() && Num(3.0) in FourRows();
    ViewOfFour(schema, s);
    InvGives(w, s);
    ListingNowIs(w, s);
    CursorPastThree(schema, s);
    hide FourRows, Sorted, PulseQuery.AllComparable, AllOfKind;
    NotPastThree(NextCursor(w, s).value);
  }

  lemma NotPastThree(cursor: Value)
    requires cursor == Num(3.0) || Before(Asc, Num(3.0), cursor)
    ensures !Before(Asc, cursor, Num(2.0))
  {
  }

  lemma ViewOfFour(schema: Schema, s: Http)
    requires Inv(WorldOf(schema, Some(1), FourRows()), s) && s.h == [Rewrite()]
    ensures
      var w := WorldOf(schema, Some(1), FourRows());
      && (forall pk :: pk in SelectNow(w, s) <==> pk in FourRows()) && ViewAt(w, s.h, |s.h|) == SelectNow(w, s)
  {
    var w := WorldOf(schema, Some(1), FourRows());
    TableStays(schema, s);
    InvGives(w, s);
    hide Inv, SelectNow, ListingNow, ViewAt, TableNow, FourRows, AllRows, IsListing;
    ListingNowIs(w, s);
    hide Sound;
    FourRowsMatch(schema, s);
  }

  lemma TableStays(schema: Schema, s: Http)
    requires s.h == [Rewrite()]
    ensures TableNow(WorldOf(schema, Some(1), FourRows()), s) == FourRows()
  {
    RewriteIs(schema);
    hide WfPendings, FourRows, Rewrite, AllRows;
    assert s.h[..|s.h|] == s.h;
  }

  lemma CursorPastThree(schema: Schema, s: Http)
    requires
      var w := WorldOf(schema, Some(1), FourRows());
      && Inv(w, s) && s.h == [Rewrite()] && s.client.seen == s.client.reach == |s.h| && Num(3.0) !in s.client.past
    ensures
      var w := WorldOf(schema, Some(1), FourRows());
      NextCursor(w, s).Some? && (NextCursor(w, s).value == Num(3.0) || Before(Asc, Num(3.0), NextCursor(w, s).value))
  {
    var w := WorldOf(schema, Some(1), FourRows());
    ViewOfFour(schema, s);
    InvGives(w, s);
    AgreementIsExact(w, s.h, s.client);
    ViewIsKeyed(w, s.h, s.client);
    ListingIs(Asc, Numbers, s.client.view);
    var es := ShownBy(w, s);
    assert Num(3.0) in FourRows() && Num(3.0) in s.client.view;
    hide Inv, Sound, Agrees, SelectNow, AllRows, ViewAt, FourRows;
    assert Entry(Num(3.0), s.client.view[Num(3.0)]) in es;
    LastIsFurthest(es, Num(3.0));
  }

  lemma LastIsFurthest(es: seq<Entry>, pk: Value)
    requires Sorted(Asc, es) && PulseQuery.AllComparable(es) && exists row :: Entry(pk, row) in es
    ensures es != [] && (es[|es| - 1].pk == pk || Before(Asc, pk, es[|es| - 1].pk))
  {
    var row :| Entry(pk, row) in es;
    var i :| 0 <= i < |es| && es[i] == Entry(pk, row);
    if i < |es| - 1 { assert Precedes(Asc, es[i].pk, es[|es| - 1].pk); }
  }

  /** A caught-up client whose load-more skips the row. */
  ghost predicate LoadMoreLoses(w: World, s0: Http, actions: seq<Action>, s: Http, e: Entry) {
    && Initial(w, s0) && Runs(w, s0, actions, s)
    && s.client.seen == s.client.reach == |s.h| && NextCursor(w, s).Some? && Sound(w, s)
    && Paging.Skipped(w.q.order, ListingNow(w, s), ShownBy(w, s), s.window, w.q.limit, e)
  }

  /** With pages of one row the client shows row 1; a write to row 3 brings it in; the next load-more
      asks for what follows 3, and row 2 is neither shown, nor loaded, nor to be loaded later. */
  lemma LoadMoreSkipsRow(schema: Schema)
    ensures exists s0, actions, s, e ::
      LoadMoreLoses(WorldOf(schema, Some(1), FourRows()), s0, actions, s, e) && e.pk == Num(2.0)
  {
    var w := WorldOf(schema, Some(1), FourRows());
    var s0 := Begin(w);
    var actions, s := RewrittenAndPulled(schema, s0);
    assert Num(2.0) in FourRows();
    hide Inv, Initial, Runs, SelectNow, ListingNow, NextCursor, ShownBy, Paging.Skipped, Sound, AllRows, FourRows,
        Before;
    CursorPastTwo(schema, s);
    var e := Entry(Num(2.0), SelectNow(w, s)[Num(2.0)]);
    CaughtUpLoadMoreSkips(w, s, e);
    assert LoadMoreLoses(w, s0, actions, s, e);
  }
}
