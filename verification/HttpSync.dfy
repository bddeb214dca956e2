/** The pull protocol over whole runs: convergence, windows, epochs. */
module HttpSync {
  import opened Values
  import opened MergeCore
  import Queries
  import Wal
  import opened Replay
  import opened Limited
  import Events
  import opened Pull
  import opened Paging
  import opened HttpMachine
  import opened HttpPull
  import opened HttpRead

  lemma ServerKeepsInv(w: World, s: Http, a: Action)
    requires Inv(w, s) && Enabled(w, s, a) && (a.Seed? || a.Rotate? || a.ReadCursor?)
    ensures Inv(w, Perform(w, s, a))
  {
    if a.Seed? {
      var s' := Perform(w, s, a);
      assert s.logged == s.base && s'.log[..0] == [];
    }
  }

  lemma PullKeepsInv(w: World, s: Http, cap: nat)
    requires Inv(w, s) && Enabled(w, s, PullIncrement(cap))
    ensures Inv(w, Perform(w, s, PullIncrement(cap)))
  {
    PullMovesToken(w, s, cap);
    PullKeepsAgreement(w, s, cap);
    if w.q.limit.Some? { PullKeepsLimit(w, s, cap); }
    hide Agrees, LimitOk, Wired, PickedSince, TokenOk;
  }

  lemma PullKeepsLimit(w: World, s: Http, cap: nat)
    requires Inv(w, s) && Enabled(w, s, PullIncrement(cap)) && w.q.limit.Some?
    ensures LimitOk(w, Perform(w, s, PullIncrement(cap)))
  {
    var s' := Perform(w, s, PullIncrement(cap));
    PullMovesWindow(w, s, cap);
    PullKeepsAgreement(w, s, cap);
    hide Agrees, Admits, Wired, PickedSince, TokenOk, Incremental, BoundsFrom;
    BoundsAdmit(w, s.h, s'.client, s.window, s'.window, s.logged);
  }

  lemma CommitKeepsInv(w: World, s: Http, events: seq<Wal.Pending>)
    requires Inv(w, s) && Enabled(w, s, Commit(events))
    ensures Inv(w, Perform(w, s, Commit(events)))
  {
    hide Wal.WfPending, Queries.WfTable, Shows, AgreesAt, Admits, Visible;
    assert s.h[..|s.h|] == s.h;
    Wal.WfPendingsConcat(w.q, w.kind, w.start, s.h, events);
    AgreesExtends(w, s.h, events, s.client);
    if w.q.limit.Some? { AdmitsExtends(w, s.h, events, s.client, s.window.rangeStart, s.window.rangeEnd); }
    forall i | s.off <= i < |s.log| ensures StoredAt(w.q.pkKey, s.h + events, s.base, s.off, s.log, i) {
      assert StoredAt(w.q.pkKey, s.h, s.base, s.off, s.log, i);
    }
  }

  lemma ActionKeepsInv(w: World, s: Http, a: Action)
    requires Inv(w, s) && Enabled(w, s, a)
    ensures Inv(w, Perform(w, s, a))
  {
    match a
    case Commit(events) => CommitKeepsInv(w, s, events);
    case Ingest(snapshot) => IngestKeepsInv(w, s, snapshot);
    case Seed(_, _) => ServerKeepsInv(w, s, a);
    case Rotate(_, _) => ServerKeepsInv(w, s, a);
    case ReadCursor => ServerKeepsInv(w, s, a);
    case Subscribe =>
      FirstPageIsBaseline(w, s);
      RebaseKeepsInv(w, s, FirstPage(w, s));
    case Reset =>
      ResetRowsAreBaseline(w, s);
      RebaseKeepsInv(w, s, ResetRows(w, s));
    case PullIncrement(cap) => PullKeepsInv(w, s, cap);
    case LoadMore => LoadMoreKeepsInv(w, s);
  }

  // ----- runs -----

  /** A server with some history and a log that starts at `base`, and a client that has no rows and no
      token of this server's yet. */
  ghost predicate Initial(w: World, s: Http) {
    && Sound(w, s) && LogOk(w, s) && s.epoch in s.used && s.tokenEpoch in s.used && s.tokenEpoch != s.epoch
    && s.reading.None? && s.window == Window(None, None) && s.edge.None?
    && s.client == Fresh(w, s.h, map[], 0, 0)
  }

  ghost predicate Runs(w: World, s: Http, actions: seq<Action>, s': Http)
    decreases |actions|
  {
    if actions == [] then s' == s
    else Sound(w, s) && Enabled(w, s, actions[0]) && Runs(w, Perform(w, s, actions[0]), actions[1..], s')
  }

  lemma {:induction false} RunsKeepInv(w: World, s: Http, actions: seq<Action>, s': Http)
    requires Inv(w, s) && Runs(w, s, actions, s')
    ensures Inv(w, s')
    decreases |actions|
  {
    if actions != [] {
      ActionKeepsInv(w, s, actions[0]);
      RunsKeepInv(w, Perform(w, s, actions[0]), actions[1..], s');
    }
  }

  lemma InitialIsInv(w: World, s: Http)
    requires Initial(w, s)
    ensures Inv(w, s)
  {
  }

  /** Convergence over HTTP. In every run, once pulls have consumed the history up to n = `seen`, at
      or past what was last read, every row the client shows is the current row at n, and the rows it
      misses are exactly those the last baseline left out and no event has brought up since. */
  lemma ClientConverges(w: World, s: Http, actions: seq<Action>, s': Http)
    requires Initial(w, s) && Runs(w, s, actions, s') && s'.client.seen >= s'.client.reach
    ensures s'.client.seen <= |s'.h|
    ensures
      var shown, current := s'.client.view, ViewAt(w, s'.h, s'.client.seen);
      && (forall pk :: pk in shown ==> pk in current && shown[pk] == current[pk])
      && (forall pk :: pk in current && pk !in shown <==> pk in s'.client.past)
      && (shown == current <==> forall pk :: pk !in s'.client.past)
  {
    InitialIsInv(w, s);
    RunsKeepInv(w, s, actions, s');
    hide Inv;
    InvGives(w, s');
    AgreementIsExact(w, s'.h, s'.client);
  }

  /** The window of a limited query. In every run, while the window's trailing end is the edge of what
      was read, the client holds at n exactly the current view up to that end, and past it only
      current rows. */
  lemma WindowIsExact(w: World, s: Http, actions: seq<Action>, s': Http)
    requires Initial(w, s) && Runs(w, s, actions, s') && s'.client.seen >= s'.client.reach
    requires w.q.limit.Some? && s'.edge.Some?
    ensures s'.client.seen <= |s'.h| && Trailing(w.q.order, s'.window) == s'.edge
    ensures
      var shown, current, trailing := s'.client.view, ViewAt(w, s'.h, s'.client.seen), s'.edge.value;
      && (forall pk :: !Before(w.q.order, trailing, pk) ==> Look(shown, pk) == Look(current, pk))
      && (forall pk :: pk in shown ==> Look(shown, pk) == Look(current, pk))
  {
    InitialIsInv(w, s);
    RunsKeepInv(w, s, actions, s');
    AgreementIsExact(w, s'.h, s'.client);
  }

  /** What a baseline leaves out: a subscribe the rows beyond its page, none without a limit; a reset
      the rows outside its window, none exactly when the window covers the view. */
  lemma BaselineLeavesOut(w: World, s: Http)
    requires Inv(w, s) && s.reading.Some?
    ensures
      var past := Perform(w, s, Subscribe).client.past;
      && (forall pk :: pk in past <==> pk in SelectNow(w, s) && Entry(pk, SelectNow(w, s)[pk]) !in FirstPage(w, s))
      && (w.q.limit.None? ==> past == iset{})
    ensures
      var past := Perform(w, s, Reset).client.past;
      && (forall pk :: pk in past <==> pk in SelectNow(w, s) && !InResetWindow(w.q.order, s.window, pk))
      && (past == iset{} <==> ResetCovers(w.q, s.window, TableNow(w, s)))
  {
    SubscribeLeavesOut(w, s);
    ResetLeavesOut(w, s);
  }

  lemma SubscribeLeavesOut(w: World, s: Http)
    requires Inv(w, s) && s.reading.Some?
    ensures
      var past := Perform(w, s, Subscribe).client.past;
      && (forall pk :: pk in past <==> pk in SelectNow(w, s) && Entry(pk, SelectNow(w, s)[pk]) !in FirstPage(w, s))
      && (w.q.limit.None? ==> past == iset{})
  {
    InvGives(w, s);
    hide Inv, Perform, Rebase, FirstPage, SelectNow, ViewAt, ListingNow;
    ListingNowIs(w, s);
    SubscribeIs(w, s);
    hide Sound;
    FreshPast(w, s, SelectNow(w, s), FirstPage(w, s));
    if w.q.limit.None? { WholePage(w, s, FirstPage(w, s)); }
    NothingOut(w, s, FirstPage(w, s), Rebase(w, s, FirstPage(w, s)).client.past);
    hide IsListing;
  }

  lemma NothingOut(w: World, s: Http, rows: seq<Entry>, past: iset<Value>)
    requires forall pk :: pk in past <==> pk in SelectNow(w, s) && Entry(pk, SelectNow(w, s)[pk]) !in rows
    ensures past == iset{} <==> forall pk :: pk in SelectNow(w, s) ==> Entry(pk, SelectNow(w, s)[pk]) in rows
  {
    hide SelectNow;
    if past == iset{} {
      forall pk | pk in SelectNow(w, s) ensures Entry(pk, SelectNow(w, s)[pk]) in rows { assert pk !in past; }
    }
  }

  lemma WholePage(w: World, s: Http, rows: seq<Entry>)
    requires IsListing(w.q.order, w.kind, SelectNow(w, s), rows)
    ensures forall pk :: pk in SelectNow(w, s) ==> Entry(pk, SelectNow(w, s)[pk]) in rows
  {
    hide SelectNow;
  }

  lemma SubscribeIs(w: World, s: Http)
    requires Sound(w, s) && s.reading.Some?
    ensures Perform(w, s, Subscribe) == Rebase(w, s, FirstPage(w, s))
    ensures w.q.limit.None? ==> FirstPage(w, s) == ListingNow(w, s)
  {
    hide Rebase, ListingNow, Sound;
  }

  lemma ResetIs(w: World, s: Http)
    requires Sound(w, s) && s.reading.Some?
    ensures Perform(w, s, Reset) == Rebase(w, s, ResetRows(w, s))
  {
    hide Rebase, ResetRows, Sound;
  }

  lemma ResetLeavesOut(w: World, s: Http)
    requires Inv(w, s) && s.reading.Some?
    ensures
      var past := Perform(w, s, Reset).client.past;
      && (forall pk :: pk in past <==> pk in SelectNow(w, s) && !InResetWindow(w.q.order, s.window, pk))
      && (past == iset{} <==> ResetCovers(w.q, s.window, TableNow(w, s)))
  {
    InvGives(w, s);
    hide Inv, Perform, Rebase, ListingNow, ResetRows, IsListing, InResetWindow, ViewAt, SelectNow, ResetCovers;
    ListingNowIs(w, s);
    ResetRowsAre(w, s);
    ResetIs(w, s);
    hide Sound;
    FreshPast(w, s, SelectNow(w, s), ResetRows(w, s));
    CoversIs(w, s);
    NothingOut(w, s, ResetRows(w, s), Rebase(w, s, ResetRows(w, s)).client.past);
    hide TableNow;
  }

  lemma CoversIs(w: World, s: Http)
    ensures ResetCovers(w.q, s.window, TableNow(w, s)) <==>
      forall pk :: pk in SelectNow(w, s) ==> InResetWindow(w.q.order, s.window, pk)
  {
    hide Queries.SelectView, InResetWindow;
  }

  lemma ResetRowsAre(w: World, s: Http)
    requires Sound(w, s)
    ensures
      var view, rows := SelectNow(w, s), ResetRows(w, s);
      forall pk :: pk in view ==> (Entry(pk, view[pk]) in rows <==> InResetWindow(w.q.order, s.window, pk))
  {
    SelectIsKeyed(w, s.h);
    var view, part, rows := SelectNow(w, s), ResetView(w.q, s.window, TableNow(w, s)), ResetRows(w, s);
    ListingIs(w.q.order, w.kind, part);
    assert forall pk :: pk in part <==> pk in view && InResetWindow(w.q.order, s.window, pk);
    assert forall pk :: pk in part ==> part[pk] == view[pk];
    assert PartOf(part, view);
    hide *;
    ListedExactly(w.q.order, w.kind, view, part, rows);
  }

  // ----- what a baseline leaves out, later on -----

  predicate IsBaselineOrLoad(a: Action) {
    a.Subscribe? || a.Reset? || a.LoadMore?
  }

  ghost predicate OnlyPulls(actions: seq<Action>) {
    forall i :: 0 <= i < |actions| ==> !IsBaselineOrLoad(actions[i])
  }

  /** An event of the row lies between the two positions. */
  ghost predicate Touched(h: History, lo: nat, upto: nat, pk: Value) {
    exists k :: lo <= k < upto && k < |h| && h[k].pk == pk
  }

  /** How a client that only pulls stands to what it started from. */
  ghost predicate PulledOn(s: Http, s': Http) {
    && |s.h| <= |s'.h| && s'.h[..|s.h|] == s.h && s.client.seen <= s'.client.seen && s'.client.lead == s.client.lead
    && forall pk :: pk in s'.client.past <==> pk in s.client.past && !Touched(s'.h, s.client.seen, s'.client.seen, pk)
  }

  lemma PulledOnChains(a: Http, b: Http, c: Http)
    requires PulledOn(a, b) && PulledOn(b, c) && b.client.seen <= |b.h|
    ensures PulledOn(a, c)
  {
    assert c.h[..|a.h|] == c.h[..|b.h|][..|a.h|];
    forall pk ensures Touched(c.h, a.client.seen, c.client.seen, pk) <==>
      Touched(b.h, a.client.seen, b.client.seen, pk) || Touched(c.h, b.client.seen, c.client.seen, pk)
    {
      if Touched(b.h, a.client.seen, b.client.seen, pk) {
        var k :| a.client.seen <= k < b.client.seen && k < |b.h| && b.h[k].pk == pk;
        assert c.h[..|b.h|][k] == c.h[k];
      }
      if Touched(c.h, a.client.seen, c.client.seen, pk) {
        var k :| a.client.seen <= k < c.client.seen && k < |c.h| && c.h[k].pk == pk;
        assert k < |b.h| ==> c.h[..|b.h|][k] == b.h[k];
      }
    }
  }

  lemma PulledOnRefl(s: Http)
    ensures PulledOn(s, s)
  {
  }

  lemma ActionPullsOn(w: World, s: Http, a: Action)
    requires Inv(w, s) && Enabled(w, s, a) && !IsBaselineOrLoad(a) && w.q.limit.None?
    ensures PulledOn(s, Perform(w, s, a))
  {
    match a
    case PullIncrement(cap) => PullPullsOn(w, s, cap);
    case Commit(events) => assert (s.h + events)[..|s.h|] == s.h;
    case _ =>
  }

  lemma PullPullsOn(w: World, s: Http, cap: nat)
    requires Inv(w, s) && Enabled(w, s, PullIncrement(cap)) && w.q.limit.None?
    ensures PulledOn(s, Perform(w, s, PullIncrement(cap)))
  {
    PullConsumes(w, s, cap);
    var gate := GateNow(w, s);
    assert Perform(w, s, PullIncrement(cap)).client.past == StillOut(gate, s.client.past, s.h, s.client.seen, s.logged);
    hide Inv, Enabled, Perform, ConsumeUpto;
    forall pk ensures Addressed(gate, s.h, s.client.seen, s.logged, pk) <==> Touched(s.h, s.client.seen, s.logged, pk) {
      if Touched(s.h, s.client.seen, s.logged, pk) {
        var k :| s.client.seen <= k < s.logged && k < |s.h| && s.h[k].pk == pk;
        assert Takes(gate, s.h[k]);
      }
    }
  }

  lemma {:induction false} RunPullsOn(w: World, s: Http, actions: seq<Action>, s': Http)
    requires Inv(w, s) && Runs(w, s, actions, s') && OnlyPulls(actions) && w.q.limit.None?
    ensures PulledOn(s, s') && Inv(w, s')
    decreases |actions|
  {
    hide Inv, PulledOn, Enabled;
    if actions == [] {
      PulledOnRefl(s);
    } else {
      var next := Perform(w, s, actions[0]);
      ActionKeepsInv(w, s, actions[0]);
      ActionPullsOn(w, s, actions[0]);
      RunPullsOn(w, next, actions[1..], s');
      SeenIsHistory(w, next);
      PulledOnChains(s, next, s');
    }
  }

  lemma SeenIsHistory(w: World, s: Http)
    requires Inv(w, s)
    ensures s.client.seen <= |s.h|
  {
  }

  /** A run from `s` that starts with the baseline `a` and then only pulls. */
  ghost predicate PullsAfter(w: World, s: Http, a: Action, actions: seq<Action>, s': Http) {
    actions != [] && actions[0] == a && Runs(w, s, actions, s') && OnlyPulls(actions[1..])
  }

  /** Where such a baseline puts the client's position in the history: at its cursor. */
  function CursorPosition(s: Http): nat
    requires s.reading.Some?
  {
    At(s.(since := s.reading.value))
  }

  lemma PullsAfterIs(w: World, s: Http, a: Action, actions: seq<Action>, s': Http)
    requires Inv(w, s) && PullsAfter(w, s, a, actions, s') && (a.Subscribe? || a.Reset?) && w.q.limit.None?
    ensures s.reading.Some? && PulledOn(Perform(w, s, a), s') && Inv(w, s') &&
      Perform(w, s, a).client.seen == CursorPosition(s)
  {
    ActionKeepsInv(w, s, a);
    hide Inv;
    var next := Perform(w, s, a);
    RunPullsOn(w, next, actions[1..], s');
  }

  /** A reset of an unlimited query, and pulls after it, exactly. Once they have consumed the history
      up to n, at or past what the reset read, the client misses a matching row if and only if at the
      reset it lay past the trailing end of the client's window and no event has addressed it since;
      and it shows the whole view if and only if there is no such row. */
  lemma ResetIsWholeIff(w: World, s0: Http, earlier: seq<Action>, s: Http, actions: seq<Action>, s': Http)
    requires Initial(w, s0) && Runs(w, s0, earlier, s) && w.q.limit.None? && s.reading.Some?
    requires PullsAfter(w, s, Reset, actions, s') && s'.client.seen >= s'.client.reach
    ensures s'.client.seen <= |s'.h|
    ensures
      var current := ViewAt(w, s'.h, s'.client.seen);
      && (forall pk :: pk in current && pk !in s'.client.view <==> LostAtReset(w, s, s', pk))
      && (s'.client.view == current <==> forall pk :: !LostAtReset(w, s, s', pk))
  {
    InitialIsInv(w, s0);
    RunsKeepInv(w, s0, earlier, s);
    PullsAfterIs(w, s, Reset, actions, s');
    BaselineLeavesOut(w, s);
    hide Inv, Perform, Initial, Runs, PullsAfter, LostAtReset, PulledOn;
    InvGives(w, s');
    AgreementIsExact(w, s'.h, s'.client);
    hide Agrees, LimitOk, TokenOk, LogOk, Sound, SelectNow, ViewAt;
    forall pk ensures pk in s'.client.past <==> LostAtReset(w, s, s', pk) {
      StillLost(w, s, Perform(w, s, Reset), s', pk);
    }
  }

  lemma StillLost(w: World, s: Http, next: Http, s': Http, pk: Value)
    requires s.reading.Some? && PulledOn(next, s') && next.client.seen == CursorPosition(s)
    requires pk in next.client.past <==> pk in SelectNow(w, s) && !InResetWindow(w.q.order, s.window, pk)
    ensures pk in s'.client.past <==> LostAtReset(w, s, s', pk)
  {
    hide SelectNow, CursorPosition, Touched;
  }

  /** The row matched at the reset, past the window's trailing end, and has had no event since. */
  ghost predicate LostAtReset(w: World, s: Http, s': Http, pk: Value)
    requires s.reading.Some?
  {
    var trailing := Trailing(w.q.order, s.window);
    && pk in SelectNow(w, s) && trailing.Some? && Before(w.q.order, trailing.value, pk)
    && !Touched(s'.h, CursorPosition(s), s'.client.seen, pk)
  }

  /** After a subscribe of an unlimited query no pull leaves anything out. */
  lemma SubscribeIsWhole(w: World, s0: Http, earlier: seq<Action>, s: Http, actions: seq<Action>, s': Http)
    requires Initial(w, s0) && Runs(w, s0, earlier, s) && w.q.limit.None?
    requires PullsAfter(w, s, Subscribe, actions, s') && s'.client.seen >= s'.client.reach
    ensures s'.client.seen <= |s'.h| && s'.client.view == ViewAt(w, s'.h, s'.client.seen)
  {
    InitialIsInv(w, s0);
    RunsKeepInv(w, s0, earlier, s);
    PullsAfterIs(w, s, Subscribe, actions, s');
    BaselineLeavesOut(w, s);
    hide Inv, Perform, Initial, Runs, PullsAfter;
    InvGives(w, s');
    AgreementIsExact(w, s'.h, s'.client);
  }

  // ----- load-more, caught up -----

  /** A caught-up client's load-more skips exactly the rows left out that lie before its cursor: none
      while no row shown lies past the edge of what it has read. */
  lemma CaughtUpLoadMoreSkips(w: World, s: Http, e: Entry)
    requires Inv(w, s) && s.client.seen == s.client.reach == |s.h| && NextCursor(w, s).Some?
    requires w.q.limit.Some? ==> w.q.limit.value >= 1
    ensures Skipped(w.q.order, ListingNow(w, s), ShownBy(w, s), s.window, w.q.limit, e) <==>
      e in ListingNow(w, s) && e.pk in s.client.past && !Before(w.q.order, NextCursor(w, s).value, e.pk)
    ensures w.q.limit.Some? && s.edge.Some? && !Before(w.q.order, s.edge.value, NextCursor(w, s).value) ==>
      !Skipped(w.q.order, ListingNow(w, s), ShownBy(w, s), s.window, w.q.limit, e)
  {
    var cursor := NextCursor(w, s).value;
    InvGives(w, s);
    ListingNowIs(w, s);
    ViewIsKeyed(w, s.h, s.client);
    ListingIs(w.q.order, w.kind, s.client.view);
    AgreementIsExact(w, s.h, s.client);
    LoadMoreSkips(w.q.order, w.kind, ListingNow(w, s), ShownBy(w, s), s.window, w.q.limit, e);
    assert NextCursor(w, s) == CursorOf(w.q.order, ShownBy(w, s), s.window);
    hide Inv, ListingNow, SelectNow, Skipped, Agrees, LogOk;
    if w.q.limit.Some? && s.edge.Some? && e.pk in s.client.past && !Before(w.q.order, s.edge.value, cursor) {
      PastIsBehindCursor(w, s, cursor, e.pk);
    }
  }

  lemma PastIsBehindCursor(w: World, s: Http, cursor: Value, pk: Value)
    requires Inv(w, s) && w.q.limit.Some? && s.edge.Some? && NextCursor(w, s) == Some(cursor)
    requires !Before(w.q.order, s.edge.value, cursor) && pk in s.client.past
    ensures Before(w.q.order, cursor, pk)
  {
    CursorIsSeen(w, s);
    EdgeIsOfKind(w, s);
    BeforeIsStrictOrder(w.q.order, cursor, s.edge.value, pk);
  }

  /** Epoch safety. A token minted before a rotation never validates again: however the run goes on,
      until the client completes a subscribe or reset its token's epoch is not the current one, so no
      incremental pull is answered from it. */
  lemma {:induction false} StaleTokenStaysStale(w: World, s: Http, actions: seq<Action>, s': Http)
    requires Inv(w, s) && Runs(w, s, actions, s')
    requires s.tokenEpoch != s.epoch || (actions != [] && actions[0].Rotate?)
    requires forall i :: 0 <= i < |actions| ==> !actions[i].Subscribe? && !actions[i].Reset?
    ensures s'.tokenEpoch != s'.epoch
    decreases |actions|
  {
    if actions != [] {
      ActionKeepsInv(w, s, actions[0]);
      StaleTokenStaysStale(w, Perform(w, s, actions[0]), actions[1..], s');
    }
  }

  /** A rotation between a handler's reads and its token would pair the new epoch with a snapshot from
      before it. Such a token is answered with a reset exactly when the new log has its marker or more
      rows than a pull may carry; otherwise, the table having been empty at the rotation, with the
      events from the log's start on, passing over what came before. */
  lemma MixedTokenAnswers(w: World, s: Http, cap: nat)
    requires Sound(w, s) && LogOk(w, s) && s.log != [] && forall k :: 0 <= k < |s.log| ==> s.log[k].snapshot > s.since
    ensures
      var r := Incremental(w.q, s.window, s.since, s.log, cap);
      && (r.ResetDue? <==> s.off == 1 || |PickedSince(w.q, s.since, s.log)| > cap)
      && (r.Delta? ==> r.events == GatedAll(w.q, GateNow(w, s), s.h[s.base..s.logged]))
  {
    hide Wired, PickedSince, Sound, GatedAll, WidenAll;
    if s.off == 1 { MarkerIsPicked(w, s); } else { MixedEvents(w, s); }
    LatestIsMax(s.log);
    assert s.log[0] in s.log;
    PickedAreLogged(w.q, s.since, s.log);
  }

  lemma MarkerIsPicked(w: World, s: Http)
    requires LogOk(w, s) && s.off == 1 && s.log[0].snapshot > s.since
    ensures exists er :: er in PickedSince(w.q, s.since, s.log) && er.op.OpSnapshot?
  {
    hide PickedSince, AllStored;
    PickedAreLogged(w.q, s.since, s.log);
    assert s.log[0] in s.log && Events.Picked(w.q, s.log[0]);
  }

  lemma MixedEvents(w: World, s: Http)
    requires Sound(w, s) && LogOk(w, s) && s.off == 0 && forall k :: 0 <= k < |s.log| ==> s.log[k].snapshot > s.since
    ensures forall er :: er in s.log ==> !er.op.OpSnapshot?
    ensures Wired(w.q, GateNow(w, s), PickedSince(w.q, s.since, s.log)) ==
      GatedAll(w.q, GateNow(w, s), s.h[s.base..s.logged])
  {
    hide Wired, PickedSince, GatedAll, Sound;
    forall er | er in s.log ensures !er.op.OpSnapshot? {
      var k :| 0 <= k < |s.log| && s.log[k] == er;
      assert StoredAt(w.q.pkKey, s.h, s.base, s.off, s.log, k);
    }
    PositionSplits(s.log, s.off, s.since);
    assert |s.log| > 0 ==> s.log[0].snapshot > s.since;
    PulledEvents(w, s, GateNow(w, s));
  }
}
