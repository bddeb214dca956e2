/** The embedded handshake against everything around it: commits, an at-least-once tap that may
    restart anywhere behind itself, and handshakes that overlap, fail or are superseded
    (client/embedded/index.ts with readCollectionBaseline of server/pulse-runtime.ts). */
module Handshake {
  import opened Values
  import opened MergeCore
  import opened Queries
  import opened Wal
  import opened Replay
  import opened Collection
  import FilterMeetsSql

  /** How far one runHandshake has come. `w` counts the events below the watermark, `base` bounds
      where the tap stood when its position last mattered, `b` is where the SELECT looked. */
  datatype Phase =
    | Started
    | Marked(watermark: nat, w: nat, base: nat)
    | Selected(watermark: nat, w: nat, base: nat, baseline: View, b: nat)

  /** The whole system. `h` and `lsns` are the committed events of the table and their commit LSNs;
      `wal` is the server's write position; the tap delivers `h[next]` next. `taken` lists the events
      in the buffer; `synced`, `cut` and `reach` say that the current handshake succeeded, how many
      events its watermark cuts off, and the furthest event the collection has seen. */
  datatype Sys = Sys(
    h: History, lsns: seq<nat>, wal: nat, next: nat,
    c: Coll, flights: map<nat, Phase>,
    taken: seq<nat>, synced: bool, cut: nat, reach: nat)

  datatype Action =
    | Commit(events: seq<Pending>, lsn: nat)
    | Deliver
    | RestartTap(position: nat)
    | Begin
    | BeginFromSnapshot(watermark: nat, b: nat, position: nat)
    | ReadWatermark(gen: nat)
    | ReadBaseline(gen: nat)
    | Resolve(gen: nat)
    | Reject(gen: nat)

  /** `k` of the LSNs lie below the watermark: the first k. */
  ghost predicate Cut(lsns: seq<nat>, watermark: nat, k: nat) {
    k <= |lsns| && (forall i :: 0 <= i < k ==> lsns[i] < watermark) &&
      (forall i :: k <= i < |lsns| ==> lsns[i] >= watermark)
  }

  /** The two filters agree on every row the table ever holds. */
  ghost predicate FiltersAgreeOn(q: Query, row: Row) {
    Matches(Embedded, q, row) <==> Matches(Wire, q, row)
  }

  ghost predicate FiltersAgree(w: World, h: History) {
    (forall pk :: pk in w.start ==> FiltersAgreeOn(w.q, w.start[pk])) &&
    (forall i :: 0 <= i < |h| && !h[i].PendingDelete? ==> FiltersAgreeOn(w.q, h[i].row))
  }

  /** When an action can happen. A commit is atomic and lands at or past the write position. The
      watermark is read at the write position, before the SELECT, which sees everything committed by
      then. An exported snapshot holds every event below its watermark, and the tap then restarts at
      or before it. Otherwise the tap restarts at or behind itself; or ahead, past commits that were
      persisted and never emitted, while a handshake begun for the reconnect has read nothing yet. */
  ghost predicate Enabled(w: World, s: Sys, a: Action) {
    match a
    case Commit(events, lsn) =>
      lsn >= s.wal && WfPendings(w.q, w.kind, TableAt(w, s.h, |s.h|), events) &&
      (forall i :: 0 <= i < |events| && !events[i].PendingDelete? ==> FiltersAgreeOn(w.q, events[i].row))
    case Deliver => s.next < |s.h|
    case RestartTap(position) =>
      position <= s.next ||
      (position <= |s.h| && s.c.handshakeGen in s.flights && s.flights[s.c.handshakeGen].Started?)
    case Begin => true
    case BeginFromSnapshot(watermark, b, position) =>
      watermark <= s.wal && b <= |s.h| && position <= b &&
      (forall i :: b <= i < |s.h| && i < |s.lsns| ==> s.lsns[i] >= watermark)
    case ReadWatermark(gen) => gen in s.flights && s.flights[gen].Started?
    case ReadBaseline(gen) => gen in s.flights && s.flights[gen].Marked?
    case Resolve(gen) => gen in s.flights && s.flights[gen].Selected?
    case Reject(gen) => gen in s.flights
  }

  function Below(lsns: seq<nat>, watermark: nat): (k: nat)
    ensures k <= |lsns|
  {
    if lsns == [] then 0
    else Below(lsns[..|lsns| - 1], watermark) + if lsns[|lsns| - 1] < watermark then 1 else 0
  }

  function Perform(w: World, s: Sys, a: Action): Sys
    requires Enabled(w, s, a) && |s.lsns| == |s.h|
  {
    match a
    case Commit(events, lsn) =>
      s.(h := s.h + events, lsns := s.lsns + seq(|events|, i => lsn), wal := lsn + 1)
    case Deliver =>
      var c := TapStep(w.q, s.c, Tapped(s.h[s.next], s.lsns[s.next]));
      s.(next := s.next + 1, c := c,
         taken := if s.c.baselining then s.taken + [s.next] else s.taken,
         reach := Max(s.reach, s.next + 1))
    case RestartTap(position) => s.(next := position)
    case Begin =>
      s.(c := BeginStep(s.c), flights := s.flights[s.c.handshakeGen + 1 := Started], taken := [], synced := false)
    case BeginFromSnapshot(watermark, b, position) =>
      s.(c := BeginStep(s.c), next := position, taken := [], synced := false,
         flights := s.flights[s.c.handshakeGen + 1 :=
           Selected(watermark, Below(s.lsns, watermark), b, BaselineAt(w, s.h, b), b)])
    case ReadWatermark(gen) => s.(flights := s.flights[gen := Marked(s.wal, |s.h|, |s.h|)])
    case ReadBaseline(gen) =>
      var f := s.flights[gen];
      s.(flights := s.flights[gen := Selected(f.watermark, f.w, f.base, BaselineAt(w, s.h, |s.h|), |s.h|)])
    case Resolve(gen) =>
      var f := s.flights[gen];
      var won := gen == s.c.handshakeGen;
      s.(c := ResolveStep(w.q, s.c, gen, f.baseline, f.watermark), flights := s.flights - {gen},
         taken := if won then [] else s.taken, synced := won || s.synced,
         cut := if won then f.w else s.cut, reach := if won then ReachOf(f.b, s.taken) else s.reach)
    case Reject(gen) =>
      var won := gen == s.c.handshakeGen;
      s.(c := RejectStep(s.c, gen), flights := s.flights - {gen}, taken := if won then [] else s.taken)
  }

  /** The view of what a baseline SELECT reads once its rows are projected. */
  function BaselineAt(w: World, h: History, b: nat): View
    requires b <= |h|
  {
    SelectView(Embedded, w.q, TableAt(w, h, b))
  }

  function ReachOf(b: nat, taken: seq<nat>): nat {
    if taken == [] then b else Max(ReachOf(b, taken[..|taken| - 1]), taken[|taken| - 1] + 1)
  }

  // ----- the invariant -----

  /** The buffered deliveries jump backwards at will but never forward past `w`, the first starts at
      or before `base`, and the tap now stands at or before where the last one left it. */
  ghost predicate Chain(taken: seq<nat>, w: nat, base: nat, upto: nat) {
    if taken == [] then upto <= base
    else
      var last := taken[|taken| - 1];
      upto <= Max(last + 1, w) && Chain(taken[..|taken| - 1], w, base, last)
  }

  ghost predicate Holding(s: Sys) {
    |s.c.buffer| == |s.taken| &&
    forall i :: 0 <= i < |s.taken| ==>
      s.taken[i] < |s.h| && s.taken[i] < |s.lsns| &&
      s.c.buffer[i] == Tapped(s.h[s.taken[i]], s.lsns[s.taken[i]])
  }

  ghost predicate PhaseOk(w: World, s: Sys, f: Phase) {
    match f
    case Started => true
    case Marked(watermark, k, base) =>
      watermark <= s.wal && Cut(s.lsns, watermark, k) && k <= base <= |s.h| && Chain(s.taken, k, base, s.next)
    case Selected(watermark, k, base, baseline, b) =>
      watermark <= s.wal && Cut(s.lsns, watermark, k) && k <= base <= b <= |s.h| &&
      Chain(s.taken, k, base, s.next) && baseline == ViewAt(w, s.h, b)
  }

  ghost predicate Environment(w: World, s: Sys) {
    w.lens.Embedded? && WfWorld(w, s.h) && FiltersAgree(w, s.h) &&
    |s.lsns| == |s.h| && (forall i, j :: 0 <= i < j < |s.lsns| ==> s.lsns[i] <= s.lsns[j]) &&
    (forall i :: 0 <= i < |s.lsns| ==> s.lsns[i] < s.wal) && s.next <= |s.h|
  }

  /** The state machine proper: buffering is on exactly while the handshake numbered `handshakeGen`
      is in flight, and the buffer is empty otherwise. */
  ghost predicate Owned(s: Sys) {
    (s.c.baselining <==> s.c.handshakeGen in s.flights) &&
    (!s.c.baselining ==> s.c.buffer == [] && s.taken == []) &&
    (forall g :: g in s.flights ==> g <= s.c.handshakeGen) &&
    (s.synced ==> !s.c.baselining)
  }

  ghost predicate Synced(w: World, s: Sys) {
    s.c.watermarkFloor.Some? && s.c.watermarkFloor.value <= s.wal &&
    Cut(s.lsns, s.c.watermarkFloor.value, s.cut) &&
    Within(w, s.h, s.c.view, Max(s.next, s.cut), s.reach)
  }

  ghost predicate Inv(w: World, s: Sys) {
    Environment(w, s) && Owned(s) && Holding(s) &&
    (s.c.handshakeGen in s.flights ==> PhaseOk(w, s, s.flights[s.c.handshakeGen])) &&
    (s.synced ==> Synced(w, s))
  }

  // ----- environment facts -----

  lemma {:induction false} RowsAgreeAt(w: World, h: History, i: nat)
    requires FiltersAgree(w, h) && i <= |h|
    ensures forall pk :: pk in TableAt(w, h, i) ==> FiltersAgreeOn(w.q, TableAt(w, h, i)[pk])
  {
    if i > 0 {
      RowsAgreeAt(w, h, i - 1);
      TableAtStep(w, h, i - 1);
    } else {
      assert h[..0] == [];
    }
  }

  lemma BaselineIsView(w: World, h: History, b: nat)
    requires w.lens.Embedded? && WfWorld(w, h) && FiltersAgree(w, h) && b <= |h|
    ensures BaselineAt(w, h, b) == ViewAt(w, h, b)
  {
    TablesAreWf(w, h, b);
    RowsAgreeAt(w, h, b);
    SelectMeetsView(Embedded, w.q, w.kind, TableAt(w, h, b));
  }

  lemma {:induction false} BelowIsCut(lsns: seq<nat>, watermark: nat)
    requires forall i, j :: 0 <= i < j < |lsns| ==> lsns[i] <= lsns[j]
    ensures Cut(lsns, watermark, Below(lsns, watermark))
  {
    if lsns != [] {
      BelowIsCut(lsns[..|lsns| - 1], watermark);
    }
  }

  lemma {:induction false} ReachIsPast(b: nat, taken: seq<nat>)
    ensures ReachOf(b, taken) >= b
  {
    if taken != [] { ReachIsPast(b, taken[..|taken| - 1]); }
  }

  lemma CommitKeepsEnvironment(w: World, s: Sys, events: seq<Pending>, lsn: nat)
    requires Environment(w, s) && Enabled(w, s, Commit(events, lsn))
    ensures Environment(w, Perform(w, s, Commit(events, lsn)))
  {
    var s' := Perform(w, s, Commit(events, lsn));
    assert s.h[..|s.h|] == s.h;
    WfPendingsConcat(w.q, w.kind, w.start, s.h, events);
  }

  // ----- draining -----

  /** Draining the buffer onto the baseline leaves a view between the tap's position (or the
      watermark, if that is further) and the furthest event seen. */
  lemma {:induction false} DrainCatchesUp(w: World, s: Sys, watermark: nat, k: nat, base: nat, b: nat,
                                          taken: seq<nat>, buffer: seq<Tapped>, upto: nat)
    requires Environment(w, s) && Cut(s.lsns, watermark, k) && k <= base <= b <= |s.h|
    requires Chain(taken, k, base, upto) && |buffer| == |taken|
    requires forall i :: 0 <= i < |taken| ==>
      taken[i] < |s.h| && buffer[i] == Tapped(s.h[taken[i]], s.lsns[taken[i]])
    ensures Within(w, s.h, Drain(w.q, ViewAt(w, s.h, b), buffer, watermark), Max(upto, k), ReachOf(b, taken))
    decreases |taken|
  {
    hide BuildTapEvent, Refresh, WfTable, WfPending, Shows, ViewOfTable, FiltersAgree, WfPendings;
    var view := ViewAt(w, s.h, b);
    if taken == [] {
      ExactIsWithin(w, s.h, b);
      WithinWidens(w, s.h, view, b, b, Max(upto, k), b);
    } else {
      var n := |taken| - 1;
      var last := taken[n];
      DrainCatchesUp(w, s, watermark, k, base, b, taken[..n], buffer[..n], last);
      var before := Drain(w.q, view, buffer[..n], watermark);
      var reach := ReachOf(b, taken[..n]);
      if last < k {
        WithinWidens(w, s.h, before, k, reach, Max(upto, k), ReachOf(b, taken));
      } else {
        EventIsWf(w, s.h, last);
        TapRefreshes(w.q, w.kind, TableAt(w, s.h, last), before, s.h[last]);
        Advance(w, s.h, before, last, reach);
        WithinWidens(w, s.h, DeliverTap(w.q, before, s.h[last]), last + 1,
          Max(last + 1, reach), Max(upto, k), ReachOf(b, taken));
      }
    }
  }

  // ----- every action keeps the invariant -----

  lemma CutExtends(lsns: seq<nat>, watermark: nat, k: nat, n: nat, lsn: nat)
    requires Cut(lsns, watermark, k) && watermark <= lsn
    ensures Cut(lsns + seq(n, i => lsn), watermark, k)
  {
  }

  lemma CommitKeepsInv(w: World, s: Sys, events: seq<Pending>, lsn: nat)
    requires Inv(w, s) && Enabled(w, s, Commit(events, lsn))
    ensures Inv(w, Perform(w, s, Commit(events, lsn)))
  {
    var s' := Perform(w, s, Commit(events, lsn));
    CommitKeepsEnvironment(w, s, events, lsn);
    assert Holding(s');
    if s.c.handshakeGen in s.flights {
      var f := s.flights[s.c.handshakeGen];
      if !f.Started? { CutExtends(s.lsns, f.watermark, f.w, |events|, lsn); }
      if f.Selected? { assert s'.h[..f.b] == s.h[..f.b]; }
    }
    if s.synced {
      CutExtends(s.lsns, s.c.watermarkFloor.value, s.cut, |events|, lsn);
      WithinExtends(w, s.h, events, s.c.view, Max(s.next, s.cut), s.reach);
    }
  }

  lemma ChainGrows(taken: seq<nat>, w: nat, base: nat, upto: nat)
    requires Chain(taken, w, base, upto)
    ensures Chain(taken + [upto], w, base, upto + 1)
  {
    assert (taken + [upto])[..|taken|] == taken;
  }

  lemma DeliverKeepsInv(w: World, s: Sys)
    requires Inv(w, s) && Enabled(w, s, Deliver)
    ensures Inv(w, Perform(w, s, Deliver))
  {
    hide BuildTapEvent, Refresh, WfTable, WfPending, Shows, ViewOfTable, FiltersAgree, WfPendings;
    var s' := Perform(w, s, Deliver);
    if s.c.baselining {
      var f := s.flights[s.c.handshakeGen];
      if !f.Started? { ChainGrows(s.taken, f.w, f.base, s.next); }
    } else if s.synced {
      var floor := s.c.watermarkFloor.value;
      if s.lsns[s.next] < floor {
        assert s.next < s.cut;
        WithinWidens(w, s.h, s.c.view, Max(s.next, s.cut), s.reach, Max(s'.next, s.cut), s'.reach);
      } else {
        assert s.next >= s.cut;
        EventIsWf(w, s.h, s.next);
        TapRefreshes(w.q, w.kind, TableAt(w, s.h, s.next), s.c.view, s.h[s.next]);
        Advance(w, s.h, s.c.view, s.next, s.reach);
      }
    }
  }

  lemma RestartKeepsInv(w: World, s: Sys, position: nat)
    requires Inv(w, s) && Enabled(w, s, RestartTap(position))
    ensures Inv(w, Perform(w, s, RestartTap(position)))
  {
    if s.synced {
      WithinWidens(w, s.h, s.c.view, Max(s.next, s.cut), s.reach, Max(position, s.cut), s.reach);
    }
  }

  lemma BeginKeepsInv(w: World, s: Sys, a: Action)
    requires Inv(w, s) && Enabled(w, s, a) && (a.Begin? || a.BeginFromSnapshot?)
    ensures Inv(w, Perform(w, s, a))
  {
    if a.BeginFromSnapshot? {
      BaselineIsView(w, s.h, a.b);
      BelowIsCut(s.lsns, a.watermark);
      if a.b < |s.lsns| { assert s.lsns[a.b] >= a.watermark; }
    }
  }

  lemma {:induction false} ChainFromMark(taken: seq<nat>, n: nat, upto: nat)
    requires upto <= n && forall i :: 0 <= i < |taken| ==> taken[i] < n
    ensures Chain(taken, n, n, upto)
    decreases |taken|
  {
    if taken != [] {
      ChainFromMark(taken[..|taken| - 1], n, taken[|taken| - 1]);
    }
  }

  lemma ReadKeepsInv(w: World, s: Sys, a: Action)
    requires Inv(w, s) && Enabled(w, s, a) && (a.ReadWatermark? || a.ReadBaseline?)
    ensures Inv(w, Perform(w, s, a))
  {
    if a.ReadWatermark? {
      ChainFromMark(s.taken, |s.h|, s.next);
    } else {
      BaselineIsView(w, s.h, |s.h|);
    }
  }

  lemma ResolveKeepsInv(w: World, s: Sys, gen: nat)
    requires Inv(w, s) && Enabled(w, s, Resolve(gen))
    ensures Inv(w, Perform(w, s, Resolve(gen)))
  {
    if gen == s.c.handshakeGen {
      var f := s.flights[gen];
      DrainCatchesUp(w, s, f.watermark, f.w, f.base, f.b, s.taken, s.c.buffer, s.next);
    }
  }

  lemma RejectKeepsInv(w: World, s: Sys, gen: nat)
    requires Inv(w, s) && Enabled(w, s, Reject(gen))
    ensures Inv(w, Perform(w, s, Reject(gen)))
  {
  }

  lemma ActionKeepsInv(w: World, s: Sys, a: Action)
    requires Inv(w, s) && Enabled(w, s, a)
    ensures Inv(w, Perform(w, s, a))
  {
    match a
    case Commit(events, lsn) => CommitKeepsInv(w, s, events, lsn);
    case Deliver => DeliverKeepsInv(w, s);
    case RestartTap(position) => RestartKeepsInv(w, s, position);
    case Begin => BeginKeepsInv(w, s, a);
    case BeginFromSnapshot(_, _, _) => BeginKeepsInv(w, s, a);
    case ReadWatermark(_) => ReadKeepsInv(w, s, a);
    case ReadBaseline(_) => ReadKeepsInv(w, s, a);
    case Resolve(gen) => ResolveKeepsInv(w, s, gen);
    case Reject(gen) => RejectKeepsInv(w, s, gen);
  }

  // ----- runs -----

  /** The factory has subscribed and its first handshake is on its way; anything may already be
      committed and the tap may stand anywhere. */
  ghost predicate Initial(w: World, s: Sys) {
    Environment(w, s) && s.c == Coll(true, [], None, 1, map[]) && s.flights == map[1 := Started] &&
    s.taken == [] && !s.synced
  }

  ghost predicate Runs(w: World, s: Sys, actions: seq<Action>, s': Sys)
    decreases |actions|
  {
    if actions == [] then s' == s
    else |s.lsns| == |s.h| && Enabled(w, s, actions[0]) && Runs(w, Perform(w, s, actions[0]), actions[1..], s')
  }

  lemma {:induction false} RunsKeepInv(w: World, s: Sys, actions: seq<Action>, s': Sys)
    requires Inv(w, s) && Runs(w, s, actions, s')
    ensures Inv(w, s')
    decreases |actions|
  {
    if actions != [] {
      ActionKeepsInv(w, s, actions[0]);
      RunsKeepInv(w, Perform(w, s, actions[0]), actions[1..], s');
    }
  }

  /** In every run: `baselining` is up exactly while the current handshake is in flight, and the
      buffer is empty whenever it is down. */
  lemma HandshakeOwnership(w: World, s: Sys, actions: seq<Action>, s': Sys)
    requires Initial(w, s) && Runs(w, s, actions, s')
    ensures s'.c.baselining <==> s'.c.handshakeGen in s'.flights
    ensures !s'.c.baselining ==> s'.c.buffer == []
    ensures forall g :: g in s'.flights ==> g <= s'.c.handshakeGen
  {
    RunsKeepInv(w, s, actions, s');
  }

  /** Convergence. In every run, once the current handshake has succeeded and deliveries stand at n,
      at or past everything the collection has seen, the view is exactly that of the table at n. */
  lemma CollectionConverges(w: World, s: Sys, actions: seq<Action>, s': Sys)
    requires Initial(w, s) && Runs(w, s, actions, s')
    requires s'.synced && s'.next >= s'.reach
    ensures s'.next <= |s'.h| && s'.c.view == ViewAt(w, s'.h, s'.next)
  {
    RunsKeepInv(w, s, actions, s');
    WithinPointIsExact(w, s'.h, s'.c.view, s'.next);
  }

  /** With everything delivered, the view is what a fresh baseline SELECT would give. */
  lemma CollectionMeetsSelect(w: World, s: Sys, actions: seq<Action>, s': Sys)
    requires Initial(w, s) && Runs(w, s, actions, s')
    requires s'.synced && s'.next == |s'.h|
    ensures s'.c.view == SelectView(Embedded, w.q, ApplyPendings(w.start, s'.h))
  {
    RunsKeepInv(w, s, actions, s');
    CollectionConverges(w, s, actions, s');
    assert s'.h[..|s'.h|] == s'.h;
    BaselineIsView(w, s'.h, |s'.h|);
  }

  /** So the list a collection shows is, at any such moment, the ordered, filtered and projected table. */
  lemma ListIsExact(w: World, s: Sys, actions: seq<Action>, s': Sys, c: EmbeddedCollection)
    requires Initial(w, s) && Runs(w, s, actions, s') && s'.synced && s'.next >= s'.reach
    requires c.Valid() && c.q == w.q && c.core.kind == w.kind && c.Abs() == s'.c
    ensures s'.next <= |s'.h| && Keyed(w.kind, ViewAt(w, s'.h, s'.next))
    ensures c.core.data == RowsOf(Listing(w.q.order, w.kind, ViewAt(w, s'.h, s'.next)))
  {
    CollectionConverges(w, s, actions, s');
    c.core.DataIsListing();
  }

  /** When the filters agree: a filter in the fragment, where nulls matter under a NOT only. */
  lemma FragmentFiltersAgree(q: Query, row: Row)
    requires WfQuery(q) && FilterMeetsSql.InFragment(q.schema, q.where, row, false)
    ensures FiltersAgreeOn(q, row)
  {
    FilterMeetsSql.EvaluatorMeetsSql(q.schema, q.where, q.selected, row, false);
  }
}
