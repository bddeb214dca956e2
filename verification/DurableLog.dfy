/** The durable event log over runs: delivery at least once, persist, crash anywhere, replay, boot,
    resume or recreate (server/pulse-runtime.ts with server/pulse-store.ts). */
module DurableLog {
  import opened Values
  import Wal
  import opened Runtime

  /** `commits` is the WAL, `wal` its write position, `pos` the commit the stream delivers next,
      `confirmed` the slot's confirmed flush. `bases` says, table by table, from which commit on the
      current epoch's log runs; `used` holds every epoch ever given out. */
  datatype Sys = Sys(
    commits: seq<Commit>, wal: nat, rt: Rt, live: bool, booted: bool, pos: nat, confirmed: nat,
    used: set<nat>, bases: map<string, nat>)

  datatype Action =
    | CommitTx(c: Commit)
    | Deliver
    | IngestThenCrash
    | IngestThenReject
    | Ack(flush: nat)
    | Disconnect
    | Crash
    | Boot(recreated: map<string, nat>)
    | Resume(position: nat, seeds: map<string, Row>)
    | Recreate(point: nat, b: nat, epochs: map<string, nat>, seeds: map<string, Row>)

  /** How many commits the watermark covers. */
  function Kept(commits: seq<Commit>, watermark: Option<nat>): (k: nat)
    ensures k <= |commits|
  {
    if commits == [] || watermark.None? then 0
    else Kept(commits[..|commits| - 1], watermark) + if commits[|commits| - 1].lsn <= watermark.value then 1 else 0
  }

  /** What a table's log should hold for a stretch of commits. */
  function DecodedFor(pkKeys: map<string, string>, table: string, commits: seq<Commit>): seq<Wal.Pending> {
    if commits == [] then []
    else
      DecodedFor(pkKeys, table, commits[..|commits| - 1]) +
      EventsOf(table, DecodeChanges(pkKeys, commits[|commits| - 1].changes))
  }

  predicate FreshEpochs(used: set<nat>, epochs: map<string, nat>) {
    forall t :: t in epochs ==> epochs[t] !in used
  }

  /** When an action can happen. A persisted commit may still be reported as failed: the handler then
      rejects with its memory behind the tables, and the driver reconnects. A resumed slot redelivers
      at least every commit at or above its confirmed flush. A recreated slot exports a snapshot that
      holds exactly the commits at or below its start position. An acknowledgement may name any
      position. */
  ghost predicate Enabled(s: Sys, a: Action) {
    match a
    case CommitTx(c) => s.wal <= c.lsn < c.endLsn
    case Deliver => s.live && s.pos < |s.commits|
    case IngestThenCrash => s.live && s.pos < |s.commits| && !Replayed(s.rt.lastPersisted, s.commits[s.pos].lsn)
    case IngestThenReject => s.live && s.pos < |s.commits| && !Replayed(s.rt.lastPersisted, s.commits[s.pos].lsn)
    case Ack(_) => true
    case Disconnect => true
    case Crash => true
    case Boot(recreated) =>
      !s.live && !s.booted && recreated.Keys <= s.rt.store.logs.Keys && FreshEpochs(s.used, recreated)
    case Resume(position, _) =>
      !s.live && s.booted && MayResume(s.rt.store, s.confirmed) && position <= |s.commits| &&
      forall i :: 0 <= i < position ==> s.commits[i].lsn < s.confirmed
    case Recreate(point, b, epochs, _) =>
      !s.live && s.booted && point < s.wal && b <= |s.commits| && FreshEpochs(s.used, epochs) &&
      epochs.Keys == s.rt.store.logs.Keys &&
      (forall i :: 0 <= i < b ==> s.commits[i].lsn <= point) &&
      (forall i :: b <= i < |s.commits| ==> s.commits[i].lsn > point)
  }

  function EpochsOf(store: Durable): map<string, nat> {
    map t | t in store.logs :: store.logs[t].epoch
  }

  function BootStep(store: Durable, recreated: map<string, nat>): Durable {
    store.(logs := map t | t in store.logs ::
      if t in recreated then TableLog(recreated[t], None, []) else store.logs[t])
  }

  function Perform(pkKeys: map<string, string>, s: Sys, a: Action): Sys
    requires Enabled(s, a)
  {
    match a
    case CommitTx(c) => s.(commits := s.commits + [c], wal := c.endLsn)
    case Deliver => s.(rt := ApplyStep(pkKeys, s.rt, s.commits[s.pos]), pos := s.pos + 1)
    case IngestThenCrash =>
      var c := s.commits[s.pos];
      s.(rt := Rt(IngestStep(s.rt.store, DecodeChanges(pkKeys, c.changes), c.lsn), None, map[]),
         live := false, booted := false)
    case IngestThenReject =>
      var c := s.commits[s.pos];
      s.(rt := s.rt.(store := IngestStep(s.rt.store, DecodeChanges(pkKeys, c.changes), c.lsn)), live := false)
    case Ack(flush) => s.(confirmed := flush)
    case Disconnect => s.(live := false)
    case Crash => s.(rt := Rt(s.rt.store, None, map[]), live := false, booted := false)
    case Boot(recreated) =>
      var store := BootStep(s.rt.store, recreated);
      s.(rt := Rt(store, s.rt.lastPersisted, EpochsOf(store)), booted := true, used := s.used + recreated.Values,
         bases := map t | t in s.bases :: if t in recreated then Kept(s.commits, store.watermark) else s.bases[t])
    case Resume(position, seeds) => s.(rt := ResumeStep(s.rt, seeds), live := true, pos := position)
    case Recreate(point, b, epochs, seeds) =>
      s.(rt := RotateStep(s.rt, epochs, seeds, point), live := true, pos := b, confirmed := point,
         used := s.used + epochs.Values, bases := map t | t in s.bases :: b)
  }

  // ----- the invariant -----

  ghost predicate Ordered(commits: seq<Commit>, wal: nat) {
    (forall i, j :: 0 <= i < j < |commits| ==> commits[i].lsn < commits[j].lsn) &&
    (forall i :: 0 <= i < |commits| ==> commits[i].lsn < wal)
  }

  /** The log of one table: gap-free and duplicate-free from its base to the watermark. */
  ghost predicate LogExact(pkKeys: map<string, string>, s: Sys, t: string)
    requires t in s.bases && t in s.rt.store.logs
  {
    var k := Kept(s.commits, s.rt.store.watermark);
    s.bases[t] <= k && s.rt.store.logs[t].events == DecodedFor(pkKeys, t, s.commits[s.bases[t]..k])
  }

  ghost predicate LogsExact(pkKeys: map<string, string>, s: Sys) {
    s.bases.Keys == s.rt.store.logs.Keys && forall t :: t in s.bases ==> LogExact(pkKeys, s, t)
  }

  ghost predicate MemoryOk(s: Sys) {
    && (s.live ==> s.rt.lastPersisted == s.rt.store.watermark)
    && (s.rt.store.watermark.Some? ==> s.rt.store.watermark.value < s.wal)
    && (s.booted ==> s.rt.epochs == EpochsOf(s.rt.store))
    && (s.live ==> s.booted && s.rt.lastPersisted.Some? && s.pos <= Kept(s.commits, s.rt.store.watermark))
    && (forall t :: t in s.rt.store.logs ==> s.rt.store.logs[t].epoch in s.used)
  }

  ghost predicate Inv(pkKeys: map<string, string>, s: Sys) {
    Ordered(s.commits, s.wal) && LogsExact(pkKeys, s) && MemoryOk(s)
  }

  // ----- facts about coverage -----

  /** The covered commits are the first ones. */
  lemma {:induction false} KeptSplits(commits: seq<Commit>, wal: nat, watermark: Option<nat>)
    requires Ordered(commits, wal)
    ensures forall i :: 0 <= i < |commits| ==>
      (i < Kept(commits, watermark) <==> watermark.Some? && commits[i].lsn <= watermark.value)
  {
    if commits != [] {
      var init := commits[..|commits| - 1];
      KeptSplits(init, wal, watermark);
      if init != [] { assert init[|init| - 1].lsn < commits[|commits| - 1].lsn; }
      forall i | 0 <= i < |init| ensures init[i] == commits[i] {}
    }
  }

  lemma KeptIs(commits: seq<Commit>, wal: nat, watermark: nat, k: nat)
    requires Ordered(commits, wal) && k <= |commits|
    requires forall i :: 0 <= i < k ==> commits[i].lsn <= watermark
    requires forall i :: k <= i < |commits| ==> commits[i].lsn > watermark
    ensures Kept(commits, Some(watermark)) == k
  {
    KeptSplits(commits, wal, Some(watermark));
    var n := Kept(commits, Some(watermark));
    if n < |commits| { var first := commits[n].lsn; }
    if k < |commits| { var first := commits[k].lsn; }
  }

  lemma KeptIgnoresLater(commits: seq<Commit>, watermark: Option<nat>, c: Commit)
    requires watermark.Some? ==> watermark.value < c.lsn
    ensures Kept(commits + [c], watermark) == Kept(commits, watermark)
  {
    assert (commits + [c])[..|commits|] == commits;
  }

  /** A commit above the watermark that the stream delivers next is the first uncovered one. */
  lemma NextIsFirstUncovered(pkKeys: map<string, string>, s: Sys)
    requires Inv(pkKeys, s) && s.live && s.pos < |s.commits|
    ensures !Replayed(s.rt.lastPersisted, s.commits[s.pos].lsn) ==>
      s.pos == Kept(s.commits, s.rt.store.watermark) &&
      Kept(s.commits, Some(s.commits[s.pos].lsn)) == s.pos + 1
    ensures Replayed(s.rt.lastPersisted, s.commits[s.pos].lsn) ==>
      s.pos < Kept(s.commits, s.rt.store.watermark)
  {
    KeptSplits(s.commits, s.wal, s.rt.store.watermark);
    if !Replayed(s.rt.lastPersisted, s.commits[s.pos].lsn) {
      KeptIs(s.commits, s.wal, s.commits[s.pos].lsn, s.pos + 1);
    }
  }

  // ----- every action keeps the invariant -----

  lemma DecodedForSnoc(pkKeys: map<string, string>, table: string, commits: seq<Commit>, b: nat, i: nat)
    requires b <= i < |commits|
    ensures DecodedFor(pkKeys, table, commits[b..i + 1]) ==
            DecodedFor(pkKeys, table, commits[b..i]) + EventsOf(table, DecodeChanges(pkKeys, commits[i].changes))
  {
    hide DecodeChanges, EventsOf;
    assert commits[b..i + 1][..i - b] == commits[b..i];
  }

  lemma IngestKeepsLogs(pkKeys: map<string, string>, s: Sys, s': Sys)
    requires Inv(pkKeys, s) && s.live && s.pos < |s.commits|
    requires !Replayed(s.rt.lastPersisted, s.commits[s.pos].lsn)
    requires s'.commits == s.commits && s'.bases == s.bases
    requires s'.rt.store ==
      IngestStep(s.rt.store, DecodeChanges(pkKeys, s.commits[s.pos].changes), s.commits[s.pos].lsn)
    ensures LogsExact(pkKeys, s')
  {
    hide DecodeChanges, EventsOf, DecodedFor, Ordered, MemoryOk;
    NextIsFirstUncovered(pkKeys, s);
    forall t | t in s'.bases ensures LogExact(pkKeys, s', t) {
      assert LogExact(pkKeys, s, t);
      DecodedForSnoc(pkKeys, t, s.commits, s.bases[t], s.pos);
    }
  }

  /** What leaves WAL, bases, watermark and stored events alone leaves the logs exact. */
  lemma LogsCarryOver(pkKeys: map<string, string>, s: Sys, s': Sys)
    requires LogsExact(pkKeys, s) && s'.commits == s.commits && s'.bases == s.bases
    requires s'.rt.store.watermark == s.rt.store.watermark && s'.rt.store.logs.Keys == s.rt.store.logs.Keys
    requires forall t :: t in s.rt.store.logs ==> s'.rt.store.logs[t].events == s.rt.store.logs[t].events
    ensures LogsExact(pkKeys, s')
  {
    forall t | t in s'.bases ensures LogExact(pkKeys, s', t) {
      assert LogExact(pkKeys, s, t);
    }
  }

  lemma CommitKeepsInv(pkKeys: map<string, string>, s: Sys, c: Commit)
    requires Inv(pkKeys, s) && Enabled(s, CommitTx(c))
    ensures Inv(pkKeys, Perform(pkKeys, s, CommitTx(c)))
  {
    var s' := Perform(pkKeys, s, CommitTx(c));
    KeptIgnoresLater(s.commits, s.rt.store.watermark, c);
    forall t | t in s'.bases ensures LogExact(pkKeys, s', t) {
      assert LogExact(pkKeys, s, t);
      var k := Kept(s.commits, s.rt.store.watermark);
      assert s'.commits[s.bases[t]..k] == s.commits[s.bases[t]..k];
    }
  }

  lemma DeliverKeepsInv(pkKeys: map<string, string>, s: Sys)
    requires Inv(pkKeys, s) && Enabled(s, Deliver)
    ensures Inv(pkKeys, Perform(pkKeys, s, Deliver))
  {
    var s' := Perform(pkKeys, s, Deliver);
    NextIsFirstUncovered(pkKeys, s);
    if Replayed(s.rt.lastPersisted, s.commits[s.pos].lsn) {
      LogsCarryOver(pkKeys, s, s');
    } else {
      IngestKeepsLogs(pkKeys, s, s');
      assert EpochsOf(s'.rt.store) == EpochsOf(s.rt.store);
    }
  }

  lemma CrashKeepsInv(pkKeys: map<string, string>, s: Sys, a: Action)
    requires Inv(pkKeys, s) && Enabled(s, a)
    requires a.Ack? || a.Disconnect? || a.Crash?
    ensures Inv(pkKeys, Perform(pkKeys, s, a))
  {
    hide LogExact, Ordered, Kept;
    LogsCarryOver(pkKeys, s, Perform(pkKeys, s, a));
  }

  /** Persisted, but the process or the promise fails before it can remember. */
  lemma HalfIngestKeepsInv(pkKeys: map<string, string>, s: Sys, a: Action)
    requires Inv(pkKeys, s) && Enabled(s, a) && (a.IngestThenCrash? || a.IngestThenReject?)
    ensures Inv(pkKeys, Perform(pkKeys, s, a))
  {
    var c := s.commits[s.pos];
    IngestKeepsLogs(pkKeys, s, Perform(pkKeys, s, a));
    IngestKeepsEpochs(s.rt.store, DecodeChanges(pkKeys, c.changes), c.lsn);
    hide LogsExact, LogExact, EpochsOf, DecodeChanges, IngestStep, Kept;
  }

  lemma IngestKeepsEpochs(store: Durable, tagged: seq<Tagged>, lsn: nat)
    ensures
      var store' := IngestStep(store, tagged, lsn);
      && EpochsOf(store') == EpochsOf(store) && store'.logs.Keys == store.logs.Keys && store'.watermark == Some(lsn)
      && forall t :: t in store.logs ==> store'.logs[t].epoch == store.logs[t].epoch
  {
  }

  lemma BootKeepsInv(pkKeys: map<string, string>, s: Sys, recreated: map<string, nat>)
    requires Inv(pkKeys, s) && Enabled(s, Boot(recreated))
    ensures Inv(pkKeys, Perform(pkKeys, s, Boot(recreated)))
  {
    var s' := Perform(pkKeys, s, Boot(recreated));
    forall t | t in s'.bases ensures LogExact(pkKeys, s', t) {
      assert LogExact(pkKeys, s, t);
      var k := Kept(s.commits, s.rt.store.watermark);
      assert s.commits[k..k] == [];
    }
    forall t | t in s'.rt.store.logs ensures s'.rt.store.logs[t].epoch in s'.used {
      if t in recreated { assert recreated[t] in recreated.Values; }
    }
  }

  lemma ResumeFacts(rt: Rt, seeds: map<string, Row>)
    ensures
      var rt' := ResumeStep(rt, seeds);
      && rt'.store.watermark == rt'.lastPersisted == rt.store.watermark && rt'.epochs == rt.epochs
      && rt'.store.logs.Keys == rt.store.logs.Keys && EpochsOf(rt'.store) == EpochsOf(rt.store)
      && forall t :: t in rt.store.logs ==>
           rt'.store.logs[t].events == rt.store.logs[t].events && rt'.store.logs[t].epoch == rt.store.logs[t].epoch
  {
  }

  lemma RotateFacts(rt: Rt, epochs: map<string, nat>, seeds: map<string, Row>, point: nat)
    requires epochs.Keys == rt.store.logs.Keys
    ensures
      var rt' := RotateStep(rt, epochs, seeds, point);
      && rt'.store.watermark == rt'.lastPersisted == Some(point)
      && rt'.store.logs.Keys == rt.store.logs.Keys
      && forall t :: t in rt.store.logs ==>
           rt'.store.logs[t].events == [] && rt'.store.logs[t].epoch == epochs[t] && epochs[t] in epochs.Values
  {
  }

  lemma RotateEpochs(rt: Rt, epochs: map<string, nat>, seeds: map<string, Row>, point: nat)
    requires epochs.Keys == rt.store.logs.Keys == rt.epochs.Keys
    ensures EpochsOf(RotateStep(rt, epochs, seeds, point).store) == RotateStep(rt, epochs, seeds, point).epochs
  {
    RotateFacts(rt, epochs, seeds, point);
  }

  /** The guard at work: whatever the server skips on resume lies below the confirmed flush, hence
      at or below the watermark, hence in the tables. */
  lemma ResumeKeepsInv(pkKeys: map<string, string>, s: Sys, position: nat, seeds: map<string, Row>)
    requires Inv(pkKeys, s) && Enabled(s, Resume(position, seeds))
    ensures Inv(pkKeys, Perform(pkKeys, s, Resume(position, seeds)))
  {
    var s' := Perform(pkKeys, s, Resume(position, seeds));
    ResumeFacts(s.rt, seeds);
    hide ResumeStep, EpochsOf, LogExact;
    KeptSplits(s.commits, s.wal, s.rt.store.watermark);
    var k := Kept(s.commits, s.rt.store.watermark);
    if k < |s.commits| { var first := s.commits[k].lsn; }
    LogsCarryOver(pkKeys, s, s');
  }

  lemma RecreateKeepsLogs(pkKeys: map<string, string>, s: Sys, a: Action)
    requires Inv(pkKeys, s) && Enabled(s, a) && a.Recreate?
    ensures LogsExact(pkKeys, Perform(pkKeys, s, a))
    ensures Kept(s.commits, Some(a.point)) == a.b
  {
    var s' := Perform(pkKeys, s, a);
    RotateFacts(s.rt, a.epochs, a.seeds, a.point);
    KeptIs(s.commits, s.wal, a.point, a.b);
    hide RotateStep, EpochsOf, MemoryOk, Ordered, DecodedFor, Kept;
    forall t | t in s'.bases ensures LogExact(pkKeys, s', t) {
      DecodedForNothing(pkKeys, t, s.commits, a.b);
    }
  }

  lemma DecodedForNothing(pkKeys: map<string, string>, table: string, commits: seq<Commit>, b: nat)
    requires b <= |commits|
    ensures DecodedFor(pkKeys, table, commits[b..b]) == []
  {
    assert commits[b..b] == [];
  }

  lemma RecreateKeepsInv(pkKeys: map<string, string>, s: Sys, a: Action)
    requires Inv(pkKeys, s) && Enabled(s, a) && a.Recreate?
    ensures Inv(pkKeys, Perform(pkKeys, s, a))
  {
    RecreateKeepsLogs(pkKeys, s, a);
    RotateFacts(s.rt, a.epochs, a.seeds, a.point);
    assert s.rt.epochs.Keys == s.rt.store.logs.Keys;
    RotateEpochs(s.rt, a.epochs, a.seeds, a.point);
    hide LogsExact, LogExact, RotateStep, EpochsOf;
  }

  lemma ActionKeepsInv(pkKeys: map<string, string>, s: Sys, a: Action)
    requires Inv(pkKeys, s) && Enabled(s, a)
    ensures Inv(pkKeys, Perform(pkKeys, s, a))
  {
    hide Inv, Enabled, Perform;
    match a
    case CommitTx(c) => CommitKeepsInv(pkKeys, s, c);
    case Deliver => DeliverKeepsInv(pkKeys, s);
    case IngestThenCrash => HalfIngestKeepsInv(pkKeys, s, a);
    case IngestThenReject => HalfIngestKeepsInv(pkKeys, s, a);
    case Ack(_) => CrashKeepsInv(pkKeys, s, a);
    case Disconnect => CrashKeepsInv(pkKeys, s, a);
    case Crash => CrashKeepsInv(pkKeys, s, a);
    case Boot(recreated) => BootKeepsInv(pkKeys, s, recreated);
    case Resume(position, seeds) => ResumeKeepsInv(pkKeys, s, position, seeds);
    case Recreate(_, _, _, _) => RecreateKeepsInv(pkKeys, s, a);
  }

  // ----- runs -----

  /** A database with some WAL and the registered tables just created, nothing persisted. */
  ghost predicate Initial(pkKeys: map<string, string>, s: Sys) {
    && Ordered(s.commits, s.wal) && s.rt.store.watermark.None? && s.rt.lastPersisted.None?
    && !s.live && !s.booted && s.bases.Keys == s.rt.store.logs.Keys == pkKeys.Keys
    && forall t :: t in pkKeys ==>
         s.bases[t] == 0 && s.rt.store.logs[t].events == [] && s.rt.store.logs[t].epoch in s.used
  }

  ghost predicate Runs(pkKeys: map<string, string>, s: Sys, actions: seq<Action>, s': Sys)
    decreases |actions|
  {
    if actions == [] then s' == s
    else Enabled(s, actions[0]) && Runs(pkKeys, Perform(pkKeys, s, actions[0]), actions[1..], s')
  }

  lemma {:induction false} RunsKeepInv(pkKeys: map<string, string>, s: Sys, actions: seq<Action>, s': Sys)
    requires Inv(pkKeys, s) && Runs(pkKeys, s, actions, s')
    ensures Inv(pkKeys, s')
    decreases |actions|
  {
    hide Inv, Enabled, Perform;
    if actions != [] {
      ActionKeepsInv(pkKeys, s, actions[0]);
      RunsKeepInv(pkKeys, Perform(pkKeys, s, actions[0]), actions[1..], s');
    }
  }

  lemma InitialIsInv(pkKeys: map<string, string>, s: Sys)
    requires Initial(pkKeys, s)
    ensures Inv(pkKeys, s)
  {
    forall t | t in s.bases ensures LogExact(pkKeys, s, t) {
      assert s.commits[0..0] == [];
    }
  }

  /** Exactly once. In every run of deliveries, replays, crashes, boots, resumes and recreates, each
      table's log is exactly the decoded commits between its base and the durable watermark, once
      each and in LSN order. */
  lemma LogIsExactlyOnce(pkKeys: map<string, string>, s: Sys, actions: seq<Action>, s': Sys, t: string)
    requires Initial(pkKeys, s) && Runs(pkKeys, s, actions, s')
    requires t in s'.bases
    ensures t in s'.rt.store.logs
    ensures
      var k := Kept(s'.commits, s'.rt.store.watermark);
      s'.bases[t] <= k && s'.rt.store.logs[t].events == DecodedFor(pkKeys, t, s'.commits[s'.bases[t]..k])
  {
    InitialIsInv(pkKeys, s);
    RunsKeepInv(pkKeys, s, actions, s');
    assert LogExact(pkKeys, s', t);
  }

  /** The same log as the pull protocol sees it: with the table's whole decoded history laid out as one
      sequence of events, the stored events are the stretch of it from the base to the watermark. */
  lemma LogIsStretchOfHistory(pkKeys: map<string, string>, s: Sys, actions: seq<Action>, s': Sys, t: string)
    requires Initial(pkKeys, s) && Runs(pkKeys, s, actions, s') && t in s'.bases
    ensures t in s'.rt.store.logs && s'.bases[t] <= Kept(s'.commits, s'.rt.store.watermark)
    ensures
      var h := DecodedFor(pkKeys, t, s'.commits);
      var k := Kept(s'.commits, s'.rt.store.watermark);
      var base, logged := |DecodedFor(pkKeys, t, s'.commits[..s'.bases[t]])|, |DecodedFor(pkKeys, t, s'.commits[..k])|;
      base <= logged <= |h| && s'.rt.store.logs[t].events == h[base..logged]
  {
    LogIsExactlyOnce(pkKeys, s, actions, s', t);
    hide Initial, Runs, Kept;
    StretchOf(pkKeys, t, s'.commits, s'.bases[t], Kept(s'.commits, s'.rt.store.watermark));
  }

  lemma {:induction false} DecodedForConcat(pkKeys: map<string, string>, table: string, a: seq<Commit>, b: seq<Commit>)
    ensures DecodedFor(pkKeys, table, a + b) == DecodedFor(pkKeys, table, a) + DecodedFor(pkKeys, table, b)
    decreases |b|
  {
    hide DecodeChanges, EventsOf;
    if b == [] {
      assert a + b == a;
    } else {
      DecodedForConcat(pkKeys, table, a, b[..|b| - 1]);
      assert (a + b)[..|a + b| - 1] == a + b[..|b| - 1];
    }
  }

  /** No commit is skipped: a live stream that has delivered everything has persisted everything. */
  lemma CaughtUpIsComplete(pkKeys: map<string, string>, s: Sys, actions: seq<Action>, s': Sys)
    requires Initial(pkKeys, s) && Runs(pkKeys, s, actions, s')
    requires s'.live && s'.pos == |s'.commits|
    ensures forall i :: 0 <= i < |s'.commits| ==>
      s'.rt.store.watermark.Some? && s'.commits[i].lsn <= s'.rt.store.watermark.value
  {
    InitialIsInv(pkKeys, s);
    RunsKeepInv(pkKeys, s, actions, s');
    KeptSplits(s'.commits, s'.wal, s'.rt.store.watermark);
  }

  /** While the runtime is up, the epoch it mints tokens with is the durable one. */
  lemma EpochsAreDurable(pkKeys: map<string, string>, s: Sys, actions: seq<Action>, s': Sys)
    requires Initial(pkKeys, s) && Runs(pkKeys, s, actions, s') && s'.booted
    ensures s'.rt.epochs == EpochsOf(s'.rt.store)
  {
    InitialIsInv(pkKeys, s);
    RunsKeepInv(pkKeys, s, actions, s');
  }

  // ----- what a session emits -----

  /** The events of one table that an action hands to the tap. */
  function EmittedBy(pkKeys: map<string, string>, s: Sys, a: Action, table: string): seq<Wal.Pending> {
    if a.Deliver? && s.pos < |s.commits| && !Replayed(s.rt.lastPersisted, s.commits[s.pos].lsn)
    then EventsOf(table, DecodeChanges(pkKeys, s.commits[s.pos].changes))
    else []
  }

  ghost function Emitted(pkKeys: map<string, string>, s: Sys, actions: seq<Action>, table: string): seq<Wal.Pending>
    decreases |actions|
  {
    if actions == [] || !Enabled(s, actions[0]) then []
    else
      EmittedBy(pkKeys, s, actions[0], table) +
      Emitted(pkKeys, Perform(pkKeys, s, actions[0]), actions[1..], table)
  }

  predicate StaysOpen(a: Action) {
    a.CommitTx? || a.Deliver? || a.Ack?
  }

  /** While a stream stays open, what it redelivers is dropped and what is new is emitted: in all, from
      wherever the server restarted it, each commit from the first uncovered one on, once, in order. */
  lemma {:induction false} SessionEmits(pkKeys: map<string, string>, s: Sys, actions: seq<Action>, s': Sys,
      table: string)
    requires Inv(pkKeys, s) && s.live && Runs(pkKeys, s, actions, s')
    requires forall i :: 0 <= i < |actions| ==> StaysOpen(actions[i])
    ensures s.commits <= s'.commits
    ensures
      var before, now := Kept(s.commits, s.rt.store.watermark), Kept(s'.commits, s'.rt.store.watermark);
      before <= now && Emitted(pkKeys, s, actions, table) == DecodedFor(pkKeys, table, s'.commits[before..now])
    decreases |actions|
  {
    hide Inv, Enabled, Perform, Kept, DecodedFor, EmittedBy;
    var before, now := Kept(s.commits, s.rt.store.watermark), Kept(s'.commits, s'.rt.store.watermark);
    if actions == [] {
      DecodedForNothing(pkKeys, table, s.commits, now);
    } else {
      var next := Perform(pkKeys, s, actions[0]);
      ActionKeepsInv(pkKeys, s, actions[0]);
      OpenStep(pkKeys, s, actions[0], table);
      SessionEmits(pkKeys, next, actions[1..], s', table);
      var between := Kept(next.commits, next.rt.store.watermark);
      assert next.commits[before..between] == s'.commits[before..between];
      assert s'.commits[before..now] == s'.commits[before..between] + s'.commits[between..now];
      DecodedForConcat(pkKeys, table, s'.commits[before..between], s'.commits[between..now]);
    }
  }

  lemma OpenStep(pkKeys: map<string, string>, s: Sys, a: Action, table: string)
    requires Inv(pkKeys, s) && s.live && Enabled(s, a) && StaysOpen(a)
    ensures
      var next := Perform(pkKeys, s, a);
      var before, between := Kept(s.commits, s.rt.store.watermark), Kept(next.commits, next.rt.store.watermark);
      && next.live && s.commits <= next.commits && before <= between
      && EmittedBy(pkKeys, s, a, table) == DecodedFor(pkKeys, table, next.commits[before..between])
  {
    hide LogsExact, EventsOf, DecodeChanges, DecodedFor, Ordered, ApplyStep;
    var k := Kept(s.commits, s.rt.store.watermark);
    DecodedForNothing(pkKeys, table, Perform(pkKeys, s, a).commits, k);
    match a
    case CommitTx(c) => KeptIgnoresLater(s.commits, s.rt.store.watermark, c);
    case Ack(_) =>
    case Deliver => DeliverStep(pkKeys, s, table);
  }

  lemma DeliverStep(pkKeys: map<string, string>, s: Sys, table: string)
    requires Inv(pkKeys, s) && s.live && Enabled(s, Deliver)
    ensures
      var next := Perform(pkKeys, s, Deliver);
      var before, between := Kept(s.commits, s.rt.store.watermark), Kept(next.commits, next.rt.store.watermark);
      && next.live && next.commits == s.commits && before <= between
      && EmittedBy(pkKeys, s, Deliver, table) == DecodedFor(pkKeys, table, next.commits[before..between])
  {
    hide LogsExact, EventsOf, DecodeChanges, DecodedFor, Ordered;
    var k := Kept(s.commits, s.rt.store.watermark);
    NextIsFirstUncovered(pkKeys, s);
    DecodedForNothing(pkKeys, table, s.commits, k);
    if !Replayed(s.rt.lastPersisted, s.commits[s.pos].lsn) {
      DecodedForSnoc(pkKeys, table, s.commits, k, k);
    }
  }

  /** In terms of the history the collections follow: a session is one restart of the tap, at the first
      uncovered event, and a delivery of every event from there up to the watermark. */
  lemma SessionIsTapStretch(pkKeys: map<string, string>, s: Sys, actions: seq<Action>, s': Sys, table: string)
    requires Inv(pkKeys, s) && s.live && Runs(pkKeys, s, actions, s')
    requires forall i :: 0 <= i < |actions| ==> StaysOpen(actions[i])
    ensures
      var h := DecodedFor(pkKeys, table, s'.commits);
      var before, now := Kept(s.commits, s.rt.store.watermark), Kept(s'.commits, s'.rt.store.watermark);
      && before <= now <= |s'.commits|
      && var position, upto :=
        |DecodedFor(pkKeys, table, s'.commits[..before])|, |DecodedFor(pkKeys, table, s'.commits[..now])|;
         position <= upto <= |h| && Emitted(pkKeys, s, actions, table) == h[position..upto]
  {
    SessionEmits(pkKeys, s, actions, s', table);
    hide Inv, Runs, Kept, Emitted;
    StretchOf(pkKeys, table, s'.commits, Kept(s.commits, s.rt.store.watermark),
      Kept(s'.commits, s'.rt.store.watermark));
  }

  lemma StretchOf(pkKeys: map<string, string>, table: string, commits: seq<Commit>, b: nat, k: nat)
    requires b <= k <= |commits|
    ensures
      var h := DecodedFor(pkKeys, table, commits);
      var base, upto := |DecodedFor(pkKeys, table, commits[..b])|, |DecodedFor(pkKeys, table, commits[..k])|;
      base <= upto <= |h| && DecodedFor(pkKeys, table, commits[b..k]) == h[base..upto]
  {
    hide DecodedFor;
    assert commits == commits[..k] + commits[k..] && commits[..k] == commits[..b] + commits[b..k];
    DecodedForConcat(pkKeys, table, commits[..k], commits[k..]);
    DecodedForConcat(pkKeys, table, commits[..b], commits[b..k]);
  }

  // ----- when to resume -----

  /** Wherever the server restarts the stream, no commit is passed over that the tables lack. */
  ghost predicate ResumeIsSafe(s: Sys) {
    forall position :: 0 <= position <= |s.commits| && SkippedBelow(s, position) ==>
      position <= Kept(s.commits, s.rt.store.watermark)
  }

  /** The server may pass over the first `position` commits: all lie below the confirmed flush. */
  ghost predicate SkippedBelow(s: Sys, position: int)
    requires 0 <= position <= |s.commits|
  {
    forall i :: 0 <= i < position ==> s.commits[i].lsn < s.confirmed
  }

  /** Resuming is safe exactly when no commit lies above the watermark and below the confirmed flush.
      The runtime's check asks for more, that the gap be empty of positions and not just of commits. */
  lemma ResumeIsSafeIff(pkKeys: map<string, string>, s: Sys)
    requires Inv(pkKeys, s)
    ensures ResumeIsSafe(s) <==>
      forall i :: 0 <= i < |s.commits| && s.commits[i].lsn < s.confirmed ==>
        s.rt.store.watermark.Some? && s.commits[i].lsn <= s.rt.store.watermark.value
    ensures MayResume(s.rt.store, s.confirmed) ==> ResumeIsSafe(s)
  {
    hide LogsExact, Kept, MemoryOk;
    var k := Kept(s.commits, s.rt.store.watermark);
    KeptSplits(s.commits, s.wal, s.rt.store.watermark);
    if ResumeIsSafe(s) {
      forall i | 0 <= i < |s.commits| && s.commits[i].lsn < s.confirmed ensures i < k {
        forall j | 0 <= j < i + 1 ensures s.commits[j].lsn < s.confirmed {
          assert j < i ==> s.commits[j].lsn < s.commits[i].lsn;
        }
        assert SkippedBelow(s, i + 1);
      }
    }
    if forall i :: 0 <= i < |s.commits| && s.commits[i].lsn < s.confirmed ==> i < k {
      forall position | 0 <= position <= |s.commits| && SkippedBelow(s, position) ensures position <= k {
        assert position > 0 ==> s.commits[position - 1].lsn < s.confirmed;
      }
    }
  }

  // ----- two runs -----

  lemma {:induction false} RunsSnoc(pkKeys: map<string, string>, s0: Sys, actions: seq<Action>, s: Sys, a: Action)
    requires Runs(pkKeys, s0, actions, s) && Enabled(s, a)
    ensures Runs(pkKeys, s0, actions + [a], Perform(pkKeys, s, a))
    decreases |actions|
  {
    hide Enabled, Perform;
    if actions == [] {
      assert actions + [a] == [a] && [a][1..] == [];
    } else {
      RunsSnoc(pkKeys, Perform(pkKeys, s0, actions[0]), actions[1..], s, a);
      assert (actions + [a])[1..] == actions[1..] + [a];
    }
  }

  /** A first boot, and the slot created for it. */
  lemma FirstSession(pkKeys: map<string, string>, s0: Sys) returns (actions: seq<Action>, s: Sys)
    requires Initial(pkKeys, s0) && s0.commits == [] && s0.wal >= 1
    ensures Runs(pkKeys, s0, actions, s)
    ensures s.commits == [] && s.wal == s0.wal && s.live && s.booted && s.pos == 0
    ensures s.rt.store.watermark == s.rt.lastPersisted == Some(0)
  {
    var epoch: nat := FreshEpoch(s0.used);
    var boot, create := Boot(map[]), Recreate(0, 0, map t | t in s0.rt.store.logs :: epoch, map[]);
    RunsSnoc(pkKeys, s0, [], s0, boot);
    var s1 := Perform(pkKeys, s0, boot);
    RunsSnoc(pkKeys, s0, [] + [boot], s1, create);
    actions, s := [] + [boot] + [create], Perform(pkKeys, s1, create);
  }

  lemma FreshEpoch(used: set<nat>) returns (epoch: nat)
    ensures epoch !in used
  {
    epoch := if used == {} then 0 else Largest(used) + 1;
  }

  ghost function Largest(used: set<nat>): (top: nat)
    requires used != {}
    ensures forall e :: e in used ==> e <= top
  {
    var e :| e in used;
    var rest := used - {e};
    assert forall x :: x in used ==> x == e || x in rest;
    if rest == {} then e else var top := Largest(rest); if e < top then top else e
  }

  /** The session is down after a commit at the write position and an acknowledgement. */
  ghost predicate Acknowledged(s: Sys, lsn: nat, flush: nat) {
    |s.commits| == 1 && s.commits[0].lsn == lsn && s.confirmed == flush && s.booted && !s.live
  }

  /** The first commit of that session. */
  lemma FirstCommit(pkKeys: map<string, string>, s0: Sys, changes: seq<Change>) returns (actions: seq<Action>, s: Sys)
    requires Initial(pkKeys, s0) && s0.commits == [] && s0.wal >= 1
    ensures Runs(pkKeys, s0, actions, s)
    ensures s.commits == [Commit(s0.wal, s0.wal + 1, changes)] && s.wal == s0.wal + 1
    ensures s.live && s.booted && s.pos == 0 && s.rt.store.watermark == s.rt.lastPersisted == Some(0)
  {
    hide Runs, Initial;
    var a := CommitTx(Commit(s0.wal, s0.wal + 1, changes));
    actions, s := FirstSession(pkKeys, s0);
    RunsSnoc(pkKeys, s0, actions, s, a);
    actions, s := actions + [a], Perform(pkKeys, s, a);
  }

  /** Its delivery. */
  lemma FirstDelivery(pkKeys: map<string, string>, s: Sys)
    requires s.live && |s.commits| == 1 && s.pos == 0 && s.rt.lastPersisted == Some(0) && s.commits[0].lsn >= 1
    ensures Enabled(s, Deliver)
    ensures
      var s' := Perform(pkKeys, s, Deliver);
      && s'.commits == s.commits && s'.wal == s.wal && s'.live && s'.booted == s.booted && s'.pos == 1
      && s'.rt.store.watermark == s'.rt.lastPersisted == Some(s.commits[0].lsn)
  {
    hide DecodeChanges, IngestStep;
    IngestKeepsEpochs(s.rt.store, DecodeChanges(pkKeys, s.commits[0].changes), s.commits[0].lsn);
  }

  /** An acknowledgement, after which the session goes down. */
  lemma AckAndDown(pkKeys: map<string, string>, s0: Sys, actions: seq<Action>, s: Sys, flush: nat)
    returns (actions': seq<Action>, s': Sys)
    requires Runs(pkKeys, s0, actions, s) && Enabled(s, Ack(flush)) && s.live
    ensures Runs(pkKeys, s0, actions', s') && s' == s.(confirmed := flush, live := false)
  {
    hide Runs;
    RunsSnoc(pkKeys, s0, actions, s, Ack(flush));
    actions', s' := actions + [Ack(flush)], Perform(pkKeys, s, Ack(flush));
    RunsSnoc(pkKeys, s0, actions', s', Disconnect);
    actions', s' := actions' + [Disconnect], Perform(pkKeys, s', Disconnect);
  }

  /** The check is conservative: in a run that delivers and persists its one commit and acknowledges it
      the ordinary way, at the end of its record, resuming would be safe, and the verdict is to
      recreate. */
  lemma OrdinaryAckRecreates(pkKeys: map<string, string>, s0: Sys, changes: seq<Change>)
    requires Initial(pkKeys, s0) && s0.commits == [] && s0.wal >= 1
    ensures exists actions, s ::
      && Runs(pkKeys, s0, actions, s) && Acknowledged(s, s0.wal, s0.wal + 1)
      && ResumeIsSafe(s) && !MayResume(s.rt.store, s.confirmed)
  {
    hide Runs, Initial, Perform, Inv, ResumeIsSafe;
    var actions, s := FirstCommit(pkKeys, s0, changes);
    FirstDelivery(pkKeys, s);
    RunsSnoc(pkKeys, s0, actions, s, Deliver);
    actions, s := actions + [Deliver], Perform(pkKeys, s, Deliver);
    actions, s := AckAndDown(pkKeys, s0, actions, s, s0.wal + 1);
    InitialIsInv(pkKeys, s0);
    RunsKeepInv(pkKeys, s0, actions, s);
    ResumeIsSafeIff(pkKeys, s);
  }

  /** And it is needed: in a run that acknowledges a commit before it is delivered, resuming would not
      be safe. */
  lemma SkippedCommitIsLost(pkKeys: map<string, string>, s0: Sys, changes: seq<Change>)
    requires Initial(pkKeys, s0) && s0.commits == [] && s0.wal >= 1
    ensures exists actions, s ::
      && Runs(pkKeys, s0, actions, s) && Acknowledged(s, s0.wal, s0.wal + 1)
      && !ResumeIsSafe(s) && !MayResume(s.rt.store, s.confirmed)
  {
    hide Runs, Initial, Perform, Inv, ResumeIsSafe;
    var actions, s := FirstCommit(pkKeys, s0, changes);
    actions, s := AckAndDown(pkKeys, s0, actions, s, s0.wal + 1);
    InitialIsInv(pkKeys, s0);
    RunsKeepInv(pkKeys, s0, actions, s);
    ResumeIsSafeIff(pkKeys, s);
  }
}
