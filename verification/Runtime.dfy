/** server/pulse-runtime.ts and server/pulse-store.ts: decoding a transaction, persisting it under
    the LSN watermark, resuming or recreating the slot, rotating the events tables. */
module Runtime {
  import opened Values
  import opened Wal

  /** A row event of one source table, and a decoded event of one. */
  datatype Change = Change(table: string, event: WalEvent)
  datatype Tagged = Tagged(table: string, event: Pending)

  datatype Commit = Commit(lsn: nat, endLsn: nat, changes: seq<Change>)

  /** An events table: its epoch, its marker row if it was seeded, the events stored since. */
  datatype TableLog = TableLog(epoch: nat, marker: Option<Row>, events: seq<Pending>)

  /** What survives a crash: the events tables and the stream watermark. */
  datatype Durable = Durable(logs: map<string, TableLog>, watermark: Option<nat>)

  /** The durable state and the runtime's memory of it. */
  datatype Rt = Rt(store: Durable, lastPersisted: Option<nat>, epochs: map<string, nat>)

  // ----- decoding -----

  /** decodeInto for one row event: unregistered tables are skipped. */
  function DecodeChange(pkKeys: map<string, string>, change: Change): (r: seq<Tagged>) {
    if change.table !in pkKeys then [] else Tag(change.table, Decode(pkKeys[change.table], change.event))
  }

  function Tag(table: string, es: seq<Pending>): (r: seq<Tagged>)
    ensures |r| == |es| && forall i :: 0 <= i < |es| ==> r[i] == Tagged(table, es[i])
  {
    seq(|es|, i requires 0 <= i < |es| => Tagged(table, es[i]))
  }

  function DecodeChanges(pkKeys: map<string, string>, changes: seq<Change>): seq<Tagged> {
    if changes == [] then []
    else DecodeChanges(pkKeys, changes[..|changes| - 1]) + DecodeChange(pkKeys, changes[|changes| - 1])
  }

  /** The events of one table, in order. */
  function EventsOf(table: string, tagged: seq<Tagged>): seq<Pending> {
    if tagged == [] then []
    else
      var last := tagged[|tagged| - 1];
      EventsOf(table, tagged[..|tagged| - 1]) + if last.table == table then [last.event] else []
  }

  /** The row events of one table in a transaction. */
  function ChangesOf(table: string, changes: seq<Change>): seq<WalEvent> {
    if changes == [] then []
    else
      var last := changes[|changes| - 1];
      ChangesOf(table, changes[..|changes| - 1]) + if last.table == table then [last.event] else []
  }

  lemma {:induction false} EventsOfConcat(table: string, a: seq<Tagged>, b: seq<Tagged>)
    ensures EventsOf(table, a + b) == EventsOf(table, a) + EventsOf(table, b)
    decreases |b|
  {
    if b == [] {
      assert a + b == a;
    } else {
      EventsOfConcat(table, a, b[..|b| - 1]);
      assert (a + b)[..|a + b| - 1] == a + b[..|b| - 1];
    }
  }

  lemma {:induction false} EventsOfTag(table: string, other: string, es: seq<Pending>)
    ensures EventsOf(table, Tag(other, es)) == if table == other then es else []
  {
    if es != [] {
      EventsOfTag(table, other, es[..|es| - 1]);
      assert Tag(other, es)[..|es| - 1] == Tag(other, es[..|es| - 1]);
      assert es == es[..|es| - 1] + [es[|es| - 1]];
    }
  }

  /** Fanning a transaction out over the tables keeps each table's own decoded stream, in order. */
  lemma {:induction false} DecodingFansOut(pkKeys: map<string, string>, table: string, changes: seq<Change>)
    requires table in pkKeys
    ensures EventsOf(table, DecodeChanges(pkKeys, changes)) == DecodeAll(pkKeys[table], ChangesOf(table, changes))
  {
    if changes != [] {
      var init, last := changes[..|changes| - 1], changes[|changes| - 1];
      DecodingFansOut(pkKeys, table, init);
      EventsOfConcat(table, DecodeChanges(pkKeys, init), DecodeChange(pkKeys, last));
      if last.table in pkKeys { EventsOfTag(table, last.table, Decode(pkKeys[last.table], last.event)); }
      if last.table == table {
        assert ChangesOf(table, changes)[..|ChangesOf(table, init)|] == ChangesOf(table, init);
      } else {
        assert ChangesOf(table, changes) == ChangesOf(table, init);
      }
    }
  }

  // ----- the steps on values -----

  function IngestStep(store: Durable, tagged: seq<Tagged>, lsn: nat): Durable {
    Durable(map t | t in store.logs :: store.logs[t].(events := store.logs[t].events + EventsOf(t, tagged)), Some(lsn))
  }

  lemma IngestOne(store: Durable, tagged: seq<Tagged>, e: Tagged, lsn: nat)
    requires e.table in store.logs
    ensures
      var logs := IngestStep(store, tagged, lsn).logs;
      IngestStep(store, tagged + [e], lsn).logs ==
        logs[e.table := logs[e.table].(events := logs[e.table].events + [e.event])]
  {
    assert (tagged + [e])[..|tagged|] == tagged;
    forall t | t in store.logs
      ensures EventsOf(t, tagged + [e]) == EventsOf(t, tagged) + if t == e.table then [e.event] else []
    {
    }
    forall t | t in store.logs && t != e.table
      ensures EventsOf(t, tagged + [e]) == EventsOf(t, tagged)
    {
      assert EventsOf(t, tagged) + [] == EventsOf(t, tagged);
    }
    var events := store.logs[e.table].events;
    assert events + (EventsOf(e.table, tagged) + [e.event]) == events + EventsOf(e.table, tagged) + [e.event];
  }

  lemma IngestNothing(store: Durable, lsn: nat)
    ensures IngestStep(store, [], lsn).logs == store.logs
  {
    forall t | t in store.logs ensures store.logs[t].(events := store.logs[t].events + []) == store.logs[t] {
      assert store.logs[t].events + [] == store.logs[t].events;
    }
  }

  /** What a commit's events look like on the tap. */
  function Emissions(tagged: seq<Tagged>, lsn: nat): (r: seq<(Tagged, nat)>)
    ensures |r| == |tagged| && forall i :: 0 <= i < |r| ==> r[i] == (tagged[i], lsn)
  {
    seq(|tagged|, i requires 0 <= i < |tagged| => (tagged[i], lsn))
  }

  /** applyTransaction: a commit at or below the watermark is a replay. */
  predicate Replayed(lastPersisted: Option<nat>, lsn: nat) {
    lastPersisted.Some? && lsn <= lastPersisted.value
  }

  function ApplyStep(pkKeys: map<string, string>, rt: Rt, c: Commit): Rt {
    if Replayed(rt.lastPersisted, c.lsn) then rt
    else rt.(store := IngestStep(rt.store, DecodeChanges(pkKeys, c.changes), c.lsn), lastPersisted := Some(c.lsn))
  }

  /** createBaselineSnapshot: only an empty table is seeded, and only from an existing row. */
  function SeedLog(log: TableLog, row: Option<Row>): TableLog {
    if log.marker.Some? || log.events != [] then log else log.(marker := row)
  }

  function RotateStep(rt: Rt, epochs: map<string, nat>, seeds: map<string, Row>, consistentPoint: nat): Rt {
    var logs := map t | t in rt.store.logs ::
      if t in epochs then SeedLog(TableLog(epochs[t], None, []), if t in seeds then Some(seeds[t]) else None)
      else rt.store.logs[t];
    Rt(Durable(logs, Some(consistentPoint)), Some(consistentPoint), rt.epochs + epochs)
  }

  lemma RotateOne(rt: Rt, epochs: map<string, nat>, table: string, epoch: nat, seeds: map<string, Row>, point: nat)
    requires table in rt.store.logs && table !in epochs
    ensures
      var logs := RotateStep(rt, epochs, seeds, point).store.logs;
      RotateStep(rt, epochs[table := epoch], seeds, point).store.logs ==
        logs[table := SeedLog(TableLog(epoch, None, []), if table in seeds then Some(seeds[table]) else None)]
    ensures RotateStep(rt, map[], seeds, point).store.logs == rt.store.logs
  {
  }

  datatype Verdict = Resumed | RecreateSlot

  /** onResume: a watermark that is missing or behind the slot's confirmed flush means acknowledged
      commits are not in the tables. */
  predicate MayResume(store: Durable, confirmedFlush: nat) {
    store.watermark.Some? && store.watermark.value >= confirmedFlush
  }

  function ResumeStep(rt: Rt, seeds: map<string, Row>): Rt {
    var logs := map t | t in rt.store.logs ::
      SeedLog(rt.store.logs[t], if t in seeds then Some(seeds[t]) else None);
    Rt(rt.store.(logs := logs), rt.store.watermark, rt.epochs)
  }

  // ----- the store -----

  class PulseStore {
    var logs: map<string, TableLog>
    var watermark: Option<nat>

    function Abs(): Durable
      reads this
    {
      Durable(logs, watermark)
    }

    constructor ()
      ensures Abs() == Durable(map[], None)
    {
      logs, watermark := map[], None;
    }

    method InsertEventRow(table: string, event: Pending)
      requires table in logs
      modifies `logs
      ensures logs == old(logs)[table := old(logs)[table].(events := old(logs)[table].events + [event])]
    {
      logs := logs[table := logs[table].(events := logs[table].events + [event])];
    }

    /** One transaction: the event rows in order, then the watermark. */
    method IngestCommit(events: seq<Tagged>, commitLsn: nat)
      requires forall i :: 0 <= i < |events| ==> events[i].table in logs
      modifies this
      ensures Abs() == IngestStep(old(Abs()), events, commitLsn)
    {
      ghost var store := Abs();
      IngestNothing(store, commitLsn);
      assert events[..0] == [];
      for i := 0 to |events|
        modifies `logs
        invariant logs == IngestStep(store, events[..i], commitLsn).logs
      {
        assert events[..i + 1] == events[..i] + [events[i]];
        IngestOne(store, events[..i], events[i], commitLsn);
        InsertEventRow(events[i].table, events[i].event);
      }
      assert events[..|events|] == events;
      watermark := Some(commitLsn);
    }

    method CreateBaselineSnapshot(table: string, baselineRow: Option<Row>)
      requires table in logs
      modifies `logs
      ensures logs == old(logs)[table := SeedLog(old(logs)[table], baselineRow)]
    {
      var existing := logs[table].marker.Some? || |logs[table].events| > 0;
      if existing { return; }
      if baselineRow.None? {
        assert logs[table].(marker := None) == logs[table];
        return;
      }
      logs := logs[table := logs[table].(marker := baselineRow)];
    }
  }

  // ----- the runtime -----

  class PulseRuntime {
    const pkKeys: map<string, string>
    const store: PulseStore
    /** Off for an embedded-only runtime, which keeps no events tables and no watermark. */
    const pullEnabled: bool
    var lastPersistedCommitLsn: Option<nat>
    var eventsEpochs: map<string, nat>
    var hasStreamed: bool
    /** Everything handed to the tap, with its commit LSN; and the rebaseline rounds fired, each with
        the exported snapshot's position if there was one. */
    var emitted: seq<(Tagged, nat)>
    var rounds: seq<Option<nat>>

    function Abs(): Rt
      reads this, store
    {
      Rt(store.Abs(), lastPersistedCommitLsn, eventsEpochs)
    }

    /** Every registered source has its events table. */
    predicate Valid()
      reads this, store
    {
      store.logs.Keys == pkKeys.Keys && (!pullEnabled ==> lastPersistedCommitLsn.None?)
    }

    constructor (pkKeys: map<string, string>, store: PulseStore, pullEnabled: bool)
      requires store.logs.Keys == pkKeys.Keys
      ensures Valid() && this.pkKeys == pkKeys && this.store == store && this.pullEnabled == pullEnabled
      ensures Abs() == Rt(store.Abs(), None, map[]) && !hasStreamed && emitted == [] && rounds == []
    {
      this.pkKeys, this.store, this.pullEnabled := pkKeys, store, pullEnabled;
      lastPersistedCommitLsn, eventsEpochs := None, map[];
      hasStreamed, emitted, rounds := false, [], [];
    }

    method DecodeInto(changes: seq<Change>) returns (decoded: seq<Tagged>)
      ensures decoded == DecodeChanges(pkKeys, changes)
      ensures forall i :: 0 <= i < |decoded| ==> decoded[i].table in pkKeys
    {
      decoded := [];
      for i := 0 to |changes|
        invariant decoded == DecodeChanges(pkKeys, changes[..i])
        invariant forall j :: 0 <= j < |decoded| ==> decoded[j].table in pkKeys
      {
        assert changes[..i + 1][..i] == changes[..i];
        decoded := decoded + DecodeChange(pkKeys, changes[i]);
      }
      assert changes[..|changes|] == changes;
    }

    /** Persist, remember, then emit: a replayed commit does none of the three. Without the pull side
        nothing is persisted, and every delivery is emitted. */
    method ApplyTransaction(c: Commit)
      requires Valid()
      modifies `lastPersistedCommitLsn, `emitted, store
      ensures Valid()
      ensures Abs() == if pullEnabled then ApplyStep(pkKeys, old(Abs()), c) else old(Abs())
      ensures emitted == old(emitted) +
        if Replayed(old(lastPersistedCommitLsn), c.lsn) then [] else Emissions(DecodeChanges(pkKeys, c.changes), c.lsn)
    {
      if lastPersistedCommitLsn.Some? && c.lsn <= lastPersistedCommitLsn.value {
        assert emitted == emitted + [];
        return;
      }
      var decoded := DecodeInto(c.changes);
      if pullEnabled {
        store.IngestCommit(decoded, c.lsn);
        lastPersistedCommitLsn := Some(c.lsn);
      }
      EmitTaps(decoded, c.lsn);
    }

    method EmitTaps(decoded: seq<Tagged>, lsn: nat)
      modifies `emitted
      ensures emitted == old(emitted) + Emissions(decoded, lsn)
    {
      for i := 0 to |decoded|
        invariant emitted == old(emitted) + Emissions(decoded[..i], lsn)
      {
        emitted := emitted + [(decoded[i], lsn)];
      }
      assert decoded[..|decoded|] == decoded;
    }

    /** One transaction over the registered queries' tables; a table two queries share is rotated
        once. `epochs` is the database's supply of fresh epochs, `seeds` each source's newest row in
        the exported snapshot. */
    method RotateAndSeedEvents(tables: seq<string>, epochs: map<string, nat>, seeds: map<string, Row>,
        consistentPoint: nat)
      requires Valid() && pullEnabled && (set t | t in tables) == epochs.Keys == pkKeys.Keys
      modifies `lastPersistedCommitLsn, `eventsEpochs, store
      ensures Valid()
      ensures Abs() == RotateStep(old(Abs()), epochs, seeds, consistentPoint)
    {
      var rotated := RotateTables(tables, epochs, seeds, consistentPoint);
      store.watermark := Some(consistentPoint);
      eventsEpochs := eventsEpochs + rotated;
      lastPersistedCommitLsn := Some(consistentPoint);
    }

    method RotateTables(tables: seq<string>, epochs: map<string, nat>, seeds: map<string, Row>, ghost point: nat)
      returns (rotated: map<string, nat>)
      requires Valid() && (set t | t in tables) == epochs.Keys == pkKeys.Keys
      modifies store`logs
      ensures Valid() && rotated == epochs
      ensures store.logs == RotateStep(old(Abs()), epochs, seeds, point).store.logs
    {
      ghost var rt := Abs();
      rotated := map[];
      assert forall t :: t in tables <==> t in epochs by {
        assert forall t :: t in epochs <==> t in (set t | t in tables);
      }
      assert RotateStep(rt, map[], seeds, point).store.logs == store.logs;
      hide RotateStep, SeedLog;
      for i := 0 to |tables|
        invariant Valid()
        invariant forall t :: t in rotated <==> t in tables[..i]
        invariant forall t :: t in rotated ==> t in epochs && rotated[t] == epochs[t]
        invariant store.logs == RotateStep(rt, rotated, seeds, point).store.logs
      {
        var table := tables[i];
        assert tables[..i + 1] == tables[..i] + [table] && table in tables;
        if table in rotated { continue; }
        RotateOne(rt, rotated, table, epochs[table], seeds, point);
        rotated := rotated[table := epochs[table]];
        RotateTable(table, epochs[table], if table in seeds then Some(seeds[table]) else None);
      }
      assert tables[..|tables|] == tables;
    }

    method RotateTable(table: string, epoch: nat, row: Option<Row>)
      requires table in store.logs
      modifies store`logs
      ensures store.logs == old(store.logs)[table := SeedLog(TableLog(epoch, None, []), row)]
    {
      store.logs := store.logs[table := TableLog(epoch, None, [])];
      store.CreateBaselineSnapshot(table, row);
    }

    /** ensureBaselines. */
    method EnsureBaselines(tables: seq<string>, seeds: map<string, Row>)
      requires Valid() && (set t | t in tables) == pkKeys.Keys
      modifies store`logs
      ensures Valid()
      ensures store.logs == ResumeStep(old(Abs()), seeds).store.logs
    {
      ghost var before := store.logs;
      for i := 0 to |tables|
        invariant Valid()
        invariant forall t :: t in store.logs ==>
          store.logs[t] == (if t in tables[..i] then SeedLog(before[t], if t in seeds then Some(seeds[t]) else None)
            else before[t])
      {
        var table := tables[i];
        assert tables[..i + 1] == tables[..i] + [table] && table in tables;
        store.CreateBaselineSnapshot(table, if table in seeds then Some(seeds[table]) else None);
      }
      assert tables[..|tables|] == tables;
      forall t | t in store.logs ensures t in tables {
        assert t in (set t | t in tables);
      }
    }

    /** Rebaselines live collections, unless no stream has ever opened: then there are none. */
    method StreamOpens(snapshot: Option<nat>)
      modifies `hasStreamed, `rounds
      ensures hasStreamed
      ensures rounds == if old(hasStreamed) then old(rounds) + [snapshot] else old(rounds)
    {
      if hasStreamed { rounds := rounds + [snapshot]; }
      hasStreamed := true;
    }

    method OnResume(confirmedFlush: nat, tables: seq<string>, seeds: map<string, Row>) returns (verdict: Verdict)
      requires Valid() && pullEnabled && (set t | t in tables) == pkKeys.Keys
      modifies `lastPersistedCommitLsn, `hasStreamed, `rounds, store`logs
      ensures Valid()
      ensures verdict == if MayResume(old(store.Abs()), confirmedFlush) then Resumed else RecreateSlot
      ensures Abs() == if verdict.Resumed? then ResumeStep(old(Abs()), seeds) else old(Abs())
      ensures rounds == if verdict.Resumed? && old(hasStreamed) then old(rounds) + [None] else old(rounds)
    {
      var watermark := store.watermark;
      if watermark.None? || watermark.value < confirmedFlush { return RecreateSlot; }
      EnsureBaselines(tables, seeds);
      lastPersistedCommitLsn := watermark;
      StreamOpens(None);
      return Resumed;
    }

    method Backfill(tables: seq<string>, epochs: map<string, nat>, seeds: map<string, Row>, streamStartLsn: nat)
      requires Valid() && (set t | t in tables) == epochs.Keys == pkKeys.Keys
      modifies `lastPersistedCommitLsn, `eventsEpochs, `hasStreamed, `rounds, store
      ensures Valid()
      ensures Abs() == if pullEnabled then RotateStep(old(Abs()), epochs, seeds, streamStartLsn) else old(Abs())
      ensures rounds == if old(hasStreamed) then old(rounds) + [Some(streamStartLsn)] else old(rounds)
    {
      if pullEnabled { RotateAndSeedEvents(tables, epochs, seeds, streamStartLsn); }
      StreamOpens(Some(streamStartLsn));
    }
  }
}
