/** Boot-time provisioning (bootstrap in server/pulse-runtime.ts): replica identities, publication
    membership, events tables and their bookkeeping are brought in line with the registered sources
    in one transaction. */
module Bootstrap {
  import opened Values

  datatype Identity = FullIdentity | DefaultIdentity | OtherIdentity

  datatype Publication = Publication(allTables: bool, members: set<string>)

  /** A row of pulse_meta. The hash of a table's DDL is taken to be injective. */
  datatype MetaRow = MetaRow(ddlHash: string, epoch: nat)

  /** Source tables by qualified name with their replica identity, the publication, the relations of
      the events schema with their contents, pulse_meta; and what the connection may do. `used` holds
      every epoch given out so far. */
  datatype Db = Db(
    logicalWal: bool, owned: set<string>, ownsPublication: bool, mayCreate: bool,
    identities: map<string, Identity>, publication: Option<Publication>,
    relations: map<string, seq<nat>>, meta: map<string, MetaRow>, used: set<nat>)

  datatype Source = Source(name: string, eventsName: string, ddlHash: string)

  datatype Config = Config(sources: seq<Source>, pull: bool)

  datatype Error = WalLevel | MissingGrant

  const Reserved: set<string> := {"pulse_meta", "pulse_stream"}

  function Names(sources: seq<Source>): set<string> {
    set i | 0 <= i < |sources| :: sources[i].name
  }

  function EventsNames(sources: seq<Source>): set<string> {
    set i | 0 <= i < |sources| :: sources[i].eventsName
  }

  /** What a runtime that got past its constructor has registered: one source per name and one events
      table per source; and no events table named like the bookkeeping. */
  ghost predicate WfConfig(cfg: Config) {
    && (forall i, j :: 0 <= i < j < |cfg.sources| ==>
          cfg.sources[i].name != cfg.sources[j].name && cfg.sources[i].eventsName != cfg.sources[j].eventsName)
    && EventsNames(cfg.sources) !! Reserved
  }

  /** Publication members exist, bookkeeping is not about itself, epochs on record were given out. */
  ghost predicate WfDb(db: Db) {
    && (db.publication.Some? ==> db.publication.value.members <= db.identities.Keys)
    && db.meta.Keys !! Reserved
    && (forall n :: n in db.meta ==> db.meta[n].epoch in db.used)
  }

  // ----- what provisioning is for -----

  function ManagedMembers(db: Db): set<string> {
    if db.publication.Some? && !db.publication.value.allTables then db.publication.value.members else {}
  }

  predicate MayAlter(db: Db, table: string) {
    table in db.identities && table in db.owned
  }

  predicate IsFull(db: Db, table: string) {
    table in db.identities && db.identities[table].FullIdentity?
  }

  /** What the connection must be able to do: own every source that is not FULL yet; create the
      publication over sources it owns, or own it together with what is added or dropped. */
  predicate CanProvision(cfg: Config, db: Db) {
    var names := Names(cfg.sources);
    && db.logicalWal
    && (forall t :: t in names ==> IsFull(db, t) || MayAlter(db, t))
    && (db.publication.None? ==> db.mayCreate && forall t :: t in names ==> MayAlter(db, t))
    && (db.publication.Some? && !db.publication.value.allTables ==>
          && (forall t :: t in names && t !in db.publication.value.members ==> db.ownsPublication && MayAlter(db, t))
          && (forall t :: t in db.publication.value.members && t !in names ==> db.ownsPublication && MayAlter(db, t)))
  }

  function NewIdentity(cfg: Config, db: Db, table: string): Identity
    requires table in db.identities
  {
    if table in Names(cfg.sources) then FullIdentity
    else if table in ManagedMembers(db) then DefaultIdentity
    else db.identities[table]
  }

  /** An events table is kept exactly when it is there, on record, and of the right shape. */
  predicate Reused(db: Db, source: Source) {
    source.eventsName in db.meta && db.meta[source.eventsName].ddlHash == source.ddlHash &&
    source.eventsName in db.relations
  }

  /** Publication and identities afterwards. */
  ghost predicate Published(cfg: Config, before: Db, after: Db) {
    && after.identities.Keys == before.identities.Keys
    && (forall t :: t in before.identities ==> after.identities[t] == NewIdentity(cfg, before, t))
    && after.publication == (
         if before.publication.Some? && before.publication.value.allTables then before.publication
         else Some(Publication(false, Names(cfg.sources))))
  }

  /** One source's events table afterwards. */
  ghost predicate Provided(before: Db, after: Db, source: Source) {
    var n := source.eventsName;
    && n in after.meta && n in after.relations && after.meta[n].ddlHash == source.ddlHash
    && if Reused(before, source)
       then after.meta[n] == before.meta[n] && after.relations[n] == before.relations[n]
       else after.meta[n].epoch in after.used && after.meta[n].epoch !in before.used && after.relations[n] == []
  }

  ghost predicate GivenTo(meta: map<string, MetaRow>, names: set<string>, epoch: nat) {
    exists n :: n in names && n in meta && meta[n].epoch == epoch
  }

  /** Epochs given out since go to one of the named tables each, and every epoch on record was given
      out. */
  ghost predicate EpochsOk(before: Db, after: Db, names: set<string>) {
    && (forall m, n :: m in after.meta && n in after.meta && m != n && after.meta[m].epoch == after.meta[n].epoch ==>
          after.meta[m].epoch in before.used)
    && (forall n :: n in after.meta ==> after.meta[n].epoch in after.used)
    && before.used <= after.used
    && (forall e :: e in after.used ==> e in before.used || GivenTo(after.meta, names, e))
  }

  ghost predicate AllProvided(sources: seq<Source>, before: Db, after: Db) {
    forall i :: 0 <= i < |sources| ==> Provided(before, after, sources[i])
  }

  /** Relations that are neither on record nor registered are left alone; those on record but no longer
      registered are gone; the bookkeeping tables are there. */
  ghost predicate OthersOk(before: Db, after: Db, desired: set<string>) {
    && after.relations.Keys == (before.relations.Keys - before.meta.Keys) + desired + Reserved
    && (forall n :: n in before.relations && n !in before.meta && n !in desired ==>
      after.relations[n] == before.relations[n])
    && (forall n :: n in Reserved && n !in before.relations ==> after.relations[n] == [])
  }

  /** Events tables and bookkeeping afterwards: exactly the registered ones on record, tables in line
      kept with their rows and epoch, all others rebuilt empty under fresh epochs of their own,
      orphans gone, everything else in the schema as it was. */
  ghost predicate Tables(cfg: Config, before: Db, after: Db) {
    var desired := EventsNames(cfg.sources);
    && after.meta.Keys == desired && AllProvided(cfg.sources, before, after)
    && EpochsOk(before, after, desired) && OthersOk(before, after, desired)
  }

  function EpochsOf(meta: map<string, MetaRow>): map<string, nat> {
    map n | n in meta :: meta[n].epoch
  }

  /** A completed bootstrap. */
  ghost predicate Provisioned(cfg: Config, before: Db, after: Db, epochs: map<string, nat>) {
    && after.logicalWal == before.logicalWal && after.owned == before.owned && after.mayCreate == before.mayCreate
    && after.ownsPublication == (before.ownsPublication || before.publication.None?)
    && Published(cfg, before, after)
    && (if cfg.pull then Tables(cfg, before, after) && epochs == EpochsOf(after.meta)
        else && after.relations == before.relations && after.meta == before.meta && after.used == before.used
             && epochs == map[])
  }

  // ----- what follows -----

  /** Bootstrap is a fixpoint: a second run changes nothing, epochs included. */
  lemma SecondRunChangesNothing(cfg: Config, before: Db, after: Db, epochs: map<string, nat>, after': Db,
      epochs': map<string, nat>)
    requires WfConfig(cfg) && WfDb(before)
    requires Provisioned(cfg, before, after, epochs) && Provisioned(cfg, after, after', epochs')
    ensures after' == after && epochs' == epochs
  {
    PublishedTwice(cfg, before, after, after');
    if cfg.pull { TablesTwice(cfg, before, after, after'); }
  }

  lemma PublishedTwice(cfg: Config, before: Db, after: Db, after': Db)
    requires Published(cfg, before, after) && Published(cfg, after, after')
    ensures after'.publication == after.publication && after'.identities == after.identities
  {
    assert ManagedMembers(after) <= Names(cfg.sources);
    forall t | t in after.identities ensures after'.identities[t] == after.identities[t] {
      assert after.identities[t] == NewIdentity(cfg, before, t);
    }
  }

  lemma TablesTwice(cfg: Config, before: Db, after: Db, after': Db)
    requires WfConfig(cfg) && Tables(cfg, before, after) && Tables(cfg, after, after')
    ensures after'.meta == after.meta && after'.relations == after.relations && after'.used == after.used
  {
    var desired := EventsNames(cfg.sources);
    hide EventsNames, AllProvided, WfConfig, EpochsOk;
    forall n | n in desired ensures SameTable(after, after', n) { SecondRunReuses(cfg, before, after, after', n); }
    assert EpochsOk(before, after, desired) && EpochsOk(after, after', desired);
    RecordedAreUsed(before, after, desired);
    hide OthersOk;
    NothingGivenOut(after, after', desired);
    SameOthers(before, after, after', desired);
  }

  lemma RecordedAreUsed(a: Db, b: Db, names: set<string>)
    requires EpochsOk(a, b, names)
    ensures forall n :: n in b.meta ==> b.meta[n].epoch in b.used
  {
  }

  lemma SameOthers(before: Db, a: Db, b: Db, desired: set<string>)
    requires a.meta.Keys == b.meta.Keys == desired && forall n :: n in desired ==> SameTable(a, b, n)
    requires OthersOk(before, a, desired) && OthersOk(a, b, desired)
    ensures a.meta == b.meta && a.relations == b.relations
  {
    assert b.relations.Keys == a.relations.Keys;
    forall n | n in a.relations ensures b.relations[n] == a.relations[n] {
      if n in desired { assert SameTable(a, b, n); }
    }
    forall n | n in a.meta ensures b.meta[n] == a.meta[n] { assert SameTable(a, b, n); }
  }

  ghost predicate SameTable(a: Db, b: Db, n: string) {
    n in a.meta && n in b.meta && b.meta[n] == a.meta[n] && n in a.relations && n in b.relations &&
      b.relations[n] == a.relations[n]
  }

  lemma SecondRunReuses(cfg: Config, before: Db, after: Db, after': Db, n: string)
    requires AllProvided(cfg.sources, before, after) && AllProvided(cfg.sources, after, after')
    requires n in EventsNames(cfg.sources)
    ensures SameTable(after, after', n)
  {
    var i :| 0 <= i < |cfg.sources| && cfg.sources[i].eventsName == n;
    assert Provided(before, after, cfg.sources[i]) && Provided(after, after', cfg.sources[i]);
  }

  lemma NothingGivenOut(a: Db, b: Db, names: set<string>)
    requires EpochsOk(a, b, names) && forall n :: n in names ==> SameTable(a, b, n)
    requires forall n :: n in a.meta ==> a.meta[n].epoch in a.used
    ensures b.used == a.used
  {
    forall e | e in b.used ensures e in a.used {
      if GivenTo(b.meta, names, e) {
        var n :| n in names && n in b.meta && b.meta[n].epoch == e;
        assert SameTable(a, b, n);
      }
    }
  }

  /** Nor does the second run need any grant at all. */
  lemma SecondRunNeedsNoGrant(cfg: Config, before: Db, after: Db, epochs: map<string, nat>)
    requires CanProvision(cfg, before) && Provisioned(cfg, before, after, epochs)
    ensures CanProvision(cfg, after.(owned := {}, ownsPublication := false, mayCreate := false))
  {
    forall t | t in Names(cfg.sources) ensures IsFull(after, t) {
      assert IsFull(before, t) || MayAlter(before, t);
    }
  }

  /** Success means what the runtime relies on: every source fully logged and, unless everything is
      published, exactly the sources published; and tables dropped from it logged as by default. */
  lemma SourcesAreReplicated(cfg: Config, before: Db, after: Db, epochs: map<string, nat>)
    requires WfDb(before) && CanProvision(cfg, before) && Provisioned(cfg, before, after, epochs)
    ensures forall t :: t in Names(cfg.sources) ==> IsFull(after, t)
    ensures after.publication.Some?
    ensures !after.publication.value.allTables ==> after.publication.value.members == Names(cfg.sources)
    ensures forall t :: t in ManagedMembers(before) - Names(cfg.sources) ==>
      t in after.identities && after.identities[t].DefaultIdentity?
    ensures forall t :: t in before.identities && t !in Names(cfg.sources) && t !in ManagedMembers(before) ==>
      after.identities[t] == before.identities[t]
  {
    SecondRunNeedsNoGrant(cfg, before, after, epochs);
    forall t | t in Names(cfg.sources) ensures IsFull(after, t) {
      assert IsFull(after.(owned := {}, ownsPublication := false, mayCreate := false), t);
    }
  }

  // ----- the steps on values -----

  function FullOn(identities: map<string, Identity>, names: set<string>): map<string, Identity> {
    map t | t in identities :: if t in names then FullIdentity else identities[t]
  }

  function DefaultOn(identities: map<string, Identity>, names: set<string>): map<string, Identity> {
    map t | t in identities :: if t in names then DefaultIdentity else identities[t]
  }

  predicate MayPublish(cfg: Config, tx: Db) {
    var names := Names(cfg.sources);
    && (tx.publication.None? ==> tx.mayCreate && forall t :: t in names ==> MayAlter(tx, t))
    && (tx.publication.Some? && !tx.publication.value.allTables ==>
          && (forall t :: t in names && t !in tx.publication.value.members ==> tx.ownsPublication && MayAlter(tx, t))
          && (forall t :: t in tx.publication.value.members && t !in names ==> tx.ownsPublication && MayAlter(tx, t)))
  }

  function PublishStep(cfg: Config, tx: Db): Db {
    var names := Names(cfg.sources);
    if tx.publication.None? then tx.(publication := Some(Publication(false, names)), ownsPublication := true)
    else if tx.publication.value.allTables then tx
    else tx.(publication := Some(Publication(false, names)),
             identities := DefaultOn(tx.identities, tx.publication.value.members - names))
  }

  lemma NamesSnoc(sources: seq<Source>, i: nat)
    requires i < |sources|
    ensures Names(sources[..i + 1]) == Names(sources[..i]) + {sources[i].name}
    ensures EventsNames(sources[..i + 1]) == EventsNames(sources[..i]) + {sources[i].eventsName}
  {
    var init, longer := sources[..i], sources[..i + 1];
    assert forall k :: 0 <= k < i ==> longer[k] == init[k];
    forall n | n in Names(init) ensures n in Names(longer) {
      var k :| 0 <= k < |init| && init[k].name == n;
      assert longer[k].name == n;
    }
    forall n | n in EventsNames(init) ensures n in EventsNames(longer) {
      var k :| 0 <= k < |init| && init[k].eventsName == n;
      assert longer[k].eventsName == n;
    }
    assert longer[i] == sources[i];
  }

  lemma PublishedAfterFull(cfg: Config, before: Db)
    requires WfDb(before)
    ensures
      var full := before.(identities := FullOn(before.identities, Names(cfg.sources)));
      var tx := PublishStep(cfg, full);
      && (MayPublish(cfg, full) <==> MayPublish(cfg, before))
      && Published(cfg, before, tx) && (CanProvision(cfg, before) ==> WfDb(tx))
  {
    var full := before.(identities := FullOn(before.identities, Names(cfg.sources)));
    assert forall t :: MayAlter(full, t) <==> MayAlter(before, t);
  }

  lemma FullOnMore(identities: map<string, Identity>, names: set<string>, t: string)
    ensures FullOn(identities, names + {t}) ==
      if t in identities then FullOn(identities, names)[t := FullIdentity] else FullOn(identities, names)
  {
  }

  lemma NameIsListed(sources: seq<Source>, i: nat)
    requires i < |sources|
    ensures sources[i].name in Names(sources)
  {
  }

  /** The part of `Tables` that the first `i` sources have brought about. */
  ghost predicate TablesUpto(sources: seq<Source>, before: Db, tx: Db) {
    var done := EventsNames(sources);
    && tx.meta.Keys == before.meta.Keys + done && tx.relations.Keys == before.relations.Keys + done
    && AllProvided(sources, before, tx) && Untouched(before, tx, done) && EpochsOk(before, tx, done)
  }

  ghost predicate Untouched(before: Db, tx: Db, done: set<string>) {
    && (forall n :: n in before.meta && n !in done ==> n in tx.meta && tx.meta[n] == before.meta[n])
    && (forall n :: n in before.relations && n !in done ==> n in tx.relations && tx.relations[n] == before.relations[n])
  }

  function Rebuilt(tx: Db, source: Source, epoch: nat): Db {
    tx.(relations := tx.relations[source.eventsName := []],
        meta := tx.meta[source.eventsName := MetaRow(source.ddlHash, epoch)], used := tx.used + {epoch})
  }

  lemma FreshExists(used: set<nat>)
    ensures exists e: nat :: e !in used
  {
    var top := Above(used);
    assert top !in used;
  }

  /** A number above all in a set. */
  ghost function Above(used: set<nat>): (top: nat)
    ensures forall e :: e in used ==> e < top
  {
    if used == {} then 0
    else
      var e :| e in used;
      var rest := Above(used - {e});
      assert forall x :: x in used ==> x == e || x in used - {e};
      if e < rest then rest else e + 1
  }

  // ----- the transaction -----

  class PulseRuntime {
    const cfg: Config
    var db: Db
    var eventsEpochs: map<string, nat>

    constructor (cfg: Config, db: Db)
      ensures this.cfg == cfg && this.db == db && eventsEpochs == map[]
    {
      this.cfg, this.db, eventsEpochs := cfg, db, map[];
    }

    /** bootstrap: fails exactly when a grant or the WAL level is missing, and then leaves everything
        as it was. */
    method Bootstrap() returns (error: Option<Error>)
      requires WfConfig(cfg) && WfDb(db)
      modifies this
      ensures error.None? <==> CanProvision(cfg, old(db))
      ensures error.Some? ==> db == old(db) && eventsEpochs == old(eventsEpochs)
      ensures error.Some? ==> (error.value.WalLevel? <==> !old(db).logicalWal)
      ensures error.None? ==> Provisioned(cfg, old(db), db, eventsEpochs) && WfDb(db)
    {
      if !db.logicalWal { return Some(WalLevel); }
      PublishedAfterFull(cfg, db);
      var full := ForceFullIdentity(db);
      if full.None? { return Some(MissingGrant); }
      var published := Publish(full.value);
      if published.None? { return Some(MissingGrant); }
      if !cfg.pull {
        db, eventsEpochs := published.value, map[];
        return None;
      }
      var tx := ProvisionEventsTables(published.value);
      ProvisionedBy(cfg, db, published.value, tx);
      db, eventsEpochs := tx, EpochsOf(tx.meta);
      return None;
    }

    /** REPLICA IDENTITY FULL on every source. */
    method ForceFullIdentity(start: Db) returns (r: Option<Db>)
      ensures r.Some? <==> forall t :: t in Names(cfg.sources) ==> IsFull(start, t) || MayAlter(start, t)
      ensures r.Some? ==> r.value == start.(identities := FullOn(start.identities, Names(cfg.sources)))
    {
      var tx := start;
      assert FullOn(start.identities, Names(cfg.sources[..0])) == start.identities;
      hide Names;
      for i := 0 to |cfg.sources|
        invariant tx == start.(identities := FullOn(start.identities, Names(cfg.sources[..i])))
        invariant forall t :: t in Names(cfg.sources[..i]) ==> IsFull(start, t) || MayAlter(start, t)
      {
        NamesSnoc(cfg.sources, i);
        NameIsListed(cfg.sources, i);
        var t := cfg.sources[i].name;
        if !IsFull(tx, t) {
          if !MayAlter(tx, t) { return None; }
          tx := tx.(identities := tx.identities[t := FullIdentity]);
        }
        FullOnMore(start.identities, Names(cfg.sources[..i]), t);
      }
      assert cfg.sources[..|cfg.sources|] == cfg.sources;
      return Some(tx);
    }

    /** The publication: created, left alone, or its members adjusted. */
    method Publish(start: Db) returns (r: Option<Db>)
      ensures r.Some? <==> MayPublish(cfg, start)
      ensures r.Some? ==> r.value == PublishStep(cfg, start)
    {
      var names := Names(cfg.sources);
      if start.publication.None? {
        if !start.mayCreate || exists t :: t in names && !MayAlter(start, t) { return None; }
        return Some(start.(publication := Some(Publication(false, names)), ownsPublication := true));
      }
      if start.publication.value.allTables { return Some(start); }
      var added := AddMissing(start);
      if added.None? { return None; }
      r := DropUnregistered(start, added.value);
    }

    method AddMissing(start: Db) returns (r: Option<Db>)
      requires start.publication.Some? && !start.publication.value.allTables
      ensures r.Some? <==> forall t :: t in Names(cfg.sources) && t !in start.publication.value.members ==>
        start.ownsPublication && MayAlter(start, t)
      ensures r.Some? ==>
        r.value == start.(publication := Some(Publication(false, start.publication.value.members + Names(cfg.sources))))
    {
      var tx, members := start, start.publication.value.members;
      assert members + Names(cfg.sources[..0]) == members;
      for i := 0 to |cfg.sources|
        invariant tx == start.(publication := Some(Publication(false, members + Names(cfg.sources[..i]))))
        invariant forall t :: t in Names(cfg.sources[..i]) && t !in members ==>
          start.ownsPublication && MayAlter(start, t)
      {
        NamesSnoc(cfg.sources, i);
        var t := cfg.sources[i].name;
        if t !in members {
          if !tx.ownsPublication || !MayAlter(tx, t) {
            assert t in Names(cfg.sources) && !(start.ownsPublication && MayAlter(start, t));
            return None;
          }
          tx := tx.(publication := Some(Publication(false, tx.publication.value.members + {t})));
        }
        assert tx.publication.value.members == members + Names(cfg.sources[..i + 1]);
      }
      assert cfg.sources[..|cfg.sources|] == cfg.sources;
      return Some(tx);
    }

    /** Members no longer registered leave the publication and get their default identity back. */
    method DropUnregistered(start: Db, added: Db) returns (r: Option<Db>)
      requires start.publication.Some? && !start.publication.value.allTables
      requires added == start.(publication :=
        Some(Publication(false, start.publication.value.members + Names(cfg.sources))))
      ensures r.Some? <==> forall t :: t in start.publication.value.members && t !in Names(cfg.sources) ==>
        start.ownsPublication && MayAlter(start, t)
      ensures r.Some? ==> r.value == PublishStep(cfg, start)
    {
      var tx, names, members := added, Names(cfg.sources), start.publication.value.members;
      var rest := members;
      while rest != {}
        invariant rest <= members
        invariant tx == start.(publication := Some(Publication(false, rest + names)),
                               identities := DefaultOn(start.identities, members - names - rest))
        invariant forall t :: t in members && t !in names && t !in rest ==> start.ownsPublication && MayAlter(start, t)
      {
        var t :| t in rest;
        rest := rest - {t};
        if t !in names {
          if !tx.ownsPublication || !MayAlter(tx, t) {
            assert !(start.ownsPublication && MayAlter(start, t));
            return None;
          }
          tx := tx.(publication := Some(Publication(false, tx.publication.value.members - {t})),
                    identities := tx.identities[t := DefaultIdentity]);
        }
        assert tx.publication.value.members == rest + names;
        assert tx.identities == DefaultOn(start.identities, members - names - rest);
      }
      assert {} + names == names && members - names - {} == members - names;
      return Some(tx);
    }

    /** The events schema: bookkeeping tables, events tables, orphans. */
    method ProvisionEventsTables(start: Db) returns (tx: Db)
      requires WfConfig(cfg) && WfDb(start)
      ensures Tables(cfg, start, tx)
      ensures tx == start.(relations := tx.relations, meta := tx.meta, used := tx.used)
    {
      var kept := AddBookkeeping(start);
      hide TablesUpto, BookkeepingAdded, Tables, EventsNames;
      var done := RebuildDiverged(kept);
      tx := DropOrphans(done, kept.meta.Keys);
      TablesDone(cfg, start, kept, done, tx);
    }

    /** CREATE TABLE IF NOT EXISTS for pulse_meta and pulse_stream. */
    method AddBookkeeping(start: Db) returns (tx: Db)
      ensures BookkeepingAdded(start, tx)
    {
      tx := start;
      if "pulse_meta" !in tx.relations { tx := tx.(relations := tx.relations["pulse_meta" := []]); }
      if "pulse_stream" !in tx.relations { tx := tx.(relations := tx.relations["pulse_stream" := []]); }
    }

    method RebuildDiverged(start: Db) returns (tx: Db)
      requires WfConfig(cfg) && forall n :: n in start.meta ==> start.meta[n].epoch in start.used
      ensures TablesUpto(cfg.sources, start, tx)
      ensures tx == start.(relations := tx.relations, meta := tx.meta, used := tx.used)
    {
      tx := start;
      NothingDone(start);
      hide TablesUpto, Provided, WfConfig, Reused;
      assert cfg.sources[..0] == [] && cfg.sources[..|cfg.sources|] == cfg.sources;
      for i := 0 to |cfg.sources|
        invariant TablesUpto(cfg.sources[..i], start, tx)
        invariant tx == start.(relations := tx.relations, meta := tx.meta, used := tx.used)
      {
        var source := cfg.sources[i];
        if Reused(start, source) {
          KeptStep(cfg, start, tx, i);
        } else {
          FreshExists(tx.used);
          var epoch: nat :| epoch !in tx.used;
          RebuiltStep(cfg, start, tx, i, epoch);
          tx := Rebuilt(tx, source, epoch);
        }
      }
    }

    method DropOrphans(start: Db, recorded: set<string>) returns (tx: Db)
      ensures
        var orphans := recorded - EventsNames(cfg.sources);
        tx == start.(relations := start.relations - orphans, meta := start.meta - orphans)
    {
      tx := start;
      var desired, rest := EventsNames(cfg.sources), recorded;
      while rest != {}
        invariant rest <= recorded
        invariant
          var orphans := recorded - desired - rest;
          tx == start.(relations := start.relations - orphans, meta := start.meta - orphans)
      {
        var n :| n in rest;
        rest := rest - {n};
        if n !in desired { tx := tx.(relations := tx.relations - {n}, meta := tx.meta - {n}); }
        var orphans := recorded - desired - rest;
        assert tx.relations == start.relations - orphans && tx.meta == start.meta - orphans;
      }
      assert recorded - desired - {} == recorded - desired;
    }
  }

  lemma EventsNameIsNew(cfg: Config, i: nat)
    requires WfConfig(cfg) && i < |cfg.sources|
    ensures cfg.sources[i].eventsName !in EventsNames(cfg.sources[..i])
  {
  }

  lemma ProvidedSnoc(sources: seq<Source>, i: nat, before: Db, tx: Db)
    requires i < |sources| && AllProvided(sources[..i], before, tx) && Provided(before, tx, sources[i])
    ensures AllProvided(sources[..i + 1], before, tx)
  {
    var init, longer := sources[..i], sources[..i + 1];
    forall k | 0 <= k < |longer| ensures Provided(before, tx, longer[k]) {
      if k < i { assert Provided(before, tx, init[k]); }
    }
  }

  lemma NothingDone(start: Db)
    requires forall n :: n in start.meta ==> start.meta[n].epoch in start.used
    ensures TablesUpto([], start, start)
  {
    assert EventsNames([]) == {};
  }

  lemma KeptStep(cfg: Config, before: Db, tx: Db, i: nat)
    requires WfConfig(cfg) && i < |cfg.sources| && Reused(before, cfg.sources[i])
    requires TablesUpto(cfg.sources[..i], before, tx)
    ensures TablesUpto(cfg.sources[..i + 1], before, tx)
  {
    hide EventsNames, AllProvided;
    var done, n := EventsNames(cfg.sources[..i]), cfg.sources[i].eventsName;
    NamesSnoc(cfg.sources, i);
    EventsNameIsNew(cfg, i);
    hide WfConfig;
    assert Provided(before, tx, cfg.sources[i]);
    ProvidedSnoc(cfg.sources, i, before, tx);
    KeptEpochs(before, tx, done, n);
    hide Provided, EpochsOk;
  }

  lemma KeptEpochs(before: Db, tx: Db, done: set<string>, n: string)
    requires EpochsOk(before, tx, done)
    ensures EpochsOk(before, tx, done + {n})
  {
    forall e | e in tx.used && e !in before.used ensures GivenTo(tx.meta, done + {n}, e) {
      GivenToMore(tx.meta, tx.meta, done, n, e);
    }
  }

  lemma GivenToMore(meta: map<string, MetaRow>, meta': map<string, MetaRow>, names: set<string>, n: string, epoch: nat)
    requires GivenTo(meta, names, epoch) && forall m :: m in names && m in meta ==> m in meta' && meta'[m] == meta[m]
    ensures GivenTo(meta', names + {n}, epoch)
  {
    var m :| m in names && m in meta && meta[m].epoch == epoch;
    assert m in meta' && meta'[m].epoch == epoch;
  }

  lemma RebuiltStep(cfg: Config, before: Db, tx: Db, i: nat, epoch: nat)
    requires WfConfig(cfg) && i < |cfg.sources| && !Reused(before, cfg.sources[i]) && epoch !in tx.used
    requires TablesUpto(cfg.sources[..i], before, tx)
    ensures TablesUpto(cfg.sources[..i + 1], before, Rebuilt(tx, cfg.sources[i], epoch))
  {
    hide EventsNames, AllProvided, EpochsOk;
    NamesSnoc(cfg.sources, i);
    EventsNameIsNew(cfg, i);
    RebuiltEpochs(before, tx, EventsNames(cfg.sources[..i]), cfg.sources[i], epoch);
    assert before.used <= tx.used by { EpochsGrow(before, tx, EventsNames(cfg.sources[..i])); }
    RebuiltProvides(cfg, before, tx, i, epoch);
    hide WfConfig, Reused;
  }

  lemma EpochsGrow(before: Db, tx: Db, done: set<string>)
    requires EpochsOk(before, tx, done)
    ensures before.used <= tx.used
  {
  }

  lemma RebuiltEpochs(before: Db, tx: Db, done: set<string>, source: Source, epoch: nat)
    requires EpochsOk(before, tx, done) && epoch !in tx.used && source.eventsName !in done
    ensures EpochsOk(before, Rebuilt(tx, source, epoch), done + {source.eventsName})
  {
    var tx', n := Rebuilt(tx, source, epoch), source.eventsName;
    forall e | e in tx'.used && e !in before.used ensures GivenTo(tx'.meta, done + {n}, e) {
      if e == epoch {
        assert n in tx'.meta && tx'.meta[n].epoch == e;
      } else {
        GivenToMore(tx.meta, tx'.meta, done, n, e);
      }
    }
  }

  lemma RebuiltProvides(cfg: Config, before: Db, tx: Db, i: nat, epoch: nat)
    requires WfConfig(cfg) && i < |cfg.sources| && !Reused(before, cfg.sources[i]) && epoch !in tx.used
    requires before.used <= tx.used && AllProvided(cfg.sources[..i], before, tx)
    ensures AllProvided(cfg.sources[..i + 1], before, Rebuilt(tx, cfg.sources[i], epoch))
  {
    var tx' := Rebuilt(tx, cfg.sources[i], epoch);
    forall k | 0 <= k < i ensures Provided(before, tx', cfg.sources[..i][k]) {
      assert Provided(before, tx, cfg.sources[..i][k]);
      assert cfg.sources[k].eventsName != cfg.sources[i].eventsName;
    }
    ProvidedSnoc(cfg.sources, i, before, tx');
  }

  /** Bookkeeping tables, then the sources', then the orphans: together all that `Tables` says. */
  lemma TablesDone(cfg: Config, start: Db, kept: Db, done: Db, tx: Db)
    requires WfConfig(cfg) && WfDb(start) && BookkeepingAdded(start, kept)
    requires TablesUpto(cfg.sources, kept, done)
    requires
      var orphans := kept.meta.Keys - EventsNames(cfg.sources);
      tx == done.(relations := done.relations - orphans, meta := done.meta - orphans)
    ensures Tables(cfg, start, tx)
  {
    var desired := EventsNames(cfg.sources);
    assert EventsNames(cfg.sources) !! Reserved;
    forall i | 0 <= i < |cfg.sources| ensures Provided(start, tx, cfg.sources[i]) {
      assert cfg.sources[i].eventsName in desired;
      ProvidedStays(start, kept, done, tx, desired, cfg.sources[i]);
    }
    hide EventsNames, WfConfig, Provided;
    assert AllProvided(cfg.sources, start, tx);
    hide AllProvided;
    EpochsStay(start, kept, done, tx, desired);
    OthersStay(start, kept, done, tx, desired);
  }

  ghost predicate BookkeepingAdded(start: Db, kept: Db) {
    && kept == start.(relations := kept.relations) && kept.relations.Keys == start.relations.Keys + Reserved
    && (forall n :: n in start.relations ==> kept.relations[n] == start.relations[n])
    && (forall n :: n in Reserved && n !in start.relations ==> kept.relations[n] == [])
  }

  lemma ProvidedStays(start: Db, kept: Db, done: Db, tx: Db, desired: set<string>, source: Source)
    requires BookkeepingAdded(start, kept) && Provided(kept, done, source)
    requires source.eventsName in desired && source.eventsName !in Reserved
    requires
      var orphans := kept.meta.Keys - desired;
      tx == done.(relations := done.relations - orphans, meta := done.meta - orphans)
    ensures Provided(start, tx, source)
  {
  }

  lemma EpochsStay(start: Db, kept: Db, done: Db, tx: Db, desired: set<string>)
    requires kept.meta == start.meta && kept.used == start.used && EpochsOk(kept, done, desired)
    requires
      var orphans := kept.meta.Keys - desired;
      tx == done.(relations := done.relations - orphans, meta := done.meta - orphans)
    ensures EpochsOk(start, tx, desired)
  {
    forall e | e in tx.used && e !in start.used ensures GivenTo(tx.meta, desired, e) {
      assert GivenTo(done.meta, desired, e);
      var n :| n in desired && n in done.meta && done.meta[n].epoch == e;
      assert n in tx.meta && tx.meta[n].epoch == e;
    }
  }

  lemma OthersStay(start: Db, kept: Db, done: Db, tx: Db, desired: set<string>)
    requires BookkeepingAdded(start, kept) && WfDb(start) && desired !! Reserved
    requires done.relations.Keys == kept.relations.Keys + desired && Untouched(kept, done, desired)
    requires
      var orphans := kept.meta.Keys - desired;
      tx == done.(relations := done.relations - orphans, meta := done.meta - orphans)
    ensures OthersOk(start, tx, desired)
  {
    assert start.meta.Keys !! Reserved;
  }

  /** `Tables` looks at the events schema only. */
  lemma TablesSurvive(cfg: Config, before: Db, published: Db, after: Db)
    requires published.relations == before.relations && published.meta == before.meta && published.used == before.used
    requires Tables(cfg, published, after)
    ensures Tables(cfg, before, after)
  {
    forall i | 0 <= i < |cfg.sources| ensures Provided(before, after, cfg.sources[i]) {
      assert Provided(published, after, cfg.sources[i]);
    }
    hide EventsNames, Provided;
  }

  lemma ProvisionedBy(cfg: Config, before: Db, published: Db, after: Db)
    requires WfConfig(cfg) && WfDb(published) && cfg.pull
    requires published == PublishStep(cfg, before.(identities := FullOn(before.identities, Names(cfg.sources))))
    requires Published(cfg, before, published) && Tables(cfg, published, after)
    requires after == published.(relations := after.relations, meta := after.meta, used := after.used)
    ensures Provisioned(cfg, before, after, EpochsOf(after.meta)) && WfDb(after)
  {
    hide EventsNames, Names, FullOn, DefaultOn, NewIdentity, ManagedMembers, AllProvided, OthersOk, GivenTo;
    TablesSurvive(cfg, before, published, after);
  }
}
