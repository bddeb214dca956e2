/** The pull handler of server/sdk.ts: a batch of entries, each with its own token, answered one by
    one, and the tokens it mints. */
module PullHandler {
  import opened Values
  import opened MergeCore
  import Queries
  import Events
  import opened Pull
  import opened Cursor
  import PulseQuery

  /** One query as the server knows it: resolved, with the epoch and rows of its events table and what
      a reset's SELECT returns for a window, unless it throws. */
  datatype Served = Served(q: Queries.Query, epoch: Option<string>, log: seq<Events.EventRow>,
                           select: Window -> Option<seq<Entry>>)

  /** An entry of the request. Neither the key nor the token need be strings, nor the bounds pks. */
  datatype Item =
    | Malformed
    | Item(key: Option<string>, queryName: string, token: Option<string>, rangeStart: Value, rangeEnd: Value,
           hasMore: bool)

  datatype Reply =
    | Thrown
    | Failed
    | Deltas(events: seq<Event>, window: Window, token: string)
    | Rebaseline(rows: seq<Row>, window: Window, token: string, reason: Reason, hasMore: bool)

  datatype Response = BadRequest | ServerError | Results(results: map<string, Reply>)

  /** reconstructSubscription: bounds that are no pks are dropped. */
  function WindowOf(item: Item): Window
    requires item.Item?
  {
    Window(if IsPkComparable(item.rangeStart) then Some(item.rangeStart) else None,
           if IsPkComparable(item.rangeEnd) then Some(item.rangeEnd) else None)
  }

  /** resetOrError: the rows in the window, their span, and a token for the newest snapshot. */
  function Reset(served: Served, epoch: string, window: Window, reason: Reason, hasMore: bool): Reply {
    match served.select(window)
    case None => Thrown
    case Some(rows) =>
      Rebaseline(RowsOf(rows), PulseQuery.Spread(Window(None, None), rows),
                 FormatCursor(epoch, LatestSnapshot(served.log)), reason, hasMore)
  }

  function Answer(served: Served, epoch: string, window: Window, increment: Increment, hasMore: bool): Reply {
    match increment
    case ResetDue(reason) => Reset(served, epoch, window, reason, hasMore)
    case Delta(events, next, snapshot) => Deltas(events, next, FormatCursor(epoch, snapshot))
  }

  /** The epoch is compared before the snapshot is looked at. Without one no token can be minted. */
  function ReplyTo(served: Served, token: Option<string>, window: Window, hasMore: bool, cap: nat): Reply {
    if served.epoch.None? then Thrown
    else
      var epoch, parsed := served.epoch.value, if token.Some? then ParseCursor(token.value) else None;
      if parsed.None? || parsed.value.0 != epoch then Reset(served, epoch, window, StaleEpoch, hasMore)
      else Answer(served, epoch, window, Incremental(served.q, window, parsed.value.1, served.log, cap), hasMore)
  }

  /** A query that does not resolve, or is not served, fails by itself. */
  function ReplyItem(queries: map<string, Served>, item: Item, cap: nat): Reply
    requires item.Item?
  {
    if item.queryName !in queries then Failed
    else ReplyTo(queries[item.queryName], item.token, WindowOf(item), item.hasMore, cap)
  }

  predicate Keyed(item: Item) {
    item.Item? && item.key.Some? && item.key.value != ""
  }

  /** The item that decides a key: the last one with it. */
  ghost predicate Decides(items: seq<Item>, key: string, i: nat) {
    && i < |items| && Keyed(items[i]) && items[i].key.value == key
    && forall j :: i < j < |items| && Keyed(items[j]) ==> items[j].key.value != key
  }

  ghost predicate Asked(items: seq<Item>, key: string) {
    exists i: nat :: Decides(items, key, i)
  }

  predicate Throws(queries: map<string, Served>, item: Item, cap: nat) {
    Keyed(item) && ReplyItem(queries, item, cap).Thrown?
  }

  /** Every key is answered from the item that decides it, and nothing else is answered. */
  ghost predicate Answers(queries: map<string, Served>, items: seq<Item>, cap: nat, results: map<string, Reply>) {
    && (forall key, i: nat :: Decides(items, key, i) ==>
          key in results && results[key] == ReplyItem(queries, items[i], cap))
    && forall key :: key in results ==> Asked(items, key)
  }

  /** pull. A throw anywhere fails the whole batch. Otherwise every key is answered from its own item
      alone, items without a usable key are passed over, and nothing else is answered. */
  method PullBatch(queries: map<string, Served>, subscriptions: Option<seq<Item>>, cap: nat) returns (r: Response)
    ensures r.BadRequest? <==> subscriptions.None?
    ensures r.ServerError? <==>
      subscriptions.Some? && exists item :: item in subscriptions.value && Throws(queries, item, cap)
    ensures r.Results? ==> Answers(queries, subscriptions.value, cap, r.results)
  {
    if subscriptions.None? { return BadRequest; }
    var items := subscriptions.value;
    assert Answers(queries, items[..0], cap, map[]);
    hide Answers, ReplyItem;
    var results: map<string, Reply> := map[];
    for n := 0 to |items|
      invariant Answers(queries, items[..n], cap, results)
      invariant forall i :: 0 <= i < n ==> !Throws(queries, items[i], cap)
    {
      var item := items[n];
      AnswersSnoc(queries, items, n, cap, results);
      if !Keyed(item) { continue; }
      var reply := ReplyItem(queries, item, cap);
      if reply.Thrown? {
        assert item in items && Throws(queries, item, cap);
        return ServerError;
      }
      results := results[item.key.value := reply];
    }
    assert items[..|items|] == items;
    r := Results(results);
  }

  lemma AnswersSnoc(queries: map<string, Served>, items: seq<Item>, n: nat, cap: nat, results: map<string, Reply>)
    requires n < |items| && Answers(queries, items[..n], cap, results)
    ensures Answers(queries, items[..n + 1], cap,
      if Keyed(items[n]) then results[items[n].key.value := ReplyItem(queries, items[n], cap)] else results)
  {
    hide Asked, ReplyItem;
    DecidesSnoc(items, n);
    AskedSnoc(items, n);
    var later :=
      if Keyed(items[n]) then results[items[n].key.value := ReplyItem(queries, items[n], cap)] else results;
    forall key, i: nat | Decides(items[..n + 1], key, i)
      ensures key in later && later[key] == ReplyItem(queries, items[i], cap)
    {
      if !Has(items[n], key) { assert Decides(items[..n], key, i); }
    }
    forall key | key in later ensures Asked(items[..n + 1], key) {
      assert key in results || Has(items[n], key);
    }
  }

  predicate Has(item: Item, key: string) {
    Keyed(item) && item.key.value == key
  }

  lemma DecidesSnoc(items: seq<Item>, n: nat)
    requires n < |items|
    ensures forall key, i: nat :: Decides(items[..n + 1], key, i) <==>
      (Has(items[n], key) && i == n) || (!Has(items[n], key) && Decides(items[..n], key, i))
  {
    var init, longer := items[..n], items[..n + 1];
    forall key, i: nat
      ensures Decides(longer, key, i) <==>
        (Has(items[n], key) && i == n) || (!Has(items[n], key) && Decides(init, key, i))
    {
      DecidesSnocAt(items, n, key, i);
    }
  }

  lemma AskedSnoc(items: seq<Item>, n: nat)
    requires n < |items|
    ensures forall key :: Asked(items[..n + 1], key) <==> Has(items[n], key) || Asked(items[..n], key)
  {
    DecidesSnoc(items, n);
    var init, longer := items[..n], items[..n + 1];
    forall key ensures Asked(longer, key) <==> Has(items[n], key) || Asked(init, key) {
      if Has(items[n], key) {
        assert Decides(longer, key, n);
      } else {
        if Asked(init, key) {
          var i: nat :| Decides(init, key, i);
          assert Decides(longer, key, i);
        }
        if Asked(longer, key) {
          var i: nat :| Decides(longer, key, i);
          assert Decides(init, key, i);
        }
      }
    }
  }

  lemma DecidesSnocAt(items: seq<Item>, n: nat, key: string, i: nat)
    requires n < |items|
    ensures Decides(items[..n + 1], key, i) <==>
      (Has(items[n], key) && i == n) || (!Has(items[n], key) && Decides(items[..n], key, i))
  {
    var init, longer := items[..n], items[..n + 1];
    assert longer[n] == items[n] && longer == init + [items[n]];
    if Has(items[n], key) {
      if i < n { assert !Decides(longer, key, i); }
    } else if Decides(init, key, i) {
      forall j | i < j < |longer| && Keyed(longer[j]) ensures longer[j].key.value != key {
        if j < n { assert longer[j] == init[j]; }
      }
    } else if Decides(longer, key, i) {
      assert i < n && init[i] == longer[i];
      forall j | i < j < |init| && Keyed(init[j]) ensures init[j].key.value != key {
        assert longer[j] == init[j];
      }
    }
  }

  /** A token the server minted is answered from its snapshot in the epoch it was minted in, and in any
      other epoch by a reset, whatever the snapshots are. */
  lemma TokenIsHonouredInItsEpoch(served: Served, epoch: string, snapshot: nat, window: Window, hasMore: bool, cap: nat)
    requires served.epoch.Some? && epoch != "" && ':' !in epoch && snapshot <= MaxSafe
    ensures ReplyTo(served, Some(FormatCursor(epoch, snapshot)), window, hasMore, cap) ==
      if served.epoch.value != epoch then Reset(served, served.epoch.value, window, StaleEpoch, hasMore)
      else Answer(served, epoch, window, Incremental(served.q, window, snapshot, served.log, cap), hasMore)
  {
    CursorRoundTrips(epoch, snapshot);
  }

  /** The snapshot a reply's token stands for. */
  function ReadAt(served: Served, token: Option<string>, window: Window, cap: nat): nat
    requires served.epoch.Some?
  {
    var parsed := if token.Some? then ParseCursor(token.value) else None;
    if parsed.None? || parsed.value.0 != served.epoch.value then LatestSnapshot(served.log)
    else
      match Incremental(served.q, window, parsed.value.1, served.log, cap)
      case ResetDue(_) => LatestSnapshot(served.log)
      case Delta(_, _, next) => next
  }

  /** Replies chain. Sent back with its window while the epoch lasts, the token of any reply is
      answered with nothing and itself until, and only until, an event row the query can see is
      logged past the snapshot of the reply: a client at rest stays at rest, and none is forgotten. */
  lemma RepollIsQuietIff(served: Served, token: Option<string>, window: Window, hasMore: bool, cap: nat,
      more: seq<Events.EventRow>)
    requires served.epoch.Some? && served.epoch.value != "" && ':' !in served.epoch.value
    requires LatestSnapshot(served.log + more) <= MaxSafe
    ensures
      var r := ReplyTo(served, token, window, hasMore, cap);
      var later := served.(log := served.log + more);
      r.Deltas? || r.Rebaseline? ==>
        (ReplyTo(later, Some(r.token), r.window, hasMore, cap) == Deltas([], r.window, r.token) <==>
         forall er :: er in more && er.snapshot > ReadAt(served, token, window, cap) ==> !Events.Picked(served.q, er))
  {
    var r := ReplyTo(served, token, window, hasMore, cap);
    if r.Deltas? || r.Rebaseline? {
      hide Incremental, PickedSince, Events.Picked, PulseQuery.Spread, RowsOf, FormatCursor, LatestSnapshot;
      var at := ReadAt(served, token, window, cap);
      assert r.token == FormatCursor(served.epoch.value, at);
      hide ReplyTo, ReadAt;
      ReadAtIs(served, token, window, cap, more);
      QuietAt(served.(log := served.log + more), at, r.window, hasMore, cap);
    }
  }

  /** A minted token is answered with nothing and itself exactly when nothing is picked past it. */
  lemma QuietAt(served: Served, at: nat, window: Window, hasMore: bool, cap: nat)
    requires served.epoch.Some? && served.epoch.value != "" && ':' !in served.epoch.value
    requires at <= MaxSafe && LatestSnapshot(served.log) <= MaxSafe
    ensures
      var token := FormatCursor(served.epoch.value, at);
      ReplyTo(served, Some(token), window, hasMore, cap) == Deltas([], window, token) <==>
      PickedSince(served.q, at, served.log) == []
  {
    var epoch, increment := served.epoch.value, Incremental(served.q, window, at, served.log, cap);
    hide Incremental, PickedSince, LatestSnapshot, PulseQuery.Spread, RowsOf, FormatCursor;
    TokenIsHonouredInItsEpoch(served, epoch, at, window, hasMore, cap);
    QuietIff(served.q, window, at, served.log, cap);
    NextIsLogged(served.q, window, at, served.log, cap);
    hide ReplyTo;
    if increment.Delta? { FormatIsInjective(epoch, at, epoch, increment.next); }
  }

  lemma ReadAtIs(served: Served, token: Option<string>, window: Window, cap: nat, more: seq<Events.EventRow>)
    requires served.epoch.Some? && LatestSnapshot(served.log + more) <= MaxSafe
    ensures
      var at := ReadAt(served, token, window, cap);
      && at <= MaxSafe
      && (PickedSince(served.q, at, served.log + more) == [] <==>
          forall er :: er in more && er.snapshot > at ==> !Events.Picked(served.q, er))
  {
    hide PickedSince, Events.Picked, FormatCursor, LatestSnapshot, Incremental;
    var at := ReadAt(served, token, window, cap);
    LatestGrows(served.log, served.log + more);
    var parsed := if token.Some? then ParseCursor(token.value) else None;
    if parsed.Some? { NextIsLogged(served.q, window, parsed.value.1, served.log, cap); }
    NothingPastNext(served.q, LatestSnapshot(served.log), served.log);
    assert at <= MaxSafe && PickedSince(served.q, at, served.log) == [];
    hide ReadAt;
    assert served.log + [] == served.log;
    NothingPicked(served.q, at, served.log, []);
    NothingPicked(served.q, at, served.log, more);
  }
}
