/** client/pulse-query.ts with the subscribe and load-more handlers of server/sdk.ts: the HTTP
    client's state, and pagination. A SELECT is given as the listing of the rows it would return
    without its LIMIT. */
module PulseQuery {
  import opened Values
  import opened MergeCore
  import opened Pull

  // ----- the handlers -----

  datatype Page = Page(rows: seq<Row>, window: Window, hasMore: bool)

  function Min(a: int, b: int): int { if a < b then a else b }

  /** The entries a page query returns beyond `cursor`, in order. */
  function After(order: Order, listing: seq<Entry>, cursor: Value): seq<Entry> {
    if listing == [] then []
    else
      var last := listing[|listing| - 1];
      After(order, listing[..|listing| - 1], cursor) + if Before(order, cursor, last.pk) then [last] else []
  }

  /** The page itself: one row more than the limit is fetched to know whether more remain. */
  function Cut(rest: seq<Entry>, limit: Option<nat>): (r: (seq<Entry>, bool))
    ensures r.0 == (if limit.Some? then rest[..Min(limit.value, |rest|)] else rest)
    ensures r.1 <==> limit.Some? && |rest| > limit.value
  {
    if limit.None? then (rest, false)
    else
      var fetched := rest[..Min(limit.value + 1, |rest|)];
      var hasMore := |fetched| > limit.value;
      (if hasMore then fetched[..limit.value] else fetched, hasMore)
  }

  ghost predicate AllComparable(es: seq<Entry>) {
    forall i :: 0 <= i < |es| ==> IsPkComparable(es[i].pk)
  }

  /** Every row is wired with its comparable pk. */
  ghost predicate AllKeyed(es: seq<Entry>) {
    forall i :: 0 <= i < |es| ==> IsPkComparable(es[i].pk) && Field(es[i].row, "$pk") == es[i].pk
  }

  function EndPk(es: seq<Entry>, last: bool): Option<Value> {
    if es == [] then None
    else
      var pk := es[if last then |es| - 1 else 0].pk;
      if IsPkComparable(pk) then Some(pk) else None
  }

  /** subscribe's answer: the first page, with the pks at its ends, smaller one first. */
  function SubscribeAnswer(order: Order, listing: seq<Entry>, limit: Option<nat>): Page {
    var (rows, hasMore) := Cut(listing, limit);
    Page(RowsOf(rows), Window(EndPk(rows, order.Desc?), EndPk(rows, order.Asc?)), hasMore)
  }

  function Spread(window: Window, es: seq<Entry>): Window {
    if es == [] then window
    else
      var before, pk := Spread(window, es[..|es| - 1]), es[|es| - 1].pk;
      if !IsPkComparable(pk) then before else Window(Lower(before.rangeStart, pk), Raise(before.rangeEnd, pk))
  }

  /** The range the rows of a page span: loadMore's and buildResetResponse's loop. */
  method RangeOf(es: seq<Entry>, ghost kind: PkKind) returns (r: Window)
    requires AllOfKind(kind, es)
    ensures r == Spread(Window(None, None), es) && WindowOfKind(kind, r)
  {
    var newStart: Option<Value>, newEnd: Option<Value> := None, None;
    for i := 0 to |es|
      invariant Window(newStart, newEnd) == Spread(Window(None, None), es[..i])
      invariant RangeOfKind(kind, newStart) && RangeOfKind(kind, newEnd)
    {
      assert es[..i + 1][..i] == es[..i];
      var id := es[i].pk;
      if !IsPkComparable(id) { continue; }
      if newStart.None? || ComparePkValues(id, newStart.value) < 0 { newStart := Some(id); }
      if newEnd.None? || ComparePkValues(id, newEnd.value) > 0 { newEnd := Some(id); }
    }
    assert es[..|es|] == es;
    r := Window(newStart, newEnd);
  }

  /** On a sorted page that range is its two ends. */
  lemma {:induction false} SpreadIsEnds(order: Order, es: seq<Entry>)
    requires Sorted(order, es) && AllComparable(es)
    ensures Spread(Window(None, None), es) == Window(EndPk(es, order.Desc?), EndPk(es, order.Asc?))
  {
    if |es| > 1 {
      var init, n := es[..|es| - 1], |es| - 1;
      SpreadIsEnds(order, init);
      PkLessTotal(es[0].pk, es[n].pk);
      PkLessTotal(es[n - 1].pk, es[n].pk);
      assert Precedes(order, es[0].pk, es[n].pk) && Precedes(order, es[n - 1].pk, es[n].pk);
    } else if |es| == 1 {
      assert es[..0] == [];
    }
  }

  function Join(a: Option<Value>, b: Option<Value>, lower: bool): Option<Value> {
    if b.None? then a else if lower then Lower(a, b.value) else Raise(a, b.value)
  }

  /** loadMore's answer. */
  function LoadMoreAnswer(order: Order, listing: seq<Entry>, window: Window, cursor: Value, limit: Option<nat>): Page {
    var (rows, hasMore) := Cut(After(order, listing, cursor), limit);
    var spread := Spread(Window(None, None), rows);
    Page(RowsOf(rows),
         Window(Join(window.rangeStart, spread.rangeStart, true), Join(window.rangeEnd, spread.rangeEnd, false)),
         hasMore)
  }

  lemma {:induction false} AfterIsOfKind(order: Order, kind: PkKind, listing: seq<Entry>, cursor: Value)
    requires AllOfKind(kind, listing)
    ensures AllOfKind(kind, After(order, listing, cursor))
  {
    if listing != [] {
      AfterIsOfKind(order, kind, listing[..|listing| - 1], cursor);
    }
  }

  lemma CutIsOfKind(kind: PkKind, rest: seq<Entry>, limit: Option<nat>)
    requires AllOfKind(kind, rest)
    ensures AllOfKind(kind, Cut(rest, limit).0)
  {
  }

  datatype LoadMoreError = MissingCursor | InvalidCursor

  datatype LoadMoreResult = BadRequest(error: LoadMoreError) | Answered(page: Page)

  /** loadMore. A cursor that is absent or no pk is a bad request; otherwise the rows behind it, the
      window widened by them, and whether more remain. */
  method LoadMoreHandler(order: Order, listing: seq<Entry>, window: Window, cursor: Value, limit: Option<nat>,
      ghost kind: PkKind)
    returns (r: LoadMoreResult)
    requires AllOfKind(kind, listing) && WindowOfKind(kind, window)
    ensures r == if cursor.Null? || cursor.Undefined? then BadRequest(MissingCursor)
                 else if !IsPkComparable(cursor) then BadRequest(InvalidCursor)
                 else Answered(LoadMoreAnswer(order, listing, window, cursor, limit))
    ensures r.Answered? ==> WindowOfKind(kind, r.page.window)
  {
    if cursor.Null? || cursor.Undefined? { return BadRequest(MissingCursor); }
    if !IsPkComparable(cursor) { return BadRequest(InvalidCursor); }
    AfterIsOfKind(order, kind, listing, cursor);
    hide After, Spread, AllOfKind, RowsOf;
    CutIsOfKind(kind, After(order, listing, cursor), limit);
    var (rows, hasMore) := Cut(After(order, listing, cursor), limit);
    var range := RangeOf(rows, kind);
    var updatedStart := if range.rangeStart.None? then window.rangeStart
      else if window.rangeStart.None? || ComparePkValues(range.rangeStart.value, window.rangeStart.value) < 0
        then range.rangeStart
      else window.rangeStart;
    var updatedEnd := if range.rangeEnd.None? then window.rangeEnd
      else if window.rangeEnd.None? || ComparePkValues(range.rangeEnd.value, window.rangeEnd.value) > 0
        then range.rangeEnd
      else window.rangeEnd;
    r := Answered(Page(RowsOf(rows), Window(updatedStart, updatedEnd), hasMore));
  }

  // ----- pagination -----

  /** What is beyond the k-th row of a sorted listing is the rest of it. */
  lemma {:induction false} AfterIsSuffix(order: Order, listing: seq<Entry>, k: nat)
    requires Sorted(order, listing) && 0 < k <= |listing|
    requires AllComparable(listing)
    ensures After(order, listing, listing[k - 1].pk) == listing[k..]
    decreases |listing|
  {
    var n := |listing| - 1;
    var init := listing[..n];
    if k <= n {
      AfterIsSuffix(order, init, k);
      assert Precedes(order, listing[k - 1].pk, listing[n].pk);
      assert listing[k..] == init[k..] + [listing[n]];
    } else {
      NothingAfterLast(order, listing, k);
    }
  }

  lemma {:induction false} NothingAfterLast(order: Order, listing: seq<Entry>, k: nat)
    requires Sorted(order, listing) && k == |listing| > 0
    requires AllComparable(listing)
    ensures After(order, listing, listing[k - 1].pk) == []
  {
    var last := listing[k - 1].pk;
    NoneAfter(order, listing, last);
  }

  lemma {:induction false} NoneAfter(order: Order, es: seq<Entry>, cursor: Value)
    requires forall i :: 0 <= i < |es| ==>
      IsPkComparable(es[i].pk) && (es[i].pk == cursor || Before(order, es[i].pk, cursor))
    ensures After(order, es, cursor) == []
  {
    if es != [] {
      NoneAfter(order, es[..|es| - 1], cursor);
      PkLessTotal(es[|es| - 1].pk, cursor);
    }
  }

  /** What a client shows after subscribe and k load-mores. */
  function Shown(order: Order, listing: seq<Entry>, limit: nat, k: nat): (r: (seq<Entry>, bool)) {
    if k == 0 then Cut(listing, Some(limit))
    else
      MoreShown(order, listing, limit, Shown(order, listing, limit, k - 1))
  }

  lemma NextPage(order: Order, listing: seq<Entry>, limit: nat, n: nat)
    requires Sorted(order, listing) && 0 < n <= |listing|
    requires AllComparable(listing)
    ensures
      var (rows, hasMore) := Cut(After(order, listing, listing[n - 1].pk), Some(limit));
      var next := n + Min(limit, |listing| - n);
      && rows == listing[n..next] && listing[..n] + rows == listing[..next]
      && (hasMore <==> next < |listing|)
  {
    AfterIsSuffix(order, listing, n);
  }

  function PageEnd(limit: nat, k: nat): nat {
    if k == 0 then limit else PageEnd(limit, k - 1) + limit
  }

  lemma {:induction false} PageEndIs(limit: nat, k: nat)
    ensures PageEnd(limit, k) == (k + 1) * limit
  {
    if k > 0 {
      PageEndIs(limit, k - 1);
      assert (k + 1) * limit == k * limit + limit;
    }
  }

  /** One page more than `before`. */
  function MoreShown(order: Order, listing: seq<Entry>, limit: nat, before: (seq<Entry>, bool)): (seq<Entry>, bool) {
    if before.0 == [] then before
    else
      var next := Cut(After(order, listing, before.0[|before.0| - 1].pk), Some(limit));
      (before.0 + next.0, next.1)
  }

  lemma {:induction false} ShownIs(order: Order, listing: seq<Entry>, limit: nat, k: nat)
    requires Sorted(order, listing) && limit >= 1
    requires AllComparable(listing)
    ensures PageEnd(limit, k) >= 1
    ensures Shown(order, listing, limit, k) ==
      (listing[..Min(PageEnd(limit, k), |listing|)], PageEnd(limit, k) < |listing|)
  {
    hide Shown, PageEnd, Sorted, AllComparable, MoreShown, Cut, After;
    if k == 0 {
      FirstShown(order, listing, limit);
    } else {
      ShownIs(order, listing, limit, k - 1);
      ShownStep(order, listing, limit, PageEnd(limit, k - 1));
      ShownUnfolds(order, listing, limit, k);
    }
  }

  lemma FirstShown(order: Order, listing: seq<Entry>, limit: nat)
    ensures Shown(order, listing, limit, 0) == (listing[..Min(limit, |listing|)], limit < |listing|)
    ensures PageEnd(limit, 0) == limit
  {
  }

  lemma ShownUnfolds(order: Order, listing: seq<Entry>, limit: nat, k: nat)
    requires k > 0
    ensures Shown(order, listing, limit, k) == MoreShown(order, listing, limit, Shown(order, listing, limit, k - 1))
    ensures PageEnd(limit, k) == PageEnd(limit, k - 1) + limit
  {
  }

  /** Pagination completeness: after k load-mores on an unchanging table the client shows exactly the
      first (k + 1) * limit rows in order, and `hasMore` says exactly whether rows remain. */
  lemma PaginationIsComplete(order: Order, listing: seq<Entry>, limit: nat, k: nat)
    requires Sorted(order, listing) && limit >= 1
    requires AllComparable(listing)
    ensures (k + 1) * limit >= 0
    ensures Shown(order, listing, limit, k).0 == listing[..Min((k + 1) * limit, |listing|)]
    ensures Shown(order, listing, limit, k).1 <==> (k + 1) * limit < |listing|
  {
    ShownIs(order, listing, limit, k);
    PageEndIs(limit, k);
  }

  lemma ShownStep(order: Order, listing: seq<Entry>, limit: nat, m: nat)
    requires Sorted(order, listing) && limit >= 1 && m >= 1
    requires AllComparable(listing)
    ensures MoreShown(order, listing, limit, (listing[..Min(m, |listing|)], m < |listing|)) ==
      (listing[..Min(m + limit, |listing|)], m + limit < |listing|)
  {
    hide After, Cut, Sorted, AllComparable;
    if listing != [] {
      NextPage(order, listing, limit, Min(m, |listing|));
    }
  }

  lemma LoadMoreAnswerIs(order: Order, listing: seq<Entry>, window: Window, limit: nat, n: nat)
    requires Sorted(order, listing) && 0 < n <= |listing|
    requires AllComparable(listing)
    ensures
      var page := LoadMoreAnswer(order, listing, window, listing[n - 1].pk, Some(limit));
      var next := n + Min(limit, |listing| - n);
      page.rows == RowsOf(listing[n..next]) && (page.hasMore <==> next < |listing|)
  {
    NextPage(order, listing, limit, n);
  }

  // ----- the client -----

  /** A pull's answer as the client sees it. */
  datatype PullResult =
    | PullError(message: string)
    | PullReset(rows: seq<Row>, window: Window, token: string, order: Order, limit: Option<int>, hasMore: bool)
    | PullDelta(events: seq<Event>, window: Window, token: string)

  datatype State = State(data: seq<Row>, hasMore: bool, error: Option<string>)

  class PulseQuery {
    const core: PulseMergeCore
    var data: seq<Row>
    var hasMore: bool
    var error: Option<string>
    /** The server's token, echoed verbatim; empty until subscribed. */
    var snapshot: string
    var destroyed: bool

    ghost predicate Valid()
      reads this, core
    {
      core.Valid() && core.ranged && (!destroyed ==> data == core.data)
    }

    /** What a UI sees of the query. */
    function ShownState(): State
      reads this
    {
      State(data, hasMore, error)
    }

    predicate Shows(state: State)
      reads this
    {
      ShownState() == state
    }

    function Range(): Window
      reads core
    {
      Window(core.rangeStart, core.rangeEnd)
    }

    constructor (ghost kind: PkKind)
      ensures Valid() && fresh(core) && core.kind == kind
      ensures snapshot == "" && data == [] && !destroyed && error.None?
    {
      core := new PulseMergeCore(true, Asc, kind);
      data, hasMore, error, snapshot, destroyed := [], false, None, "", false;
    }

    /** Takes over a full set of rows: a subscribe's or a reset's. */
    method TakeBaseline(rows: seq<Row>, window: Window, token: string, order: Order, limit: Option<int>, hasMore: bool)
      requires Valid()
      requires Sorted(order, KeyByPk(rows)) && AllOfKind(core.kind, KeyByPk(rows)) && WindowOfKind(core.kind, window)
      modifies this, core
      ensures Valid()
      ensures core.entries == KeyByPk(rows) && core.order == order && core.limit == limit
      ensures Range() == window && snapshot == token && destroyed == old(destroyed)
      ensures Shows(if old(destroyed) then old(ShownState()) else State(rows, hasMore, None))
    {
      core.order, core.limit := order, limit;
      core.RebuildFromRows(rows);
      core.rangeStart, core.rangeEnd := window.rangeStart, window.rangeEnd;
      snapshot := token;
      if !destroyed {
        data, this.hasMore, error := core.data, hasMore, None;
      }
    }

    /** subscribe after its response: one that arrives after destroy is dropped whole. */
    method ApplySubscribe(page: Page, token: string, order: Order, limit: Option<int>)
      requires Valid()
      requires Sorted(order, KeyByPk(page.rows)) && AllOfKind(core.kind, KeyByPk(page.rows)) &&
        WindowOfKind(core.kind, page.window)
      modifies this, core
      ensures Valid() && destroyed == old(destroyed)
      ensures destroyed ==> core.entries == old(core.entries) && Range() == old(Range()) && snapshot == old(snapshot)
      ensures destroyed ==> Shows(old(ShownState()))
      ensures !destroyed ==>
        core.entries == KeyByPk(page.rows) && core.order == order && core.limit == limit && Range() == page.window &&
        snapshot == token && Shows(State(page.rows, page.hasMore, None))
    {
      if destroyed { return; }
      TakeBaseline(page.rows, page.window, token, order, limit, page.hasMore);
    }

    /** applyPullResult. An error leaves rows, window and token alone; a delta folds its events in
        under the old window and then adopts the new one. */
    method ApplyPullResult(result: PullResult)
      requires Valid()
      requires !result.PullError? ==> WindowOfKind(core.kind, result.window)
      requires result.PullReset? ==> Sorted(result.order, KeyByPk(result.rows))
      requires result.PullReset? ==> AllOfKind(core.kind, KeyByPk(result.rows))
      requires result.PullDelta? ==>
        forall i :: 0 <= i < |result.events| ==> OfKind(core.kind, EventPk(core.Gate(), result.events[i]))
      modifies this, core
      ensures Valid()
      ensures result.PullError? ==>
        core.View() == old(core.View()) && Range() == old(Range()) && snapshot == old(snapshot)
      ensures result.PullReset? ==>
        core.entries == KeyByPk(result.rows) && Range() == result.window && snapshot == result.token
      ensures result.PullDelta? ==>
        core.View() == Fold(old(core.Gate()), old(core.View()), result.events) &&
        Range() == result.window && snapshot == result.token
      ensures Shows(
        if old(destroyed) then old(ShownState())
        else match result
          case PullError(message) => State(old(data), old(hasMore), Some(message))
          case PullReset(rows, _, _, _, _, more) => State(rows, more, None)
          case PullDelta(_, _, _) => State(core.data, old(hasMore), None))
    {
      match result {
        case PullError(message) =>
          if !destroyed { error := Some(message); }
        case PullReset(rows, window, token, order, limit, more) =>
          TakeBaseline(rows, window, token, order, limit, more);
        case PullDelta(events, window, token) =>
          snapshot := token;
          if |events| > 0 {
            var changed := core.ApplyEvents(events);
            if !changed { IneffectiveBatchIsSilent(old(core.Gate()), old(core.View()), events); }
            if !destroyed { data := core.data; }
          }
          core.rangeStart, core.rangeEnd := window.rangeStart, window.rangeEnd;
          if !destroyed { error := None; }
      }
    }

    /** loadMore up to its request: the visible pk furthest in display order, or the trailing end of
        the window when nothing is visible. */
    method LoadMoreCursor() returns (cursor: Option<Value>)
      requires Valid()
      requires AllComparable(core.entries)
      ensures cursor ==
        if core.entries != [] then Some(core.entries[|core.entries| - 1].pk)
        else if core.order.Desc? then core.rangeStart else core.rangeEnd
    {
      if |core.entries| == 0 { return if core.order.Desc? then core.rangeStart else core.rangeEnd; }
      var furthest := core.entries[0].pk;
      for i := 1 to |core.entries|
        invariant furthest == core.entries[i - 1].pk
      {
        var current := core.entries[i].pk;
        assert Precedes(core.order, core.entries[i - 1].pk, core.entries[i].pk);
        var comparison := ComparePkValues(current, furthest);
        if (if core.order.Desc? then comparison < 0 else comparison > 0) { furthest := current; }
      }
      return Some(furthest);
    }

    /** loadMore after its response. The page goes to the end, whatever its order; one that continues
        the order keeps the core sorted. */
    method ApplyLoadMore(page: Page)
      requires Valid()
      modifies this, core
      ensures destroyed == old(destroyed) && core.order == old(core.order) && snapshot == old(snapshot)
      ensures destroyed ==>
        core.entries == old(core.entries) && Range() == old(Range()) && Shows(old(ShownState())) && Valid()
      ensures !destroyed ==>
        core.entries == old(core.entries) + Unheld(old(core.pkMap), KeyByPk(page.rows)) &&
        Range() == page.window && Shows(State(core.data, page.hasMore, old(error))) && core.data == RowsOf(core.entries)
      ensures
        (Sorted(core.order, core.entries) && AllOfKind(core.kind, core.entries) && WindowOfKind(core.kind, page.window))
        ==> Valid()
    {
      if destroyed { return; }
      var appended := core.AppendRows(page.rows);
      core.rangeStart, core.rangeEnd := page.window.rangeStart, page.window.rangeEnd;
      hasMore := page.hasMore;
      if appended { data := core.data; }
    }

    /** The page behind the n rows shown. */
    method FetchPage(listing: seq<Entry>, limit: nat, n: nat) returns (page: Page)
      requires Valid() && 0 < n <= |listing| && core.entries == listing[..n]
      requires Sorted(core.order, listing) && AllOfKind(core.kind, listing) && AllKeyed(listing)
      ensures WindowOfKind(core.kind, page.window)
      ensures
        var next := n + Min(limit, |listing| - n);
        page.rows == RowsOf(listing[n..next]) && (page.hasMore <==> next < |listing|)
    {
      assert AllComparable(listing) && AllComparable(core.entries);
      LoadMoreAnswerIs(core.order, listing, Range(), limit, n);
      hide Cut, LoadMoreAnswer, RowsOf, Mirrors, AllKeyed, AllComparable, AllOfKind, Sorted, After;
      var cursor := LoadMoreCursor();
      assert cursor == Some(listing[n - 1].pk);
      var answer := LoadMoreHandler(core.order, listing, Range(), cursor.value, Some(limit), core.kind);
      page := answer.page;
    }

    /** One load-more, from cursor to applied answer. */
    method LoadPage(listing: seq<Entry>, limit: nat, n: nat)
      requires Valid() && !destroyed && 0 < n <= |listing| && core.entries == listing[..n]
      requires Sorted(core.order, listing) && AllOfKind(core.kind, listing) && AllKeyed(listing)
      modifies this, core
      ensures Valid() && !destroyed && core.order == old(core.order)
      ensures
        var next := n + Min(limit, |listing| - n);
        core.entries == listing[..next] && (hasMore <==> next < |listing|)
    {
      var page := FetchPage(listing, limit, n);
      FedPage(core.order, core.kind, core.pkMap, listing, n, n + Min(limit, |listing| - n));
      hide Unheld, KeyByPk, RowsOf, Sorted, AllOfKind, Mirrors, AllKeyed;
      ApplyLoadMore(page);
    }

    /** A subscribe, from answer to applied baseline. */
    method TakeFirstPage(listing: seq<Entry>, order: Order, limit: nat, token: string)
      requires Valid() && !destroyed
      requires Sorted(order, listing) && AllOfKind(core.kind, listing) && AllKeyed(listing)
      modifies this, core
      ensures Valid() && !destroyed && core.order == order
      ensures core.entries == listing[..Min(limit, |listing|)] && (hasMore <==> limit < |listing|)
    {
      var page := SubscribeAnswer(order, listing, Some(limit));
      KeyedBack(listing[..Min(limit, |listing|)]);
      ApplySubscribe(page, token, order, Some(limit as int));
    }

    /** The whole of pagination: subscribe, then load more until the server says that is all. It
        terminates, with every row shown in order. */
    method LoadEverything(listing: seq<Entry>, order: Order, limit: nat, token: string)
      requires Valid() && !destroyed && limit >= 1
      requires Sorted(order, listing) && AllOfKind(core.kind, listing) && AllKeyed(listing)
      modifies this, core
      ensures Valid() && core.entries == listing && data == RowsOf(listing) && !hasMore
    {
      TakeFirstPage(listing, order, limit, token);
      var n := Min(limit, |listing|);
      while hasMore
        invariant Valid() && !destroyed && core.order == order && 0 <= n <= |listing|
        invariant core.entries == listing[..n] && (hasMore <==> n < |listing|) && (hasMore ==> n >= 1)
        decreases |listing| - n
      {
        hide Sorted, AllOfKind, AllKeyed;
        LoadPage(listing, limit, n);
        n := n + Min(limit, |listing| - n);
      }
      assert listing[..n] == listing;
      DataIsRows();
    }

    lemma DataIsRows()
      requires Valid() && !destroyed
      ensures data == RowsOf(core.entries)
    {
    }
  }

  lemma KeyedBack(es: seq<Entry>)
    requires AllKeyed(es)
    ensures KeyByPk(RowsOf(es)) == es
  {
  }

  lemma {:induction false} UnheldOfKind(kind: PkKind, index: map<Value, Entry>, es: seq<Entry>)
    requires AllOfKind(kind, es)
    ensures AllOfKind(kind, Unheld(index, es))
  {
    if es != [] {
      UnheldOfKind(kind, index, es[..|es| - 1]);
    }
  }

  lemma {:induction false} AllUnheld(index: map<Value, Entry>, es: seq<Entry>)
    requires forall i :: 0 <= i < |es| ==> IsPkComparable(es[i].pk) && es[i].pk !in index
    ensures Unheld(index, es) == es
  {
    if es != [] {
      AllUnheld(index, es[..|es| - 1]);
    }
  }

  /** A page fetched past the n rows held is appended whole, and the listing's order with it. */
  lemma FedPage(order: Order, kind: PkKind, index: map<Value, Entry>, listing: seq<Entry>, n: nat, next: nat)
    requires n <= next <= |listing| && Sorted(order, listing) && Mirrors(index, listing[..n])
    requires AllOfKind(kind, listing)
    requires AllKeyed(listing)
    ensures
      var fed := listing[n..next];
      && KeyByPk(RowsOf(fed)) == fed && Unheld(index, fed) == fed && listing[..n] + fed == listing[..next]
      && Sorted(order, listing[..next]) && AllOfKind(kind, fed)
  {
    StretchIsKeyed(kind, listing, n, next);
    assert Sorted(order, listing[..next]) && listing[..n] + listing[n..next] == listing[..next];
    assert AllComparable(listing);
    hide Sorted, AllOfKind, AllKeyed, AllComparable, Mirrors, KeyByPk, RowsOf, Unheld;
    KeyedBack(listing[n..next]);
    NewRowsAreUnheld(order, index, listing, n, next);
  }

  lemma StretchIsKeyed(kind: PkKind, listing: seq<Entry>, n: nat, next: nat)
    requires n <= next <= |listing| && AllKeyed(listing) && AllOfKind(kind, listing)
    ensures AllKeyed(listing[n..next]) && AllOfKind(kind, listing[n..next])
  {
  }

  /** The next stretch of a sorted listing holds no row already shown. */
  lemma NewRowsAreUnheld(order: Order, index: map<Value, Entry>, listing: seq<Entry>, n: nat, next: nat)
    requires n <= next <= |listing| && Sorted(order, listing) && Mirrors(index, listing[..n])
    requires AllComparable(listing)
    ensures Unheld(index, listing[n..next]) == listing[n..next]
  {
    forall i | n <= i < next ensures listing[i].pk !in index {
      if listing[i].pk in index {
        var j :| 0 <= j < n && listing[..n][j] == index[listing[i].pk];
        assert Precedes(order, listing[j].pk, listing[i].pk);
        PkLessTotal(listing[i].pk, listing[i].pk);
      }
    }
    AllUnheld(index, listing[n..next]);
  }
}
