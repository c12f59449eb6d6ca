/** `paginated_fetch` (dump.js): one search or listing query, answered page
    by page, with every page's results appended to an accumulator.

    The HTTP transport is the `serve` oracle: it maps the request actually
    sent (endpoint plus query string) to the response the server gives. The
    test that decides whether to ask for another page and the cursor used
    when a request carries no `start` are parameters, so the same definition
    covers the code as written and the corrected variant. `fuel` bounds the
    number of requests; running out of it is reported as `OutOfFuel`, never
    as a result or a failure. */
module Pagination {
  import opened Wrappers

  /** Every request is sent with `limit=25`, whatever the caller passed. */
  const PageSize: nat := 25

  /** The cursor the code assumes when the request has no `start`
      (`urlParams.get("start") || "1"`). */
  const SourceDefaultStart: int := 1

  /** The query string of a request to `endpoint`. */
  datatype Query = Query(endpoint: string, cql: Option<string>, start: Option<int>, limit: Option<int>)

  /** The decoded JSON body of a successful response. */
  datatype Page<T> = Page(results: seq<T>, limit: int)

  /** `body` is `None` when the body cannot be read as a page (no JSON, or
      no `results` array), which makes the code throw. */
  datatype Response<T> = Response(status: int, body: Option<Page<T>>)

  /** What the promise settles to: `Returned(Some(list))`, or
      `Returned(None)` for the `undefined` the catch handler yields.
      `OutOfFuel` only marks the end of the modelled request budget. */
  datatype Outcome<T> = Returned(value: Option<seq<T>>) | OutOfFuel

  /** The requests issued, in order, and the outcome. */
  datatype Run<T> = Run(requests: seq<Query>, outcome: Outcome<T>)

  /** The few JavaScript values the continue-test touches. */
  datatype JsValue = Undefined | Number(n: int)

  /** `results.size`: arrays have `length` but no `size` property. */
  function SizeOf<T>(results: seq<T>): JsValue {
    Undefined
  }

  /** Loose equality `==` between the values above: `undefined` equals only
      `undefined` (and `null`), never a number. */
  predicate LooseEquals(a: JsValue, b: JsValue) {
    match (a, b)
    case (Undefined, Undefined) => true
    case (Number(x), Number(y)) => x == y
    case _ => false
  }

  /** The continue-test as written: `newResponse.results.size == 0`. */
  predicate SizeIsZero<T>(page: Page<T>) {
    LooseEquals(SizeOf(page.results), Number(0))
  }

  /** The intended continue-test: the page came back full, so more results
      may follow; a short or empty page ends the query. */
  predicate PageIsFull<T>(page: Page<T>) {
    page.limit > 0 && |page.results| >= page.limit
  }

  /** `urlParams.set("limit", "25")`. */
  function WithPageSize(q: Query): Query {
    q.(limit := Some(PageSize))
  }

  /** The cursor of a request: its `start`, else `defaultStart`. */
  function Cursor(q: Query, defaultStart: int): int {
    q.start.GetOr(defaultStart)
  }

  /** Status 200 with a readable page; anything else throws. */
  predicate Succeeded<T>(response: Response<T>) {
    response.status == 200 && response.body.Some?
  }

  /** The whole of `paginated_fetch`, starting from the caller's `params`
      and the accumulator `previous`. */
  function PaginatedFetch<T>(serve: Query -> Response<T>, continueOn: Page<T> -> bool, defaultStart: int,
                             params: Query, previous: seq<T>, fuel: nat): (r: Run<T>)
    ensures |r.requests| <= fuel
    ensures fuel > 0 ==> |r.requests| > 0 && r.requests[0] == WithPageSize(params)
    decreases fuel
  {
    if fuel == 0 then Run([], OutOfFuel)
    else
      var q := WithPageSize(params);
      var response := serve(q);
      if !Succeeded(response) then Run([q], Returned(None))
      else
        var page := response.body.value;
        var accumulated := previous + page.results;
        if continueOn(page) then
          var next := q.(start := Some(Cursor(q, defaultStart) + page.limit));
          var rest := PaginatedFetch(serve, continueOn, defaultStart, next, accumulated, fuel - 1);
          Run([q] + rest.requests, rest.outcome)
        else
          Run([q], Returned(Some(accumulated)))
  }

  /** The last request of a non-empty run. */
  function Last(rq: seq<Query>): Query
    requires |rq| > 0
  {
    rq[|rq| - 1]
  }

  /** How a run that settles ends: no value exactly when the last request
      failed; a list when the last page succeeded and failed the
      continue-test, the list extending the accumulator. */
  lemma {:induction false} FetchEnds<T>(serve: Query -> Response<T>, continueOn: Page<T> -> bool,
                                         defaultStart: int, params: Query, previous: seq<T>, fuel: nat)
    ensures var r := PaginatedFetch(serve, continueOn, defaultStart, params, previous, fuel);
      && (r.outcome == Returned(None) <==> |r.requests| > 0 && !Succeeded(serve(Last(r.requests))))
      && (r.outcome.Returned? && r.outcome.value.Some? ==>
            && |r.requests| > 0
            && Succeeded(serve(Last(r.requests)))
            && !continueOn(serve(Last(r.requests)).body.value)
            && previous <= r.outcome.value.value)
    decreases fuel
  {
    if fuel > 0 {
      var q := WithPageSize(params);
      var response := serve(q);
      if Succeeded(response) && continueOn(response.body.value) {
        var page := response.body.value;
        var next := q.(start := Some(Cursor(q, defaultStart) + page.limit));
        FetchEnds(serve, continueOn, defaultStart, next, previous + page.results, fuel - 1);
        var rest := PaginatedFetch(serve, continueOn, defaultStart, next, previous + page.results, fuel - 1);
        if |rest.requests| > 0 {
          assert Last([q] + rest.requests) == Last(rest.requests);
        }
      }
    }
  }

  /** A run stops for lack of fuel only when it spent every request and the
      last page still passed the continue-test. */
  lemma {:induction false} OutOfFuelMeansBudgetSpent<T>(serve: Query -> Response<T>, continueOn: Page<T> -> bool,
                                                         defaultStart: int, params: Query, previous: seq<T>, fuel: nat)
    ensures var r := PaginatedFetch(serve, continueOn, defaultStart, params, previous, fuel);
      r.outcome.OutOfFuel? <==>
        |r.requests| == fuel && (fuel == 0 || (Succeeded(serve(Last(r.requests)))
                                               && continueOn(serve(Last(r.requests)).body.value)))
    decreases fuel
  {
    if fuel > 0 {
      var q := WithPageSize(params);
      var response := serve(q);
      if Succeeded(response) && continueOn(response.body.value) {
        var page := response.body.value;
        var next := q.(start := Some(Cursor(q, defaultStart) + page.limit));
        OutOfFuelMeansBudgetSpent(serve, continueOn, defaultStart, next, previous + page.results, fuel - 1);
        var rest := PaginatedFetch(serve, continueOn, defaultStart, next, previous + page.results, fuel - 1);
        if |rest.requests| > 0 {
          assert Last([q] + rest.requests) == Last(rest.requests);
        }
      }
    }
  }

  /** Every request of `rq` has `params`' endpoint and cql and `limit=25`. */
  predicate KeepsQuery(rq: seq<Query>, params: Query) {
    forall i | 0 <= i < |rq| ::
      rq[i].endpoint == params.endpoint && rq[i].cql == params.cql && rq[i].limit == Some(PageSize)
  }

  /** Every request keeps the caller's endpoint and cql and is sent with
      `limit=25`; only `start` changes from page to page. */
  lemma {:induction false} RequestsKeepQuery<T>(serve: Query -> Response<T>, continueOn: Page<T> -> bool,
                                                 defaultStart: int, params: Query, previous: seq<T>, fuel: nat)
    ensures KeepsQuery(PaginatedFetch(serve, continueOn, defaultStart, params, previous, fuel).requests, params)
    decreases fuel
  {
    if fuel > 0 {
      var q := WithPageSize(params);
      var response := serve(q);
      if Succeeded(response) && continueOn(response.body.value) {
        var page := response.body.value;
        var next := q.(start := Some(Cursor(q, defaultStart) + page.limit));
        RequestsKeepQuery(serve, continueOn, defaultStart, next, previous + page.results, fuel - 1);
        var rest := PaginatedFetch(serve, continueOn, defaultStart, next, previous + page.results, fuel - 1);
        var rq := [q] + rest.requests;
        forall i | 0 < i < |rq|
          ensures rq[i].endpoint == params.endpoint && rq[i].cql == params.cql && rq[i].limit == Some(PageSize)
        {
          assert rq[i] == rest.requests[i - 1];
        }
      }
    }
  }

  /** The results of the successful responses to `requests`, concatenated
      in request order. */
  function Collected<T>(serve: Query -> Response<T>, requests: seq<Query>): seq<T> {
    if |requests| == 0 then []
    else
      var response := serve(requests[0]);
      (if Succeeded(response) then response.body.value.results else []) + Collected(serve, requests[1..])
  }

  /** Every request in `rq` got a successful response. */
  predicate AllSucceeded<T>(serve: Query -> Response<T>, rq: seq<Query>) {
    forall i | 0 <= i < |rq| :: Succeeded(serve(rq[i]))
  }

  /** A run that returns a list got a successful response to every one of
      its requests: one failed page anywhere discards the whole list. */
  lemma {:induction false} ReturnedListMeansAllSucceeded<T>(serve: Query -> Response<T>, continueOn: Page<T> -> bool,
                                                             defaultStart: int, params: Query, previous: seq<T>, fuel: nat)
    ensures var r := PaginatedFetch(serve, continueOn, defaultStart, params, previous, fuel);
      r.outcome.Returned? && r.outcome.value.Some? ==> AllSucceeded(serve, r.requests)
    decreases fuel
  {
    if fuel > 0 {
      var q := WithPageSize(params);
      var response := serve(q);
      if Succeeded(response) && continueOn(response.body.value) {
        var page := response.body.value;
        var next := q.(start := Some(Cursor(q, defaultStart) + page.limit));
        ReturnedListMeansAllSucceeded(serve, continueOn, defaultStart, next, previous + page.results, fuel - 1);
        var rest := PaginatedFetch(serve, continueOn, defaultStart, next, previous + page.results, fuel - 1);
        var rq := [q] + rest.requests;
        if rest.outcome.Returned? && rest.outcome.value.Some? {
          forall i | 0 <= i < |rq|
            ensures Succeeded(serve(rq[i]))
          {
            if i > 0 {
              assert rq[i] == rest.requests[i - 1];
            }
          }
        }
      }
    }
  }

  /** A returned list is the accumulator followed by every requested page's
      results, in request order: nothing dropped, duplicated or reordered. */
  lemma {:induction false} AccumulatesInOrder<T>(serve: Query -> Response<T>, continueOn: Page<T> -> bool,
                                                  defaultStart: int, params: Query, previous: seq<T>, fuel: nat)
    ensures var r := PaginatedFetch(serve, continueOn, defaultStart, params, previous, fuel);
      r.outcome.Returned? && r.outcome.value.Some? ==>
        r.outcome.value.value == previous + Collected(serve, r.requests)
    decreases fuel
  {
    if fuel > 0 {
      var q := WithPageSize(params);
      var response := serve(q);
      if Succeeded(response) && continueOn(response.body.value) {
        var page := response.body.value;
        var accumulated := previous + page.results;
        var next := q.(start := Some(Cursor(q, defaultStart) + page.limit));
        AccumulatesInOrder(serve, continueOn, defaultStart, next, accumulated, fuel - 1);
        var rest := PaginatedFetch(serve, continueOn, defaultStart, next, accumulated, fuel - 1);
        var rq := [q] + rest.requests;
        assert rq[0] == q && rq[1..] == rest.requests;
        assert Collected(serve, rq) == page.results + Collected(serve, rest.requests);
      }
    }
  }

  /** As written the continue-test never holds (`undefined == 0` is
      false), so exactly one request is issued: its page's results are
      appended and returned, or the call yields no value at all. */
  lemma AsWrittenSingleRequest<T>(serve: Query -> Response<T>, params: Query, previous: seq<T>, fuel: nat)
    requires fuel > 0
    ensures var r := PaginatedFetch(serve, SizeIsZero, SourceDefaultStart, params, previous, fuel);
      var response := serve(WithPageSize(params));
      && r.requests == [WithPageSize(params)]
      && r.outcome == Returned(if Succeeded(response) then Some(previous + response.body.value.results) else None)
  {
  }

  /** `after` is the request `paginated_fetch` issues right after
      `before`: the page for `before` succeeded and passed the
      continue-test, and `after` differs from `before` only in `start`,
      which is `before`'s cursor plus the `limit` the server reported. */
  predicate Follows<T>(serve: Query -> Response<T>, continueOn: Page<T> -> bool, defaultStart: int,
                       before: Query, after: Query) {
    var response := serve(before);
    && Succeeded(response)
    && continueOn(response.body.value)
    && after == before.(start := Some(Cursor(before, defaultStart) + response.body.value.limit))
  }

  /** Each request of `rq` follows its predecessor. */
  predicate Chained<T>(serve: Query -> Response<T>, continueOn: Page<T> -> bool, defaultStart: int,
                       rq: seq<Query>) {
    forall i | 0 <= i < |rq| - 1 :: Follows(serve, continueOn, defaultStart, rq[i], rq[i + 1])
  }

  /** The cursors of `rq` strictly increase. */
  predicate Ascending(rq: seq<Query>, defaultStart: int) {
    forall i, j | 0 <= i < j < |rq| :: Cursor(rq[i], defaultStart) < Cursor(rq[j], defaultStart)
  }

  /** Every request after the first follows its predecessor. */
  lemma {:induction false} CursorAdvances<T>(serve: Query -> Response<T>, continueOn: Page<T> -> bool,
                                              defaultStart: int, params: Query, previous: seq<T>, fuel: nat)
    ensures Chained(serve, continueOn, defaultStart,
                    PaginatedFetch(serve, continueOn, defaultStart, params, previous, fuel).requests)
    decreases fuel
  {
    if fuel > 0 {
      var q := WithPageSize(params);
      var response := serve(q);
      if Succeeded(response) && continueOn(response.body.value) {
        var page := response.body.value;
        var next := q.(start := Some(Cursor(q, defaultStart) + page.limit));
        CursorAdvances(serve, continueOn, defaultStart, next, previous + page.results, fuel - 1);
        var rest := PaginatedFetch(serve, continueOn, defaultStart, next, previous + page.results, fuel - 1);
        var rq := [q] + rest.requests;
        forall i | 0 <= i < |rq| - 1
          ensures Follows(serve, continueOn, defaultStart, rq[i], rq[i + 1])
        {
          if i > 0 {
            assert rq[i] == rest.requests[i - 1] && rq[i + 1] == rest.requests[i];
          }
        }
      }
    }
  }

  /** When the server always reports a positive `limit`, the cursor
      strictly increases from each request to every later one, so no page
      is requested twice. */
  lemma {:induction false} CursorIncreases<T>(serve: Query -> Response<T>, continueOn: Page<T> -> bool,
                                               defaultStart: int, params: Query, previous: seq<T>, fuel: nat)
    requires forall q :: Succeeded(serve(q)) ==> serve(q).body.value.limit > 0
    ensures Ascending(PaginatedFetch(serve, continueOn, defaultStart, params, previous, fuel).requests, defaultStart)
    decreases fuel
  {
    if fuel > 0 {
      var q := WithPageSize(params);
      var response := serve(q);
      if Succeeded(response) && continueOn(response.body.value) {
        var page := response.body.value;
        var next := q.(start := Some(Cursor(q, defaultStart) + page.limit));
        CursorIncreases(serve, continueOn, defaultStart, next, previous + page.results, fuel - 1);
        var rest := PaginatedFetch(serve, continueOn, defaultStart, next, previous + page.results, fuel - 1);
        var rq := [q] + rest.requests;
        forall i, j | 0 <= i < j < |rq|
          ensures Cursor(rq[i], defaultStart) < Cursor(rq[j], defaultStart)
        {
          assert rq[j] == rest.requests[j - 1];
          if i == 0 {
            assert Cursor(rest.requests[0], defaultStart) == Cursor(q, defaultStart) + page.limit;
            if j > 1 {
              assert Cursor(rest.requests[0], defaultStart) < Cursor(rest.requests[j - 1], defaultStart);
            }
          } else {
            assert rq[i] == rest.requests[i - 1];
          }
        }
      }
    }
  }

  /** `x` limited to the range `lo..hi`. */
  function Clamp(x: int, lo: int, hi: int): int
    requires lo <= hi
  {
    if x < lo then lo else if x > hi then hi else x
  }

  /** A search backend holding `items`, numbered from 0 as the wiki's REST
      API numbers them: a request for `start` s (absent meaning 0) and
      `limit` n (absent meaning 25) gets the items from index s up to
      s + n, cut to the list, and the server echoes n as its limit. */
  function Serve<T>(items: seq<T>, q: Query): Response<T> {
    var n := q.limit.GetOr(PageSize);
    var s := Clamp(q.start.GetOr(0), 0, |items|);
    var e := Clamp(s + n, s, |items|);
    Response(200, Some(Page(items[s..e], n)))
  }

  /** The backend as a page oracle. */
  function Backend<T>(items: seq<T>): Query -> Response<T> {
    q => Serve(items, q)
  }

  /** With the intended continue-test, a fetch that resumes at index `s`
      collects every remaining item, given one request per full page
      plus one. */
  lemma {:induction false} FullPagesCollectRest<T>(items: seq<T>, defaultStart: int, params: Query,
                                                    previous: seq<T>, fuel: nat)
    requires params.start.Some? && 0 <= params.start.value <= |items|
    requires fuel * PageSize > |items| - params.start.value
    ensures PaginatedFetch(Backend(items), PageIsFull, defaultStart, params, previous, fuel).outcome
            == Returned(Some(previous + items[params.start.value..]))
    decreases fuel
  {
    assert fuel > 0;
    var serve := Backend(items);
    var s := params.start.value;
    var q := WithPageSize(params);
    var page := Page(items[s..if s + PageSize <= |items| then s + PageSize else |items|], PageSize);
    assert serve(q) == Response(200, Some(page));
    if s + PageSize <= |items| {
      var next := q.(start := Some(s + PageSize));
      var rest := PaginatedFetch(serve, PageIsFull, defaultStart, next, previous + page.results, fuel - 1);
      assert PaginatedFetch(serve, PageIsFull, defaultStart, params, previous, fuel).outcome == rest.outcome;
      FullPagesCollectRest(items, defaultStart, next, previous + page.results, fuel - 1);
      assert items[s..] == page.results + items[s + PageSize..];
      assert (previous + page.results) + items[s + PageSize..] == previous + items[s..];
    } else {
      assert page.results == items[s..] && !PageIsFull(page);
    }
  }

  /** The corrected fetch (continue while a page is full, first cursor 0)
      returns every item of the backend, in order, with no duplicate:
      pages of sizes 25, 25, 25, r with r < 25 give 75 + r items. */
  lemma IntendedFetchesAll<T>(items: seq<T>, params: Query, fuel: nat)
    requires params.start.None?
    requires fuel * PageSize > |items|
    ensures PaginatedFetch(Backend(items), PageIsFull, 0, params, [], fuel).outcome == Returned(Some(items))
  {
    var serve := Backend(items);
    var q := WithPageSize(params);
    assert serve(q) == Serve(items, q);
    var page := Serve(items, q).body.value;
    if PageSize <= |items| {
      assert page.results == items[..PageSize] && PageIsFull(page);
      var next := q.(start := Some(PageSize));
      assert next == q.(start := Some(Cursor(q, 0) + page.limit));
      assert [] + page.results == page.results;
      var rest := PaginatedFetch(serve, PageIsFull, 0, next, page.results, fuel - 1);
      assert PaginatedFetch(serve, PageIsFull, 0, params, [], fuel).outcome == rest.outcome;
      FullPagesCollectRest(items, 0, next, page.results, fuel - 1);
      assert items == items[..PageSize] + items[PageSize..];
    } else {
      assert page.results == items && !PageIsFull(page);
      assert [] + page.results == items;
    }
  }

  /** As written, a query with more than 25 matches returns only the first
      25: with 30 matching items, items 25 to 29 are lost. */
  lemma AsWrittenReturnsFirstPageOnly<T>(items: seq<T>, params: Query, fuel: nat)
    requires params.start.None? && fuel > 0
    ensures var r := PaginatedFetch(Backend(items), SizeIsZero, SourceDefaultStart, params, [], fuel);
      && |r.requests| == 1
      && r.outcome == Returned(Some(if |items| <= PageSize then items else items[..PageSize]))
  {
    var q := WithPageSize(params);
    assert Backend(items)(q) == Serve(items, q);
    var page := Serve(items, q).body.value;
    assert !SizeIsZero(page);
    assert page.results == if |items| <= PageSize then items else items[..PageSize];
    assert [] + page.results == page.results;
  }

  /** With the continue-test corrected but the first cursor left at 1, the
      second request asks for `start` 26 although the first page held
      indexes 0 to 24: the item at index 25 is skipped and every other item
      is returned. */
  lemma SourceCursorSkipsItem<T>(items: seq<T>, params: Query, fuel: nat)
    requires params.start.None?
    requires |items| > PageSize && fuel * PageSize > |items|
    ensures PaginatedFetch(Backend(items), PageIsFull, SourceDefaultStart, params, [], fuel).outcome
            == Returned(Some(items[..PageSize] + items[PageSize + 1..]))
  {
    var q := WithPageSize(params);
    assert Backend(items)(q) == Serve(items, q);
    var page := Serve(items, q).body.value;
    assert page.results == items[..PageSize] && PageIsFull(page);
    var next := q.(start := Some(SourceDefaultStart + PageSize));
    assert next == q.(start := Some(Cursor(q, SourceDefaultStart) + page.limit));
    FullPagesCollectRest(items, SourceDefaultStart, next, page.results, fuel - 1);
    assert [] + page.results == page.results;
  }
}
