/** The open-interest poller: one HTTP request per symbol, retried with
    exponential backoff while the exchange answers with a rate-limit status,
    and a sweep over all symbols meant to stop once the exchange rate-limits.
    The exchange's answers are inputs: `replies(k)` is what the `k`-th request
    for a symbol gets back. */
module OpenInterestPoller {
  import opened Results
  import opened Text

  /** The JSON body of `/fapi/v1/openInterest`. */
  datatype OpenInterestResponse = OpenInterestResponse(symbol: string, openInterest: string)

  /** `OpenInterestInsert`: clock reading (seconds), symbol and open interest. */
  datatype OpenInterestInsert = OpenInterestInsert(time: real, symbol: string, oiValue: real)

  /** `to_insertable`: the symbol as received and the open interest parsed
      as a float (`parse`), 0.0 when it does not parse; it never fails. */
  function ToInsertable(response: OpenInterestResponse, time: real, parse: string -> Option<real>)
    : (row: OpenInterestInsert)
    ensures row.symbol == response.symbol && row.time == time
    ensures row.oiValue == (if parse(response.openInterest).Some? then parse(response.openInterest).value else 0.0)
  {
    var value := match parse(response.openInterest)
      case Some(v) => v
      case None => 0.0;
    OpenInterestInsert(time, response.symbol, value)
  }

  /** The `x-mbx-used-weight-1m` header: absent, not visible ASCII, not a
      `u32`, or a weight. */
  datatype Weight = NoWeight | NotVisible | NotNumber | UsedWeight(n: nat)

  /** What one request gets: no response at all, or a status, the weight
      header, the body (none when it is not the expected JSON) and the clock
      reading taken when the body is converted. */
  datatype Exchange =
    | SendFailed
    | Answered(status: nat, weight: Weight, body: Option<OpenInterestResponse>, clock: real)

  // `anyhow` shows the outermost context, so these are the texts the
  // callers see.
  const SendFailedText := "Failed to send request"
  const TooManyText := "HTTP 429: Too Many Requests"
  const BannedText := "HTTP 418: IP has been auto-banned"
  const WeightHeaderText := "Invalid weight header"
  const WeightParseText := "Failed to parse weight"
  const JsonText := "Failed to parse JSON response"
  const MaxRetriesText := "Max retries exceeded for rate limit"
  const FetchFailedPrefix := "Failed to fetch open interest for "

  const MaxRetries := 3

  /** `is_rate_limit_error`, on the error's text. */
  predicate IsRateLimitError(msg: string) {
    Contains(msg, "429") || Contains(msg, "418") || Contains(msg, "Too Mani Requests") || Contains(msg, "auto-banned")
  }

  /** A text without '4', 'T' and 'b' holds none of the four markers. */
  predicate Unmarked(s: string) {
    Free(s, '4') && Free(s, 'T') && Free(s, 'b')
  }

  lemma UnmarkedIsNoRateLimit(s: string)
    requires Unmarked(s)
    ensures !IsRateLimitError(s)
  {
    AbsentCharNotContains(s, "429", 0);
    AbsentCharNotContains(s, "418", 0);
    AbsentCharNotContains(s, "Too Mani Requests", 0);
    AbsentCharNotContains(s, "auto-banned", 5);
  }

  /** The status answers the exchange uses to rate-limit. */
  predicate RateLimited(x: Exchange) {
    x.Answered? && (x.status == 429 || x.status == 418)
  }

  /** `make_request`: the response body, or the error a step fails with. */
  function MakeRequest(x: Exchange): (r: Result<OpenInterestResponse>)
    ensures r.Err? ==> r.error in {SendFailedText, TooManyText, BannedText, WeightHeaderText, WeightParseText, JsonText}
    ensures r.Err? && (r.error == TooManyText || r.error == BannedText) <==> RateLimited(x)
    ensures r.Ok? <==>
      x.Answered? && !RateLimited(x) && !x.weight.NotVisible? && !x.weight.NotNumber? && x.body.Some?
    ensures r.Ok? ==> r.value == x.body.value
  {
    match x
    case SendFailed => Err(SendFailedText)
    case Answered(status, weight, body, _) =>
      if status == 429 then Err(TooManyText)
      else if status == 418 then Err(BannedText)
      else if weight.NotVisible? then Err(WeightHeaderText)
      else if weight.NotNumber? then Err(WeightParseText)
      else if body.None? then Err(JsonText)
      else Ok(body.value)
  }

  /** The two status texts are flagged. */
  lemma StatusTextsFlagged()
    ensures IsRateLimitError(TooManyText) && IsRateLimitError(BannedText)
  {
    TooManyFlagged();
    BannedFlagged();
  }

  lemma TooManyFlagged()
    ensures Contains(TooManyText, "429")
  {
    assert TooManyText == "HTTP " + "429" + ": Too Many Requests";
    ContainsMiddle("HTTP ", "429", ": Too Many Requests");
  }

  lemma BannedFlagged()
    ensures Contains(BannedText, "418")
  {
    assert BannedText == "HTTP " + "418" + ": IP has been auto-banned";
    ContainsMiddle("HTTP ", "418", ": IP has been auto-banned");
  }

  /** The other request texts, and the give-up text, are not. */
  lemma OtherTextsUnmarked()
    ensures Unmarked(SendFailedText) && Unmarked(WeightHeaderText)
    ensures Unmarked(WeightParseText) && Unmarked(JsonText) && Unmarked(MaxRetriesText)
  {
    SendAndHeaderUnmarked();
    ParseTextsUnmarked();
  }

  lemma SendAndHeaderUnmarked()
    ensures Unmarked(SendFailedText) && Unmarked(WeightHeaderText)
  {
  }

  lemma ParseTextsUnmarked()
    ensures Unmarked(WeightParseText) && Unmarked(JsonText) && Unmarked(MaxRetriesText)
  {
  }

  lemma OtherTextsNotFlagged()
    ensures !IsRateLimitError(SendFailedText) && !IsRateLimitError(WeightHeaderText)
    ensures !IsRateLimitError(WeightParseText) && !IsRateLimitError(JsonText)
    ensures !IsRateLimitError(MaxRetriesText)
  {
    OtherTextsUnmarked();
    UnmarkedIsNoRateLimit(SendFailedText);
    UnmarkedIsNoRateLimit(WeightHeaderText);
    UnmarkedIsNoRateLimit(WeightParseText);
    UnmarkedIsNoRateLimit(JsonText);
    UnmarkedIsNoRateLimit(MaxRetriesText);
  }

  /** Exactly the rate-limit statuses give request errors the classifier
      flags. */
  lemma FlagsRateLimits(x: Exchange)
    ensures MakeRequest(x).Err? && IsRateLimitError(MakeRequest(x).error) <==> RateLimited(x)
  {
    StatusTextsFlagged();
    OtherTextsNotFlagged();
  }

  /** The error `fetch_single_open_interest` gives up with on a failure that
      is not a rate limit. */
  function FetchFailed(symbol: string, e: string): string {
    FetchFailedPrefix + symbol + ": " + e
  }

  /** What one request settles to when it is not rate-limited: the
      converted body, or the request's error wrapped with the symbol. */
  function Settled(symbol: string, x: Exchange, parse: string -> Option<real>): Result<OpenInterestInsert> {
    match MakeRequest(x)
    case Ok(response) => Ok(ToInsertable(response, x.clock, parse))
    case Err(e) => Err(FetchFailed(symbol, e))
  }

  /** The outcome of fetching one symbol and the number of requests it took. */
  datatype Fetch = Fetch(result: Result<OpenInterestInsert>, requests: nat)

  /** `fetch_single_open_interest` from attempt `retries` on, stated on the
      exchange's answers: a rate-limited request is retried until the fourth,
      after which it gives up; the first request that is not rate-limited
      settles the fetch. */
  function FetchFrom(symbol: string, replies: nat -> Exchange, parse: string -> Option<real>, retries: nat)
    : (f: Fetch)
    requires retries <= MaxRetries
    decreases MaxRetries - retries
    ensures retries < f.requests <= MaxRetries + 1
  {
    var x := replies(retries);
    if RateLimited(x) then
      if retries + 1 > MaxRetries then Fetch(Err(MaxRetriesText), retries + 1)
      else FetchFrom(symbol, replies, parse, retries + 1)
    else Fetch(Settled(symbol, x, parse), retries + 1)
  }

  /** Every request before the last one of a fetch was rate-limited; the
      fetch gives up exactly when the fourth was too, and otherwise the last
      request settles it. */
  lemma {:induction false} FetchFromShape(symbol: string, replies: nat -> Exchange,
                                          parse: string -> Option<real>, retries: nat)
    requires retries <= MaxRetries
    decreases MaxRetries - retries
    ensures var f := FetchFrom(symbol, replies, parse, retries);
      (forall k :: retries <= k < f.requests - 1 ==> RateLimited(replies(k))) &&
      (f.result == Err(MaxRetriesText) <==> f.requests == MaxRetries + 1 && RateLimited(replies(MaxRetries))) &&
      (f.result != Err(MaxRetriesText) ==>
        !RateLimited(replies(f.requests - 1)) && f.result == Settled(symbol, replies(f.requests - 1), parse))
  {
    var x := replies(retries);
    var r := Settled(symbol, x, parse);
    assert r.Err? ==> r.error[0] != MaxRetriesText[0];
    if RateLimited(x) && retries + 1 <= MaxRetries {
      FetchFromShape(symbol, replies, parse, retries + 1);
    }
  }

  /** The whole fetch of one symbol. */
  function FetchOf(symbol: string, replies: nat -> Exchange, parse: string -> Option<real>): Fetch {
    FetchFrom(symbol, replies, parse, 0)
  }

  function Pow2(n: nat): (p: nat)
    ensures p >= 1
  {
    if n == 0 then 1 else 2 * Pow2(n - 1)
  }

  /** The backoffs (seconds) slept before retries 1..n: 2, 4, 8, … */
  function Backoffs(n: nat): (b: seq<nat>)
    ensures |b| == n && forall j :: 0 <= j < n ==> b[j] == Pow2(j + 1)
  {
    seq(n, j requires 0 <= j < n => Pow2(j + 1))
  }

  /** A fetch makes at most four requests and sleeps 2, 4 and 8 seconds
      between them at most. */
  lemma LongestBackoff()
    ensures Backoffs(MaxRetries) == [2, 4, 8]
  {
    assert Pow2(1) == 2 && Pow2(2) == 4 && Pow2(3) == 8;
  }

  /** `fetch_single_open_interest`: the loop, with the sleeps recorded in
      `backoffs`. */
  method FetchSingleOpenInterest(symbol: string, replies: nat -> Exchange, parse: string -> Option<real>)
    returns (r: Result<OpenInterestInsert>, requests: nat, backoffs: seq<nat>)
    ensures Fetch(r, requests) == FetchOf(symbol, replies, parse)
    ensures backoffs == Backoffs(requests - 1)
  {
    var retryCount := 0;
    backoffs := [];
    while true
      invariant retryCount <= MaxRetries
      invariant FetchFrom(symbol, replies, parse, retryCount) == FetchOf(symbol, replies, parse)
      invariant backoffs == Backoffs(retryCount)
      decreases MaxRetries - retryCount
    {
      var x := replies(retryCount);
      var response := MakeRequest(x);
      FlagsRateLimits(x);
      requests := retryCount + 1;
      match response {
        case Ok(body) =>
          r := Ok(ToInsertable(body, x.clock, parse));
          return;
        case Err(e) =>
          if IsRateLimitError(e) {
            retryCount := retryCount + 1;
            if retryCount > MaxRetries {
              r := Err(MaxRetriesText);
              return;
            }
            backoffs := backoffs + [Pow2(retryCount)];
            continue;
          }
          r := Err(FetchFailed(symbol, e));
          return;
      }
    }
  }

  // ---------------------------------------------------------------------
  // The sweep over all symbols

  /** The replies to the requests for the `i`-th symbol. */
  function RepliesOf(exchange: (nat, nat) -> Exchange, i: nat): nat -> Exchange {
    (k: nat) => exchange(i, k)
  }

  /** The sweep after the first `n` symbols: the results kept, the requests
      made, and whether it has stopped. */
  datatype Sweep = Sweep(results: seq<Result<OpenInterestInsert>>, requests: nat, stopped: bool)

  /** `fetch_all_open_interest` over the first `n` symbols, breaking on the
      first result whose error `stop` flags; that result is not kept. */
  function SweepOf(symbols: seq<string>, exchange: (nat, nat) -> Exchange, parse: string -> Option<real>,
                   stop: string -> bool, n: nat): (w: Sweep)
    requires n <= |symbols|
    ensures !w.stopped ==> |w.results| == n
    ensures w.stopped ==> |w.results| < n
  {
    if n == 0 then Sweep([], 0, false)
    else
      var w := SweepOf(symbols, exchange, parse, stop, n - 1);
      if w.stopped then w
      else
        var f := FetchOf(symbols[n - 1], RepliesOf(exchange, n - 1), parse);
        if f.result.Err? && stop(f.result.error) then Sweep(w.results, w.requests + f.requests, true)
        else Sweep(w.results + [f.result], w.requests + f.requests, false)
  }

  /** The sweep keeps each symbol's fetch result, in order, up to the first
      one `stop` flags, which it drops and stops at; every fetch it makes
      costs at most four requests. */
  lemma {:induction false} SweepKeepsFetches(symbols: seq<string>, exchange: (nat, nat) -> Exchange,
                                             parse: string -> Option<real>, stop: string -> bool, n: nat)
    requires n <= |symbols|
    ensures var w := SweepOf(symbols, exchange, parse, stop, n);
      (forall j :: 0 <= j < |w.results| ==>
        w.results[j] == FetchOf(symbols[j], RepliesOf(exchange, j), parse).result &&
        !(w.results[j].Err? && stop(w.results[j].error))) &&
      (w.stopped ==>
        var f := FetchOf(symbols[|w.results|], RepliesOf(exchange, |w.results|), parse);
        f.result.Err? && stop(f.result.error)) &&
      w.requests <= (MaxRetries + 1) * n
  {
    if n > 0 {
      SweepKeepsFetches(symbols, exchange, parse, stop, n - 1);
    }
  }

  /** Once stopped, the sweep stays as it was. */
  lemma {:induction false} StoppedStays(symbols: seq<string>, exchange: (nat, nat) -> Exchange,
                                        parse: string -> Option<real>, stop: string -> bool, n: nat, m: nat)
    requires n <= m <= |symbols| && SweepOf(symbols, exchange, parse, stop, n).stopped
    ensures SweepOf(symbols, exchange, parse, stop, m) == SweepOf(symbols, exchange, parse, stop, n)
    decreases m
  {
    if m > n {
      StoppedStays(symbols, exchange, parse, stop, n, m - 1);
    }
  }

  /** `fetch_all_open_interest`, with `stop` the classifier it breaks on
      (`IsRateLimitError` as written). It always returns `Ok`: the semaphore
      is never closed, so acquiring a permit cannot fail. */
  method FetchAllOpenInterest(symbols: seq<string>, exchange: (nat, nat) -> Exchange,
                              parse: string -> Option<real>, stop: string -> bool)
    returns (r: Result<seq<Result<OpenInterestInsert>>>, requests: nat)
    ensures r.Ok?
    ensures r.value == SweepOf(symbols, exchange, parse, stop, |symbols|).results
    ensures requests == SweepOf(symbols, exchange, parse, stop, |symbols|).requests
  {
    var results := [];
    requests := 0;
    var i := 0;
    while i < |symbols|
      invariant 0 <= i <= |symbols|
      invariant SweepOf(symbols, exchange, parse, stop, i) == Sweep(results, requests, false)
    {
      var result, made, _ := FetchSingleOpenInterest(symbols[i], RepliesOf(exchange, i), parse);
      assert SweepOf(symbols, exchange, parse, stop, i + 1) ==
        if result.Err? && stop(result.error) then Sweep(results, requests + made, true)
        else Sweep(results + [result], requests + made, false);
      requests := requests + made;
      if result.Err? && stop(result.error) {
        StoppedStays(symbols, exchange, parse, stop, i + 1, |symbols|);
        return Ok(results), requests;
      }
      results := results + [result];
      i := i + 1;
    }
    r := Ok(results);
  }

  // ---------------------------------------------------------------------
  // The rate-limit break is never taken

  /** The wrapped failure of a symbol without markers has no marker: the
      prefix lacks the markers' first letters ('b' for "auto-banned"), the
      ':' splits every marker, and the wrapped text is unmarked. */
  lemma FetchFailedNotRateLimit(symbol: string, e: string)
    requires !IsRateLimitError(symbol) && Unmarked(e)
    ensures !IsRateLimitError(FetchFailed(symbol, e))
  {
    var head := "Failed to fetch open interest for";
    assert FetchFailedPrefix == head + [' '] + "";
    var left := FetchFailedPrefix + symbol;
    var right := " " + e;
    assert FetchFailed(symbol, e) == left + [':'] + right;
    FreeConcat(" ", e, '4');
    FreeConcat(" ", e, 'T');
    FreeConcat(" ", e, 'b');
    UnmarkedIsNoRateLimit(right);
    NotContainsAfterFree(FetchFailedPrefix, symbol, "429");
    NotContainsAfterFree(FetchFailedPrefix, symbol, "418");
    NotContainsAfterFree(FetchFailedPrefix, symbol, "Too Mani Requests");
    AbsentCharNotContains(head, "auto-banned", 5);
    assert left == head + [' '] + symbol;
    NotContainsAcross(head, ' ', symbol, "auto-banned");
    NotContainsAcross(left, ':', right, "429");
    NotContainsAcross(left, ':', right, "418");
    NotContainsAcross(left, ':', right, "Too Mani Requests");
    NotContainsAcross(left, ':', right, "auto-banned");
  }

  /** No error `fetch_single_open_interest` returns for a symbol without
      markers is flagged: rate limits come back as the max-retries text, which
      has no marker, and every other failure is wrapped. */
  lemma FetchErrorNeverRateLimit(symbol: string, replies: nat -> Exchange, parse: string -> Option<real>)
    requires !IsRateLimitError(symbol)
    ensures var f := FetchOf(symbol, replies, parse);
      f.result.Err? ==> !IsRateLimitError(f.result.error)
  {
    var f := FetchOf(symbol, replies, parse);
    FetchFromShape(symbol, replies, parse, 0);
    OtherTextsUnmarked();
    OtherTextsNotFlagged();
    if f.result.Err? && f.result != Err(MaxRetriesText) {
      var e := MakeRequest(replies(f.requests - 1)).error;
      FetchFailedNotRateLimit(symbol, e);
    }
  }

  /** As written, the sweep over symbols without markers never breaks: the
      rate-limit check in `fetch_all_open_interest` cannot fire. */
  lemma {:induction false} SweepNeverStops(symbols: seq<string>, exchange: (nat, nat) -> Exchange,
                                           parse: string -> Option<real>, n: nat)
    requires n <= |symbols|
    requires forall j :: 0 <= j < |symbols| ==> !IsRateLimitError(symbols[j])
    ensures !SweepOf(symbols, exchange, parse, IsRateLimitError, n).stopped
  {
    if n > 0 {
      SweepNeverStops(symbols, exchange, parse, n - 1);
      FetchErrorNeverRateLimit(symbols[n - 1], RepliesOf(exchange, n - 1), parse);
    }
  }

  /** Every rate-limited fetch gives up after four requests. */
  lemma ExhaustedFetch(symbol: string, replies: nat -> Exchange, parse: string -> Option<real>)
    requires forall k :: RateLimited(replies(k))
    ensures FetchOf(symbol, replies, parse) == Fetch(Err(MaxRetriesText), MaxRetries + 1)
  {
  }

  /** `n` max-retries errors. */
  function GaveUp(n: nat): (results: seq<Result<OpenInterestInsert>>)
    ensures |results| == n && forall j :: 0 <= j < n ==> results[j] == Err(MaxRetriesText)
  {
    seq(n, _ => Err(MaxRetriesText))
  }

  /** As written, an exchange that rate-limits every request is asked four
      times for every symbol: the sweep goes on to the end, keeping a
      max-retries error per symbol. */
  lemma {:induction false} RateLimitedSweepAsWritten(symbols: seq<string>, exchange: (nat, nat) -> Exchange,
                                                     parse: string -> Option<real>, n: nat)
    requires n <= |symbols|
    requires forall i, k :: RateLimited(exchange(i, k))
    ensures SweepOf(symbols, exchange, parse, IsRateLimitError, n) ==
      Sweep(GaveUp(n), (MaxRetries + 1) * n, false)
  {
    OtherTextsNotFlagged();
    if n > 0 {
      RateLimitedSweepAsWritten(symbols, exchange, parse, n - 1);
      ExhaustedFetch(symbols[n - 1], RepliesOf(exchange, n - 1), parse);
      assert GaveUp(n) == GaveUp(n - 1) + [Err(MaxRetriesText)];
    }
  }

  // ---------------------------------------------------------------------
  // The break as intended

  /** The classifier the sweep evidently means: a rate-limit error, or the
      give-up error of a fetch that was rate-limited four times. */
  predicate StopsSweep(msg: string) {
    IsRateLimitError(msg) || msg == MaxRetriesText
  }

  /** With the intended classifier, the first symbol whose fetch exhausts
      its retries ends the sweep: nothing after it is requested, and no
      kept result is a max-retries error. */
  lemma {:induction false} SweepStopsAtExhaustion(symbols: seq<string>, exchange: (nat, nat) -> Exchange,
                                                  parse: string -> Option<real>, j: nat)
    requires j < |symbols|
    requires forall k :: RateLimited(exchange(j, k))
    requires !SweepOf(symbols, exchange, parse, StopsSweep, j).stopped
    ensures var w := SweepOf(symbols, exchange, parse, StopsSweep, |symbols|);
      w.stopped && |w.results| == j &&
      w.requests == SweepOf(symbols, exchange, parse, StopsSweep, j).requests + MaxRetries + 1 &&
      forall i :: 0 <= i < |w.results| ==> w.results[i] != Err(MaxRetriesText)
  {
    ExhaustedFetch(symbols[j], RepliesOf(exchange, j), parse);
    SweepKeepsFetches(symbols, exchange, parse, StopsSweep, |symbols|);
    StoppedStays(symbols, exchange, parse, StopsSweep, j + 1, |symbols|);
  }
}
