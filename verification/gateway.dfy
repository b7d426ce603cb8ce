/** The market gateway: the combined-stream names it subscribes to, and the
    routing of each received frame to a `MarketEvent` by its stream name. */
module Gateway {
  import opened Actors
  import opened Supervision
  import opened Results
  import opened Text

  /** `MarketEvent`, over the decoded row type `R` of each feed; a kline
      carries its "closed" flag. */
  datatype MarketEvent<R> =
    | AggTrade(trade: R)
    | OrderBook(book: R)
    | Kline(kline: R, closed: bool)
    | MarkPrice(mark: R)
    | ForceOrder(order: R)
    | OpenInterest(interest: R)

  /** The feed a stream name is routed to. */
  datatype Feed = AggTradeFeed | DepthFeed | KlineFeed | MarkPriceFeed | ForceOrderFeed

  function FeedOf<R>(e: MarketEvent<R>): Option<Feed> {
    match e
    case AggTrade(_) => Some(AggTradeFeed)
    case OrderBook(_) => Some(DepthFeed)
    case Kline(_, _) => Some(KlineFeed)
    case MarkPrice(_) => Some(MarkPriceFeed)
    case ForceOrder(_) => Some(ForceOrderFeed)
    case OpenInterest(_) => None
  }

  function RowOf<R>(e: MarketEvent<R>): R {
    match e
    case AggTrade(r) => r
    case OrderBook(r) => r
    case Kline(r, _) => r
    case MarkPrice(r) => r
    case ForceOrder(r) => r
    case OpenInterest(r) => r
  }

  const UnknownData := "Unknown received data."

  /** The suffix tests of `parse_websocket_message`, in their order. */
  function Route(stream: string): Result<Feed> {
    if EndsWith(stream, "@aggTrade") then Ok(AggTradeFeed)
    else if EndsWith(stream, "@depth20@100ms") then Ok(DepthFeed)
    else if Contains(stream, "@kline") then Ok(KlineFeed)
    else if EndsWith(stream, "@markPrice@1s") then Ok(MarkPriceFeed)
    else if EndsWith(stream, "@forceOrder") then Ok(ForceOrderFeed)
    else Err(UnknownData)
  }

  /** A stream is routed iff one of the five tests holds, and an unrouted
      stream is the "Unknown received data." error. */
  lemma RouteTotal(stream: string)
    ensures Route(stream).Ok? <==>
      EndsWith(stream, "@aggTrade") || EndsWith(stream, "@depth20@100ms") || Contains(stream, "@kline") ||
      EndsWith(stream, "@markPrice@1s") || EndsWith(stream, "@forceOrder")
    ensures Route(stream).Err? ==> Route(stream).error == UnknownData
  {
  }

  /** Every `@kline` stream not claimed by the two earlier suffixes is a
      kline, never a mark price or a forced order, whatever it ends with. */
  lemma KlineBeforeLaterSuffixes(stream: string)
    requires Contains(stream, "@kline")
    ensures Route(stream) != Ok(MarkPriceFeed) && Route(stream) != Ok(ForceOrderFeed)
    ensures !EndsWith(stream, "@aggTrade") && !EndsWith(stream, "@depth20@100ms") ==>
      Route(stream) == Ok(KlineFeed)
  {
  }

  /** `parse_websocket_message`. The envelope `{stream, data}` either
      decodes to its stream name or fails with `envelope`'s error; `decoded`
      is what decoding `data` for the routed feed and converting it gave,
      and `closed` the kline's flag. */
  function ParseWebsocketMessage<R>(envelope: Result<string>, decoded: Result<R>, closed: bool)
    : (r: Result<MarketEvent<R>>)
    ensures r.Ok? <==> envelope.Ok? && Route(envelope.value).Ok? && decoded.Ok?
    ensures r.Ok? ==> FeedOf(r.value) == Some(Route(envelope.value).value) && RowOf(r.value) == decoded.value
    ensures r.Ok? && r.value.Kline? ==> r.value.closed == closed
    ensures envelope.Err? ==> r == Err(envelope.error)
    ensures envelope.Ok? && Route(envelope.value).Err? ==> r == Err(UnknownData)
    ensures envelope.Ok? && Route(envelope.value).Ok? && decoded.Err? ==> r == Err(decoded.error)
  {
    if envelope.Err? then Err(envelope.error)
    else
      match Route(envelope.value)
      case Err(e) => Err(e)
      case Ok(feed) =>
        if decoded.Err? then Err(decoded.error)
        else
          match feed
          case AggTradeFeed => Ok(AggTrade(decoded.value))
          case DepthFeed => Ok(OrderBook(decoded.value))
          case KlineFeed => Ok(Kline(decoded.value, closed))
          case MarkPriceFeed => Ok(MarkPrice(decoded.value))
          case ForceOrderFeed => Ok(ForceOrder(decoded.value))
  }

  // ---------------------------------------------------------------------
  // Stream lists

  /** The five spot stream names of a lowercased symbol. */
  function SpotNames(sl: string): seq<string> {
    [sl + "@aggTrade", sl + "@depth20@100ms", sl + "@kline_1h", sl + "@kline_1m", sl + "@kline_1s"]
  }

  /** The feed each spot name is meant for. */
  const SpotFeeds := [AggTradeFeed, DepthFeed, KlineFeed, KlineFeed, KlineFeed]

  /** The two futures stream names of a lowercased symbol. */
  function FuturesNames(sl: string): seq<string> {
    [sl + "@forceOrder", sl + "@markPrice@1s"]
  }

  const FuturesFeeds := [ForceOrderFeed, MarkPriceFeed]

  /** The names of one symbol, lowercased. */
  function SymbolNames(symbol: string, futures: bool): seq<string> {
    if futures then FuturesNames(Lower(symbol)) else SpotNames(Lower(symbol))
  }

  /** The group `run` formats for one symbol: `{sl}@aggTrade/{sl}@depth20@100ms/
      {sl}@kline_1h/{sl}@kline_1m/{sl}@kline_1s` for spot, `{sl}@forceOrder/
      {sl}@markPrice@1s` for futures, that is its names joined by "/". */
  function Group(symbol: string, futures: bool): string {
    Join(SymbolNames(symbol, futures), "/")
  }

  function Groups(symbols: seq<string>, futures: bool): seq<string> {
    if symbols == [] then [] else [Group(symbols[0], futures)] + Groups(symbols[1..], futures)
  }

  /** `streams.join("/")` (or `fstreams.join("/")`): the path appended to
      the base URL. */
  function StreamPath(symbols: seq<string>, futures: bool): string {
    Join(Groups(symbols, futures), "/")
  }

  /** Every stream name the path lists, symbol by symbol. */
  function StreamNames(symbols: seq<string>, futures: bool): (names: seq<string>)
    ensures |names| == (if futures then 2 else 5) * |symbols|
  {
    if symbols == [] then [] else SymbolNames(symbols[0], futures) + StreamNames(symbols[1..], futures)
  }

  /** The path lists 5 spot (or 2 futures) names per symbol, in symbol order,
      joined by "/". */
  lemma {:induction false} StreamPathNames(symbols: seq<string>, futures: bool)
    ensures StreamPath(symbols, futures) == Join(StreamNames(symbols, futures), "/")
  {
    if symbols != [] {
      var head := SymbolNames(symbols[0], futures);
      StreamPathNames(symbols[1..], futures);
      if |symbols| > 1 {
        assert Groups(symbols, futures) == [Groups(symbols, futures)[0]] + Groups(symbols[1..], futures);
        JoinAppend(head, StreamNames(symbols[1..], futures), "/");
      } else {
        assert StreamNames(symbols, futures) == head;
      }
    }
  }

  /** The name at position `i` of the list is name `i % k` of symbol `i / k`. */
  lemma {:induction false} StreamNamesAt(symbols: seq<string>, futures: bool, i: nat)
    requires i < |StreamNames(symbols, futures)|
    ensures var k := if futures then 2 else 5;
      i / k < |symbols| &&
      StreamNames(symbols, futures)[i] ==
        (if futures then FuturesNames(Lower(symbols[i / k])) else SpotNames(Lower(symbols[i / k])))[i % k]
  {
    var k := if futures then 2 else 5;
    if i >= k {
      StreamNamesAt(symbols[1..], futures, i - k);
      assert (i - k) / k == i / k - 1 && (i - k) % k == i % k;
    }
  }

  /** A suffix whose '@' is never followed by "kline" keeps a '@'-free
      symbol out of the kline test. */
  lemma NoKline(sl: string, suffix: string)
    requires Free(sl, '@')
    requires suffix in {"@aggTrade", "@depth20@100ms", "@markPrice@1s", "@forceOrder"}
    ensures !Contains(sl + suffix, "@kline")
  {
    if Contains(suffix, "@kline") {
      var i :| 0 <= i <= |suffix| - 6 && OccursAt(suffix, "@kline", i);
      OccursAtHead2(suffix, "@kline", i);
    }
    NotContainsAfterFree(sl, suffix, "@kline");
  }

  /** Every spot name of a symbol without '@' routes to the feed it is
      built for. */
  lemma SpotNamesRoute(symbol: string, j: nat)
    requires Free(symbol, '@') && j < 5
    ensures Route(SpotNames(Lower(symbol))[j]) == Ok(SpotFeeds[j])
  {
    var sl := Lower(symbol);
    var s := SpotNames(sl)[j];
    if j == 0 {
      assert EndsWith(s, "@aggTrade") by { assert s[|s| - 9..] == "@aggTrade"; }
    } else if j == 1 {
      MismatchNotEndsWith(s, "@aggTrade", 1);
      assert EndsWith(s, "@depth20@100ms") by { assert s[|s| - 14..] == "@depth20@100ms"; }
    } else {
      var suffix := ["@kline_1h", "@kline_1m", "@kline_1s"][j - 2];
      assert s == sl + suffix;
      MismatchNotEndsWith(s, "@aggTrade", 2);
      MismatchNotEndsWith(s, "@depth20@100ms", 2);
      ContainsMiddle(sl, "@kline", suffix[6..]);
      assert sl + "@kline" + suffix[6..] == s;
    }
  }

  /** Every futures name of a symbol without '@' routes to the feed it is
      built for. */
  lemma FuturesNamesRoute(symbol: string, j: nat)
    requires Free(symbol, '@') && j < 2
    ensures Route(FuturesNames(Lower(symbol))[j]) == Ok(FuturesFeeds[j])
  {
    var sl := Lower(symbol);
    LowerKeepsFree(symbol, '@');
    var s := FuturesNames(sl)[j];
    if j == 0 {
      assert s == sl + "@forceOrder";
      NoKline(sl, "@forceOrder");
      MismatchNotEndsWith(s, "@aggTrade", 1);
      MismatchNotEndsWith(s, "@depth20@100ms", 1);
      MismatchNotEndsWith(s, "@markPrice@1s", 1);
      assert EndsWith(s, "@forceOrder") by { assert s[|s| - 11..] == "@forceOrder"; }
    } else {
      assert s == sl + "@markPrice@1s";
      NoKline(sl, "@markPrice@1s");
      MismatchNotEndsWith(s, "@aggTrade", 1);
      MismatchNotEndsWith(s, "@depth20@100ms", 2);
      assert EndsWith(s, "@markPrice@1s") by { assert s[|s| - 13..] == "@markPrice@1s"; }
    }
  }

  /** Every name the gateway subscribes to, for symbols without '@', routes
      to the feed it was built for. */
  lemma SubscribedNamesRoute(symbols: seq<string>, futures: bool, i: nat)
    requires forall k :: 0 <= k < |symbols| ==> Free(symbols[k], '@')
    requires i < |StreamNames(symbols, futures)|
    ensures Route(StreamNames(symbols, futures)[i]) ==
      Ok(if futures then FuturesFeeds[i % 2] else SpotFeeds[i % 5])
  {
    StreamNamesAt(symbols, futures, i);
    if futures {
      FuturesNamesRoute(symbols[i / 2], i % 2);
    } else {
      SpotNamesRoute(symbols[i / 5], i % 5);
    }
  }

  // ---------------------------------------------------------------------
  // Handling a text frame

  /** The part of `MarketGateway` a text frame touches: its identity, the
      events broadcast on the market channel and the messages sent to the
      supervisor. */
  class MarketGateway<R> {
    const id: ActorId
    var published: seq<MarketEvent<R>>
    var outbox: seq<ControlMessage>

    /** `MarketGateway::new`, with the fresh id passed in. */
    constructor (id: ActorId)
      ensures this.id == id && published == [] && outbox == []
    {
      this.id := id;
      published := [];
      outbox := [];
    }

    /** `name()`: the gateway is a persistent actor, registered under a kind
        the supervisor can restart, never a one-shot `Dynamic`. */
    function Name(): (k: ActorType)
      ensures k != Dynamic
    {
      GatewayActor
    }

    /** A `Message::Text` frame in the read loop: a parsed event is
        broadcast; a parse failure is reported as `Error` and the loop goes
        on, unless the supervisor channel is closed (`accepted` false), which
        ends the connection with an error. */
    method OnText(envelope: Result<string>, decoded: Result<R>, closed: bool, accepted: bool)
      returns (r: Result<()>)
      modifies this
      ensures var p := ParseWebsocketMessage(envelope, decoded, closed);
        (p.Ok? ==> r == Ok(()) && published == old(published) + [p.value] && outbox == old(outbox)) &&
        (p.Err? && accepted ==>
          r == Ok(()) && published == old(published) &&
          outbox == old(outbox) + [Error(id, "Unknown socket response: " + p.error)]) &&
        (p.Err? && !accepted ==> r.Err? && published == old(published) && outbox == old(outbox))
    {
      var p := ParseWebsocketMessage(envelope, decoded, closed);
      match p {
        case Ok(event) =>
          published := published + [event];
          r := Ok(());
        case Err(e) =>
          if accepted {
            outbox := outbox + [Error(id, "Unknown socket response: " + e)];
            r := Ok(());
          } else {
            r := Err("channel closed");
          }
      }
    }
  }

  /** A gateway whose pulse went stale is restarted as a gateway: when its
      kind (`name()`) has a registered factory, the sweep forgets the stale
      identity and starts its replacement under the gateway's kind with a
      pulse of the tick. */
  lemma StaleGatewayRestarted<R>(g: MarketGateway<R>, t: Tables, dead: seq<ActorId>,
                                 repl: map<ActorId, ActorId>, factories: map<ActorType, Factory>, now: int)
    requires SweepReady(t, dead, repl, factories)
    requires g.id in dead && g.id in t.kinds && t.kinds[g.id] == g.Name() && g.Name() in factories
    ensures var r := RetireSeq(t, dead, repl, factories, now);
      && g.id !in r.kinds && g.id !in r.pulses && g.id in repl
      && repl[g.id] in r.kinds && r.kinds[repl[g.id]] == GatewayActor
      && repl[g.id] in r.pulses && r.pulses[repl[g.id]] == now
  {
    var i :| 0 <= i < |dead| && dead[i] == g.id;
    SweepOutcome(t, dead, repl, factories, now);
  }
}
