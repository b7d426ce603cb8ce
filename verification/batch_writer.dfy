/** The ingestion services: a forwarder that passes one variant of the
    gateway's broadcast events to a writer channel, and the `db_writer` loop
    that buffers what it receives and flushes it to the database in batches.
    The six writers of the market-data crate and the two of the legacy binary
    differ only in their thresholds, in whether a timer flushes and in what
    happens to the buffer when the channel closes. Clock readings and insert
    outcomes are inputs. */
module Batching {
  import opened Actors
  import opened Results
  import opened Gateway

  // ---------------------------------------------------------------------
  // Writer settings

  /** A writer's settings: flush when the buffer reaches `maxLen` items or
      the last flush is `maxAgeMs` old; `timerMs` is the period of the idle
      timer (none when the loop has no timer branch); `closedOnly` keeps only
      items flagged closed; `flushOnClose` says whether a closed channel
      flushes the remainder (or drops it). */
  datatype WriterConfig = WriterConfig(maxLen: nat, maxAgeMs: nat, timerMs: Option<nat>,
                                       closedOnly: bool, flushOnClose: bool)

  const AggTradeWriter := WriterConfig(1000, 10000, Some(2000), false, true)
  const OrderBookWriter := WriterConfig(600, 5000, Some(5000), false, true)
  const KlinesWriter := WriterConfig(300, 20000, None, true, true)
  const ForceOrderWriter := WriterConfig(512, 10000, Some(5000), false, true)
  const MarkPriceWriter := WriterConfig(300, 10000, Some(20000), false, true)
  const OpenInterestWriter := WriterConfig(512, 20000, Some(10000), false, true)
  const LegacyAggTradeWriter := WriterConfig(1000, 5000, Some(2000), false, false)
  const LegacyOrderBookWriter := WriterConfig(200, 2000, Some(2000), false, false)

  /** One `flush_batch`: the batch handed to `insert_batch` and whether the
      insert succeeded (a failure is only logged). */
  datatype Flush<T> = Flush(batch: seq<T>, stored: bool)

  /** The flushed items, batch after batch. */
  function Flattened<T>(flushes: seq<Flush<T>>): seq<T> {
    if flushes == [] then [] else Flattened(flushes[..|flushes| - 1]) + flushes[|flushes| - 1].batch
  }

  lemma FlattenedAppend<T>(flushes: seq<Flush<T>>, f: Flush<T>)
    ensures Flattened(flushes + [f]) == Flattened(flushes) + f.batch
  {
    assert (flushes + [f])[..|flushes|] == flushes;
  }

  /** The items a writer keeps from its arrivals `(item, closed)`: all of
      them, or the closed ones when `closedOnly`. */
  function Kept<T>(closedOnly: bool, arrivals: seq<(T, bool)>): (kept: seq<T>)
    ensures |kept| <= |arrivals|
  {
    if arrivals == [] then []
    else
      var last := arrivals[|arrivals| - 1];
      Kept(closedOnly, arrivals[..|arrivals| - 1]) + (if !closedOnly || last.1 then [last.0] else [])
  }

  lemma KeptAppend<T>(closedOnly: bool, arrivals: seq<(T, bool)>, a: (T, bool))
    ensures Kept(closedOnly, arrivals + [a]) ==
      Kept(closedOnly, arrivals) + (if !closedOnly || a.1 then [a.0] else [])
  {
    assert (arrivals + [a])[..|arrivals|] == arrivals;
  }

  /** Only closed arrivals are kept by a closed-only writer: the kept items
      are exactly the items of the closed arrivals, in order. */
  lemma {:induction false} KeptClosedOnly<T>(arrivals: seq<(T, bool)>)
    ensures Kept(true, arrivals) == Kept(false, ClosedArrivals(arrivals))
  {
    if arrivals != [] {
      var n := |arrivals| - 1;
      var pre, a := arrivals[..n], arrivals[n];
      KeptClosedOnly(pre);
      assert Kept(true, arrivals) == Kept(true, pre) + (if a.1 then [a.0] else []);
      assert ClosedArrivals(arrivals) == ClosedArrivals(pre) + (if a.1 then [a] else []);
      if a.1 {
        KeptAppend(false, ClosedArrivals(pre), a);
      } else {
        assert ClosedArrivals(arrivals) == ClosedArrivals(pre);
        assert Kept(true, arrivals) == Kept(true, pre);
      }
    }
  }

  /** The arrivals flagged closed, in order. */
  function ClosedArrivals<T>(arrivals: seq<(T, bool)>): seq<(T, bool)> {
    if arrivals == [] then []
    else
      var last := arrivals[|arrivals| - 1];
      ClosedArrivals(arrivals[..|arrivals| - 1]) + (if last.1 then [last] else [])
  }

  /** What the writer loop is woken by: an item from the channel (with its
      closed flag, the clock reading on arrival, the outcome of the insert
      it may trigger and the clock reading once that insert has returned),
      the idle timer (with the same two flush facts), a lag notice (legacy
      writers only) or the end of the channel. */
  datatype WriterEvent<T> =
    | Message(item: T, closed: bool, now: int, stored: bool, flushedAt: int)
    | Timer(stored: bool, flushedAt: int)
    | Lag
    | Close(stored: bool)

  /** The `(item, closed)` pairs of the messages among `events`, in order. */
  function Messages<T>(events: seq<WriterEvent<T>>): (arrivals: seq<(T, bool)>)
    ensures |arrivals| <= |events|
  {
    if events == [] then []
    else
      var last := events[|events| - 1];
      Messages(events[..|events| - 1]) + (if last.Message? then [(last.item, last.closed)] else [])
  }

  lemma MessagesAppend<T>(events: seq<WriterEvent<T>>, e: WriterEvent<T>)
    ensures Messages(events + [e]) == Messages(events) + (if e.Message? then [(e.item, e.closed)] else [])
  {
    assert (events + [e])[..|events|] == events;
  }

  /** The writer's accounting: the flushed batches, then what was dropped,
      then the buffer, are the kept arrivals. The buffer stays below the size
      threshold, no batch exceeds it, only a closed-only writer ever flushes
      an empty batch, and only a stopped legacy writer has dropped anything. */
  ghost predicate Accounted<T>(config: WriterConfig, flushes: seq<Flush<T>>, dropped: seq<T>, buffer: seq<T>,
                               arrivals: seq<(T, bool)>, running: bool)
  {
    config.maxLen > 0 &&
    Flattened(flushes) + dropped + buffer == Kept(config.closedOnly, arrivals) &&
    |buffer| < config.maxLen &&
    (forall i :: 0 <= i < |flushes| ==> |flushes[i].batch| <= config.maxLen) &&
    (!config.closedOnly ==> forall i :: 0 <= i < |flushes| ==> flushes[i].batch != []) &&
    (running || config.flushOnClose ==> dropped == [])
  }

  /** Receiving `a` pushes its item when it is kept: the grown buffer
      still completes the accounts, holds at most `maxLen` items, and is
      non-empty unless the writer is closed-only. */
  lemma PushAccounted<T>(config: WriterConfig, flushes: seq<Flush<T>>, buffer: seq<T>,
                         arrivals: seq<(T, bool)>, a: (T, bool))
    requires Accounted(config, flushes, [], buffer, arrivals, true)
    ensures var b := buffer + (if !config.closedOnly || a.1 then [a.0] else []);
      Flattened(flushes) + [] + b == Kept(config.closedOnly, arrivals + [a]) &&
      |b| <= config.maxLen && (!config.closedOnly ==> b != [])
  {
    var e := if !config.closedOnly || a.1 then [a.0] else [];
    KeptAppend(config.closedOnly, arrivals, a);
    assert Flattened(flushes) + [] + (buffer + e) == (Flattened(flushes) + [] + buffer) + e;
  }

  /** Flushing a buffer that completes the accounts, with at most `maxLen`
      items and non-empty unless the writer is closed-only, keeps them. */
  lemma FlushAccounted<T>(config: WriterConfig, flushes: seq<Flush<T>>, buffer: seq<T>,
                          arrivals: seq<(T, bool)>, running: bool, stored: bool)
    requires config.maxLen > 0 && |buffer| <= config.maxLen && (!config.closedOnly ==> buffer != [])
    requires Flattened(flushes) + [] + buffer == Kept(config.closedOnly, arrivals)
    requires forall i :: 0 <= i < |flushes| ==> |flushes[i].batch| <= config.maxLen
    requires !config.closedOnly ==> forall i :: 0 <= i < |flushes| ==> flushes[i].batch != []
    ensures Accounted(config, flushes + [Flush(buffer, stored)], [], [], arrivals, running)
  {
    FlattenedAppend(flushes, Flush(buffer, stored));
    assert Flattened(flushes + [Flush(buffer, stored)]) + [] + [] == Flattened(flushes) + [] + buffer;
    var fs := flushes + [Flush(buffer, stored)];
    assert forall i :: 0 <= i < |flushes| ==> fs[i] == flushes[i];
  }

  /** Stopping a running writer keeps the accounts: an empty buffer leaves
      nothing behind, and a legacy writer moves its buffer to the dropped
      items. */
  lemma StopAccounted<T>(config: WriterConfig, flushes: seq<Flush<T>>, buffer: seq<T>, arrivals: seq<(T, bool)>)
    requires Accounted(config, flushes, [], buffer, arrivals, true)
    requires config.flushOnClose ==> buffer == []
    ensures Accounted(config, flushes, if config.flushOnClose then [] else buffer, [], arrivals, false)
  {
    assert Flattened(flushes) + buffer + [] == Flattened(flushes) + [] + buffer;
  }

  /** `db_writer`'s state: the buffer, the time of the last flush, the
      flushes made, what a closing channel discarded, and whether the loop
      still runs. `arrivals` records every item received. */
  class BatchWriter<T> {
    const config: WriterConfig
    var buffer: seq<T>
    var lastFlush: int
    var flushes: seq<Flush<T>>
    var dropped: seq<T>
    var running: bool
    ghost var arrivals: seq<(T, bool)>

    /** No item is lost, duplicated or reordered, and the buffer and
        batches respect the size threshold (see `Accounted`). */
    ghost predicate Valid()
      reads this
    {
      Accounted(config, flushes, dropped, buffer, arrivals, running)
    }

    /** The writer as `db_writer` starts it: empty buffer, last flush now. */
    constructor (config: WriterConfig, now: int)
      requires config.maxLen > 0
      ensures this.config == config && buffer == [] && lastFlush == now
      ensures flushes == [] && dropped == [] && running && arrivals == []
      ensures Valid()
    {
      this.config := config;
      buffer := [];
      lastFlush := now;
      flushes := [];
      dropped := [];
      running := true;
      arrivals := [];
    }

    /** An item arrives: it is pushed (a closed-only writer pushes it only
        when closed), and the buffer is flushed and cleared — whatever the
        insert's outcome — once it holds `maxLen` items or the last flush is
        `maxAgeMs` old, judged by the reading `now` taken on arrival; the
        new last flush is the reading `flushedAt` taken once the insert has
        returned. */
    method OnMessage(item: T, closed: bool, now: int, stored: bool, flushedAt: int)
      requires Valid() && running
      modifies this
      ensures Valid() && running && dropped == old(dropped)
      ensures arrivals == old(arrivals) + [(item, closed)]
      ensures var b := old(buffer) + (if !config.closedOnly || closed then [item] else []);
        if |b| >= config.maxLen || now - old(lastFlush) >= config.maxAgeMs
        then flushes == old(flushes) + [Flush(b, stored)] && buffer == [] && lastFlush == flushedAt
        else flushes == old(flushes) && buffer == b && lastFlush == old(lastFlush)
    {
      PushAccounted(config, flushes, buffer, arrivals, (item, closed));
      var pushed := buffer;
      if !config.closedOnly || closed {
        pushed := pushed + [item];
      } else {
        assert pushed + [] == pushed;
      }
      arrivals := arrivals + [(item, closed)];
      if |pushed| >= config.maxLen || now - lastFlush >= config.maxAgeMs {
        FlushAccounted(config, flushes, pushed, arrivals, running, stored);
        flushes := flushes + [Flush(pushed, stored)];
        buffer := [];
        lastFlush := flushedAt;
      } else {
        buffer := pushed;
      }
    }

    /** The idle timer fires: a non-empty buffer is flushed and cleared; an
        empty one is left alone. The new last flush is the reading
        `flushedAt` taken once the insert has returned. */
    method OnTimer(stored: bool, flushedAt: int)
      requires Valid() && running && config.timerMs.Some?
      modifies this
      ensures Valid() && running && dropped == old(dropped) && arrivals == old(arrivals)
      ensures old(buffer) == [] ==>
        buffer == [] && flushes == old(flushes) && lastFlush == old(lastFlush)
      ensures old(buffer) != [] ==>
        flushes == old(flushes) + [Flush(old(buffer), stored)] && buffer == [] && lastFlush == flushedAt
    {
      if buffer != [] {
        FlushAccounted(config, flushes, buffer, arrivals, running, stored);
        flushes := flushes + [Flush(buffer, stored)];
        buffer := [];
        lastFlush := flushedAt;
      }
    }

    /** The channel ends and the loop stops: the crate writers flush a
        non-empty remainder, the legacy writers drop it. */
    method OnClose(stored: bool)
      requires Valid() && running
      modifies this
      ensures Valid() && !running && buffer == [] && arrivals == old(arrivals) && lastFlush == old(lastFlush)
      ensures config.flushOnClose ==>
        dropped == [] &&
        flushes == old(flushes) + (if old(buffer) != [] then [Flush(old(buffer), stored)] else [])
      ensures !config.flushOnClose ==> dropped == old(buffer) && flushes == old(flushes)
    {
      if config.flushOnClose {
        if buffer != [] {
          FlushAccounted(config, flushes, buffer, arrivals, false, stored);
          flushes := flushes + [Flush(buffer, stored)];
        } else {
          StopAccounted(config, flushes, buffer, arrivals);
        }
      } else {
        StopAccounted(config, flushes, buffer, arrivals);
        dropped := buffer;
      }
      buffer := [];
      running := false;
    }

    /** One turn of `db_writer`'s `select!`: the event is handled by its
        branch; a lag notice changes nothing. */
    method Handle(e: WriterEvent<T>)
      requires Valid() && running
      requires e.Timer? ==> config.timerMs.Some?
      modifies this
      ensures Valid() && (running <==> !e.Close?)
      ensures arrivals == old(arrivals) + (if e.Message? then [(e.item, e.closed)] else [])
    {
      match e {
        case Message(item, closed, now, stored, flushedAt) => OnMessage(item, closed, now, stored, flushedAt);
        case Timer(stored, flushedAt) =>
          OnTimer(stored, flushedAt);
          assert arrivals + [] == arrivals;
        case Lag =>
          assert arrivals + [] == arrivals;
        case Close(stored) =>
          OnClose(stored);
          assert arrivals + [] == arrivals;
      }
    }

    /** The `loop { select! { … } }` of `db_writer` over a run of events,
        up to and including the first close. It returns how many events it
        consumed. */
    method Run(events: seq<WriterEvent<T>>) returns (consumed: nat)
      requires Valid() && running
      requires forall i :: 0 <= i < |events| && events[i].Timer? ==> config.timerMs.Some?
      modifies this
      ensures Valid() && consumed <= |events|
      ensures arrivals == old(arrivals) + Messages(events[..consumed])
      ensures forall i :: 0 <= i < consumed - 1 ==> !events[i].Close?
      ensures running <==> consumed == |events| && (consumed == 0 || !events[consumed - 1].Close?)
      ensures !running ==> 0 < consumed && events[consumed - 1].Close?
    {
      consumed := 0;
      while consumed < |events|
        invariant 0 <= consumed <= |events|
        invariant Valid() && running
        invariant arrivals == old(arrivals) + Messages(events[..consumed])
        invariant forall i :: 0 <= i < consumed ==> !events[i].Close?
      {
        var e := events[consumed];
        assert events[..consumed + 1] == events[..consumed] + [e];
        MessagesAppend(events[..consumed], e);
        Handle(e);
        consumed := consumed + 1;
        if e.Close? {
          return;
        }
      }
    }
  }

  /** The writers of the crate never lose a received item: once the channel
      closes, the flushed batches are exactly the kept arrivals, in order. */
  lemma ClosedCrateWriterFlushedAll<T>(w: BatchWriter<T>)
    requires w.Valid() && !w.running && w.config.flushOnClose
    ensures Flattened(w.flushes) + w.buffer == Kept(w.config.closedOnly, w.arrivals)
    ensures w.buffer == [] ==> Flattened(w.flushes) == Kept(w.config.closedOnly, w.arrivals)
  {
    assert w.dropped == [];
    assert Flattened(w.flushes) + [] + w.buffer == Flattened(w.flushes) + w.buffer;
  }

  /** `flush_batch` of the writers behind the rotating pool: `get` is asked
      again, five seconds later, until it gives a pool; `get(k)` is the
      outcome of the `k`-th attempt and `bound` an attempt known to succeed. */
  method AcquirePool<P>(get: nat -> Result<P>, bound: nat) returns (pool: P, failures: nat, waitedSecs: nat)
    requires get(bound).Ok?
    ensures failures <= bound && get(failures) == Ok(pool)
    ensures forall k :: 0 <= k < failures ==> get(k).Err?
    ensures waitedSecs == 5 * failures
  {
    failures := 0;
    waitedSecs := 0;
    while true
      invariant failures <= bound && waitedSecs == 5 * failures
      invariant forall k :: 0 <= k < failures ==> get(k).Err?
      decreases bound - failures
    {
      match get(failures) {
        case Ok(p) =>
          pool := p;
          return;
        case Err(_) =>
          failures := failures + 1;
          waitedSecs := waitedSecs + 5;
      }
    }
  }

  // ---------------------------------------------------------------------
  // The forwarding loop of `run`

  /** The event variant a service forwards. */
  datatype Variant = AggTrades | OrderBooks | Klines | MarkPrices | ForceOrders | OpenInterests

  predicate Carries<R>(e: MarketEvent<R>, v: Variant) {
    match v
    case AggTrades => e.AggTrade?
    case OrderBooks => e.OrderBook?
    case Klines => e.Kline?
    case MarkPrices => e.MarkPrice?
    case ForceOrders => e.ForceOrder?
    case OpenInterests => e.OpenInterest?
  }

  /** What is sent to the writer for an event: its row, with the kline's
      closed flag (other rows count as closed). */
  function Entry<R>(e: MarketEvent<R>): (R, bool) {
    (RowOf(e), if e.Kline? then e.closed else true)
  }

  /** What the broadcast receiver yields: an event, a lag notice, or the end
      of the channel. */
  datatype Received<R> = Event(event: MarketEvent<R>) | Lagged(missed: nat) | ChannelClosed

  /** A service's reports and errors: the `Error` text and the returned
      error for a closed broadcast channel and for a writer that is gone. */
  datatype Service = Service(variant: Variant, closedReport: string, closedError: string,
                             sendFailedReport: string, sendFailedError: string)

  // The writer channel's send error displays as "channel closed".
  const AggTradeService := Service(AggTrades,
    "AggTradeActor: AggTrade channel closed unexpectedly.", "AggTrade channel closed unexpectedly.",
    "AggTradeActor: Failed to send to DB writer: channel closed", "Failed to send to DB writer: channel closed")
  const OrderBookService := Service(OrderBooks,
    "OrderBook channel closed unexpectedly.", "OrderBook channel closed unexpectedly.",
    "Failed to send to DB writer: channel closed", "Failed to send to DB writer: channel closed")
  const KlinesService := Service(Klines,
    "Kline channel closed. Stopping service.", "Kline channel closed. Stopping service.",
    "Failed to send to DB writer: channel closed", "Failed to send to DB writer: channel closed")
  const ForceOrderService := Service(ForceOrders,
    "ForceOrderActor: ForceOrder channel closed unexpectedly.", "ForceOrder channel closed unexpectedly.",
    "ForceOrderActor: Failed to send to DB writer: channel closed", "Failed to send to DB writer: channel closed")
  const MarkPriceService := Service(MarkPrices,
    "MarkPriceActor: MarkPrice channel closed unexpedtedly.", "MarkPrice channel closed unexpectedly.",
    "MarkPriceActor Failed to send to DB writer: channel closed", "Failed to send to DB writer: channel closed")
  const OpenInterestService := Service(OpenInterests,
    "OpenInterestActor: OpenInterest channel closed unexpectedly.", "OpenInterest channel closed unexpectedly.",
    "OpenInterestActor: Failed to send to DB writer: channel closed", "Failed to send to DB writer: channel closed")

  /** How far a forwarding run got: still listening, stopped at a closed
      broadcast channel, or stopped at a writer that no longer receives. */
  datatype End = Listening | BroadcastClosed | WriterGone

  datatype Forwarding<R> = Forwarding(entries: seq<(R, bool)>, end: End)

  /** The forwarding loop over `inbox`, the writer accepting `accepts` more
      sends. */
  function Forwarded<R>(v: Variant, inbox: seq<Received<R>>, accepts: nat): (f: Forwarding<R>)
    ensures |f.entries| <= accepts
  {
    if inbox == [] then Forwarding([], Listening)
    else
      match inbox[0]
      case Lagged(_) => Forwarded(v, inbox[1..], accepts)
      case ChannelClosed => Forwarding([], BroadcastClosed)
      case Event(e) =>
        if !Carries(e, v) then Forwarded(v, inbox[1..], accepts)
        else if accepts == 0 then Forwarding([], WriterGone)
        else
          var rest := Forwarded(v, inbox[1..], accepts - 1);
          Forwarding([Entry(e)] + rest.entries, rest.end)
  }

  /** The entries of the events of variant `v` in `inbox`, in order. */
  function Selected<R>(v: Variant, inbox: seq<Received<R>>): seq<(R, bool)> {
    if inbox == [] then []
    else
      var rest := Selected(v, inbox[1..]);
      if inbox[0].Event? && Carries(inbox[0].event, v) then [Entry(inbox[0].event)] + rest else rest
  }

  /** The receipts before the first close. */
  function UntilClosed<R>(inbox: seq<Received<R>>): (prefix: seq<Received<R>>)
    ensures |prefix| <= |inbox| && prefix == inbox[..|prefix|]
    ensures forall i :: 0 <= i < |prefix| ==> !prefix[i].ChannelClosed?
  {
    if inbox == [] || inbox[0].ChannelClosed? then []
    else [inbox[0]] + UntilClosed(inbox[1..])
  }

  /** While the writer keeps receiving, the run forwards exactly the events
      of its variant received before the channel closed, in order, skipping
      every other variant and every lag, and stops only at a close. */
  lemma {:induction false} ForwardedSelects<R>(v: Variant, inbox: seq<Received<R>>, accepts: nat)
    requires |inbox| <= accepts
    ensures Forwarded(v, inbox, accepts).entries == Selected(v, UntilClosed(inbox))
    ensures Forwarded(v, inbox, accepts).end == (if ChannelClosed in inbox then BroadcastClosed else Listening)
  {
    if inbox != [] {
      ForwardedSelects(v, inbox[1..], if inbox[0].Event? && Carries(inbox[0].event, v) then accepts - 1 else accepts);
      if !inbox[0].ChannelClosed? {
        assert UntilClosed(inbox)[1..] == UntilClosed(inbox[1..]);
        assert ChannelClosed in inbox <==> ChannelClosed in inbox[1..];
      }
    }
  }

  /** The forwarding loop of a service's `run`: events of its variant are
      sent to the writer (which accepts `accepts` sends), lags are skipped;
      a closed broadcast channel or a failed send is reported to the
      supervisor (`delivered` says whether the report got through) and ends
      the run with an error. `r` is none while the run is still listening. */
  method RunForwarder<R>(id: ActorId, service: Service, inbox: seq<Received<R>>, accepts: nat, delivered: bool)
    returns (entries: seq<(R, bool)>, reports: seq<ControlMessage>, r: Option<Result<()>>)
    ensures var f := Forwarded(service.variant, inbox, accepts);
      entries == f.entries &&
      (f.end == Listening ==> r == None && reports == []) &&
      (f.end == BroadcastClosed ==>
        r.Some? && r.value.Err? &&
        reports == (if delivered then [Error(id, service.closedReport)] else []) &&
        (delivered ==> r.value.error == service.closedError)) &&
      (f.end == WriterGone ==>
        r.Some? && r.value.Err? &&
        reports == (if delivered then [Error(id, service.sendFailedReport)] else []) &&
        (delivered ==> r.value.error == service.sendFailedError))
  {
    entries := [];
    reports := [];
    var sent := 0;
    var i := 0;
    while i < |inbox|
      invariant 0 <= i <= |inbox| && sent <= accepts
      invariant var f := Forwarded(service.variant, inbox[i..], accepts - sent);
        Forwarded(service.variant, inbox, accepts) == Forwarding(entries + f.entries, f.end)
    {
      assert inbox[i..][1..] == inbox[i + 1..];
      match inbox[i] {
        case Lagged(_) =>
        case ChannelClosed =>
          if delivered {
            reports := [Error(id, service.closedReport)];
            r := Some(Err(service.closedError));
          } else {
            r := Some(Err("channel closed"));
          }
          return;
        case Event(e) =>
          if Carries(e, service.variant) {
            if sent == accepts {
              if delivered {
                reports := [Error(id, service.sendFailedReport)];
                r := Some(Err(service.sendFailedError));
              } else {
                r := Some(Err("channel closed"));
              }
              return;
            }
            entries := entries + [Entry(e)];
            sent := sent + 1;
          }
      }
      i := i + 1;
    }
    r := None;
  }
}
