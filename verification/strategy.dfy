/** The strategy service's position machine: per lowercased symbol a
    `has_position` flag driven by the inference result of each trade tick,
    the calibrated quantities of `execute`, and the chunk walk that reads
    quantities back out of a packed order-book side. Indicator arithmetic
    and the inference engine are inputs: a tick arrives with its
    inference result already computed. */
module Strategy {
  import opened Results
  import opened Text
  import opened OrderBookCodec

  datatype Side = Buy | Sell

  /** The side as the signal spells it. */
  function SideName(side: Side): string {
    match side
    case Buy => "BUY"
    case Sell => "SELL"
  }

  /** What `engine.predict` gave for a tick: a class with its confidence, or
      an error. */
  datatype Inference = Prediction(category: int, confidence: real) | InferenceError(msg: string)

  /** The confidence a prediction must exceed to act. */
  const Threshold: real := 0.60

  /** The action a tick takes on a symbol whose flag is `hasPosition`: a
      confident class 1 buys when flat, a confident class 2 sells when
      holding, anything else does nothing. */
  function Decide(hasPosition: bool, inference: Inference): (action: Option<Side>)
    ensures action == Some(Buy) <==>
      !hasPosition && inference.Prediction? && inference.confidence > Threshold && inference.category == 1
    ensures action == Some(Sell) <==>
      hasPosition && inference.Prediction? && inference.confidence > Threshold && inference.category == 2
  {
    match inference
    case InferenceError(_) => None
    case Prediction(category, confidence) =>
      if confidence > Threshold && category == 1 && !hasPosition then Some(Buy)
      else if confidence > Threshold && category == 2 && hasPosition then Some(Sell)
      else None
  }

  /** The flag after the action: buying sets it, selling clears it. */
  function After(hasPosition: bool, action: Option<Side>): bool {
    if action.Some? then action.value == Buy else hasPosition
  }

  /** A run of actions alternates BUY, SELL, BUY, … starting with BUY. */
  predicate Alternates(actions: seq<Side>) {
    forall i :: 0 <= i < |actions| ==> actions[i] == (if i % 2 == 0 then Buy else Sell)
  }

  /** One tick keeps a symbol's actions alternating and its flag equal to
      "an odd number of actions so far". */
  lemma DecideAlternates(actions: seq<Side>, inference: Inference)
    requires Alternates(actions)
    ensures var hasPosition := |actions| % 2 == 1;
      var action := Decide(hasPosition, inference);
      var next := if action.Some? then actions + [action.value] else actions;
      Alternates(next) && (After(hasPosition, action) <==> |next| % 2 == 1)
  {
  }

  /** `execute`'s table: the quantity traded for a calibrated uppercase
      symbol, 0.0 for every other one. */
  function CalibratedQuantity(symbol: string): (q: real)
    ensures q > 0.0 <==> symbol in {"BTCUSDT", "ETHUSDT", "SOLUSDT", "DOGEUSDT", "BNBUSDT"}
    ensures q >= 0.0
  {
    match symbol
    case "BTCUSDT" => 0.0002
    case "ETHUSDT" => 0.005
    case "SOLUSDT" => 0.1
    case "DOGEUSDT" => 50.0
    case "BNBUSDT" => 0.05
    case _ => 0.0
  }

  /** `TradeSignal`, with the confidence in place of the reason text made
      from it. */
  datatype TradeSignal = TradeSignal(symbol: string, side: Side, quantity: real, confidence: real)

  /** The notification text's content: side, confidence and symbol. */
  datatype Notice = Notice(side: Side, confidence: real, symbol: string)

  /** The set of keys `new` inserts. */
  function LowerKeys(symbols: seq<string>): set<string> {
    set s | s in symbols :: Lower(s)
  }

  /** `StrategyService`: the `has_position` flag of each tracked symbol,
      whether a notifier and an executor are attached, and what has been
      sent to each. `actions` records every action taken per symbol. */
  class StrategyService {
    var positions: map<string, bool>
    var notifier: bool
    var executor: bool
    var notices: seq<Notice>
    var signals: seq<TradeSignal>
    ghost var actions: map<string, seq<Side>>

    /** Per symbol, the actions alternate starting with BUY and the flag
        says whether the last one was a BUY. */
    ghost predicate Valid()
      reads this
    {
      positions.Keys == actions.Keys &&
      forall s :: s in positions ==> Alternates(actions[s]) && (positions[s] <==> |actions[s]| % 2 == 1)
    }

    /** `StrategyService::new`: every symbol, lowercased, starts flat. */
    constructor (symbols: seq<string>)
      ensures positions.Keys == LowerKeys(symbols)
      ensures forall s :: s in positions ==> !positions[s]
      ensures !notifier && !executor && notices == [] && signals == []
      ensures Valid()
    {
      var states: map<string, bool> := map[];
      var k := 0;
      while k < |symbols|
        invariant 0 <= k <= |symbols|
        invariant states.Keys == LowerKeys(symbols[..k])
        invariant forall s :: s in states ==> !states[s]
      {
        states := states[Lower(symbols[k]) := false];
        assert symbols[..k + 1] == symbols[..k] + [symbols[k]];
        k := k + 1;
      }
      assert symbols[..k] == symbols;
      positions := states;
      actions := map s | s in states :: [];
      notifier := false;
      executor := false;
      notices := [];
      signals := [];
    }

    /** `with_notifier` */
    method WithNotifier()
      modifies this
      ensures notifier && executor == old(executor) && positions == old(positions)
      ensures notices == old(notices) && signals == old(signals) && actions == old(actions)
    {
      notifier := true;
    }

    /** `with_executor` */
    method WithExecutor()
      modifies this
      ensures executor && notifier == old(notifier) && positions == old(positions)
      ensures notices == old(notices) && signals == old(signals) && actions == old(actions)
    {
      executor := true;
    }

    /** `execute`: a signal for a calibrated symbol when an executor is
        attached; nothing otherwise. */
    method Execute(symbol: string, side: Side, confidence: real)
      modifies this
      ensures signals == old(signals) +
        (if executor && CalibratedQuantity(Upper(symbol)) > 0.0
         then [TradeSignal(Upper(symbol), side, CalibratedQuantity(Upper(symbol)), confidence)]
         else [])
      ensures positions == old(positions) && actions == old(actions) && notices == old(notices)
      ensures notifier == old(notifier) && executor == old(executor)
    {
      if executor {
        var quantity := CalibratedQuantity(Upper(symbol));
        if quantity > 0.0 {
          signals := signals + [TradeSignal(Upper(symbol), side, quantity, confidence)];
        }
      }
    }

    /** The decision part of `process_tick`: look the lowercased symbol up,
        act on the inference, then notify and execute the pending action. */
    method ProcessTick(symbol: string, inference: Inference)
      requires Valid()
      modifies this
      ensures Valid()
      ensures notifier == old(notifier) && executor == old(executor)
      ensures Lower(symbol) !in old(positions) ==>
        positions == old(positions) && actions == old(actions) &&
        notices == old(notices) && signals == old(signals)
      ensures Lower(symbol) in old(positions) ==>
        var sl := Lower(symbol);
        var action := Decide(old(positions)[sl], inference);
        positions == old(positions)[sl := After(old(positions)[sl], action)] &&
        actions == old(actions)[sl := old(actions)[sl] + (if action.Some? then [action.value] else [])] &&
        notices == old(notices) +
          (if action.Some? && notifier then [Notice(action.value, inference.confidence, sl)] else []) &&
        signals == old(signals) +
          (if action.Some? && executor && CalibratedQuantity(Upper(sl)) > 0.0
           then [TradeSignal(Upper(sl), action.value, CalibratedQuantity(Upper(sl)), inference.confidence)]
           else [])
    {
      var sl := Lower(symbol);
      var pending: Option<(Side, real)> := None;
      if sl in positions {
        ghost var action := Decide(positions[sl], inference);
        DecideAlternates(actions[sl], inference);
        match inference {
          case Prediction(category, confidence) =>
            if confidence > Threshold {
              if category == 1 {
                if !positions[sl] {
                  positions := positions[sl := true];
                  pending := Some((Buy, confidence));
                }
              } else if category == 2 {
                if positions[sl] {
                  positions := positions[sl := false];
                  pending := Some((Sell, confidence));
                }
              }
            }
          case InferenceError(_) =>
        }
        assert pending.Some? <==> action.Some?;
        if pending.Some? {
          assert pending.value == (action.value, inference.confidence);
          actions := actions[sl := actions[sl] + [pending.value.0]];
        } else {
          assert actions == old(actions);
          assert old(actions)[sl] + [] == old(actions)[sl];
          assert old(actions)[sl := old(actions)[sl]] == old(actions);
          assert positions == old(positions)[sl := old(positions)[sl]];
        }
      }
      if pending.Some? {
        var (side, prob) := pending.value;
        if notifier {
          notices := notices + [Notice(side, prob, sl)];
        }
        Execute(sl, side, prob);
      }
    }
  }

  // ---------------------------------------------------------------------
  // Reading quantities back

  /** The words `calculate_volume` reads: bytes 4..8 of each whole 8-byte
      chunk (a trailing partial chunk is skipped; the `[0; 4]` fallback of
      the conversion never applies, as the slice always has four bytes). */
  function QuantityWords(data: seq<bv8>): (words: seq<Word>)
    ensures |words| == |data| / 8
    ensures forall k :: 0 <= k < |words| ==> words[k] == data[8 * k + 4..8 * k + 8]
  {
    seq(|data| / 8, k requires 0 <= k < |data| / 8 => data[8 * k + 4..8 * k + 8])
  }

  /** The sum of the values of `words`, first to last. */
  function Sum(words: seq<Word>, value: Word -> real): real {
    if words == [] then 0.0 else Sum(words[..|words| - 1], value) + value(words[|words| - 1])
  }

  /** `calculate_volume`, with `f32::from_le_bytes(..) as f64` as `value`
      and the additions exact. */
  method CalculateVolume(data: seq<bv8>, value: Word -> real) returns (total: real)
    ensures total == Sum(QuantityWords(data), value)
  {
    ghost var words := QuantityWords(data);
    total := 0.0;
    var k := 0;
    while k < |data| / 8
      invariant 0 <= k <= |data| / 8
      invariant total == Sum(words[..k], value)
    {
      assert 8 * k + 8 <= |data|;
      var qty: Word := data[8 * k + 4..8 * k + 8];
      assert qty == words[k];
      assert words[..k + 1][..k] == words[..k];
      total := total + value(qty);
      k := k + 1;
    }
    assert words[..k] == words;
  }

  /** The quantity words of `levels`, in order. */
  function Quantities(levels: seq<Level>, parse: string -> Option<Word>): seq<Word> {
    seq(|levels|, i requires 0 <= i < |levels| => WordOf(levels[i].qty, parse))
  }

  /** Read back from `pack_level`'s output, the chunk walk visits exactly
      the levels' quantity words, in order. */
  lemma QuantitiesRoundTrip(levels: seq<Level>, parse: string -> Option<Word>)
    ensures QuantityWords(Packed(levels, parse)) == Quantities(levels, parse)
  {
    var data := Packed(levels, parse);
    assert |data| / 8 == |levels|;
    forall i | 0 <= i < |levels|
      ensures QuantityWords(data)[i] == Quantities(levels, parse)[i]
    {
      PackedLayout(levels, parse, i);
    }
  }
}
