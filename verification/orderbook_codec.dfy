/** The order-book row the gateway stores: the symbol taken from the stream
    name, and each side's levels packed as 8-byte `[price word, quantity
    word]` records. An `f32` is kept as the opaque 4-byte word of its
    little-endian bytes. */
module OrderBookCodec {
  import opened Results
  import opened Text

  /** The four little-endian bytes of an `f32`. */
  type Word = w: seq<bv8> | |w| == 4 witness [0, 0, 0, 0]

  /** The bytes of `0_f32`. */
  const ZeroWord: Word := [0, 0, 0, 0]

  /** A level as received: `[price, quantity]` as decimal strings. */
  datatype Level = Level(price: string, qty: string)

  /** `s.parse::<f32>().unwrap_or(0_f32).to_le_bytes()`, where `parse` is the
      float parser (none when the text is not a float). */
  function WordOf(s: string, parse: string -> Option<Word>): (w: Word)
    ensures parse(s).None? ==> w == ZeroWord
    ensures parse(s).Some? ==> w == parse(s).value
  {
    if parse(s).Some? then parse(s).value else ZeroWord
  }

  /** The records of `levels`, one after another. */
  function Packed(levels: seq<Level>, parse: string -> Option<Word>): (bytes: seq<bv8>)
    ensures |bytes| == 8 * |levels|
  {
    if levels == [] then []
    else
      var last := levels[|levels| - 1];
      Packed(levels[..|levels| - 1], parse) + WordOf(last.price, parse) + WordOf(last.qty, parse)
  }

  /** Bytes `[8i, 8i+4)` hold level `i`'s price word and `[8i+4, 8i+8)` its
      quantity word. */
  lemma {:induction false} PackedLayout(levels: seq<Level>, parse: string -> Option<Word>, i: nat)
    requires i < |levels|
    ensures Packed(levels, parse)[8 * i..8 * i + 4] == WordOf(levels[i].price, parse)
    ensures Packed(levels, parse)[8 * i + 4..8 * i + 8] == WordOf(levels[i].qty, parse)
  {
    var n := |levels| - 1;
    var front := Packed(levels[..n], parse);
    var p, q := WordOf(levels[n].price, parse), WordOf(levels[n].qty, parse);
    assert Packed(levels, parse) == front + p + q;
    if i < n {
      PackedLayout(levels[..n], parse, i);
      assert levels[..n][i] == levels[i];
      assert (front + p + q)[8 * i..8 * i + 8] == front[8 * i..8 * i + 8];
    } else {
      assert (front + p + q)[8 * i..8 * i + 4] == p;
      assert (front + p + q)[8 * i + 4..8 * i + 8] == q;
    }
  }

  /** `pack_level`: append each level's price and quantity words. */
  method PackLevel(items: seq<Level>, parse: string -> Option<Word>) returns (writer: seq<bv8>)
    ensures writer == Packed(items, parse)
  {
    writer := [];
    var k := 0;
    while k < |items|
      invariant 0 <= k <= |items|
      invariant writer == Packed(items[..k], parse)
    {
      var price := WordOf(items[k].price, parse);
      var quantity := WordOf(items[k].qty, parse);
      writer := writer + price;
      writer := writer + quantity;
      assert items[..k + 1][..k] == items[..k];
      k := k + 1;
    }
    assert items[..k] == items;
  }

  // ---------------------------------------------------------------------
  // The symbol

  /** `s.split(c)`: the pieces between occurrences of `c`; never empty. */
  function Split(s: string, c: char): (pieces: seq<string>)
    ensures |pieces| >= 1
    ensures forall i :: 0 <= i < |pieces| ==> Free(pieces[i], c)
    ensures Join(pieces, [c]) == s
  {
    if s == [] then [""]
    else
      var rest := Split(s[1..], c);
      if s[0] == c then
        assert [""] + rest == [""] + rest[..1] + rest[1..];
        JoinAppend([""], rest, [c]);
        [""] + rest
      else
        var pieces := [[s[0]] + rest[0]] + rest[1..];
        assert pieces[0] + Join(rest[1..], [c]) == [s[0]] + (rest[0] + Join(rest[1..], [c]));
        if |rest| == 1 then pieces
        else
          assert pieces[1..] == rest[1..];
          assert Join(rest, [c]) == rest[0] + [c] + Join(rest[1..], [c]);
          pieces
  }

  /** The first piece of a split is the text before the first `c`: it is a
      prefix of `s`, followed by `c` unless it is all of `s`. */
  lemma {:induction false} SplitHead(s: string, c: char)
    ensures var h := Split(s, c)[0];
      |h| <= |s| && s[..|h|] == h && (|h| == |s| || s[|h|] == c)
  {
    if s != [] && s[0] != c {
      SplitHead(s[1..], c);
      var h := Split(s[1..], c)[0];
      assert Split(s, c)[0] == [s[0]] + h;
      assert s[..1 + |h|] == [s[0]] + s[1..][..|h|];
    }
  }

  /** `stream.split('@').next().unwrap_or("UNK").to_uppercase()`. */
  function StreamSymbol(stream: string): string {
    var pieces := Split(stream, '@');
    Upper(if |pieces| > 0 then pieces[0] else "UNK")
  }

  /** The symbol is the uppercased part of the stream before its first '@'
      (the whole stream when it has none), and holds no '@'. The "UNK"
      fallback is never used: splitting always yields a first piece. */
  lemma StreamSymbolIsPrefix(stream: string)
    ensures exists n ::
      0 <= n <= |stream| && Free(stream[..n], '@') && (n == |stream| || stream[n] == '@') &&
      StreamSymbol(stream) == Upper(stream[..n])
    ensures Free(StreamSymbol(stream), '@')
    ensures Free(stream, '@') ==> StreamSymbol(stream) == Upper(stream)
  {
    var head := Split(stream, '@')[0];
    SplitHead(stream, '@');
    LowerKeepsFree(head, '@');
    var n := |head|;
    assert StreamSymbol(stream) == Upper(stream[..n]);
    if n == |stream| {
      assert stream[..n] == stream;
    }
  }

  /** `OrderBookInsert`: receive time (seconds), symbol and packed sides. */
  datatype OrderBookInsert = OrderBookInsert(time: real, symbol: string, bids: seq<bv8>, asks: seq<bv8>)

  /** `OrderBookCombinedEvent::to_insertable`, with the clock reading `time`
      passed in; it never fails. */
  method ToInsertable(stream: string, bids: seq<Level>, asks: seq<Level>, parse: string -> Option<Word>, time: real)
    returns (r: Result<OrderBookInsert>)
    ensures r.Ok?
    ensures r.value.symbol == StreamSymbol(stream) && r.value.time == time
    ensures r.value.bids == Packed(bids, parse) && r.value.asks == Packed(asks, parse)
  {
    var symbolUpper := StreamSymbol(stream);
    var packedBids := PackLevel(bids, parse);
    var packedAsks := PackLevel(asks, parse);
    r := Ok(OrderBookInsert(time, symbolUpper, packedBids, packedAsks));
  }
}
