/** The candle hook: resets, seeds and folds around `FoldTick`. */
module LiveCandles {
  import opened Candles
  import opened PriceMap

  predicate IsHit(p: Price, coin: string) { p.coin == coin && p.currency.USD? }

  /** `prices.find(p => p.coin === coin && p.currency === "USD")` */
  function FirstHit(prices: seq<Price>, coin: string): (hit: seq<Price>)
    ensures |hit| <= 1
  {
    if prices == [] then []
    else if IsHit(prices[0], coin) then [prices[0]]
    else FirstHit(prices[1..], coin)
  }

  /** Every USD price of the coin. */
  function Hits(prices: seq<Price>, coin: string): seq<Price> {
    if prices == [] then [] else (if IsHit(prices[0], coin) then [prices[0]] else []) + Hits(prices[1..], coin)
  }

  /** The hook folds all of a batch's hits if and only if there is at most one. */
  lemma {:induction false} FoldsEveryHitIff(prices: seq<Price>, coin: string)
    ensures FirstHit(prices, coin) == Hits(prices, coin) <==> |Hits(prices, coin)| <= 1
    ensures FirstHit(prices, coin) == if Hits(prices, coin) == [] then [] else [Hits(prices, coin)[0]]
  {
    if prices != [] { FoldsEveryHitIff(prices[1..], coin); }
  }

  /** Two coins with one ticker in one batch: the second price is not folded. */
  lemma SecondHitIsLost(coin: string, v: string, w: string, at: int)
    ensures var a, b := Price(coin, USD, v, at), Price(coin, USD, w, at);
      Hits([a, b], coin) == [a, b] && FirstHit([a, b], coin) == [a]
  {
    var a, b := Price(coin, USD, v, at), Price(coin, USD, w, at);
    assert [a, b][1..] == [b] && [b][1..] == [];
    assert Hits([b], coin) == [b] + [];
  }

  /** A batch with one price per key loses none. */
  lemma {:induction false} DistinctLosesNone(prices: seq<Price>, coin: string)
    requires Distinct(prices)
    ensures |Hits(prices, coin)| <= 1 && FirstHit(prices, coin) == Hits(prices, coin)
  {
    FoldsEveryHitIff(prices, coin);
    if prices != [] {
      DistinctLosesNone(prices[1..], coin);
      if IsHit(prices[0], coin) && Hits(prices[1..], coin) != [] {
        var i := HitIsThere(prices[1..], coin);
        assert SameKey(prices[0], prices[i + 1]);
      }
    }
  }

  lemma {:induction false} HitIsThere(prices: seq<Price>, coin: string) returns (i: nat)
    requires Hits(prices, coin) != []
    ensures i < |prices| && IsHit(prices[i], coin)
  {
    if IsHit(prices[0], coin) {
      i := 0;
    } else {
      i := HitIsThere(prices[1..], coin);
      i := i + 1;
    }
  }

  /** A price as the fold takes it: its text through `Number(...)`. */
  function TradeOf(p: Price, number: string -> Number): Trade { Trade(number(p.value), p.observedAt) }

  datatype Seed = NoSeed | Seed(value: Number)

  class Hook {
    /** `Number(...)` */
    const number: string -> Number
    var coin: string
    var bucketMs: int
    var maxCandles: int
    var seeded: bool
    var candles: seq<Candle>
    /** The trades folded since the series last started empty. */
    ghost var tape: seq<Trade>

    /** What the hook promises in every state: one bucket width, a continuous series, and nothing
        but the newest candles of the uncapped fold, whatever caps were in force. */
    ghost predicate Valid()
      reads this
    {
      && WellFormed(candles)
      && Aligned(candles, bucketMs)
      && ShowsTape(candles, tape, bucketMs)
    }

    constructor (coin: string, bucketMs: int, maxCandles: int, number: string -> Number)
      ensures Valid() && candles == [] && tape == [] && !seeded && this.number == number
      ensures this.coin == coin && this.bucketMs == bucketMs && this.maxCandles == maxCandles
    {
      this.coin, this.bucketMs, this.maxCandles, this.number := coin, bucketMs, maxCandles, number;
      seeded, candles, tape := false, [], [];
      new;
      hide ShowsTape;
      NothingShown(bucketMs);
    }

    /** One commit of the component: the reset effect, then the seed effect. */
    method Render(coin: string, bucketMs: int, maxCandles: int, seed: Seed, now: int)
      requires Valid()
      modifies this
      ensures Valid()
      ensures this.coin == coin && this.bucketMs == bucketMs && this.maxCandles == maxCandles
      ensures var same := coin == old(this.coin) && bucketMs == old(this.bucketMs);
              var fires := !(same && old(seeded)) && coin != "" && seed.Seed? && seed.value.Finite?;
              && seeded == (fires || (same && old(seeded)))
              && candles == (if fires then FoldTick([], seed.value, now, bucketMs, maxCandles)
                             else if same then old(candles) else [])
              && tape == (if fires then if candles == [] then [] else [Trade(seed.value, now)]
                          else if same then old(tape) else [])
    {
      hide FoldTick;
      hide WellFormed;
      hide Aligned;
      hide ShowsTape;
      if coin != this.coin || bucketMs != this.bucketMs {
        Clear(coin, bucketMs);
        seeded := false;
      }
      this.maxCandles := maxCandles;
      if !(seeded || coin == "" || seed.NoSeed? || seed.value.NotFinite?) {
        seeded := true;
        Clear(coin, bucketMs);
        Tick(seed.value, now);
      }
    }

    /** An empty series of the given width. */
    method Clear(coin: string, bucketMs: int)
      modifies this
      ensures Valid() && candles == [] && tape == [] && this.coin == coin && this.bucketMs == bucketMs
      ensures maxCandles == old(maxCandles) && seeded == old(seeded)
    {
      this.coin, this.bucketMs, candles, tape := coin, bucketMs, [], [];
      hide ShowsTape;
      NothingShown(bucketMs);
    }

    /** The stream callback; without a coin the hook does not subscribe. */
    method OnPrices(prices: seq<Price>)
      requires Valid()
      modifies this
      ensures Valid()
      ensures coin == old(coin) && bucketMs == old(bucketMs) && maxCandles == old(maxCandles) && seeded == old(seeded)
      ensures var hit := FirstHit(prices, coin);
              if coin == "" || hit == [] then candles == old(candles) && tape == old(tape)
              else
                var x := TradeOf(hit[0], number);
                && candles == FoldTick(old(candles), x.value, x.at, bucketMs, maxCandles)
                && tape == if candles == [] then [] else old(tape) + [x]
    {
      if coin == "" { return; }
      var i := 0;
      while i < |prices| && !IsHit(prices[i], coin)
        invariant 0 <= i <= |prices| && FirstHit(prices[i..], coin) == FirstHit(prices, coin)
      {
        assert prices[i..][1..] == prices[i + 1..];
        i := i + 1;
      }
      if i < |prices| {
        Tick(number(prices[i].value), prices[i].observedAt);
      }
    }

    /** One fold. The tape restarts when nothing is shown, which a cap of zero or less may bring about. */
    method Tick(value: Number, at: int)
      requires Valid()
      modifies this
      ensures Valid()
      ensures candles == FoldTick(old(candles), value, at, bucketMs, maxCandles)
      ensures tape == if candles == [] then [] else old(tape) + [Trade(value, at)]
      ensures coin == old(coin) && bucketMs == old(bucketMs) && maxCandles == old(maxCandles) && seeded == old(seeded)
    {
      hide FoldTick;
      hide WellFormed;
      hide Aligned;
      hide ShowsTape;
      FoldTickKeepsShape(candles, value, at, bucketMs, maxCandles);
      TapeTicks(candles, tape, Trade(value, at), bucketMs, maxCandles);
      candles := FoldTick(candles, value, at, bucketMs, maxCandles);
      tape := if candles == [] then [] else tape + [Trade(value, at)];
    }
  }

  /** The trades the hook folds from one batch, and from several. */
  function Folded(batch: seq<Price>, coin: string, number: string -> Number): seq<Trade> {
    var hit := FirstHit(batch, coin);
    if hit == [] then [] else [TradeOf(hit[0], number)]
  }

  function FoldedTape(batches: seq<seq<Price>>, coin: string, number: string -> Number): seq<Trade> {
    if batches == [] then []
    else FoldedTape(batches[..|batches| - 1], coin, number) + Folded(batches[|batches| - 1], coin, number)
  }

  /** Of a batch the hook folds the first USD price of its coin, if any, with its number and its time. */
  lemma {:induction false} FoldsTheFirst(batch: seq<Price>, i: nat, coin: string, number: string -> Number)
    requires i <= |batch| && (i < |batch| ==> batch[i].coin == coin && batch[i].currency == USD)
    requires forall j :: 0 <= j < i ==> batch[j].coin != coin || batch[j].currency != USD
    ensures Folded(batch, coin, number) ==
      if i < |batch| then [Trade(number(batch[i].value), batch[i].observedAt)] else []
  {
    if i > 0 { FoldsTheFirst(batch[1..], i - 1, coin, number); }
  }

  /** What the hook shows after any batches: the capped fold of what it folded of them, on top of what it had
      folded before. */
  method DeliverAll(hook: Hook, batches: seq<seq<Price>>, ghost before: seq<Trade>)
    requires hook.Valid() && hook.coin != "" && hook.bucketMs > 0
    requires hook.candles == Fold(before, hook.bucketMs, hook.maxCandles)
    modifies hook
    ensures hook.Valid() && hook.coin == old(hook.coin)
    ensures hook.bucketMs == old(hook.bucketMs) && hook.maxCandles == old(hook.maxCandles)
    ensures var tape := before + FoldedTape(batches, hook.coin, hook.number);
      hook.candles == LastN(Series(Prints(tape, hook.bucketMs)), hook.maxCandles)
  {
    hide FoldTick;
    hide WellFormed;
    hide Aligned;
    hide ShowsTape;
    hide Series;
    hide Prints;
    hide LastN;
    assert before + [] == before;
    for i := 0 to |batches|
      invariant hook.Valid() && hook.coin == old(hook.coin)
      invariant hook.bucketMs == old(hook.bucketMs) && hook.maxCandles == old(hook.maxCandles)
      invariant var tape := before + FoldedTape(batches[..i], hook.coin, hook.number);
        hook.candles == Fold(tape, hook.bucketMs, hook.maxCandles)
    {
      assert batches[..i + 1][..i] == batches[..i];
      FoldMore(before, FoldedTape(batches[..i], hook.coin, hook.number), Folded(batches[i], hook.coin, hook.number),
               hook.bucketMs, hook.maxCandles);
      hook.OnPrices(batches[i]);
    }
    assert batches[..|batches|] == batches;
    CappingCommutes(before + FoldedTape(batches, hook.coin, hook.number), hook.bucketMs, hook.maxCandles);
  }

  lemma FoldMore(before: seq<Trade>, folded: seq<Trade>, more: seq<Trade>, width: int, maxCandles: int)
    requires |more| <= 1
    ensures var candles := Fold(before + folded, width, maxCandles);
      Fold(before + (folded + more), width, maxCandles) ==
        if more == [] then candles else FoldTick(candles, more[0].value, more[0].at, width, maxCandles)
  {
    hide FoldTick;
    var tape := before + (folded + more);
    if more == [] {
      assert tape == before + folded;
    } else {
      assert tape[..|tape| - 1] == before + folded;
    }
  }

  /** `s` shows the newest candles of `whole`. */
  ghost predicate IsSuffix(s: seq<Candle>, whole: seq<Candle>) {
    |s| <= |whole| && s == whole[|whole| - |s|..]
  }

  lemma SuffixAbsorbs(s: seq<Candle>, whole: seq<Candle>, p: Print)
    requires IsSuffix(s, whole) && (s == [] ==> whole == [])
    ensures IsLate(s, p) <==> IsLate(whole, p)
    ensures IsSuffix(Absorb(s, p), Absorb(whole, p))
  {
    hide Extended;
    hide Opened;
    if s != [] {
      assert s[|s| - 1] == whole[|whole| - 1];
    }
  }

  /** The candles are the newest of the uncapped fold of the tape. */
  ghost predicate ShowsTape(candles: seq<Candle>, tape: seq<Trade>, width: int) {
    && (candles == [] ==> tape == [])
    && if width > 0 then IsSuffix(candles, Series(Prints(tape, width))) else candles == []
  }

  lemma NothingShown(width: int)
    ensures ShowsTape([], [], width)
  {
  }

  /** What is shown follows the uncapped fold of its tape through a tick at any cap. */
  lemma TapeTicks(s: seq<Candle>, tape: seq<Trade>, x: Trade, width: int, maxCandles: int)
    requires ShowsTape(s, tape, width)
    ensures var next := FoldTick(s, x.value, x.at, width, maxCandles);
            ShowsTape(next, if next == [] then [] else tape + [x], width)
  {
    NothingShown(width);
    if width > 0 {
      SuffixTicks(s, tape, x, width, maxCandles);
    }
    hide IsSuffix;
    hide Bucket;
    hide Absorb;
    hide LastN;
  }

  lemma {:induction false} SuffixTicks(s: seq<Candle>, tape: seq<Trade>, x: Trade, width: int, maxCandles: int)
    requires width > 0 && IsSuffix(s, Series(Prints(tape, width))) && (s == [] ==> tape == [])
    ensures IsSuffix(FoldTick(s, x.value, x.at, width, maxCandles), Series(Prints(tape + [x], width)))
  {
    hide Bucket;
    hide Absorb;
    hide Series;
    hide LastN;
    hide IsSuffix;
    assert (tape + [x])[..|tape|] == tape;
    var prints := Prints(tape, width);
    if x.value.Finite? {
      var p := Print(Bucket(x.at, width), x.value.v);
      SeriesGrows(prints, p);
      SuffixAbsorbs(s, Series(prints), p);
      SuffixShrinks(Absorb(s, p), Absorb(Series(prints), p), maxCandles);
    } else {
      assert Prints(tape + [x], width) == prints;
    }
  }

  lemma SuffixShrinks(s: seq<Candle>, whole: seq<Candle>, n: int)
    requires IsSuffix(s, whole)
    ensures IsSuffix(LastN(s, n), whole)
  {
  }
}
