/** What coalescing does to the candle chart: the hook sees only the last trade of each coin in each batch. */
module CoalescedCandles {
  import opened RealSeq
  import opened PriceMap
  import opened Candles
  import opened CandleBatches
  import opened LiveCandles
  import B = BinanceFeed
  import R = BinanceRuns

  // ---------------------------------------------------------------- what the hook sees of a chunk

  /** The trades of the coin, as the fold would take them one by one. */
  function TapeOf(prices: seq<Price>, coin: string, number: string -> Number): seq<Trade> {
    if prices == [] then []
    else
      var p := prices[|prices| - 1];
      TapeOf(prices[..|prices| - 1], coin, number) + if IsHit(p, coin) then [TradeOf(p, number)] else []
  }

  /** The last trade, if any. */
  function LastOf(tape: seq<Trade>): seq<Trade> { if tape == [] then [] else [tape[|tape| - 1]] }

  lemma {:induction false} FirstHitIsEntry(view: seq<Price>, q: Price)
    requires q.currency.USD?
    ensures FirstHit(view, q.coin) == match Entry(view, q) case Nothing => [] case Found(p) => [p]
  {
    if view != [] { FirstHitIsEntry(view[1..], q); }
  }

  lemma {:induction false} LatestIsLast(prices: seq<Price>, q: Price, number: string -> Number)
    requires q.currency.USD?
    ensures LastOf(TapeOf(prices, q.coin, number)) ==
      match Latest(prices, q) case Nothing => [] case Found(p) => [TradeOf(p, number)]
  {
    if prices != [] { LatestIsLast(prices[..|prices| - 1], q, number); }
  }

  /** From a coalesced chunk of trades the hook folds exactly the last of the coin's trades. */
  lemma HookSeesTheLast(chunk: seq<Price>, coin: string, number: string -> Number)
    ensures Folded(Coalesced(chunk), coin, number) == LastOf(TapeOf(chunk, coin, number))
  {
    var q := Price(coin, USD, "", 0);
    FirstHitIsEntry(Coalesced(chunk), q);
    LastWriteWins([], chunk, q);
    LatestIsLast(chunk, q, number);
    hide PutAll;
    hide Latest;
    hide TapeOf;
  }

  // ---------------------------------------------------------------- whole tapes

  /** All the coin's trades, chunk after chunk. */
  function FullTape(chunks: seq<seq<Price>>, coin: string, number: string -> Number): seq<Trade> {
    if chunks == [] then []
    else FullTape(chunks[..|chunks| - 1], coin, number) + TapeOf(chunks[|chunks| - 1], coin, number)
  }

  /** Each batch is its chunk, coalesced. */
  ghost predicate AreCoalesced(batches: seq<seq<Price>>, chunks: seq<seq<Price>>) {
    |batches| == |chunks| && forall i :: 0 <= i < |chunks| ==> batches[i] == Coalesced(chunks[i])
  }

  lemma {:induction false} TapeConcat(a: seq<Price>, b: seq<Price>, coin: string, number: string -> Number)
    ensures TapeOf(a + b, coin, number) == TapeOf(a, coin, number) + TapeOf(b, coin, number)
  {
    if b == [] {
      assert a + b == a;
    } else {
      var n := |b| - 1;
      TapeConcat(a, b[..n], coin, number);
      assert (a + b)[..|a + b| - 1] == a + b[..n];
    }
  }

  /** The chunks of a feed hold its trades in order. */
  lemma {:induction false} FullTapeIsFlat(chunks: seq<seq<Price>>, coin: string, number: string -> Number)
    ensures FullTape(chunks, coin, number) == TapeOf(PriceMap.Flat(chunks), coin, number)
  {
    if chunks != [] {
      var n := |chunks| - 1;
      FullTapeIsFlat(chunks[..n], coin, number);
      TapeConcat(PriceMap.Flat(chunks[..n]), chunks[n], coin, number);
    }
  }

  /** `thin` keeps some of the trades of `full`, the last one among them. */
  ghost predicate Thins(thin: seq<Trade>, full: seq<Trade>) {
    && (thin == [] <==> full == [])
    && (full != [] ==> thin[|thin| - 1] == full[|full| - 1])
    && (forall i :: 0 <= i < |thin| ==> thin[i] in full)
    && (TimeOrdered(full) ==> TimeOrdered(thin))
  }

  lemma ThinsMore(thin: seq<Trade>, full: seq<Trade>, more: seq<Trade>)
    requires Thins(thin, full)
    ensures Thins(thin + LastOf(more), full + more)
  {
    var next, all := thin + LastOf(more), full + more;
    if more == [] {
      assert next == thin && all == full;
    } else {
      forall i | 0 <= i < |next| ensures next[i] in all {
        if i < |thin| {
          assert next[i] in full;
          assert forall x :: x in full ==> x in all;
        } else {
          assert all[|all| - 1] == next[i];
        }
      }
      if TimeOrdered(all) {
        assert TimeOrdered(full) by { assert forall i :: 0 <= i < |full| ==> full[i] == all[i]; }
        forall i | 0 <= i < |thin| ensures thin[i].at <= next[|thin|].at {
          var j :| 0 <= j < |full| && full[j] == thin[i];
          assert all[j].at <= all[|all| - 1].at;
        }
      }
    }
  }

  lemma {:induction false} FoldedThins(batches: seq<seq<Price>>, chunks: seq<seq<Price>>,
                                       coin: string, number: string -> Number)
    requires AreCoalesced(batches, chunks)
    ensures Thins(FoldedTape(batches, coin, number), FullTape(chunks, coin, number))
  {
    hide Folded;
    hide TapeOf;
    hide LastOf;
    hide Coalesced;
    hide Thins;
    if chunks == [] {
      NothingThins();
    } else {
      var n := |chunks| - 1;
      FoldedThins(batches[..n], chunks[..n], coin, number);
      HookSeesTheLast(chunks[n], coin, number);
      ThinsMore(FoldedTape(batches[..n], coin, number), FullTape(chunks[..n], coin, number),
                TapeOf(chunks[n], coin, number));
    }
  }

  lemma NothingThins()
    ensures Thins([], [])
  {
  }

  // ---------------------------------------------------------------- the charts

  /** What the hook shows after folding a tape with a cap. */
  function ChartOf(tape: seq<Trade>, width: int, cap: nat): seq<Candle>
    requires width > 0
  {
    LastN(Series(Prints(tape, width)), cap)
  }

  /** The part of the tape that such a chart shows. */
  function ShownOf(tape: seq<Trade>, width: int, cap: nat): seq<Print>
    requires width > 0 && cap > 0
  {
    Visible(Prints(tape, width), cap)
  }

  /** The greatest and the least value of some prints. */
  ghost predicate AreExtremes(e: Extremes, prints: seq<Print>) {
    match e
    case NoRows => prints == []
    case Extremes(hi, lo) =>
      && (forall i :: 0 <= i < |prints| ==> lo <= prints[i].v <= hi)
      && (exists i :: 0 <= i < |prints| && prints[i].v == hi)
      && (exists i :: 0 <= i < |prints| && prints[i].v == lo)
  }

  lemma ExtremesGrow(seen: seq<Print>, p: Print)
    requires AreExtremes(ExtremesOf(seen), seen)
    ensures AreExtremes(ExtremesOf(seen + [p]), seen + [p])
  {
    ExtremesGrowBy(seen, p);
    var prints, e, n := seen + [p], ExtremesOf(seen), |seen|;
    hide ExtremesOf;
    assert prints[n].v == p.v;
    if e.Extremes? {
      var i :| 0 <= i < n && seen[i].v == e.highest;
      var j :| 0 <= j < n && seen[j].v == e.lowest;
      assert prints[if e.highest >= p.v then i else n].v == Max2(e.highest, p.v);
      assert prints[if e.lowest <= p.v then j else n].v == Min2(e.lowest, p.v);
    }
  }

  lemma {:induction false} ExtremesAreExtremes(prints: seq<Print>)
    ensures AreExtremes(ExtremesOf(prints), prints)
  {
    if prints != [] {
      var n := |prints| - 1;
      ExtremesAreExtremes(prints[..n]);
      ExtremesGrow(prints[..n], prints[n]);
      assert prints[..n] + [prints[n]] == prints;
      hide AreExtremes;
      hide ExtremesOf;
    }
  }

  /** The values of prints have one greatest and one least. */
  lemma ExtremesAreUnique(e: Extremes, f: Extremes, prints: seq<Print>)
    requires AreExtremes(e, prints) && AreExtremes(f, prints)
    ensures e == f
  {
  }

  /** So has a chart. */
  lemma RangeIsUnique(candles: seq<Candle>, e: Extremes, f: Extremes)
    requires IsRange(candles, e) && IsRange(candles, f)
    ensures e == f
  {
  }

  /** The range of a capped chart is that of the prints it shows, and no other. */
  lemma ChartRange(tape: seq<Trade>, width: int, cap: nat, e: Extremes)
    requires width > 0 && cap > 0 && TimeOrdered(tape)
    ensures IsRange(ChartOf(tape, width, cap), e) <==> AreExtremes(e, ShownOf(tape, width, cap))
  {
    TimeOrderIsEnough(tape, width);
    hide TimeOrdered;
    var prints := Prints(tape, width);
    hide Prints;
    CappedRange(prints, cap);
    var candles, shown := LastN(Series(prints), cap), Visible(prints, cap);
    ExtremesAreExtremes(shown);
    hide Series;
    hide Visible;
    hide LastN;
    hide Ordered;
    hide ExtremesOf;
    hide AreExtremes;
    hide IsRange;
    if IsRange(candles, e) { RangeIsUnique(candles, e, ExtremesOf(shown)); }
    if AreExtremes(e, shown) { ExtremesAreUnique(e, ExtremesOf(shown), shown); }
  }

  /** The newest candle of a chart is that of the tape's last trade, at any cap. */
  lemma NewestCandle(tape: seq<Trade>, width: int, cap: nat)
    requires width > 0 && cap > 0 && tape != [] && AreFinite(tape) && TimeOrdered(tape)
    ensures var candles, x := ChartOf(tape, width, cap), tape[|tape| - 1];
      && candles != []
      && candles[|candles| - 1].t == Bucket(x.at, width) && candles[|candles| - 1].c == x.value.v
  {
    hide Bucket;
    hide Series;
    hide Prints;
    hide Ordered;
    hide LastN;
    TimeOrderIsEnough(tape, width);
    hide TimeOrdered;
    PrintOfTrade(tape, width);
    NewestIsLast(Prints(tape, width));
    NewestStays(Series(Prints(tape, width)), cap);
  }

  /** Strictly increasing numbers taken from others that increase are no more than these. */
  lemma {:induction false} FewerBuckets(a: seq<Candle>, b: seq<Candle>)
    requires Increasing(a) && Increasing(b) && forall i :: 0 <= i < |a| ==> HasRow(b, a[i].t)
    ensures |a| <= |b|
  {
    if a != [] {
      var n := |a| - 1;
      assert HasRow(b, a[n].t);
      var j :| 0 <= j < |b| && b[j].t == a[n].t;
      forall i | 0 <= i < n ensures HasRow(b[..j], a[..n][i].t) {
        assert HasRow(b, a[i].t);
        var k :| 0 <= k < |b| && b[k].t == a[i].t;
        assert a[i].t < a[n].t;
        assert b[..j][k].t == a[i].t;
      }
      FewerBuckets(a[..n], b[..j]);
    }
  }

  lemma ThinIsFinite(thin: seq<Trade>, full: seq<Trade>)
    requires AreFinite(full) && Thins(thin, full)
    ensures AreFinite(thin)
  {
    forall i | 0 <= i < |thin| ensures thin[i].value.Finite? { assert thin[i] in full; }
  }

  /** Prints taken from others fill no more rows. */
  lemma FewerRows(few: seq<Candle>, taken: seq<Print>, all: seq<Candle>, prints: seq<Print>)
    requires AreRows(few, taken) && AreRows(all, prints) && forall i :: 0 <= i < |taken| ==> taken[i] in prints
    ensures |few| <= |all|
  {
    hide Row;
    hide HasRow;
    hide Group;
    forall i | 0 <= i < |few| ensures HasRow(all, few[i].t) {
      assert IsRow(few[i], Group(taken, few[i].t));
      GroupHasPrint(taken, few[i].t);
      var j :| 0 <= j < |taken| && taken[j].t == few[i].t;
      assert taken[j] in prints;
    }
    FewerBuckets(few, all);
  }

  /** Nor do they fill more candles. */
  lemma FewerCandles(taken: seq<Print>, prints: seq<Print>)
    requires Ordered(taken) && Ordered(prints) && forall i :: 0 <= i < |taken| ==> taken[i] in prints
    ensures |Series(taken)| <= |Series(prints)|
  {
    hide AreRows;
    hide Series;
    var few: seq<Candle> := SeriesIsBatch(taken);
    var all: seq<Candle> := SeriesIsBatch(prints);
    FewerRows(few, taken, all, prints);
  }

  /** Some print has the value. */
  ghost predicate HasValue(prints: seq<Print>, v: real) {
    exists i :: 0 <= i < |prints| && prints[i].v == v
  }

  /** Prints taken from others range within them, and as far exactly if both ends are among them. */
  lemma FewerValues(few: seq<Print>, prints: seq<Print>, e: Extremes)
    requires few != [] && AreExtremes(e, prints) && forall i :: 0 <= i < |few| ==> few[i] in prints
    ensures e.Extremes? && forall i :: 0 <= i < |few| ==> e.lowest <= few[i].v <= e.highest
    ensures AreExtremes(e, few) <==> HasValue(few, e.highest) && HasValue(few, e.lowest)
  {
    assert few[0] in prints;
    forall i | 0 <= i < |few| ensures e.lowest <= few[i].v <= e.highest { assert few[i] in prints; }
  }

  /** How the chart of a coalesced tape relates to the chart of the whole tape: same newest bucket and close; each
      ranges over exactly the prints it shows, so that the ranges agree if and only if what is shown of the survivors
      has the extremes of what is shown of the whole. Where the cap cuts nothing off the whole, the survivors stay
      within its range and reach it if and only if both its extremes survive. */
  ghost predicate Coalesces(full: seq<Trade>, thin: seq<Trade>, width: int, cap: nat)
    requires width > 0 && cap > 0
  {
    var all, shown := ChartOf(full, width, cap), ChartOf(thin, width, cap);
    var e := ExtremesOf(ShownOf(full, width, cap));
    && AreFinite(thin) && all != [] && shown != [] && e.Extremes?
    && shown[|shown| - 1].t == all[|all| - 1].t && shown[|shown| - 1].c == all[|all| - 1].c
    && IsRange(all, e) && IsRange(shown, ExtremesOf(ShownOf(thin, width, cap)))
    && (IsRange(shown, e) <==> AreExtremes(e, ShownOf(thin, width, cap)))
    && (|Series(Prints(full, width))| <= cap ==>
          && (forall i :: 0 <= i < |shown| ==> e.lowest <= shown[i].l <= shown[i].h <= e.highest)
          && (IsRange(shown, e) <==>
                HasValue(Prints(thin, width), e.highest) && HasValue(Prints(thin, width), e.lowest)))
  }

  /** The range of an uncapped series is that of its prints, and no other. */
  lemma SeriesRange(prints: seq<Print>, e: Extremes)
    requires Ordered(prints)
    ensures IsRange(Series(prints), e) <==> AreExtremes(e, prints)
  {
    SeriesHasExtremes(prints);
    ExtremesAreExtremes(prints);
    hide Series;
    hide ExtremesOf;
    hide AreExtremes;
    hide IsRange;
    if IsRange(Series(prints), e) { RangeIsUnique(Series(prints), e, ExtremesOf(prints)); }
    if AreExtremes(e, prints) { ExtremesAreUnique(e, ExtremesOf(prints), prints); }
  }

  lemma ThinPrints(thin: seq<Trade>, full: seq<Trade>, width: int)
    requires width > 0 && AreFinite(full) && AreFinite(thin) && Thins(thin, full) && full != []
    ensures Prints(thin, width) != []
    ensures forall i :: 0 <= i < |Prints(thin, width)| ==> Prints(thin, width)[i] in Prints(full, width)
  {
    PrintOfTrade(thin, width);
    PrintOfTrade(full, width);
    hide Prints;
    hide Bucket;
    hide TimeOrdered;
    var few, prints := Prints(thin, width), Prints(full, width);
    forall i | 0 <= i < |few| ensures few[i] in prints {
      assert thin[i] in full;
      var j :| 0 <= j < |full| && full[j] == thin[i];
      assert prints[j] == few[i];
    }
  }

  /** Prints taken from others give a series no longer and within the same range, which it reaches exactly if both
      ends are among them. */
  lemma FewerPrints(few: seq<Print>, prints: seq<Print>, e: Extremes)
    requires Ordered(few) && Ordered(prints) && few != [] && forall i :: 0 <= i < |few| ==> few[i] in prints
    requires IsRange(Series(prints), e)
    ensures |Series(few)| <= |Series(prints)| && e.Extremes?
    ensures forall i :: 0 <= i < |Series(few)| ==> e.lowest <= Series(few)[i].l <= Series(few)[i].h <= e.highest
    ensures IsRange(Series(few), e) <==> HasValue(few, e.highest) && HasValue(few, e.lowest)
  {
    hide Series;
    hide ExtremesOf;
    hide AreExtremes;
    hide HasValue;
    hide WellFormed;
    hide IsRange;
    hide Ordered;
    FewerCandles(few, prints);
    SeriesRange(prints, e);
    SeriesRange(few, e);
    FewerValues(few, prints, e);
    ExtremesAreExtremes(few);
    SeriesRange(few, ExtremesOf(few));
    FewerValuesBound(few, ExtremesOf(few), e);
    SeriesIsWellFormed(few);
    RangeWithin(Series(few), ExtremesOf(few), e);
  }

  lemma FewerValuesBound(few: seq<Print>, f: Extremes, e: Extremes)
    requires AreExtremes(f, few) && few != [] && e.Extremes?
    requires forall i :: 0 <= i < |few| ==> e.lowest <= few[i].v <= e.highest
    ensures f.Extremes? && e.lowest <= f.lowest <= f.highest <= e.highest
  {
  }

  /** A range bounds every candle, and so does any wider one. */
  lemma RangeWithin(candles: seq<Candle>, e: Extremes, f: Extremes)
    requires WellFormed(candles) && IsRange(candles, e)
    requires e.Extremes? && f.Extremes? && f.lowest <= e.lowest <= e.highest <= f.highest
    ensures forall i :: 0 <= i < |candles| ==> f.lowest <= candles[i].l <= candles[i].h <= f.highest
  {
    forall i | 0 <= i < |candles| ensures f.lowest <= candles[i].l <= candles[i].h <= f.highest {
      assert Spans(candles[i]);
    }
  }

  lemma ThinIsEmpty(thin: seq<Trade>, full: seq<Trade>)
    requires Thins(thin, full)
    ensures thin == [] <==> full == []
    ensures full != [] ==> thin[|thin| - 1] == full[|full| - 1]
    ensures TimeOrdered(full) ==> TimeOrdered(thin)
  {
    hide TimeOrdered;
  }

  lemma TapesAreOrdered(full: seq<Trade>, thin: seq<Trade>, width: int)
    requires width > 0 && TimeOrdered(full) && TimeOrdered(thin)
    ensures Ordered(Prints(full, width)) && Ordered(Prints(thin, width))
  {
    TimeOrderIsEnough(full, width);
    TimeOrderIsEnough(thin, width);
  }

  lemma UncutIsSeries(tape: seq<Trade>, width: int, cap: nat)
    requires width > 0 && |Series(Prints(tape, width))| <= cap
    ensures ChartOf(tape, width, cap) == Series(Prints(tape, width))
  {
  }

  lemma ThinCoalesces(full: seq<Trade>, thin: seq<Trade>, width: int, cap: nat)
    requires width > 0 && cap > 0 && AreFinite(full) && TimeOrdered(full) && full != [] && Thins(thin, full)
    ensures Coalesces(full, thin, width, cap)
  {
    hide Series;
    hide Prints;
    hide ExtremesOf;
    hide AreExtremes;
    hide HasValue;
    hide Thins;
    hide TimeOrdered;
    hide IsRange;
    hide ChartOf;
    hide ShownOf;
    hide Bucket;
    ThinIsFinite(thin, full);
    ThinIsEmpty(thin, full);
    NewestCandle(full, width, cap);
    NewestCandle(thin, width, cap);
    var e, f := ExtremesOf(ShownOf(full, width, cap)), ExtremesOf(ShownOf(thin, width, cap));
    ExtremesAreExtremes(ShownOf(full, width, cap));
    ExtremesAreExtremes(ShownOf(thin, width, cap));
    ChartRange(full, width, cap, e);
    ChartRange(thin, width, cap, e);
    ChartRange(thin, width, cap, f);
    SomeRange(ChartOf(full, width, cap), e);
    if |Series(Prints(full, width))| <= cap {
      TapesAreOrdered(full, thin, width);
      ThinPrints(thin, full, width);
      UncutIsSeries(full, width, cap);
      FewerPrints(Prints(thin, width), Prints(full, width), e);
      UncutIsSeries(thin, width, cap);
    }
  }

  lemma SomeRange(candles: seq<Candle>, e: Extremes)
    requires candles != [] && IsRange(candles, e)
    ensures e.Extremes?
  {
  }

  /** The hook's chart of a coalesced feed against that of every trade in time order, at any cap. */
  lemma CoalescedChart(batches: seq<seq<Price>>, chunks: seq<seq<Price>>,
                       coin: string, number: string -> Number, width: int, cap: nat)
    requires width > 0 && cap > 0 && AreCoalesced(batches, chunks)
    requires var full := FullTape(chunks, coin, number); AreFinite(full) && TimeOrdered(full) && full != []
    ensures Coalesces(FullTape(chunks, coin, number), FoldedTape(batches, coin, number), width, cap)
  {
    FoldedThins(batches, chunks, coin, number);
    ThinCoalesces(FullTape(chunks, coin, number), FoldedTape(batches, coin, number), width, cap);
    hide Coalesces;
  }

  /** The same over every run of the exchange adapter that has nothing pending: the chart of the delivered batches
      against the chart of every trade received. */
  lemma ExchangeChart(hasFrames: bool, hidden: bool, now: int, paused: bool, events: seq<B.Event>, t: B.State,
                      coin: string, number: string -> Number, width: int, cap: nat)
    requires R.Leads(B.Initial(hasFrames, hidden, now, paused), events, t) && t.buffer.pending == []
    requires width > 0 && cap > 0
    requires var full := TapeOf(R.Trades(events), coin, number); AreFinite(full) && TimeOrdered(full) && full != []
    ensures Coalesces(TapeOf(R.Trades(events), coin, number), FoldedTape(t.buffer.delivered, coin, number), width, cap)
  {
    hide R.Leads;
    hide B.Initial;
    hide R.Trades;
    hide TapeOf;
    hide FoldedTape;
    hide FullTape;
    hide AreFinite;
    hide TimeOrdered;
    hide Coalesced;
    hide Coalesces;
    hide Distinct;
    var chunks := R.BatchesAreCoalesced(hasFrames, hidden, now, paused, events, t);
    FullTapeIsFlat(chunks, coin, number);
    CoalescedChart(t.buffer.delivered, chunks, coin, number, width, cap);
  }

  /** No batch of the exchange adapter has a second price for the hook to lose. */
  lemma ExchangeBatchesLoseNone(hasFrames: bool, hidden: bool, now: int, paused: bool, events: seq<B.Event>, t: B.State,
                                coin: string, i: nat)
    requires R.Leads(B.Initial(hasFrames, hidden, now, paused), events, t) && i < |t.buffer.delivered|
    ensures FirstHit(t.buffer.delivered[i], coin) == Hits(t.buffer.delivered[i], coin)
  {
    hide R.Leads;
    hide B.Initial;
    hide R.Trades;
    hide Coalesced;
    hide Distinct;
    var chunks := R.BatchesAreCoalesced(hasFrames, hidden, now, paused, events, t);
    DistinctLosesNone(t.buffer.delivered[i], coin);
  }

  // ---------------------------------------------------------------- extremes lost and gained

  /** A batch of one trade leaves it, a batch of two leaves the second. */
  lemma SmallChunks(a: Price, b: Price, coin: string, number: string -> Number)
    requires IsHit(a, coin) && IsHit(b, coin)
    ensures TapeOf([a], coin, number) == [TradeOf(a, number)]
    ensures TapeOf([a, b], coin, number) == [TradeOf(a, number), TradeOf(b, number)]
    ensures Folded(Coalesced([a]), coin, number) == [TradeOf(a, number)]
    ensures Folded(Coalesced([a, b]), coin, number) == [TradeOf(b, number)]
  {
    HookSeesTheLast([a], coin, number);
    HookSeesTheLast([a, b], coin, number);
    hide Folded;
    hide Coalesced;
    assert [a, b][..1] == [a] && [a][..0] == [];
    assert TapeOf([], coin, number) + [TradeOf(a, number)] == [TradeOf(a, number)];
  }

  /** A chart loses an extreme: a high followed by a low in one batch, at any cap. */
  lemma ExtremeIsLost(a: Price, b: Price, coin: string, number: string -> Number, width: int, cap: nat)
    requires IsHit(a, coin) && IsHit(b, coin) && width > 0 && cap > 0 && a.observedAt == b.observedAt
    requires number(a.value).Finite? && number(b.value).Finite? && number(a.value).v > number(b.value).v
    ensures var hi, lo, t := number(a.value).v, number(b.value).v, Bucket(a.observedAt, width);
      && ChartOf(FullTape([[a, b]], coin, number), width, cap) == [Candle(t, hi, hi, lo, lo)]
      && ChartOf(FoldedTape([Coalesced([a, b])], coin, number), width, cap) == [Candle(t, lo, lo, lo, lo)]
  {
    SmallChunks(a, b, coin, number);
    OneChunk([a, b], coin, number);
    TwoTrades(TradeOf(a, number), TradeOf(b, number), width);
    hide Folded;
    hide Coalesced;
    hide TapeOf;
    hide FullTape;
    hide FoldedTape;
    hide Series;
    hide Prints;
    hide Bucket;
  }

  lemma OneChunk(chunk: seq<Price>, coin: string, number: string -> Number)
    ensures FullTape([chunk], coin, number) == TapeOf(chunk, coin, number)
    ensures FoldedTape([Coalesced(chunk)], coin, number) == Folded(Coalesced(chunk), coin, number)
  {
    hide TapeOf;
    hide Folded;
    hide Coalesced;
    assert [chunk][..0] == [] && [Coalesced(chunk)][..0] == [];
    assert [] + TapeOf(chunk, coin, number) == TapeOf(chunk, coin, number);
    assert [] + Folded(Coalesced(chunk), coin, number) == Folded(Coalesced(chunk), coin, number);
  }

  lemma TwoTrades(x: Trade, y: Trade, width: int)
    requires width > 0 && x.value.Finite? && y.value.Finite?
    ensures Prints([x], width) == [Print(Bucket(x.at, width), x.value.v)]
    ensures Prints([x, y], width) == [Print(Bucket(x.at, width), x.value.v), Print(Bucket(y.at, width), y.value.v)]
    ensures Series(Prints([x], width)) == [Opened(Bucket(x.at, width), x.value.v, x.value.v)]
    ensures Series(Prints([y], width)) == [Opened(Bucket(y.at, width), y.value.v, y.value.v)]
    ensures Series(Prints([x, y], width)) ==
      Absorb([Opened(Bucket(x.at, width), x.value.v, x.value.v)], Print(Bucket(y.at, width), y.value.v))
  {
    hide Bucket;
    hide Absorb;
    var p, q := Print(Bucket(x.at, width), x.value.v), Print(Bucket(y.at, width), y.value.v);
    PrintOfTrade([x], width);
    PrintOfTrade([y], width);
    PrintOfTrade([x, y], width);
    hide Prints;
    assert Prints([x], width) == [p] && Prints([y], width) == [q] && Prints([x, y], width) == [p, q];
    SeriesOfOne(p);
    SeriesOfOne(q);
    hide Series;
    SeriesGrows([p], q);
    assert [p] + [q] == [p, q];
  }

  lemma SeriesOfOne(p: Print)
    ensures Series([p]) == [Opened(p.t, p.v, p.v)]
  {
    assert [p][..0] == [];
  }

  /** A chart of one candle whose bucket is new opens at the trade before. */
  lemma OneNewCandle(rest: seq<Trade>, z: Trade, width: int)
    requires width > 0 && rest != [] && AreFinite(rest) && z.value.Finite? && TimeOrdered(rest + [z])
    requires Bucket(rest[|rest| - 1].at, width) < Bucket(z.at, width)
    ensures ChartOf(rest + [z], width, 1) == [Opened(Bucket(z.at, width), rest[|rest| - 1].value.v, z.value.v)]
  {
    hide Bucket;
    hide Series;
    hide Absorb;
    var tape, y := rest + [z], rest[|rest| - 1];
    var prints, p := Prints(rest, width), Print(Bucket(z.at, width), z.value.v);
    assert tape[..|rest|] == rest;
    RestIsAlike(rest, z);
    TimeOrderIsEnough(rest, width);
    PrintOfTrade(rest, width);
    assert Prints(tape, width) == prints + [p];
    hide Prints;
    NewestIsLast(prints);
    SeriesGrows(prints, p);
    CappedAbsorbs(Series(prints), p, 1);
  }

  lemma RestIsAlike(rest: seq<Trade>, z: Trade)
    requires TimeOrdered(rest + [z])
    ensures TimeOrdered(rest)
  {
    assert forall i :: 0 <= i < |rest| ==> rest[i] == (rest + [z])[i];
  }

  lemma TwoChunks(a: seq<Price>, b: seq<Price>, coin: string, number: string -> Number)
    ensures FullTape([a, b], coin, number) == TapeOf(a, coin, number) + TapeOf(b, coin, number)
    ensures FoldedTape([Coalesced(a), Coalesced(b)], coin, number) ==
      Folded(Coalesced(a), coin, number) + Folded(Coalesced(b), coin, number)
  {
    OneChunk(a, coin, number);
    hide TapeOf;
    hide Folded;
    hide Coalesced;
    assert [a, b][..1] == [a] && [Coalesced(a), Coalesced(b)][..1] == [Coalesced(a)];
  }

  /** A capped chart gains an extreme: a high, then a bucket of its own that a batch swallows. The newest candle
      opens at the high that the chart of every trade has long cut off. */
  lemma ExtremeIsGained(x: Price, y: Price, z: Price, coin: string, number: string -> Number, width: int)
    requires IsHit(x, coin) && IsHit(y, coin) && IsHit(z, coin) && width > 0
    requires number(x.value).Finite? && number(y.value).Finite? && number(z.value) == number(y.value)
    requires number(x.value).v > number(y.value).v && x.observedAt <= y.observedAt <= z.observedAt
    requires Bucket(x.observedAt, width) < Bucket(y.observedAt, width) < Bucket(z.observedAt, width)
    ensures var hi, lo, t := number(x.value).v, number(y.value).v, Bucket(z.observedAt, width);
      && ChartOf(FullTape([[x], [y, z]], coin, number), width, 1) == [Candle(t, lo, lo, lo, lo)]
      && ChartOf(FoldedTape([Coalesced([x]), Coalesced([y, z])], coin, number), width, 1) == [Candle(t, hi, hi, lo, lo)]
  {
    hide Folded;
    hide Coalesced;
    hide TapeOf;
    hide FullTape;
    hide FoldedTape;
    hide ChartOf;
    hide Bucket;
    TwoChunks([x], [y, z], coin, number);
    SmallChunks(x, x, coin, number);
    SmallChunks(y, z, coin, number);
    var a, b, c := TradeOf(x, number), TradeOf(y, number), TradeOf(z, number);
    assert [a] + [b, c] == [a, b] + [c];
    OneNewCandle([a, b], c, width);
    OneNewCandle([a], c, width);
  }
}
