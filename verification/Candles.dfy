/** The candle fold: trades into OHLC buckets, one at a time; its cap, its late prints and its shape. */
module Candles {
  import opened RealSeq

  /** A price as `Number(...)` gives it: a finite number, or NaN or an infinity. */
  datatype Number = Finite(v: real) | NotFinite

  datatype Candle = Candle(t: int, o: real, h: real, l: real, c: real)

  datatype Trade = Trade(value: Number, at: int)

  /** A finite trade stamped with the start of its bucket. */
  datatype Print = Print(t: int, v: real)

  // ---------------------------------------------------------------- the fold

  /** `Math.floor(at / width) * width`; Dafny's division by a positive number is the floor. */
  function Bucket(at: int, width: int): int
    requires width > 0
  {
    at / width * width
  }

  /** `next.slice(next.length - n)` when there are more than `n`. */
  function LastN(candles: seq<Candle>, n: int): seq<Candle> {
    if |candles| <= n then candles else if n <= 0 then [] else candles[|candles| - n..]
  }

  function Extended(candle: Candle, v: real): Candle {
    Candle(candle.t, candle.o, Max2(candle.h, v), Min2(candle.l, v), v)
  }

  function Opened(t: int, o: real, v: real): Candle {
    Candle(t, o, Max2(o, v), Min2(o, v), v)
  }

  predicate IsLate(candles: seq<Candle>, p: Print) {
    candles != [] && candles[|candles| - 1].t > p.t
  }

  /** One print into a series, without a cap. */
  function Absorb(candles: seq<Candle>, p: Print): (next: seq<Candle>)
    ensures next != [] && next[|next| - 1].t == if IsLate(candles, p) then candles[|candles| - 1].t else p.t
    ensures |candles| <= |next| <= |candles| + 1
    ensures IsLate(candles, p) ==> next == candles
  {
    var last := |candles| - 1;
    if candles == [] then [Opened(p.t, p.v, p.v)]
    else if candles[last].t == p.t then candles[..last] + [Extended(candles[last], p.v)]
    else if candles[last].t > p.t then candles
    else candles + [Opened(p.t, candles[last].c, p.v)]
  }

  /** The source's fold step. A late print returns before the cap is looked at. */
  function FoldTick(candles: seq<Candle>, value: Number, at: int, width: int, maxCandles: int): seq<Candle> {
    if value.NotFinite? || width <= 0 then candles
    else
      var p := Print(Bucket(at, width), value.v);
      if IsLate(candles, p) then candles else LastN(Absorb(candles, p), maxCandles)
  }

  /** Folding a whole tape from the empty series. */
  function Fold(trades: seq<Trade>, width: int, maxCandles: int): seq<Candle> {
    if trades == [] then []
    else
      var x := trades[|trades| - 1];
      FoldTick(Fold(trades[..|trades| - 1], width, maxCandles), x.value, x.at, width, maxCandles)
  }

  function Prints(trades: seq<Trade>, width: int): (prints: seq<Print>)
    requires width > 0
    ensures |prints| <= |trades|
  {
    if trades == [] then []
    else
      var x := trades[|trades| - 1];
      Prints(trades[..|trades| - 1], width) +
      if x.value.Finite? then [Print(Bucket(x.at, width), x.value.v)] else []
  }

  /** The uncapped series of a list of prints. */
  function Series(prints: seq<Print>): (candles: seq<Candle>)
    ensures |candles| <= |prints|
    ensures candles == [] <==> prints == []
  {
    if prints == [] then [] else Absorb(Series(prints[..|prints| - 1]), prints[|prints| - 1])
  }

  lemma SeriesGrows(prints: seq<Print>, p: Print)
    ensures Series(prints + [p]) == Absorb(Series(prints), p)
  {
    assert (prints + [p])[..|prints|] == prints;
  }

  // ---------------------------------------------------------------- the cap

  lemma CapAbsorbs(whole: seq<Candle>, p: Print, n: int)
    requires n > 0 && !IsLate(whole, p)
    ensures LastN(Absorb(LastN(whole, n), p), n) == LastN(Absorb(whole, p), n)
  {
    hide Extended;
    hide Opened;
    var s, m := LastN(whole, n), |whole| - 1;
    if m >= n {
      var k := |whole| - n;
      assert s[n - 1] == whole[m];
      if whole[m].t == p.t {
        var c := Extended(whole[m], p.v);
        assert s[..n - 1] + [c] == (whole[..m] + [c])[k..];
      } else {
        var c := Opened(p.t, whole[m].c, p.v);
        assert (s + [c])[1..] == (whole + [c])[k + 1..];
      }
    }
  }

  lemma CapTicks(whole: seq<Candle>, p: Print, n: int)
    ensures var s := LastN(whole, n);
      (if IsLate(s, p) then s else LastN(Absorb(s, p), n)) == LastN(Absorb(whole, p), n)
  {
    if n > 0 && !IsLate(whole, p) {
      CapAbsorbs(whole, p, n);
    }
    hide Extended;
    hide Opened;
  }

  /** The cap commutes with the fold: for trades in any order and any cap, the capped fold shows
      the last candles of the uncapped one. */
  lemma {:induction false} CappingCommutes(trades: seq<Trade>, width: int, maxCandles: int)
    requires width > 0
    ensures Fold(trades, width, maxCandles) == LastN(Series(Prints(trades, width)), maxCandles)
  {
    if trades != [] {
      hide Bucket;
      var rest, x := trades[..|trades| - 1], trades[|trades| - 1];
      CappingCommutes(rest, width, maxCandles);
      if x.value.Finite? {
        var whole, p := Series(Prints(rest, width)), Print(Bucket(x.at, width), x.value.v);
        SeriesGrows(Prints(rest, width), p);
        CapTicks(whole, p, maxCandles);
        hide Series;
        hide Absorb;
        hide LastN;
      } else {
        assert Prints(trades, width) == Prints(rest, width);
      }
    }
  }

  /** With a cap that cannot act the fold is the uncapped series. */
  lemma UncappedFold(trades: seq<Trade>, width: int)
    requires width > 0
    ensures Fold(trades, width, |trades|) == Series(Prints(trades, width))
  {
    CappingCommutes(trades, width, |trades|);
  }

  /** The cap keeps the newest candles, as many as it allows. */
  lemma LastNIsSuffix(candles: seq<Candle>, n: int)
    ensures var k := if n <= 0 then 0 else if n <= |candles| then n else |candles|;
      LastN(candles, n) == candles[|candles| - k..]
  {
  }

  /** What is not a print of the open bucket or a later one changes nothing, however many candles there are. */
  lemma RejectedTicks(candles: seq<Candle>, value: Number, at: int, width: int, maxCandles: int)
    ensures value.NotFinite? || width <= 0 ==> FoldTick(candles, value, at, width, maxCandles) == candles
    ensures width > 0 && candles != [] && at < candles[|candles| - 1].t && candles[|candles| - 1].t % width == 0 ==>
      FoldTick(candles, value, at, width, maxCandles) == candles
  {
    if width > 0 { BucketIsAligned(at, width); }
    hide Bucket;
    hide LastN;
    hide Absorb;
  }

  /** A print of the open bucket or a later one, under a cap that admits candles: it closes the newest candle, whose
      bucket has begun and not ended, and whose range has grown just enough; the candles before it are untouched. */
  lemma AcceptedTicks(candles: seq<Candle>, v: real, at: int, width: int, maxCandles: int)
    requires width > 0 && maxCandles > 0 && Aligned(candles, width)
    requires candles != [] ==> candles[|candles| - 1].t <= at
    ensures var next := FoldTick(candles, Finite(v), at, width, maxCandles);
      && next != []
      && var open := next[|next| - 1];
      && open.t <= at < open.t + width && open.t % width == 0 && open.c == v
      && if candles != [] && candles[|candles| - 1].t == open.t then
           var was, before := candles[|candles| - 1], candles[..|candles| - 1];
           && open.o == was.o && open.h == (if v > was.h then v else was.h) && open.l == (if v < was.l then v else was.l)
           && next == LastN(before + [open], maxCandles)
         else
           && open.o == (if candles == [] then v else candles[|candles| - 1].c)
           && open.h == (if open.o > v then open.o else v) && open.l == (if open.o < v then open.o else v)
           && next == LastN(candles + [open], maxCandles)
  {
    BucketIsAligned(at, width);
    var b := Bucket(at, width);
    if candles != [] {
      var t := candles[|candles| - 1].t;
      AlignedIsBucket(t, width);
      BucketIsMonotone(t, at, width);
    }
    hide Bucket;
    assert !IsLate(candles, Print(b, v));
    assert FoldTick(candles, Finite(v), at, width, maxCandles) == LastN(Absorb(candles, Print(b, v)), maxCandles);
  }

  lemma AlignedIsBucket(t: int, width: int)
    requires width > 0 && t % width == 0
    ensures Bucket(t, width) == t
  {
  }

  // ---------------------------------------------------------------- late prints

  ghost predicate Ordered(prints: seq<Print>) {
    forall i, j :: 0 <= i <= j < |prints| ==> prints[i].t <= prints[j].t
  }

  ghost predicate Late(seen: seq<Print>, p: Print) {
    exists j :: 0 <= j < |seen| && seen[j].t > p.t
  }

  /** The prints that are not below the running maximum bucket. */
  ghost function Kept(prints: seq<Print>): seq<Print> {
    if prints == [] then []
    else
      var seen, p := prints[..|prints| - 1], prints[|prints| - 1];
      if Late(seen, p) then Kept(seen) else Kept(seen) + [p]
  }

  /** The last candle is the newest bucket seen so far. */
  lemma {:induction false} LastIsNewest(prints: seq<Print>)
    requires prints != []
    ensures var newest := Series(prints)[|Series(prints)| - 1].t;
      && (forall j :: 0 <= j < |prints| ==> prints[j].t <= newest)
      && (exists j :: 0 <= j < |prints| && prints[j].t == newest)
  {
    hide Absorb;
    var i := |prints| - 1;
    var rest := prints[..i];
    if rest != [] {
      LastIsNewest(rest);
      var j :| 0 <= j < i && rest[j].t == Series(rest)[|Series(rest)| - 1].t;
      assert prints[j] == rest[j];
      assert forall k :: 0 <= k < i ==> prints[k] == rest[k];
    }
    assert prints[i].t <= Series(prints)[|Series(prints)| - 1].t;
  }

  lemma LateIsLate(seen: seq<Print>, p: Print)
    ensures Late(seen, p) <==> IsLate(Series(seen), p)
  {
    if seen != [] {
      LastIsNewest(seen);
    }
    hide Absorb;
  }

  /** For prints in any order, the series is that of the prints that are not late. */
  lemma {:induction false} LatePrintsAreFiltered(prints: seq<Print>)
    ensures Series(prints) == Series(Kept(prints))
  {
    if prints != [] {
      var seen, p := prints[..|prints| - 1], prints[|prints| - 1];
      hide Absorb;
      LatePrintsAreFiltered(seen);
      LateIsLate(seen, p);
      SeriesGrows(Kept(seen), p);
      hide Late;
    }
  }

  lemma {:induction false} KeptIsOrdered(prints: seq<Print>)
    ensures Ordered(Kept(prints))
    ensures forall p :: p in Kept(prints) ==> p in prints
  {
    if prints != [] {
      var seen, p := prints[..|prints| - 1], prints[|prints| - 1];
      KeptIsOrdered(seen);
      assert forall q :: q in seen ==> q in prints;
      if !Late(seen, p) {
        forall k | 0 <= k < |Kept(seen)| ensures Kept(seen)[k].t <= p.t {
          assert Kept(seen)[k] in seen;
        }
      }
    }
  }

  /** Time order is enough for no print to be late. */
  lemma {:induction false} TimeOrderIsEnough(trades: seq<Trade>, width: int)
    requires width > 0
    requires forall i, j :: 0 <= i <= j < |trades| ==> trades[i].at <= trades[j].at
    ensures Ordered(Prints(trades, width))
    ensures trades != [] ==> forall p :: p in Prints(trades, width) ==> p.t <= Bucket(trades[|trades| - 1].at, width)
  {
    if trades != [] {
      hide Bucket;
      var n := |trades| - 1;
      var rest := trades[..n];
      TimeOrderIsEnough(rest, width);
      if rest != [] {
        assert rest[n - 1] == trades[n - 1];
        BucketIsMonotone(trades[n - 1].at, trades[n].at, width);
      }
      var prints := Prints(rest, width);
      forall k | 0 <= k < |prints| ensures prints[k].t <= Bucket(trades[n].at, width) {
        assert prints[k] in prints;
      }
    }
  }

  // ---------------------------------------------------------------- bucket arithmetic

  lemma SmallMultiple(d: int, m: int)
    requires m > 0 && -m < d * m < m
    ensures d == 0
  {
    assert d >= 1 ==> d * m >= m;
    assert d <= -1 ==> d * m <= -m;
  }

  lemma QuotientIsUnique(x: int, q: int, m: int)
    requires m > 0 && q * m <= x < q * m + m
    ensures x / m == q
  {
    var d := x / m - q;
    assert x == x / m * m + x % m;
    assert d * m == x - x % m - q * m;
    SmallMultiple(d, m);
  }

  lemma BucketIsAligned(at: int, width: int)
    requires width > 0
    ensures Bucket(at, width) % width == 0 && Bucket(at, width) <= at < Bucket(at, width) + width
  {
    var q := at / width;
    assert at == q * width + at % width;
    QuotientIsUnique(q * width, q, width);
    assert q * width == q * width / width * width + q * width % width;
  }

  lemma BucketIsMonotone(a: int, b: int, width: int)
    requires width > 0 && a <= b
    ensures Bucket(a, width) <= Bucket(b, width)
  {
    var d := a / width - b / width;
    assert d * width == a - a % width - (b - b % width);
    assert d >= 1 ==> d * width >= width;
    assert d <= 0 ==> d * width <= 0;
    assert a / width * width - b / width * width == d * width;
  }

  // ---------------------------------------------------------------- the shape of a series

  /** Strictly increasing buckets, ranges that contain both ends, each open the previous close. */
  ghost predicate WellFormed(candles: seq<Candle>) {
    && (forall i :: 0 <= i < |candles| ==> Spans(candles[i]))
    && (forall i, j :: 0 <= i < j < |candles| ==> candles[i].t < candles[j].t)
    && (forall i :: 0 < i < |candles| ==> candles[i].o == candles[i - 1].c)
  }

  predicate Spans(candle: Candle) {
    candle.l <= Min2(candle.o, candle.c) && Max2(candle.o, candle.c) <= candle.h
  }

  lemma AbsorbKeepsShape(candles: seq<Candle>, p: Print)
    requires WellFormed(candles)
    ensures WellFormed(Absorb(candles, p))
  {
  }

  lemma LastNKeepsShape(candles: seq<Candle>, n: int)
    requires WellFormed(candles)
    ensures WellFormed(LastN(candles, n))
  {
  }

  ghost predicate Aligned(candles: seq<Candle>, width: int) {
    forall i :: 0 <= i < |candles| ==> width > 0 && candles[i].t % width == 0
  }

  /** Every tick, at any cap, keeps the shape and the alignment, and never shows more than the cap
      unless the print was late or not a print at all. */
  lemma FoldTickKeepsShape(candles: seq<Candle>, value: Number, at: int, width: int, maxCandles: int)
    requires WellFormed(candles) && Aligned(candles, width)
    ensures WellFormed(FoldTick(candles, value, at, width, maxCandles))
    ensures Aligned(FoldTick(candles, value, at, width, maxCandles), width)
    ensures value.Finite? && width > 0 && !IsLate(candles, Print(Bucket(at, width), value.v)) ==>
      |FoldTick(candles, value, at, width, maxCandles)| <= if maxCandles <= 0 then 0 else maxCandles
  {
    if value.Finite? && width > 0 {
      var p := Print(Bucket(at, width), value.v);
      BucketIsAligned(at, width);
      hide Bucket;
      AbsorbKeepsShape(candles, p);
      LastNKeepsShape(Absorb(candles, p), maxCandles);
      hide WellFormed;
      hide Extended;
      hide Opened;
    }
  }

  lemma {:induction false} SeriesIsWellFormed(prints: seq<Print>)
    ensures WellFormed(Series(prints))
  {
    if prints != [] {
      SeriesIsWellFormed(prints[..|prints| - 1]);
      AbsorbKeepsShape(Series(prints[..|prints| - 1]), prints[|prints| - 1]);
    }
  }
}
