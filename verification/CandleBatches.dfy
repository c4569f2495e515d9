/** The candle fold against the batch queries: OHLC rows, extremes, and the same tape at a coarser width. */
module CandleBatches {
  import opened RealSeq
  import opened Candles

  // ---------------------------------------------------------------- the fold by buckets

  /** The values printed into bucket `t`, in order of arrival. */
  function Group(prints: seq<Print>, t: int): seq<real> {
    if prints == [] then []
    else
      var p := prints[|prints| - 1];
      Group(prints[..|prints| - 1], t) + if p.t == t then [p.v] else []
  }

  /** A bucket's first, greatest, least and last value, in order of arrival. */
  function Row(values: seq<real>, t: int): Candle
    requires values != []
  {
    Candle(t, values[0], Max(values), Min(values), values[|values| - 1])
  }

  ghost predicate IsRow(row: Candle, values: seq<real>) {
    values != [] && row == Row(values, row.t)
  }

  ghost predicate HasRow(rows: seq<Candle>, t: int) {
    exists i :: 0 <= i < |rows| && rows[i].t == t
  }

  /** One row per bucket, in bucket order, each read in order of arrival. */
  ghost predicate AreRows(rows: seq<Candle>, prints: seq<Print>) {
    && Increasing(rows)
    && (forall i :: 0 <= i < |rows| ==> IsRow(rows[i], Group(prints, rows[i].t)))
    && (forall j :: 0 <= j < |prints| ==> HasRow(rows, prints[j].t))
  }

  ghost predicate Increasing(rows: seq<Candle>) {
    forall i, j :: 0 <= i < j < |rows| ==> rows[i].t < rows[j].t
  }

  /** Row `i` with its open moved to the close before it and its range widened to contain it. */
  function Continued(rows: seq<Candle>, i: nat): Candle
    requires i < |rows|
  {
    var o := if i == 0 then rows[0].o else rows[i - 1].c;
    Candle(rows[i].t, o, Max2(rows[i].h, o), Min2(rows[i].l, o), rows[i].c)
  }

  ghost predicate Continues(candles: seq<Candle>, rows: seq<Candle>) {
    |candles| == |rows| && forall i :: 0 <= i < |rows| ==> candles[i] == Continued(rows, i)
  }

  /** The rows after one more print that is not late. */
  ghost function NextRows(rows: seq<Candle>, p: Print): seq<Candle> {
    var last := |rows| - 1;
    if rows != [] && rows[last].t == p.t
    then rows[..last] + [Extended(rows[last], p.v)]
    else rows + [Candle(p.t, p.v, p.v, p.v, p.v)]
  }

  lemma RowGrows(values: seq<real>, v: real, t: int)
    ensures Row(values + [v], t) == if values == [] then Candle(t, v, v, v, v) else Extended(Row(values, t), v)
  {
    assert (values + [v])[..|values|] == values;
  }

  lemma GroupGrows(prints: seq<Print>, p: Print, t: int)
    ensures Group(prints + [p], t) == if p.t == t then Group(prints, t) + [p.v] else Group(prints, t)
  {
    assert (prints + [p])[..|prints|] == prints;
  }

  lemma {:induction false} GroupHasPrint(prints: seq<Print>, t: int)
    requires Group(prints, t) != []
    ensures exists j :: 0 <= j < |prints| && prints[j].t == t
  {
    var n := |prints| - 1;
    if prints[n].t != t {
      GroupHasPrint(prints[..n], t);
      var j :| 0 <= j < n && prints[..n][j].t == t;
      assert prints[j].t == t;
    }
  }

  /** A print that is not late belongs to the newest row, or opens a new group. */
  lemma NewestGroup(rows: seq<Candle>, prints: seq<Print>, p: Print)
    requires AreRows(rows, prints) && !IsLate(rows, p)
    ensures Group(prints, p.t) != [] <==> rows != [] && rows[|rows| - 1].t == p.t
  {
    hide Row;
    hide Group;
    if Group(prints, p.t) != [] {
      GroupHasPrint(prints, p.t);
      var j :| 0 <= j < |prints| && prints[j].t == p.t;
      assert HasRow(rows, prints[j].t);
      hide AreRows;
      var i :| 0 <= i < |rows| && rows[i].t == p.t;
      assert i == |rows| - 1;
    } else if rows != [] {
      assert IsRow(rows[|rows| - 1], Group(prints, rows[|rows| - 1].t));
    }
  }

  lemma RowsGrow(rows: seq<Candle>, prints: seq<Print>, p: Print)
    requires AreRows(rows, prints) && !IsLate(rows, p)
    ensures forall i :: 0 <= i < |NextRows(rows, p)| ==>
      IsRow(NextRows(rows, p)[i], Group(prints + [p], NextRows(rows, p)[i].t))
  {
    hide Row;
    hide Group;
    NewestGroup(rows, prints, p);
    RowGrows(Group(prints, p.t), p.v, p.t);
    var next := NextRows(rows, p);
    forall i | 0 <= i < |next| ensures IsRow(next[i], Group(prints + [p], next[i].t)) {
      GroupGrows(prints, p, next[i].t);
      if i < |rows| {
        assert IsRow(rows[i], Group(prints, rows[i].t));
        assert i < |rows| - 1 ==> rows[i].t < rows[|rows| - 1].t;
      }
    }
  }

  lemma NextRowsIncrease(rows: seq<Candle>, p: Print)
    requires Increasing(rows) && !IsLate(rows, p)
    ensures Increasing(NextRows(rows, p))
  {
  }

  lemma NextRowsAdd(rows: seq<Candle>, p: Print, t: int)
    requires t == p.t || HasRow(rows, t)
    ensures HasRow(NextRows(rows, p), t)
  {
    var next := NextRows(rows, p);
    if t == p.t {
      assert next[|next| - 1].t == t;
    } else {
      var i :| 0 <= i < |rows| && rows[i].t == t;
      assert next[i].t == t;
    }
  }

  lemma BatchGrows(rows: seq<Candle>, prints: seq<Print>, p: Print)
    requires AreRows(rows, prints) && !IsLate(rows, p)
    ensures AreRows(NextRows(rows, p), prints + [p])
  {
    NextRowsIncrease(rows, p);
    RowsGrow(rows, prints, p);
    hide NextRows;
    hide IsRow;
    hide HasRow;
    hide Group;
    forall j | 0 <= j < |prints + [p]| ensures HasRow(NextRows(rows, p), (prints + [p])[j].t) {
      NextRowsAdd(rows, p, (prints + [p])[j].t);
    }
  }

  lemma ContinuationGrows(candles: seq<Candle>, rows: seq<Candle>, p: Print)
    requires Continues(candles, rows) && !IsLate(rows, p)
    ensures Continues(Absorb(candles, p), NextRows(rows, p))
  {
    var next, rows' := Absorb(candles, p), NextRows(rows, p);
    if rows != [] { assert candles[|rows| - 1] == Continued(rows, |rows| - 1); }
    forall i | 0 <= i < |rows'| ensures next[i] == Continued(rows', i) {
      if i < |rows| {
        assert candles[i] == Continued(rows, i);
      }
    }
  }

  lemma SameLateness(candles: seq<Candle>, rows: seq<Candle>, p: Print)
    requires Continues(candles, rows)
    ensures IsLate(candles, p) <==> IsLate(rows, p)
  {
    if rows != [] { assert candles[|rows| - 1] == Continued(rows, |rows| - 1); }
  }

  lemma OrderedPrefix(prints: seq<Print>)
    requires Ordered(prints) && prints != []
    ensures Ordered(prints[..|prints| - 1])
    ensures !IsLate(Series(prints[..|prints| - 1]), prints[|prints| - 1])
  {
    hide Series;
    LateIsLate(prints[..|prints| - 1], prints[|prints| - 1]);
  }

  /** For ordered prints the series shows exactly one candle per bucket, read in order of arrival, with opens
      moved to the previous close and ranges widened to contain them. */
  lemma {:induction false} SeriesIsBatch(prints: seq<Print>) returns (rows: seq<Candle>)
    requires Ordered(prints)
    ensures AreRows(rows, prints) && Continues(Series(prints), rows)
  {
    hide AreRows;
    hide Continues;
    hide Series;
    hide Ordered;
    hide Absorb;
    hide NextRows;
    if prints == [] {
      rows := [];
      EmptyBatch();
    } else {
      var rest, p := prints[..|prints| - 1], prints[|prints| - 1];
      OrderedPrefix(prints);
      var rows0 := SeriesIsBatch(rest);
      assert rest + [p] == prints;
      SeriesGrows(rest, p);
      SameLateness(Series(rest), rows0, p);
      BatchGrows(rows0, rest, p);
      ContinuationGrows(Series(rest), rows0, p);
      rows := NextRows(rows0, p);
    }
  }

  lemma EmptyBatch()
    ensures AreRows([], []) && Continues(Series([]), [])
  {
  }

  // ---------------------------------------------------------------- extremes

  /** `SELECT MAX(value), MIN(value)`; no rows give no extremes. */
  datatype Extremes = NoRows | Extremes(highest: real, lowest: real)

  function ExtremesOf(prints: seq<Print>): Extremes {
    if prints == [] then NoRows
    else
      var p := prints[|prints| - 1];
      match ExtremesOf(prints[..|prints| - 1])
      case NoRows => Extremes(p.v, p.v)
      case Extremes(hi, lo) => Extremes(Max2(hi, p.v), Min2(lo, p.v))
  }

  ghost predicate IsRange(candles: seq<Candle>, e: Extremes) {
    match e
    case NoRows => candles == []
    case Extremes(hi, lo) =>
      && (forall i :: 0 <= i < |candles| ==> lo <= candles[i].l && candles[i].h <= hi)
      && (exists i :: 0 <= i < |candles| && candles[i].h == hi)
      && (exists i :: 0 <= i < |candles| && candles[i].l == lo)
  }

  lemma AbsorbKeepsBounds(candles: seq<Candle>, p: Print, hi: real, lo: real)
    requires candles != [] && WellFormed(candles) && !IsLate(candles, p)
    requires forall i :: 0 <= i < |candles| ==> lo <= candles[i].l && candles[i].h <= hi
    ensures var next := Absorb(candles, p);
      forall i :: 0 <= i < |next| ==> Min2(lo, p.v) <= next[i].l && next[i].h <= Max2(hi, p.v)
  {
    var last := |candles| - 1;
    assert Spans(candles[last]);
    hide WellFormed;
  }

  /** A candle that keeps its high, or the newest, has the new highest. */
  lemma AbsorbKeepsHighest(candles: seq<Candle>, p: Print, hi: real, i: nat)
    requires candles != [] && WellFormed(candles) && !IsLate(candles, p)
    requires forall j :: 0 <= j < |candles| ==> candles[j].h <= hi
    requires i < |candles| && candles[i].h == hi
    ensures var next := Absorb(candles, p); exists j :: 0 <= j < |next| && next[j].h == Max2(hi, p.v)
  {
    var next, last := Absorb(candles, p), |candles| - 1;
    assert Spans(candles[last]);
    hide WellFormed;
    assert next[if hi >= p.v then i else |next| - 1].h == Max2(hi, p.v);
  }

  lemma AbsorbKeepsLowest(candles: seq<Candle>, p: Print, lo: real, i: nat)
    requires candles != [] && WellFormed(candles) && !IsLate(candles, p)
    requires forall j :: 0 <= j < |candles| ==> lo <= candles[j].l
    requires i < |candles| && candles[i].l == lo
    ensures var next := Absorb(candles, p); exists j :: 0 <= j < |next| && next[j].l == Min2(lo, p.v)
  {
    var next, last := Absorb(candles, p), |candles| - 1;
    assert Spans(candles[last]);
    hide WellFormed;
    assert next[if lo <= p.v then i else |next| - 1].l == Min2(lo, p.v);
  }

  lemma AbsorbKeepsRange(candles: seq<Candle>, p: Print, hi: real, lo: real)
    requires candles != [] && WellFormed(candles) && !IsLate(candles, p)
    requires IsRange(candles, Extremes(hi, lo))
    ensures IsRange(Absorb(candles, p), Extremes(Max2(hi, p.v), Min2(lo, p.v)))
  {
    hide WellFormed;
    hide Absorb;
    hide Max2;
    hide Min2;
    var i :| 0 <= i < |candles| && candles[i].h == hi;
    var j :| 0 <= j < |candles| && candles[j].l == lo;
    AbsorbKeepsBounds(candles, p, hi, lo);
    AbsorbKeepsHighest(candles, p, hi, i);
    AbsorbKeepsLowest(candles, p, lo, j);
  }

  /** For ordered prints the highest high and the lowest low are the query's MAX and MIN. */
  lemma {:induction false} SeriesHasExtremes(prints: seq<Print>)
    requires Ordered(prints)
    ensures IsRange(Series(prints), ExtremesOf(prints))
  {
    if prints != [] {
      var rest, p := prints[..|prints| - 1], prints[|prints| - 1];
      OrderedPrefix(prints);
      hide Ordered;
      SeriesHasExtremes(rest);
      SeriesIsWellFormed(rest);
      hide WellFormed;
      if rest != [] {
        AbsorbKeepsRange(Series(rest), p, ExtremesOf(rest).highest, ExtremesOf(rest).lowest);
      } else {
        assert Series(prints)[0] == Opened(p.t, p.v, p.v);
      }
      hide IsRange;
      hide Absorb;
    }
  }

  lemma {:induction false} OrderedIsKept(prints: seq<Print>)
    requires Ordered(prints)
    ensures Kept(prints) == prints
  {
    hide Late;
    hide IsLate;
    hide Ordered;
    hide Series;
    if prints != [] {
      var seen, p := prints[..|prints| - 1], prints[|prints| - 1];
      OrderedPrefix(prints);
      LateIsLate(seen, p);
      OrderedIsKept(seen);
      assert seen + [p] == prints;
    }
  }

  // ---------------------------------------------------------------- the range of a capped chart

  /** The prints that the newest `m` candles show: those of the newest `m` buckets, and the one before them, whose
      value the oldest of these candles opens at. */
  function Visible(prints: seq<Print>, m: nat): seq<Print>
    requires m > 0
  {
    var n := |prints| - 1;
    if n <= 0 then prints
    else if prints[n].t == prints[n - 1].t then Visible(prints[..n], m) + [prints[n]]
    else if m == 1 then [prints[n - 1], prints[n]]
    else Visible(prints[..n], m - 1) + [prints[n]]
  }

  /** The newest candle of ordered prints is that of the last one. */
  lemma NewestIsLast(prints: seq<Print>)
    requires Ordered(prints) && prints != []
    ensures var candles, p := Series(prints), prints[|prints| - 1];
      candles != [] && candles[|candles| - 1].t == p.t && candles[|candles| - 1].c == p.v
  {
    hide Series;
    var rest, p := prints[..|prints| - 1], prints[|prints| - 1];
    OrderedPrefix(prints);
    assert rest + [p] == prints;
    SeriesGrows(rest, p);
    hide Ordered;
  }

  /** A print of the open bucket extends a capped chart, one of a new bucket takes the place of its oldest candle. */
  lemma CappedAbsorbs(whole: seq<Candle>, p: Print, m: nat)
    requires whole != [] && m > 0 && whole[|whole| - 1].t <= p.t
    ensures whole[|whole| - 1].t == p.t ==> LastN(Absorb(whole, p), m) == Absorb(LastN(whole, m), p)
    ensures whole[|whole| - 1].t < p.t ==>
      if m == 1 then LastN(Absorb(whole, p), m) == [Opened(p.t, whole[|whole| - 1].c, p.v)]
      else LastN(Absorb(whole, p), m) == Absorb(LastN(whole, m - 1), p)
  {
    hide Extended;
    hide Opened;
    var last := |whole| - 1;
    assert LastN(whole, m)[|LastN(whole, m)| - 1] == whole[last];
    if m > 1 { assert LastN(whole, m - 1)[|LastN(whole, m - 1)| - 1] == whole[last]; }
  }

  lemma ExtremesGrowBy(prints: seq<Print>, p: Print)
    ensures ExtremesOf(prints + [p]) == match ExtremesOf(prints)
      case NoRows => Extremes(p.v, p.v)
      case Extremes(hi, lo) => Extremes(Max2(hi, p.v), Min2(lo, p.v))
    ensures ExtremesOf(prints).NoRows? <==> prints == []
  {
    assert (prints + [p])[..|prints|] == prints;
  }

  lemma CappedGrows(candles: seq<Candle>, shown: seq<Print>, p: Print)
    requires candles != [] && WellFormed(candles) && !IsLate(candles, p) && IsRange(candles, ExtremesOf(shown))
    ensures IsRange(Absorb(candles, p), ExtremesOf(shown + [p]))
  {
    ExtremesGrowBy(shown, p);
    if ExtremesOf(shown).Extremes? {
      AbsorbKeepsRange(candles, p, ExtremesOf(shown).highest, ExtremesOf(shown).lowest);
    }
    hide WellFormed;
    hide Absorb;
    hide ExtremesOf;
  }

  /** For ordered prints the chart capped at `m` candles ranges exactly over the prints it shows. */
  lemma {:induction false} CappedRange(prints: seq<Print>, m: nat)
    requires m > 0 && Ordered(prints)
    ensures IsRange(LastN(Series(prints), m), ExtremesOf(Visible(prints, m)))
    decreases |prints|
  {
    var n := |prints| - 1;
    if n <= 0 {
      SeriesHasExtremes(prints);
      hide IsRange;
    } else {
      CappedStep(prints, m);
    }
  }

  lemma {:induction false} CappedStep(prints: seq<Print>, m: nat)
    requires m > 0 && Ordered(prints) && |prints| > 1
    ensures IsRange(LastN(Series(prints), m), ExtremesOf(Visible(prints, m)))
    decreases |prints|, 0
  {
    hide IsRange;
    hide WellFormed;
    hide Absorb;
    hide ExtremesOf;
    hide Series;
    hide LastN;
    var n := |prints| - 1;
    var rest, p, q := prints[..n], prints[n], prints[n - 1];
    OrderedPrefix(prints);
    NewestIsLast(rest);
    assert rest + [p] == prints;
    SeriesGrows(rest, p);
    assert q.t <= p.t;
    hide Ordered;
    CappedAbsorbs(Series(rest), p, m);
    if p.t == q.t || m > 1 {
      var k := if p.t == q.t then m else m - 1;
      CappedRange(rest, k);
      CappedAbsorbsRange(rest, k, p, Visible(rest, k));
    } else {
      TwoPrintsRange(q, p);
    }
  }

  lemma {:induction false} CappedAbsorbsRange(rest: seq<Print>, k: nat, p: Print, shown: seq<Print>)
    requires k > 0 && rest != [] && Series(rest) != [] && Series(rest)[|Series(rest)| - 1].t <= p.t
    requires IsRange(LastN(Series(rest), k), ExtremesOf(shown))
    ensures IsRange(Absorb(LastN(Series(rest), k), p), ExtremesOf(shown + [p]))
  {
    hide Series;
    hide LastN;
    hide IsRange;
    hide ExtremesOf;
    hide WellFormed;
    hide Absorb;
    SeriesIsWellFormed(rest);
    LastNKeepsShape(Series(rest), k);
    NewestStays(Series(rest), k);
    CappedGrows(LastN(Series(rest), k), shown, p);
  }

  lemma NewestStays(candles: seq<Candle>, m: nat)
    requires candles != [] && m > 0
    ensures LastN(candles, m) != [] && LastN(candles, m)[|LastN(candles, m)| - 1] == candles[|candles| - 1]
  {
  }

  lemma TwoPrintsRange(q: Print, p: Print)
    ensures IsRange([Opened(p.t, q.v, p.v)], ExtremesOf([q, p]))
  {
    assert [q, p][..1] == [q] && [q][..0] == [];
    assert ExtremesOf([q]) == Extremes(q.v, q.v);
    assert [Opened(p.t, q.v, p.v)][0] == Opened(p.t, q.v, p.v);
  }

  // ---------------------------------------------------------------- fold against the OHLC query

  /** The finite trades. */
  predicate AreFinite(trades: seq<Trade>) { forall i :: 0 <= i < |trades| ==> trades[i].value.Finite? }

  /** The finite trades that are not late: their bucket is not below the running maximum. */
  ghost function KeptTrades(trades: seq<Trade>, width: int): (kept: seq<Trade>)
    requires width > 0
    ensures AreFinite(kept)
  {
    if trades == [] then []
    else
      var seen, x := trades[..|trades| - 1], trades[|trades| - 1];
      KeptTrades(seen, width) +
      if x.value.Finite? && !Late(Prints(seen, width), Print(Bucket(x.at, width), x.value.v)) then [x] else []
  }

  lemma {:induction false} KeptPrints(trades: seq<Trade>, width: int)
    requires width > 0
    ensures Prints(KeptTrades(trades, width), width) == Kept(Prints(trades, width))
  {
    hide Late;
    hide Bucket;
    if trades != [] {
      var seen, x := trades[..|trades| - 1], trades[|trades| - 1];
      KeptPrints(seen, width);
      var prints, kept := Prints(seen, width), KeptTrades(seen, width);
      if x.value.Finite? {
        var p := Print(Bucket(x.at, width), x.value.v);
        assert Prints(trades, width) == prints + [p] && (prints + [p])[..|prints|] == prints;
        assert (kept + [x])[..|kept|] == kept;
        if Late(prints, p) { assert KeptTrades(trades, width) == kept; }
      } else {
        assert Prints(trades, width) == prints;
        assert KeptTrades(trades, width) == kept;
      }
    }
  }

  /** `GROUP BY bucket`: the trades of bucket `t`. */
  function GroupOf(trades: seq<Trade>, width: int, t: int): (group: seq<Trade>)
    requires width > 0 && AreFinite(trades)
    ensures AreFinite(group)
  {
    if trades == [] then []
    else
      var x := trades[|trades| - 1];
      GroupOf(trades[..|trades| - 1], width, t) + if Bucket(x.at, width) == t then [x] else []
  }

  function Values(group: seq<Trade>): (values: seq<real>)
    requires AreFinite(group)
    ensures |values| == |group|
  {
    seq(|group|, i requires 0 <= i < |group| => group[i].value.v)
  }

  lemma {:induction false} GroupsAgree(trades: seq<Trade>, width: int, t: int)
    requires width > 0 && AreFinite(trades)
    ensures Group(Prints(trades, width), t) == Values(GroupOf(trades, width, t))
  {
    hide Bucket;
    if trades != [] {
      var seen, x := trades[..|trades| - 1], trades[|trades| - 1];
      GroupsAgree(seen, width, t);
      GroupGrows(Prints(seen, width), Print(Bucket(x.at, width), x.value.v), t);
    }
  }

  /** `(array_agg(value ORDER BY observed_at ASC))[1]` may be `v`; the database breaks ties as it likes. */
  ghost predicate MayOpen(group: seq<Trade>, v: real)
    requires AreFinite(group)
  {
    exists i :: 0 <= i < |group| && group[i].value.v == v && forall j :: 0 <= j < |group| ==> group[i].at <= group[j].at
  }

  /** `(array_agg(value ORDER BY observed_at DESC))[1]` may be `v`. */
  ghost predicate MayClose(group: seq<Trade>, v: real)
    requires AreFinite(group)
  {
    exists i :: 0 <= i < |group| && group[i].value.v == v && forall j :: 0 <= j < |group| ==> group[j].at <= group[i].at
  }

  /** The value of the group's last arrival may be its close. */
  ghost predicate MayCloseLast(group: seq<Trade>)
    requires AreFinite(group)
  {
    group != [] && MayClose(group, group[|group| - 1].value.v)
  }

  /** The value of the group's first arrival may be its open. */
  ghost predicate MayOpenFirst(group: seq<Trade>)
    requires AreFinite(group)
  {
    group != [] && MayOpen(group, group[0].value.v)
  }

  /** One row of the query. */
  ghost predicate IsAnswerRow(row: Candle, group: seq<Trade>)
    requires AreFinite(group)
  {
    && group != []
    && MayOpen(group, row.o) && row.h == Max(Values(group)) && row.l == Min(Values(group)) && MayClose(group, row.c)
  }

  /** An answer of the OHLC query: `GROUP BY bucket ORDER BY bucket ASC`. */
  ghost predicate IsAnswer(rows: seq<Candle>, trades: seq<Trade>, width: int)
    requires width > 0 && AreFinite(trades)
  {
    && Increasing(rows)
    && (forall i :: 0 <= i < |rows| ==> IsAnswerRow(rows[i], GroupOf(trades, width, rows[i].t)))
    && (forall j :: 0 <= j < |trades| ==> HasRow(rows, Bucket(trades[j].at, width)))
  }

  /** The candles are the rows of some answer over `trades`, made continuous. */
  ghost predicate MatchesQuery(candles: seq<Candle>, trades: seq<Trade>, width: int)
    requires width > 0 && AreFinite(trades)
  {
    exists rows :: IsAnswer(rows, trades, width) && Continues(candles, rows)
  }

  /** The trades in the bucket of trade `j`. */
  function GroupAt(trades: seq<Trade>, width: int, j: nat): (group: seq<Trade>)
    requires width > 0 && AreFinite(trades) && j < |trades|
    ensures AreFinite(group)
  {
    GroupOf(trades, width, Bucket(trades[j].at, width))
  }

  /** The value of each bucket's last arrival may be its close, and that of the very first arrival its open. */
  ghost predicate ArrivesInOrder(trades: seq<Trade>, width: int)
    requires width > 0 && AreFinite(trades)
  {
    && (forall j :: 0 <= j < |trades| ==> MayCloseLast(GroupAt(trades, width, j)))
    && (trades != [] ==> MayOpenFirst(GroupAt(trades, width, 0)))
  }

  /** The same of the candles' buckets. */
  ghost predicate CandlesArriveInOrder(candles: seq<Candle>, trades: seq<Trade>, width: int)
    requires width > 0 && AreFinite(trades)
  {
    && (forall i :: 0 <= i < |candles| ==> MayCloseLast(GroupOf(trades, width, candles[i].t)))
    && (candles != [] ==> MayOpenFirst(GroupOf(trades, width, candles[0].t)))
  }

  /** The index of an earliest trade. */
  function Earliest(group: seq<Trade>): (i: nat)
    requires group != []
    ensures i < |group| && forall j :: 0 <= j < |group| ==> group[i].at <= group[j].at
  {
    var last := |group| - 1;
    if last == 0 then 0
    else
      var i := Earliest(group[..last]);
      assert forall j :: 0 <= j < last ==> group[..last][j] == group[j];
      if group[last].at < group[i].at then last else i
  }

  /** Row `i` in order of arrival, with an open that the query may give; the first open stays. */
  ghost function AnswerRow(rows: seq<Candle>, trades: seq<Trade>, width: int, i: nat): Candle
    requires width > 0 && AreFinite(trades) && i < |rows| && GroupOf(trades, width, rows[i].t) != []
  {
    var group := GroupOf(trades, width, rows[i].t);
    if i == 0 then rows[0] else rows[i].(o := group[Earliest(group)].value.v)
  }

  lemma ArrivalRow(rows: seq<Candle>, trades: seq<Trade>, width: int, i: nat)
    requires width > 0 && AreFinite(trades) && AreRows(rows, Prints(trades, width)) && i < |rows|
    ensures var group := GroupOf(trades, width, rows[i].t);
      group != [] && rows[i] == Row(Values(group), rows[i].t)
  {
    assert IsRow(rows[i], Group(Prints(trades, width), rows[i].t));
    GroupsAgree(trades, width, rows[i].t);
    hide Row;
    hide Group;
  }

  lemma {:induction false} PrintOfTrade(trades: seq<Trade>, width: int)
    requires width > 0 && AreFinite(trades)
    ensures |Prints(trades, width)| == |trades|
    ensures forall j :: 0 <= j < |trades| ==>
      Prints(trades, width)[j] == Print(Bucket(trades[j].at, width), trades[j].value.v)
  {
    hide Bucket;
    if trades != [] { PrintOfTrade(trades[..|trades| - 1], width); }
  }

  lemma GroupAnswers(group: seq<Trade>, t: int)
    requires AreFinite(group) && MayCloseLast(group)
    ensures var row := Row(Values(group), t);
      && (MayOpenFirst(group) ==> IsAnswerRow(row, group))
      && IsAnswerRow(row.(o := group[Earliest(group)].value.v), group)
  {
    hide MayClose;
    hide MayOpen;
    hide Max;
    hide Min;
    hide Earliest;
    EarliestMayOpen(group);
  }

  lemma EarliestMayOpen(group: seq<Trade>)
    requires AreFinite(group) && group != []
    ensures MayOpen(group, group[Earliest(group)].value.v)
  {
    var i := Earliest(group);
    hide Earliest;
  }

  lemma AnswerRowIsRow(candles: seq<Candle>, rows: seq<Candle>, trades: seq<Trade>, width: int, i: nat)
    requires width > 0 && AreFinite(trades) && AreRows(rows, Prints(trades, width)) && Continues(candles, rows)
    requires CandlesArriveInOrder(candles, trades, width) && i < |rows|
    ensures GroupOf(trades, width, rows[i].t) != []
    ensures IsAnswerRow(AnswerRow(rows, trades, width, i), GroupOf(trades, width, rows[i].t))
  {
    hide MayCloseLast;
    hide MayOpenFirst;
    hide GroupOf;
    hide Earliest;
    hide IsAnswerRow;
    hide AreRows;
    hide Row;
    ArrivalRow(rows, trades, width, i);
    assert candles[i] == Continued(rows, i);
    GroupAnswers(GroupOf(trades, width, candles[i].t), rows[i].t);
  }

  lemma SameBuckets(answer: seq<Candle>, rows: seq<Candle>, trades: seq<Trade>, width: int)
    requires width > 0 && AreFinite(trades) && AreRows(rows, Prints(trades, width))
    requires |answer| == |rows| && forall i :: 0 <= i < |rows| ==> answer[i].t == rows[i].t
    ensures Increasing(answer)
    ensures forall j :: 0 <= j < |trades| ==> HasRow(answer, Bucket(trades[j].at, width))
  {
    hide Bucket;
    hide IsRow;
    hide Prints;
    PrintOfTrade(trades, width);
    forall j | 0 <= j < |trades| ensures HasRow(answer, Bucket(trades[j].at, width)) {
      assert HasRow(rows, Prints(trades, width)[j].t);
      var i :| 0 <= i < |rows| && rows[i].t == Prints(trades, width)[j].t;
      assert answer[i].t == rows[i].t;
    }
  }

  lemma OrderedArrivalsMatch(candles: seq<Candle>, rows: seq<Candle>, trades: seq<Trade>, width: int)
    requires width > 0 && AreFinite(trades) && AreRows(rows, Prints(trades, width)) && Continues(candles, rows)
    requires CandlesArriveInOrder(candles, trades, width)
    ensures MatchesQuery(candles, trades, width)
  {
    hide AreRows;
    hide IsAnswerRow;
    hide GroupOf;
    hide Earliest;
    hide Bucket;
    hide HasRow;
    hide CandlesArriveInOrder;
    forall i | 0 <= i < |rows|
      ensures GroupOf(trades, width, rows[i].t) != []
      ensures IsAnswerRow(AnswerRow(rows, trades, width, i), GroupOf(trades, width, rows[i].t))
    {
      AnswerRowIsRow(candles, rows, trades, width, i);
    }
    var answer := seq(|rows|, i requires 0 <= i < |rows| => AnswerRow(rows, trades, width, i));
    SameBuckets(answer, rows, trades, width);
    hide Increasing;
    forall i | 0 <= i < |answer| ensures candles[i] == Continued(answer, i) {
      assert candles[i] == Continued(rows, i);
    }
    assert IsAnswer(answer, trades, width) && Continues(candles, answer);
  }

  lemma AnswerEnds(arrival: Candle, answer: Candle, group: seq<Trade>)
    requires AreFinite(group) && group != [] && arrival == Row(Values(group), arrival.t) && IsAnswerRow(answer, group)
    ensures answer.c == arrival.c ==> MayCloseLast(group)
    ensures answer.o == arrival.o ==> MayOpenFirst(group)
  {
    hide MayClose;
    hide MayOpen;
    hide Max;
    hide Min;
  }

  lemma MatchAt(candles: seq<Candle>, rows: seq<Candle>, answer: seq<Candle>, trades: seq<Trade>, width: int, i: nat)
    requires width > 0 && AreFinite(trades) && AreRows(rows, Prints(trades, width)) && Continues(candles, rows)
    requires IsAnswer(answer, trades, width) && Continues(candles, answer) && i < |candles|
    ensures MayCloseLast(GroupOf(trades, width, candles[i].t))
    ensures i == 0 ==> MayOpenFirst(GroupOf(trades, width, candles[i].t))
  {
    ArrivalRow(rows, trades, width, i);
    hide AreRows;
    hide GroupOf;
    hide Row;
    hide MayCloseLast;
    hide MayOpenFirst;
    hide IsAnswerRow;
    assert candles[i] == Continued(rows, i) && candles[i] == Continued(answer, i);
    assert IsAnswerRow(answer[i], GroupOf(trades, width, answer[i].t));
    AnswerEnds(rows[i], answer[i], GroupOf(trades, width, candles[i].t));
  }

  lemma MatchArrivesInOrder(candles: seq<Candle>, rows: seq<Candle>, trades: seq<Trade>, width: int)
    requires width > 0 && AreFinite(trades) && AreRows(rows, Prints(trades, width)) && Continues(candles, rows)
    requires MatchesQuery(candles, trades, width)
    ensures CandlesArriveInOrder(candles, trades, width)
  {
    hide AreRows;
    hide IsAnswer;
    hide Continues;
    hide GroupOf;
    hide MayCloseLast;
    hide MayOpenFirst;
    var answer: seq<Candle> :| IsAnswer(answer, trades, width) && Continues(candles, answer);
    forall i | 0 <= i < |candles|
      ensures MayCloseLast(GroupOf(trades, width, candles[i].t))
      ensures i == 0 ==> MayOpenFirst(GroupOf(trades, width, candles[i].t))
    {
      MatchAt(candles, rows, answer, trades, width, i);
    }
  }

  /** The last arrival has the greatest time. */
  ghost predicate EndsLatest(group: seq<Trade>) {
    group != [] && forall j :: 0 <= j < |group| ==> group[j].at <= group[|group| - 1].at
  }

  ghost predicate StartsEarliest(group: seq<Trade>) {
    group != [] && forall j :: 0 <= j < |group| ==> group[0].at <= group[j].at
  }

  ghost predicate DistinctPrices(group: seq<Trade>) {
    forall i, j :: 0 <= i < j < |group| ==> group[i].value != group[j].value
  }

  /** With distinct prices only the latest trade can close and only the earliest can open. */
  lemma EndsOfGroup(group: seq<Trade>)
    requires AreFinite(group)
    ensures EndsLatest(group) ==> MayCloseLast(group)
    ensures StartsEarliest(group) ==> MayOpenFirst(group)
    ensures DistinctPrices(group) && MayCloseLast(group) ==> EndsLatest(group)
    ensures DistinctPrices(group) && MayOpenFirst(group) ==> StartsEarliest(group)
  {
    if MayCloseLast(group) {
      var last := |group| - 1;
      var i :| 0 <= i < |group| && group[i].value.v == group[last].value.v &&
        forall j :: 0 <= j < |group| ==> group[j].at <= group[i].at;
    }
    if MayOpenFirst(group) {
      var i :| 0 <= i < |group| && group[i].value.v == group[0].value.v &&
        forall j :: 0 <= j < |group| ==> group[i].at <= group[j].at;
    }
  }

  /** In each bucket the last trade to arrive is a latest one, and the very first is an earliest of its own. */
  ghost predicate TimesInOrder(trades: seq<Trade>, width: int)
    requires width > 0 && AreFinite(trades)
  {
    && (forall j :: 0 <= j < |trades| ==> EndsLatest(GroupAt(trades, width, j)))
    && (trades != [] ==> StartsEarliest(GroupAt(trades, width, 0)))
  }

  ghost predicate PricesDiffer(trades: seq<Trade>, width: int)
    requires width > 0 && AreFinite(trades)
  {
    forall j :: 0 <= j < |trades| ==> DistinctPrices(GroupAt(trades, width, j))
  }

  lemma TimesDecide(trades: seq<Trade>, width: int)
    requires width > 0 && AreFinite(trades)
    ensures TimesInOrder(trades, width) ==> ArrivesInOrder(trades, width)
    ensures PricesDiffer(trades, width) && ArrivesInOrder(trades, width) ==> TimesInOrder(trades, width)
  {
    hide GroupAt;
    hide MayCloseLast;
    hide MayOpenFirst;
    hide DistinctPrices;
    hide EndsLatest;
    hide StartsEarliest;
    forall j | 0 <= j < |trades|
      ensures var group := GroupAt(trades, width, j);
        && (EndsLatest(group) ==> MayCloseLast(group))
        && (StartsEarliest(group) ==> MayOpenFirst(group))
        && (DistinctPrices(group) && MayCloseLast(group) ==> EndsLatest(group))
        && (DistinctPrices(group) && MayOpenFirst(group) ==> StartsEarliest(group))
    {
      EndsOfGroup(GroupAt(trades, width, j));
    }
  }

  /** The candles' buckets are those of the trades, from the first one on. */
  lemma CandleHasTrade(candles: seq<Candle>, rows: seq<Candle>, trades: seq<Trade>, width: int, i: nat) returns (j: nat)
    requires width > 0 && AreFinite(trades) && AreRows(rows, Prints(trades, width)) && Continues(candles, rows)
    requires i < |candles|
    ensures j < |trades| && Bucket(trades[j].at, width) == candles[i].t
  {
    hide Bucket;
    hide Row;
    var prints := Prints(trades, width);
    assert IsRow(rows[i], Group(prints, rows[i].t)) && candles[i] == Continued(rows, i);
    GroupHasPrint(prints, rows[i].t);
    PrintOfTrade(trades, width);
    hide Prints;
    hide Group;
    j :| 0 <= j < |prints| && prints[j].t == rows[i].t;
  }

  lemma TradeHasCandle(candles: seq<Candle>, rows: seq<Candle>, trades: seq<Trade>, width: int, j: nat) returns (i: nat)
    requires width > 0 && AreFinite(trades) && AreRows(rows, Prints(trades, width)) && Continues(candles, rows)
    requires j < |trades|
    ensures i < |candles| && candles[i].t == Bucket(trades[j].at, width)
  {
    hide Bucket;
    hide IsRow;
    var prints := Prints(trades, width);
    PrintOfTrade(trades, width);
    hide Prints;
    assert HasRow(rows, prints[j].t);
    i :| 0 <= i < |rows| && rows[i].t == prints[j].t;
    assert candles[i] == Continued(rows, i);
  }

  lemma FirstBucket(candles: seq<Candle>, rows: seq<Candle>, trades: seq<Trade>, width: int)
    requires width > 0 && AreFinite(trades) && AreRows(rows, Prints(trades, width)) && Continues(candles, rows)
    requires Ordered(Prints(trades, width))
    ensures candles == [] <==> trades == []
    ensures trades != [] ==> candles[0].t == Bucket(trades[0].at, width)
  {
    hide Bucket;
    hide IsRow;
    PrintOfTrade(trades, width);
    if rows != [] { RowsHavePrints(rows, Prints(trades, width)); }
    if trades != [] {
      var i := TradeHasCandle(candles, rows, trades, width, 0);
      var j := CandleHasTrade(candles, rows, trades, width, 0);
      hide Prints;
      assert Prints(trades, width)[0].t <= Prints(trades, width)[j].t;
      assert candles[0] == Continued(rows, 0) && candles[i] == Continued(rows, i);
      assert rows[0].t <= rows[i].t;
    }
  }

  lemma RowsHavePrints(rows: seq<Candle>, prints: seq<Print>)
    requires AreRows(rows, prints) && rows != []
    ensures prints != []
  {
    assert IsRow(rows[0], Group(prints, rows[0].t));
    GroupHasPrint(prints, rows[0].t);
    hide AreRows;
    hide Group;
    hide Row;
  }

  lemma ArrivalsOfCandles(candles: seq<Candle>, rows: seq<Candle>, trades: seq<Trade>, width: int)
    requires width > 0 && AreFinite(trades) && AreRows(rows, Prints(trades, width)) && Continues(candles, rows)
    requires Ordered(Prints(trades, width))
    ensures CandlesArriveInOrder(candles, trades, width) <==> ArrivesInOrder(trades, width)
  {
    hide AreRows;
    hide Continues;
    hide Ordered;
    hide Bucket;
    hide Prints;
    hide GroupOf;
    hide MayCloseLast;
    hide MayOpenFirst;
    FirstBucket(candles, rows, trades, width);
    if ArrivesInOrder(trades, width) {
      forall i | 0 <= i < |candles| ensures MayCloseLast(GroupOf(trades, width, candles[i].t)) {
        var j := CandleHasTrade(candles, rows, trades, width, i);
        assert MayCloseLast(GroupAt(trades, width, j));
      }
    }
    if CandlesArriveInOrder(candles, trades, width) {
      forall j | 0 <= j < |trades| ensures MayCloseLast(GroupAt(trades, width, j)) {
        var i := TradeHasCandle(candles, rows, trades, width, j);
        assert MayCloseLast(GroupOf(trades, width, candles[i].t));
      }
    }
  }

  /** For trades in any order: the candles are an answer of the OHLC query over the kept trades, made continuous,
      if and only if each bucket's last arrival may close it and the very first may open its own; for buckets
      without equal prices that is to say that those arrivals are latest and earliest by time. Their overall range
      is that of the extremes query in any order. */
  lemma MatchesQueryIff(trades: seq<Trade>, width: int)
    requires width > 0
    ensures var kept, candles := KeptTrades(trades, width), Fold(trades, width, |trades|);
      && (MatchesQuery(candles, kept, width) <==> ArrivesInOrder(kept, width))
      && (TimesInOrder(kept, width) ==> MatchesQuery(candles, kept, width))
      && (PricesDiffer(kept, width) ==> (MatchesQuery(candles, kept, width) <==> TimesInOrder(kept, width)))
      && IsRange(candles, ExtremesOf(Prints(kept, width)))
  {
    var kept, candles, prints := KeptTrades(trades, width), Fold(trades, width, |trades|), Prints(trades, width);
    UncappedFold(trades, width);
    LatePrintsAreFiltered(prints);
    KeptIsOrdered(prints);
    KeptPrints(trades, width);
    SeriesHasExtremes(Kept(prints));
    var rows := SeriesIsBatch(Kept(prints));
    hide KeptTrades;
    hide Fold;
    hide Series;
    hide Prints;
    hide IsRange;
    hide AreRows;
    hide Continues;
    hide CandlesArriveInOrder;
    hide ArrivesInOrder;
    hide TimesInOrder;
    hide PricesDiffer;
    TimesDecide(kept, width);
    ArrivalsOfCandles(candles, rows, kept, width);
    if CandlesArriveInOrder(candles, kept, width) { OrderedArrivalsMatch(candles, rows, kept, width); }
    if MatchesQuery(candles, kept, width) { MatchArrivesInOrder(candles, rows, kept, width); }
    hide MatchesQuery;
  }

  ghost predicate TimeOrdered(trades: seq<Trade>) {
    forall i, j :: 0 <= i <= j < |trades| ==> trades[i].at <= trades[j].at
  }

  function FiniteOf(trades: seq<Trade>): (finite: seq<Trade>)
    ensures AreFinite(finite)
  {
    if trades == [] then []
    else
      var x := trades[|trades| - 1];
      FiniteOf(trades[..|trades| - 1]) + if x.value.Finite? then [x] else []
  }

  lemma {:induction false} OrderedTradesAreKept(trades: seq<Trade>, width: int)
    requires width > 0 && TimeOrdered(trades)
    ensures KeptTrades(trades, width) == FiniteOf(trades)
    ensures TimeOrdered(FiniteOf(trades))
    ensures forall k :: 0 <= k < |FiniteOf(trades)| ==> FiniteOf(trades)[k].at <= trades[|trades| - 1].at
  {
    hide Bucket;
    if trades != [] {
      var seen, x := trades[..|trades| - 1], trades[|trades| - 1];
      OrderedTradesAreKept(seen, width);
      if seen != [] { assert seen[|seen| - 1] == trades[|seen| - 1]; }
      if x.value.Finite? {
        TimeOrderIsEnough(trades, width);
        LastIsNotLate(Prints(seen, width), Print(Bucket(x.at, width), x.value.v));
      }
      hide Late;
      hide Ordered;
    }
  }

  lemma LastIsNotLate(prints: seq<Print>, p: Print)
    requires Ordered(prints + [p])
    ensures !Late(prints, p)
  {
    assert forall j :: 0 <= j < |prints| ==> (prints + [p])[j] == prints[j];
    assert (prints + [p])[|prints|] == p;
  }

  lemma {:induction false} GroupIsOrdered(trades: seq<Trade>, width: int, t: int)
    requires width > 0 && AreFinite(trades) && TimeOrdered(trades)
    ensures TimeOrdered(GroupOf(trades, width, t))
    ensures forall k :: 0 <= k < |GroupOf(trades, width, t)| ==>
      GroupOf(trades, width, t)[k].at <= trades[|trades| - 1].at
  {
    hide Bucket;
    if trades != [] {
      var seen := trades[..|trades| - 1];
      GroupIsOrdered(seen, width, t);
      if seen != [] { assert seen[|seen| - 1] == trades[|seen| - 1]; }
    }
  }

  /** For trades in time order the fold keeps every finite trade, its candles are an answer of the OHLC query made
      continuous, and their overall range is that of the extremes query. */
  lemma FoldMatchesQueries(trades: seq<Trade>, width: int)
    requires width > 0 && TimeOrdered(trades)
    ensures var finite, candles := FiniteOf(trades), Fold(trades, width, |trades|);
      && KeptTrades(trades, width) == finite
      && MatchesQuery(candles, finite, width)
      && IsRange(candles, ExtremesOf(Prints(finite, width)))
  {
    hide KeptTrades;
    hide Fold;
    hide Prints;
    hide FiniteOf;
    hide MatchesQuery;
    hide IsRange;
    hide TimesInOrder;
    OrderedTradesAreKept(trades, width);
    TimesAreInOrder(FiniteOf(trades), width);
    MatchesQueryIff(trades, width);
  }

  lemma TimesAreInOrder(trades: seq<Trade>, width: int)
    requires width > 0 && AreFinite(trades) && TimeOrdered(trades)
    ensures TimesInOrder(trades, width)
  {
    hide GroupOf;
    hide Bucket;
    forall j | 0 <= j < |trades| ensures EndsLatest(GroupAt(trades, width, j)) && StartsEarliest(GroupAt(trades, width, j)) {
      InOwnGroup(trades, width, j);
      GroupIsOrdered(trades, width, Bucket(trades[j].at, width));
    }
    hide EndsLatest;
    hide StartsEarliest;
  }

  lemma {:induction false} InOwnGroup(trades: seq<Trade>, width: int, j: nat)
    requires width > 0 && AreFinite(trades) && j < |trades|
    ensures GroupAt(trades, width, j) != []
  {
    hide Bucket;
    if j < |trades| - 1 { InOwnGroup(trades[..|trades| - 1], width, j); }
  }

  /** Two trades of one bucket that arrive out of time order: no answer of the query has the fold's candle. */
  lemma OutOfOrderInBucket()
    ensures var trades := [Trade(Finite(1.0), 3000), Trade(Finite(2.0), 1000)];
      KeptTrades(trades, 5000) == trades && !MatchesQuery(Fold(trades, 5000, 2), trades, 5000)
  {
    hide KeptTrades;
    hide MatchesQuery;
    hide ArrivesInOrder;
    hide Fold;
    hide GroupOf;
    hide Prints;
    hide ExtremesOf;
    hide IsRange;
    var a, b := Trade(Finite(1.0), 3000), Trade(Finite(2.0), 1000);
    OutOfOrderKept(a, b);
    OutOfOrderGroup(a, b);
    MatchesQueryIff([a, b], 5000);
    OneOutOfOrder([a, b], 5000);
  }

  lemma OneOutOfOrder(trades: seq<Trade>, width: int)
    requires width > 0 && AreFinite(trades) && |trades| == 2
    requires GroupAt(trades, width, 0) == trades && GroupAt(trades, width, 1) == trades
    requires trades[0].value != trades[1].value && trades[1].at < trades[0].at
    ensures PricesDiffer(trades, width) && !TimesInOrder(trades, width)
  {
    hide GroupAt;
    assert !EndsLatest(trades);
  }

  lemma OutOfOrderKept(a: Trade, b: Trade)
    requires a == Trade(Finite(1.0), 3000) && b == Trade(Finite(2.0), 1000)
    ensures KeptTrades([a, b], 5000) == [a, b]
  {
    var p := Print(0, 1.0);
    assert [a, b][..1] == [a] && [a][..0] == [];
    assert [] + [a] == [a] && [a] + [b] == [a, b] && [] + [p] == [p];
    assert Bucket(3000, 5000) == 0 && Bucket(1000, 5000) == 0;
    assert Prints([a], 5000) == [p];
    assert KeptTrades([a], 5000) == [a];
  }

  lemma OutOfOrderGroup(a: Trade, b: Trade)
    requires a == Trade(Finite(1.0), 3000) && b == Trade(Finite(2.0), 1000)
    ensures GroupAt([a, b], 5000, 0) == [a, b] && GroupAt([a, b], 5000, 1) == [a, b]
  {
    assert [a, b][..1] == [a] && [a][..0] == [];
    assert Bucket(3000, 5000) == 0 && Bucket(1000, 5000) == 0;
    assert GroupOf([a], 5000, 0) == [a];
  }

  // ---------------------------------------------------------------- resampling

  /** One candle into a coarser series: first open, max high, min low, last close. */
  function MergeOne(merged: seq<Candle>, c: Candle, width: int): seq<Candle>
    requires width > 0
  {
    var last, t := |merged| - 1, Bucket(c.t, width);
    if merged != [] && merged[last].t == t
    then merged[..last] + [Candle(t, merged[last].o, Max2(merged[last].h, c.h), Min2(merged[last].l, c.l), c.c)]
    else merged + [Candle(t, c.o, c.h, c.l, c.c)]
  }

  function Merge(candles: seq<Candle>, width: int): seq<Candle>
    requires width > 0
  {
    if candles == [] then []
    else MergeOne(Merge(candles[..|candles| - 1], width), candles[|candles| - 1], width)
  }

  function Coarsen(prints: seq<Print>, width: int): (coarse: seq<Print>)
    requires width > 0
    ensures |coarse| == |prints|
  {
    seq(|prints|, i requires 0 <= i < |prints| => Print(Bucket(prints[i].t, width), prints[i].v))
  }

  lemma MergeGrows(candles: seq<Candle>, c: Candle, width: int)
    requires width > 0
    ensures Merge(candles + [c], width) == MergeOne(Merge(candles, width), c, width)
  {
    assert (candles + [c])[..|candles|] == candles;
  }

  lemma MergeEnd(candles: seq<Candle>, width: int)
    requires width > 0 && candles != []
    ensures var merged, c := Merge(candles, width), candles[|candles| - 1];
      merged != [] && merged[|merged| - 1].t == Bucket(c.t, width) && merged[|merged| - 1].c == c.c
      && merged[|merged| - 1].h >= c.h && merged[|merged| - 1].l <= c.l
  {
    hide Bucket;
  }

  lemma ExtendMerged(merged: seq<Candle>, c: Candle, v: real, width: int)
    requires width > 0
    ensures MergeOne(merged, Extended(c, v), width) == Absorb(MergeOne(merged, c, width), Print(Bucket(c.t, width), v))
  {
    hide Bucket;
  }

  lemma OpenMerged(merged: seq<Candle>, p: Print, o: real, width: int)
    requires width > 0
    requires merged != [] ==>
      var c := merged[|merged| - 1];
      c.c == o && c.l <= o <= c.h && c.t <= Bucket(p.t, width)
    requires merged == [] ==> o == p.v
    ensures MergeOne(merged, Opened(p.t, o, p.v), width) == Absorb(merged, Print(Bucket(p.t, width), p.v))
  {
    hide Bucket;
  }

  /** One step of the simulation: absorbing a print commutes with merging. */
  lemma MergeAbsorbs(fine: seq<Candle>, p: Print, width: int)
    requires width > 0 && WellFormed(fine) && !IsLate(fine, p)
    ensures Merge(Absorb(fine, p), width) == Absorb(Merge(fine, width), Print(Bucket(p.t, width), p.v))
  {
    var last, t := |fine| - 1, Bucket(p.t, width);
    if fine == [] {
      assert [] + [Opened(p.t, p.v, p.v)] == [Opened(p.t, p.v, p.v)];
      MergeGrows([], Opened(p.t, p.v, p.v), width);
      OpenMerged([], p, p.v, width);
    } else if fine[last].t == p.t {
      assert fine[..last] + [fine[last]] == fine;
      MergeGrows(fine[..last], fine[last], width);
      MergeGrows(fine[..last], Extended(fine[last], p.v), width);
      ExtendMerged(Merge(fine[..last], width), fine[last], p.v, width);
      hide Bucket;
      hide Merge;
      hide MergeOne;
    } else {
      BucketIsMonotone(fine[last].t, p.t, width);
      MergeEnd(fine, width);
      assert Spans(fine[last]);
      MergeGrows(fine, Opened(p.t, fine[last].c, p.v), width);
      OpenMerged(Merge(fine, width), p, fine[last].c, width);
      hide Bucket;
      hide Merge;
      hide MergeOne;
    }
  }

  lemma CoarsenGrows(prints: seq<Print>, p: Print, width: int)
    requires width > 0
    ensures Coarsen(prints + [p], width) == Coarsen(prints, width) + [Print(Bucket(p.t, width), p.v)]
  {
    hide Bucket;
  }

  /** The same ordered prints at a coarser width give the merged candles. */
  lemma {:induction false} CoarseSeriesIsMerged(prints: seq<Print>, width: int)
    requires width > 0 && Ordered(prints)
    ensures Series(Coarsen(prints, width)) == Merge(Series(prints), width)
  {
    hide Bucket;
    hide Absorb;
    hide MergeOne;
    if prints != [] {
      hide Coarsen;
      hide Merge;
      hide Ordered;
      hide WellFormed;
      hide Series;
      var rest, p := prints[..|prints| - 1], prints[|prints| - 1];
      assert prints == rest + [p];
      OrderedPrefix(prints);
      CoarseSeriesIsMerged(rest, width);
      SeriesIsWellFormed(rest);
      MergeAbsorbs(Series(rest), p, width);
      CoarsenGrows(rest, p, width);
      SeriesGrows(rest, p);
      SeriesGrows(Coarsen(rest, width), Print(Bucket(p.t, width), p.v));
    }
  }

  lemma NestedRemainder(q: int, r: int, m: int, s: int, b: int, k: int)
    requires 0 <= r < b && 0 <= s < k && q == m * k + s
    ensures k * b > 0 && m * (k * b) <= q * b <= q * b + r < m * (k * b) + k * b
  {
    assert q * b == m * (k * b) + s * b;
    assert s * b <= (k - 1) * b == k * b - b;
    assert s * b >= 0;
  }

  lemma BucketsNest(at: int, b: int, k: int)
    requires b > 0 && k > 0
    ensures k * b > 0 && Bucket(Bucket(at, b), k * b) == Bucket(at, k * b)
  {
    var q, r := at / b, at % b;
    var m, s := q / k, q % k;
    assert at == q * b + r;
    NestedRemainder(q, r, m, s, b, k);
    QuotientIsUnique(q * b, m, k * b);
    QuotientIsUnique(at, m, k * b);
  }

  lemma {:induction false} PrintsNest(trades: seq<Trade>, b: int, k: int)
    requires b > 0 && k > 0
    ensures k * b > 0 && Prints(trades, k * b) == Coarsen(Prints(trades, b), k * b)
  {
    if trades != [] {
      var rest, x := trades[..|trades| - 1], trades[|trades| - 1];
      PrintsNest(rest, b, k);
      BucketsNest(x.at, b, k);
      hide Bucket;
    } else {
      BucketsNest(0, b, k);
    }
  }

  /** Resampling: for trades in time order, the fold at width k*b is the fold at width b merged into
      buckets of width k*b. */
  lemma Resampling(trades: seq<Trade>, b: int, k: int)
    requires b > 0 && k > 0
    requires forall i, j :: 0 <= i <= j < |trades| ==> trades[i].at <= trades[j].at
    ensures k * b > 0 && Fold(trades, k * b, |trades|) == Merge(Fold(trades, b, |trades|), k * b)
  {
    TimeOrderIsEnough(trades, b);
    PrintsNest(trades, b, k);
    UncappedFold(trades, b);
    UncappedFold(trades, k * b);
    hide Bucket;
    CoarseSeriesIsMerged(Prints(trades, b), k * b);
  }
}
