/** Prices merged last-write-wins in insertion order, as a JavaScript Map keeps them. */
module PriceMap {
  import opened Wrappers

  datatype Currency = USD | EUR | JPY | RUB

  datatype Price = Price(coin: string, currency: Currency, value: string, observedAt: int)

  function Code(c: Currency): (s: string)
    ensures |s| == 3
  {
    match c case USD => "USD" case EUR => "EUR" case JPY => "JPY" case RUB => "RUB"
  }

  /** `keyOf`: the coin and the currency code, joined by a colon. */
  function KeyOf(p: Price): string { p.coin + ":" + Code(p.currency) }

  lemma CodesDiffer(a: Currency, b: Currency)
    requires Code(a) == Code(b)
    ensures a == b
  {
    assert Code(a)[0] == Code(b)[0];
  }

  /** Two prices share a key exactly when they share coin and currency. */
  lemma KeyIsInjective(p: Price, q: Price)
    ensures KeyOf(p) == KeyOf(q) <==> p.coin == q.coin && p.currency == q.currency
  {
    if KeyOf(p) == KeyOf(q) {
      var k, n := KeyOf(p), |p.coin|;
      assert n == |k| - 4 == |q.coin|;
      assert p.coin == k[..n] == q.coin;
      assert Code(p.currency) == k[n + 1..] == Code(q.currency);
      CodesDiffer(p.currency, q.currency);
    }
  }

  predicate SameKey(p: Price, q: Price) { p.coin == q.coin && p.currency == q.currency }

  /** `map.set(keyOf(p), p)`: replace in place, or append. */
  function Put(view: seq<Price>, p: Price): seq<Price> {
    if view == [] then [p]
    else if SameKey(view[0], p) then [p] + view[1..]
    else [view[0]] + Put(view[1..], p)
  }

  function PutAll(view: seq<Price>, prices: seq<Price>): seq<Price>
    decreases prices
  {
    if prices == [] then view else PutAll(Put(view, prices[0]), prices[1..])
  }

  /** One batch per key: what a Map holds after all the prices were set. */
  function Coalesced(prices: seq<Price>): seq<Price> { PutAll([], prices) }

  /** Several batches, one after another. */
  function Flat(batches: seq<seq<Price>>): seq<Price> {
    if batches == [] then [] else Flat(batches[..|batches| - 1]) + batches[|batches| - 1]
  }

  lemma FlatAppend(batches: seq<seq<Price>>, batch: seq<Price>)
    ensures Flat(batches + [batch]) == Flat(batches) + batch
  {
    assert (batches + [batch])[..|batches|] == batches;
  }

  predicate HasKey(view: seq<Price>, p: Price) { exists i :: 0 <= i < |view| && SameKey(view[i], p) }

  predicate Distinct(view: seq<Price>) {
    forall i, j :: 0 <= i < j < |view| ==> !SameKey(view[i], view[j])
  }

  lemma {:induction false} PutKeepsKeys(view: seq<Price>, p: Price, q: Price)
    ensures HasKey(Put(view, p), q) <==> HasKey(view, q) || SameKey(p, q)
  {
    var next := Put(view, p);
    if view == [] {
      assert HasKey(next, q) <==> SameKey(next[0], q);
    } else if SameKey(view[0], p) {
      if HasKey(view, q) {
        var i :| 0 <= i < |view| && SameKey(view[i], q);
        assert SameKey(next[i], q);
      }
      if HasKey(next, q) {
        var i :| 0 <= i < |next| && SameKey(next[i], q);
        assert SameKey(view[i], q);
      }
      if SameKey(p, q) { assert SameKey(next[0], q); }
    } else {
      PutKeepsKeys(view[1..], p, q);
      assert next[1..] == Put(view[1..], p);
      TailKeys(view, q);
      TailKeys(next, q);
    }
  }

  lemma TailKeys(view: seq<Price>, q: Price)
    requires view != []
    ensures HasKey(view, q) <==> SameKey(view[0], q) || HasKey(view[1..], q)
  {
    if HasKey(view, q) {
      var i :| 0 <= i < |view| && SameKey(view[i], q);
      if i > 0 { assert SameKey(view[1..][i - 1], q); }
    }
    if HasKey(view[1..], q) {
      var i :| 0 <= i < |view[1..]| && SameKey(view[1..][i], q);
      assert SameKey(view[i + 1], q);
    }
  }

  lemma {:induction false} PutKeepsDistinct(view: seq<Price>, p: Price)
    requires Distinct(view)
    ensures Distinct(Put(view, p))
  {
    if view != [] && !SameKey(view[0], p) {
      var rest := view[1..];
      PutKeepsDistinct(rest, p);
      PutKeepsKeys(rest, p, view[0]);
      assert !HasKey(rest, view[0]);
      var next := Put(rest, p);
      assert forall j :: 0 <= j < |next| ==> !SameKey(next[j], view[0]);
    }
  }

  lemma {:induction false} PutTwice(view: seq<Price>, x: Price, t: Price)
    requires SameKey(x, t)
    ensures Put(Put(view, x), t) == Put(view, t)
  {
    if view != [] && !SameKey(view[0], x) {
      PutTwice(view[1..], x, t);
      assert Put(view, x)[1..] == Put(view[1..], x);
    }
  }

  /** Writes to different keys commute when one of the keys is already there. */
  lemma {:induction false} PutsCommute(view: seq<Price>, y: Price, t: Price)
    requires HasKey(view, t) && !SameKey(y, t)
    ensures Put(Put(view, y), t) == Put(Put(view, t), y)
  {
    if SameKey(view[0], y) {
      assert Put(view, y)[1..] == view[1..];
      assert Put(view, t)[1..] == Put(view[1..], t);
    } else if SameKey(view[0], t) {
      assert Put(view, t)[1..] == view[1..];
      assert Put(view, y)[1..] == Put(view[1..], y);
    } else {
      TailKeys(view, t);
      PutsCommute(view[1..], y, t);
      assert Put(view, y)[1..] == Put(view[1..], y);
      assert Put(view, t)[1..] == Put(view[1..], t);
    }
  }

  lemma {:induction false} PutMovesFirst(view: seq<Price>, rest: seq<Price>, t: Price)
    requires HasKey(view, t) && !HasKey(rest, t)
    ensures Put(PutAll(view, rest), t) == PutAll(Put(view, t), rest)
    decreases rest
  {
    if rest != [] {
      TailKeys(rest, t);
      PutKeepsKeys(view, rest[0], t);
      PutMovesFirst(Put(view, rest[0]), rest[1..], t);
      PutsCommute(view, rest[0], t);
    }
    hide Put;
    hide HasKey;
  }

  /** Merging a list with one more write is merging the list, then the write. */
  lemma {:induction false} PutAllOfPut(view: seq<Price>, list: seq<Price>, t: Price)
    requires Distinct(list)
    ensures PutAll(view, Put(list, t)) == Put(PutAll(view, list), t)
    decreases list
  {
    if list == [] {
      assert [t][1..] == [];
    } else {
      var x, rest := list[0], list[1..];
      if SameKey(x, t) {
        assert ([t] + rest)[1..] == rest;
        assert !HasKey(rest, t);
        PutKeepsKeys(view, x, t);
        PutMovesFirst(Put(view, x), rest, t);
        PutTwice(view, x, t);
      } else {
        PutAllOfPut(Put(view, x), rest, t);
        assert ([x] + Put(rest, t))[1..] == Put(rest, t);
      }
    }
  }

  lemma {:induction false} PutAllAppends(view: seq<Price>, prices: seq<Price>, t: Price)
    ensures PutAll(view, prices + [t]) == Put(PutAll(view, prices), t)
    decreases prices
  {
    hide Put;
    if prices == [] {
      assert [] + [t] == [t] && [t][1..] == [];
    } else {
      PutAllAppends(Put(view, prices[0]), prices[1..], t);
      assert (prices + [t])[1..] == prices[1..] + [t];
    }
  }

  lemma {:induction false} PutAllConcat(view: seq<Price>, a: seq<Price>, b: seq<Price>)
    ensures PutAll(view, a + b) == PutAll(PutAll(view, a), b)
    decreases a
  {
    hide Put;
    if a == [] {
      assert a + b == b;
    } else {
      PutAllConcat(Put(view, a[0]), a[1..], b);
      assert (a + b)[1..] == a[1..] + b;
    }
  }

  lemma {:induction false} CoalescedIsDistinct(prices: seq<Price>)
    ensures Distinct(Coalesced(prices))
    ensures Coalesced(prices) == [] <==> prices == []
  {
    if prices != [] {
      var n := |prices| - 1;
      assert prices == prices[..n] + [prices[n]];
      PutAllAppends([], prices[..n], prices[n]);
      CoalescedIsDistinct(prices[..n]);
      PutKeepsDistinct(Coalesced(prices[..n]), prices[n]);
      hide PutAll;
    }
    hide Distinct;
  }

  /** Coalescing before merging changes nothing, not even the order of the merged list. */
  lemma {:induction false} CoalescingIsTransparent(view: seq<Price>, prices: seq<Price>)
    ensures PutAll(view, Coalesced(prices)) == PutAll(view, prices)
  {
    if prices != [] {
      var n := |prices| - 1;
      var seen, t := prices[..n], prices[n];
      assert prices == seen + [t];
      CoalescingIsTransparent(view, seen);
      CoalescedIsDistinct(seen);
      PutAllAppends([], seen, t);
      PutAllAppends(view, seen, t);
      hide PutAll;
      hide Put;
      PutAllOfPut(view, Coalesced(seen), t);
    }
  }

  // ---------------------------------------------------------------- last write wins

  datatype Found = Nothing | Found(price: Price)

  /** The entry of a view under the key of `q`. */
  function Entry(view: seq<Price>, q: Price): Found {
    if view == [] then Nothing
    else if SameKey(view[0], q) then Found(view[0])
    else Entry(view[1..], q)
  }

  /** The last price with the key of `q`. */
  function Latest(prices: seq<Price>, q: Price): Found {
    if prices == [] then Nothing
    else
      var p := prices[|prices| - 1];
      if SameKey(p, q) then Found(p) else Latest(prices[..|prices| - 1], q)
  }

  lemma {:induction false} PutEntry(view: seq<Price>, p: Price, q: Price)
    ensures Entry(Put(view, p), q) == if SameKey(p, q) then Found(p) else Entry(view, q)
  {
    if view != [] && !SameKey(view[0], p) {
      PutEntry(view[1..], p, q);
      assert Put(view, p)[1..] == Put(view[1..], p);
    } else if view != [] {
      assert Put(view, p)[1..] == view[1..];
    }
  }

  /** A merged view holds the last write of every key, and the old entry where nothing was written. */
  lemma {:induction false} LastWriteWins(view: seq<Price>, prices: seq<Price>, q: Price)
    ensures Entry(PutAll(view, prices), q) ==
      if Latest(prices, q).Found? then Latest(prices, q) else Entry(view, q)
  {
    if prices != [] {
      var n := |prices| - 1;
      LastWriteWins(view, prices[..n], q);
      assert prices == prices[..n] + [prices[n]];
      PutAllAppends(view, prices[..n], prices[n]);
      PutEntry(PutAll(view, prices[..n]), prices[n], q);
      hide PutAll;
      hide Put;
      hide Entry;
    }
  }

  lemma {:induction false} LatestConcat(a: seq<Price>, b: seq<Price>, q: Price)
    ensures Latest(a + b, q) == if Latest(b, q).Found? then Latest(b, q) else Latest(a, q)
  {
    if b == [] {
      assert a + b == a;
    } else {
      var n := |b| - 1;
      LatestConcat(a, b[..n], q);
      assert (a + b)[..|a + b| - 1] == a + b[..n];
    }
  }

  /** A write to a key that is there takes the place of its entry; one to a new key goes to the end. */
  lemma {:induction false} PutInPlace(view: seq<Price>, p: Price, i: nat)
    requires i <= |view| && (i < |view| ==> view[i].coin == p.coin && view[i].currency == p.currency)
    requires forall j :: 0 <= j < i ==> view[j].coin != p.coin || view[j].currency != p.currency
    ensures Put(view, p) == if i < |view| then view[i := p] else view + [p]
  {
    if i > 0 { PutInPlace(view[1..], p, i - 1); }
  }

  // ---------------------------------------------------------------- the merge callback

  /** The state a component holds while it is mounted. */
  class LivePrices {
    var prices: seq<Price>
    var loading: bool
    var error: Option<string>
    var live: bool
    var cancelled: bool

    constructor ()
      ensures prices == [] && loading && error == None && !live && !cancelled
    {
      prices, loading, error, live, cancelled := [], true, None, false, false;
    }

    method Unmount()
      modifies this
      ensures cancelled && prices == old(prices) && loading == old(loading) && error == old(error) && live == old(live)
    {
      cancelled := true;
    }

    /** The snapshot arrived: it replaces the list. */
    method OnSnapshot(snapshot: seq<Price>)
      modifies this
      ensures cancelled == old(cancelled) && live == old(live)
      ensures if cancelled then prices == old(prices) && loading == old(loading) && error == old(error)
              else prices == snapshot && !loading && error == None
    {
      if !cancelled { prices, loading, error := snapshot, false, None; }
    }

    method OnSnapshotFailed(message: string)
      modifies this
      ensures cancelled == old(cancelled) && live == old(live) && prices == old(prices)
      ensures if cancelled then loading == old(loading) && error == old(error)
              else !loading && error == Some(message)
    {
      if !cancelled { loading, error := false, Some(message); }
    }

    /** Rebuild the Map from the list, set every incoming price, and list it again. */
    method OnPrices(incoming: seq<Price>)
      modifies this
      ensures cancelled == old(cancelled) && error == old(error)
      ensures if cancelled then prices == old(prices) && loading == old(loading) && live == old(live)
              else prices == PutAll(Coalesced(old(prices)), incoming) && Distinct(prices) && !loading && live
    {
      if cancelled { return; }
      hide Put;
      hide PutAll;
      CoalescedIsDistinct([]);
      assert prices[..0] == [];
      var merged := [];
      for i := 0 to |prices|
        invariant prices == old(prices) && cancelled == old(cancelled) && error == old(error)
        invariant Distinct(merged) && merged == Coalesced(prices[..i])
      {
        assert prices[..i + 1] == prices[..i] + [prices[i]];
        PutAllAppends([], prices[..i], prices[i]);
        PutKeepsDistinct(merged, prices[i]);
        merged := Put(merged, prices[i]);
      }
      assert prices[..|prices|] == prices;
      NothingToPut(merged);
      assert incoming[..0] == [];
      for i := 0 to |incoming|
        invariant cancelled == old(cancelled) && error == old(error) && Distinct(merged)
        invariant merged == PutAll(Coalesced(old(prices)), incoming[..i])
      {
        assert incoming[..i + 1] == incoming[..i] + [incoming[i]];
        PutAllAppends(Coalesced(old(prices)), incoming[..i], incoming[i]);
        PutKeepsDistinct(merged, incoming[i]);
        merged := Put(merged, incoming[i]);
      }
      assert incoming[..|incoming|] == incoming;
      prices, loading, live := merged, false, true;
    }
  }

  lemma NothingToPut(view: seq<Price>)
    ensures PutAll(view, []) == view
  {
  }

  /** Rebuilding the Map from a list without repeated keys changes nothing. */
  lemma {:induction false} DistinctIsKept(view: seq<Price>)
    requires Distinct(view)
    ensures Coalesced(view) == view
  {
    hide Put;
    if view != [] {
      var n := |view| - 1;
      DistinctIsKept(view[..n]);
      assert view == view[..n] + [view[n]];
      PutAllAppends([], view[..n], view[n]);
      AppendNew(view, n);
    }
  }

  /** Setting the next entry of a list without repeated keys appends it. */
  lemma AppendNew(view: seq<Price>, i: nat)
    requires i < |view| && Distinct(view)
    ensures Put(view[..i], view[i]) == view[..i + 1]
  {
    PutFresh(view[..i], view[i]);
  }

  lemma {:induction false} PutFresh(view: seq<Price>, p: Price)
    requires forall i :: 0 <= i < |view| ==> !SameKey(view[i], p)
    ensures Put(view, p) == view + [p]
  {
    if view != [] {
      PutFresh(view[1..], p);
    }
  }
}
