/** The fixed-window, per-IP rate limiter and its bound over whole runs. */
module RateLimit {
  import opened Wrappers

  type Ip = int

  /** An entry of the hit table: when its window opened and how many requests it has seen. */
  datatype Entry = Entry(start: int, count: nat)

  datatype Request = Request(ip: Ip, now: int)

  const U32 := 0x1_0000_0000

  /** What 32 bits keep of a count. */
  function Low32(n: nat): nat { n % 0x1_0000_0000 }

  // ---------------------------------------------------------------- one check

  /** The entry after a request at `now`: a fresh one when there is none or its window has passed,
      then one more hit, in 32 bits. `duration_since` saturates at zero. */
  function Touched(entry: Option<Entry>, now: int, window: nat): Entry {
    var e := if entry.None? then Entry(now, 0) else entry.value;
    var elapsed := if now >= e.start then now - e.start else 0;
    var e' := if elapsed > window then Entry(now, 0) else e;
    Entry(e'.start, Low32(e'.count + 1))
  }

  function Lookup(hits: map<Ip, Entry>, ip: Ip): Option<Entry> {
    if ip in hits then Some(hits[ip]) else None
  }

  class RateLimiter {
    const maxPerWindow: nat
    const window: nat
    var hits: map<Ip, Entry>
    /** The requests checked so far. */
    ghost var served: seq<Request>

    ghost predicate Valid()
      reads this
    {
      maxPerWindow > 0 ==> forall ip :: Lookup(hits, ip) == EntryAfter(served, ip, window)
    }

    /** `per_minute`, with the 60 second window as a parameter. */
    constructor (max: nat, window: nat)
      ensures Valid() && maxPerWindow == max && this.window == window && hits == map[] && served == []
    {
      maxPerWindow, this.window, hits, served := max, window, map[], [];
    }

    method Check(ip: Ip, now: int) returns (ok: bool)
      requires Valid()
      modifies this
      ensures Valid() && served == old(served) + [Request(ip, now)]
      ensures ok == Admitted(served, |served| - 1, maxPerWindow, window)
      ensures hits == if maxPerWindow == 0 then old(hits)
                      else old(hits)[ip := Touched(Lookup(old(hits), ip), now, window)]
    {
      served := served + [Request(ip, now)];
      assert served[..|served| - 1] == old(served);
      if maxPerWindow == 0 { return true; }
      var entry := if ip in hits then hits[ip] else Entry(now, 0);
      if (if now >= entry.start then now - entry.start else 0) > window {
        entry := Entry(now, 0);
      }
      entry := Entry(entry.start, Low32(entry.count + 1));
      hits := hits[ip := entry];
      return entry.count <= maxPerWindow;
    }
  }

  // ---------------------------------------------------------------- whole runs

  /** What the table holds for `ip` after a run. */
  function EntryAfter(run: seq<Request>, ip: Ip, window: nat): Option<Entry> {
    if run == [] then None
    else
      var seen, r := run[..|run| - 1], run[|run| - 1];
      var entry := EntryAfter(seen, ip, window);
      if r.ip == ip then Some(Touched(entry, r.now, window)) else entry
  }

  predicate Admitted(run: seq<Request>, i: nat, max: nat, window: nat)
    requires i < |run|
  {
    max == 0 || Touched(EntryAfter(run[..i], run[i].ip, window), run[i].now, window).count <= max
  }

  /** The requests of one address. */
  function Own(run: seq<Request>, ip: Ip): seq<Request> {
    if run == [] then []
    else
      var r := run[|run| - 1];
      Own(run[..|run| - 1], ip) + if r.ip == ip then [r] else []
  }

  /** Admitted requests of `ip` from time `lo` on. */
  function AdmittedSince(run: seq<Request>, ip: Ip, max: nat, window: nat, lo: int): nat {
    if run == [] then 0
    else
      var n := |run| - 1;
      AdmittedSince(run[..n], ip, max, window, lo) +
      if run[n].ip == ip && lo <= run[n].now && Admitted(run, n, max, window) then 1 else 0
  }

  /** Admitted requests of `ip` in the closed interval [lo, hi]. */
  function AdmittedIn(run: seq<Request>, ip: Ip, max: nat, window: nat, lo: int, hi: int): nat {
    if run == [] then 0
    else
      var n := |run| - 1;
      AdmittedIn(run[..n], ip, max, window, lo, hi) +
      if run[n].ip == ip && lo <= run[n].now <= hi && Admitted(run, n, max, window) then 1 else 0
  }

  ghost predicate Chronological(run: seq<Request>) {
    forall i, j :: 0 <= i <= j < |run| ==> run[i].now <= run[j].now
  }

  /** Decisions about an address depend on that address's own requests only. */
  lemma {:induction false} OthersDoNotMatter(run: seq<Request>, ip: Ip, window: nat)
    ensures EntryAfter(run, ip, window) == EntryAfter(Own(run, ip), ip, window)
  {
    if run != [] {
      var seen, r := run[..|run| - 1], run[|run| - 1];
      OthersDoNotMatter(seen, ip, window);
      if r.ip == ip {
        assert Own(run, ip)[..|Own(run, ip)| - 1] == Own(seen, ip);
      } else {
        assert Own(run, ip) == Own(seen, ip);
      }
      hide Touched;
    }
  }

  lemma DecisionsAreOwn(run: seq<Request>, r: Request, max: nat, window: nat)
    ensures Admitted(run + [r], |run|, max, window)
         == Admitted(Own(run, r.ip) + [r], |Own(run, r.ip)|, max, window)
  {
    hide Touched;
    OthersDoNotMatter(run, r.ip, window);
    assert (run + [r])[..|run|] == run;
    assert (Own(run, r.ip) + [r])[..|Own(run, r.ip)|] == Own(run, r.ip);
  }

  /** One request, whatever the clock did: it opens a window when its address has none or the last one has passed,
      and else counts, in 32 bits, into the one that is open, even if that began later; it is admitted when the count
      is within the maximum. A maximum of zero admits everything, and no request touches another address. */
  lemma EntryFollows(run: seq<Request>, r: Request, max: nat, window: nat)
    ensures var was, now := EntryAfter(run, r.ip, window), EntryAfter(run + [r], r.ip, window);
      && now == Some(if was.None? || r.now > was.value.start + window then Entry(r.now, 1)
                     else Entry(was.value.start, (was.value.count + 1) % 0x1_0000_0000))
      && (Admitted(run + [r], |run|, max, window) <==> max == 0 || now.value.count <= max)
    ensures forall ip :: ip != r.ip ==> EntryAfter(run + [r], ip, window) == EntryAfter(run, ip, window)
  {
    assert (run + [r])[..|run|] == run;
  }

  // ---------------------------------------------------------------- windows and their counters

  /** The requests of one address in the closed window that opens at `start`. */
  function InWindow(run: seq<Request>, ip: Ip, start: int, window: nat): nat {
    if run == [] then 0
    else
      var n := |run| - 1;
      InWindow(run[..n], ip, start, window) + if run[n].ip == ip && start <= run[n].now <= start + window then 1 else 0
  }

  /** No window that the limiter opened for the address ever held 2^32 requests. */
  predicate NoOverflow(run: seq<Request>, ip: Ip, window: nat) {
    run == [] ||
    (NoOverflow(run[..|run| - 1], ip, window) &&
     match EntryAfter(run, ip, window)
     case None => true
     case Some(e) => InWindow(run, ip, e.start, window) < U32)
  }

  /** It is enough that no stretch of one window's length holds 2^32 requests of the address. */
  lemma {:induction false} FewRequestsAreEnough(run: seq<Request>, ip: Ip, window: nat)
    requires forall start :: InWindow(run, ip, start, window) < U32
    ensures NoOverflow(run, ip, window)
  {
    hide Touched;
    if run != [] {
      var seen := run[..|run| - 1];
      forall start ensures InWindow(seen, ip, start, window) < U32 {
        assert InWindow(run, ip, start, window) < U32;
      }
      FewRequestsAreEnough(seen, ip, window);
    }
  }

  /** No request of the address came after its current window had passed. */
  lemma {:induction false} NoneAfterWindow(run: seq<Request>, ip: Ip, window: nat, lo: int)
    requires Chronological(run)
    requires match EntryAfter(run, ip, window) case None => true case Some(e) => lo > e.start + window
    ensures InWindow(run, ip, lo, window) == 0
  {
    if run != [] {
      var n := |run| - 1;
      StartsBefore(run[..n], ip, window);
      if n > 0 { assert run[..n][n - 1] == run[n - 1]; }
      NoneAfterWindow(run[..n], ip, window, lo);
    }
  }

  lemma {:induction false} StartsBefore(run: seq<Request>, ip: Ip, window: nat)
    requires Chronological(run)
    ensures match EntryAfter(run, ip, window)
      case None => true
      case Some(e) => run != [] && e.start <= run[|run| - 1].now
  {
    if run != [] {
      var n := |run| - 1;
      StartsBefore(run[..n], ip, window);
      if n > 0 { assert run[..n][n - 1] == run[n - 1]; }
    }
  }

  /** Without overflow the counter is the number of requests in the current window. */
  lemma {:induction false} CounterCounts(run: seq<Request>, ip: Ip, window: nat)
    requires Chronological(run) && NoOverflow(run, ip, window)
    ensures match EntryAfter(run, ip, window)
      case None => true
      case Some(e) => run != [] && e.start <= run[|run| - 1].now && 1 <= e.count == InWindow(run, ip, e.start, window)
  {
    if run != [] {
      var n := |run| - 1;
      CounterCounts(run[..n], ip, window);
      if n > 0 { assert run[..n][n - 1] == run[n - 1]; }
      var was := EntryAfter(run[..n], ip, window);
      if run[n].ip == ip && (was.None? || run[n].now > was.value.start + window) {
        NoneAfterWindow(run[..n], ip, window, run[n].now);
      }
    }
  }

  /** One request of the address, when the counter does not wrap. */
  lemma TouchedCounts(run: seq<Request>, ip: Ip, window: nat)
    requires run != [] && run[|run| - 1].ip == ip && Chronological(run) && NoOverflow(run, ip, window)
    ensures var seen, now := run[..|run| - 1], run[|run| - 1].now;
      var was := EntryAfter(seen, ip, window);
      EntryAfter(run, ip, window) == Some(
        if was.None? || now > was.value.start + window then Entry(now, 1)
        else Entry(was.value.start, was.value.count + 1))
    ensures var seen, was := run[..|run| - 1], EntryAfter(run[..|run| - 1], ip, window);
      was.Some? ==> was.value.start <= run[|run| - 1].now && was.value.count > 0
  {
    var n := |run| - 1;
    CounterCounts(run[..n], ip, window);
    CounterCounts(run, ip, window);
    if n > 0 { assert run[..n][n - 1] == run[n - 1]; }
  }

  function Least(a: nat, b: nat): nat { if a <= b then a else b }

  /** Nothing was admitted after the current window of the address has passed. */
  lemma {:induction false} NothingAfterWindow(run: seq<Request>, ip: Ip, max: nat, window: nat, lo: int)
    requires Chronological(run)
    requires match EntryAfter(run, ip, window) case None => true case Some(e) => lo > e.start + window
    ensures AdmittedSince(run, ip, max, window, lo) == 0
  {
    if run != [] {
      var n := |run| - 1;
      StartsBefore(run[..n], ip, window);
      if n > 0 { assert run[..n][n - 1] == run[n - 1]; }
      NothingAfterWindow(run[..n], ip, max, window, lo);
    }
  }

  /** The admissions of the current window are its hits, up to the maximum. */
  lemma {:induction false} WindowAdmissions(run: seq<Request>, ip: Ip, max: nat, window: nat)
    requires max > 0 && Chronological(run) && NoOverflow(run, ip, window) && EntryAfter(run, ip, window).Some?
    ensures var e := EntryAfter(run, ip, window).value;
      AdmittedSince(run, ip, max, window, e.start) == Least(e.count, max)
  {
    var n := |run| - 1;
    if run[n].ip == ip { TouchedCounts(run, ip, window); }
    hide Touched;
    var was, e := EntryAfter(run[..n], ip, window), EntryAfter(run, ip, window).value;
    if was.Some? && was.value.start == e.start {
      WindowAdmissions(run[..n], ip, max, window);
    } else {
      NothingAfterWindow(run[..n], ip, max, window, e.start);
    }
  }

  /** A request is refused exactly when the window it falls into has already admitted the maximum. */
  lemma RefusedIffWindowFull(run: seq<Request>, r: Request, max: nat, window: nat)
    requires max > 0 && Chronological(run + [r]) && NoOverflow(run + [r], r.ip, window)
    ensures var entry := EntryAfter(run + [r], r.ip, window);
      && entry.Some? && entry.value.start <= r.now <= entry.value.start + window
      && (Admitted(run + [r], |run|, max, window) <==>
            AdmittedSince(run, r.ip, max, window, entry.value.start) < max)
      && AdmittedSince(run, r.ip, max, window, entry.value.start) <= max
  {
    var all := run + [r];
    assert all[..|run|] == run;
    TouchedCounts(all, r.ip, window);
    if run != [] { assert all[|run| - 1] == run[|run| - 1]; }
    var was, e := EntryAfter(run, r.ip, window), EntryAfter(all, r.ip, window).value;
    if was.Some? && was.value.start == e.start {
      WindowAdmissions(run, r.ip, max, window);
    } else {
      NothingAfterWindow(run, r.ip, max, window, e.start);
    }
  }

  // ---------------------------------------------------------------- the bound

  function Scaled(max: nat, c: int): int { max * c }

  lemma ScaledGrows(max: nat, c: int)
    ensures Scaled(max, 0) == 0 && Scaled(max, c + 1) == Scaled(max, c) + max
  {
  }

  /** The admissions that may precede a window which opens `d` after the interval begins: windows open at
      least `p` apart, and one that opened before the interval spent its first admission there. */
  function Prior(d: nat, max: nat, p: nat): int
    requires p > 0
    decreases d
  {
    if d == 0 then 0 else if d < p then max - 1 else max + Prior(d - p, max, p)
  }

  lemma {:induction false} PriorGrows(d: nat, e: nat, max: nat, p: nat)
    requires p > 0 && max > 0 && d <= e
    ensures 0 <= Prior(d, max, p) <= Prior(e, max, p)
    ensures e > 0 ==> Prior(e, max, p) >= max - 1
    decreases e
  {
    if e >= p {
      PriorGrows(if d >= p then d - p else 0, e - p, max, p);
    }
  }

  /** At most this many admissions in a closed interval of the given length. */
  function Bound(length: nat, max: nat, window: nat): int {
    var p := window + 1;
    Scaled(max, length / p) + if length % p == 0 then max else max + max - 1
  }

  lemma {:induction false} BoundIsPrior(d: nat, max: nat, window: nat)
    ensures Bound(d, max, window) == Prior(d, max, window + 1) + max
    decreases d
  {
    var p := window + 1;
    if d < p {
      assert d / p == 0 && d % p == d;
      ScaledGrows(max, 0);
    } else {
      BoundIsPrior(d - p, max, window);
      OneLess(d, p);
      ScaledGrows(max, (d - p) / p);
    }
    hide Scaled;
  }

  lemma OneLess(d: nat, p: nat)
    requires 0 < p <= d
    ensures d / p == (d - p) / p + 1 && d % p == (d - p) % p
  {
    var q, r := (d - p) / p, (d - p) % p;
    assert d == (q + 1) * p + r;
    DivisionIsUnique(d, q + 1, r, p);
  }

  lemma DivisionIsUnique(d: nat, q: nat, r: nat, p: nat)
    requires p > 0 && d == q * p + r && r < p
    ensures d / p == q && d % p == r
  {
    var e: int, size: int := d / p - q, p;
    assert e * size == r - d % p;
    assert e >= 1 ==> e * size >= size;
    assert e <= -1 ==> e * size <= 0 - size;
  }

  /** At most this many admissions since `lo` when the current window opened at `start` and has seen
      `count` > 0 requests. */
  function Budget(lo: int, start: int, count: nat, max: nat, window: nat): int {
    (if lo > start then -1 else Prior(start - lo, max, window + 1)) + Least(count, max)
  }

  /** A new window pays for the one before it. */
  lemma BudgetGrows(lo: int, start: int, count: nat, next: int, max: nat, window: nat)
    requires max > 0 && next > start + window && lo <= start + window
    ensures Budget(lo, start, count, max, window) + 1 <= Budget(lo, next, 1, max, window)
  {
    var p := window + 1;
    if lo <= start {
      PriorGrows(start - lo + p, next - lo, max, p);
      assert Prior(start - lo + p, max, p) == max + Prior(start - lo, max, p);
    } else {
      PriorGrows(0, next - lo, max, p);
    }
    hide Prior;
  }

  lemma BudgetIsPositive(lo: int, start: int, max: nat, window: nat)
    requires max > 0
    ensures Budget(lo, start, 1, max, window) >= if lo > start then 0 else 1
  {
    if lo <= start { PriorGrows(start - lo, start - lo, max, window + 1); }
    hide Prior;
  }

  lemma {:induction false} RunBound(run: seq<Request>, ip: Ip, max: nat, window: nat, lo: int)
    requires max > 0 && Chronological(run) && NoOverflow(run, ip, window)
    ensures match EntryAfter(run, ip, window)
      case None => AdmittedSince(run, ip, max, window, lo) == 0
      case Some(e) => AdmittedSince(run, ip, max, window, lo) <= Budget(lo, e.start, e.count, max, window)
  {
    hide Touched;
    hide Prior;
    if run != [] {
      var n := |run| - 1;
      RunBound(run[..n], ip, max, window, lo);
      if run[n].ip == ip {
        TouchedCounts(run, ip, window);
        var was, e := EntryAfter(run[..n], ip, window), EntryAfter(run, ip, window).value;
        if was.None? || was.value.start != e.start {
          BudgetIsPositive(lo, e.start, max, window);
          if was.Some? && lo <= was.value.start + window {
            BudgetGrows(lo, was.value.start, was.value.count, e.start, max, window);
          } else {
            NothingAfterWindow(run[..n], ip, max, window, lo);
          }
        } else if e.count <= max {
        } else {
          assert !Admitted(run, n, max, window);
        }
      }
    }
  }

  lemma {:induction false} AllBefore(run: seq<Request>, ip: Ip, max: nat, window: nat, lo: int, hi: int)
    requires forall i :: 0 <= i < |run| ==> run[i].now <= hi
    ensures AdmittedIn(run, ip, max, window, lo, hi) == AdmittedSince(run, ip, max, window, lo)
  {
    hide Touched;
    if run != [] {
      AllBefore(run[..|run| - 1], ip, max, window, lo, hi);
    }
  }

  /** In any closed interval of length L an address is admitted at most max * (L / p + 1) times when p divides L,
      else at most max * (L / p + 2) - 1 times, where p is one tick more than the window. */
  lemma {:induction false} IntervalBound(run: seq<Request>, ip: Ip, max: nat, window: nat, lo: int, hi: int)
    requires max > 0 && lo <= hi && Chronological(run) && NoOverflow(run, ip, window)
    ensures var p, length := window + 1, hi - lo;
      AdmittedIn(run, ip, max, window, lo, hi) <= Bound(length, max, window)
      == if length % p == 0 then max * (length / p + 1) else max * (length / p + 2) - 1
  {
    assert Scaled(max, (hi - lo) / (window + 1)) + max == max * ((hi - lo) / (window + 1) + 1);
    BoundIsPrior(hi - lo, max, window);
    PriorGrows(0, hi - lo, max, window + 1);
    hide Bound;
    hide Prior;
    hide Touched;
    if run != [] {
      var n := |run| - 1;
      if run[n].now > hi {
        IntervalBound(run[..n], ip, max, window, lo, hi);
      } else {
        AllBefore(run, ip, max, window, lo, hi);
        RunBound(run, ip, max, window, lo);
        StartsBefore(run, ip, window);
        var entry := EntryAfter(run, ip, window);
        if entry.Some? && lo <= entry.value.start {
          PriorGrows(entry.value.start - lo, hi - lo, max, window + 1);
        }
      }
    }
  }

  /** Fewer than twice the maximum in any interval of one window. */
  lemma OneWindowBound(run: seq<Request>, ip: Ip, max: nat, window: nat, lo: int)
    requires max > 0 && Chronological(run) && NoOverflow(run, ip, window)
    ensures AdmittedIn(run, ip, max, window, lo, lo + window) < 2 * max
  {
    IntervalBound(run, ip, max, window, lo, lo + window);
    assert window / (window + 1) == 0;
    ScaledGrows(max, 0);
    hide Scaled;
  }

  // ---------------------------------------------------------------- the bound is reached

  /** `n` requests of one address at one instant. */
  function Burst(ip: Ip, t: int, n: nat): (run: seq<Request>)
    ensures |run| == n
  {
    if n == 0 then [] else Burst(ip, t, n - 1) + [Request(ip, t)]
  }

  /** The entry a request at `t` is counted in, before it is counted. */
  function Current(entry: Option<Entry>, t: int, window: nat): Entry {
    if entry.None? || t > entry.value.start + window then Entry(t, 0) else entry.value
  }

  /** A run that may be continued at `t`. */
  ghost predicate Continues(run: seq<Request>, ip: Ip, window: nat, t: int) {
    Chronological(run) && NoOverflow(run, ip, window) && forall i :: 0 <= i < |run| ==> run[i].now <= t
  }

  /** One more request below the maximum is admitted and counted. */
  lemma OneMore(run: seq<Request>, ip: Ip, t: int, max: nat, window: nat, lo: int, hi: int)
    requires Continues(run, ip, window, t) && Current(EntryAfter(run, ip, window), t, window).count < max < U32
    ensures var e, next := Current(EntryAfter(run, ip, window), t, window), run + [Request(ip, t)];
      && Continues(next, ip, window, t)
      && EntryAfter(next, ip, window) == Some(Entry(e.start, e.count + 1))
      && AdmittedIn(next, ip, max, window, lo, hi) ==
           AdmittedIn(run, ip, max, window, lo, hi) + if lo <= t <= hi then 1 else 0
  {
    var next := run + [Request(ip, t)];
    assert next[..|run|] == run;
    CounterCounts(run, ip, window);
    var was := EntryAfter(run, ip, window);
    if was.None? || t > was.value.start + window {
      NoneAfterWindow(run, ip, window, t);
    }
  }

  /** So is a burst. */
  lemma {:induction false} BurstAdmits(run: seq<Request>, ip: Ip, t: int, n: nat, max: nat, window: nat, lo: int, hi: int)
    requires Continues(run, ip, window, t)
    requires n > 0 && Current(EntryAfter(run, ip, window), t, window).count + n <= max < U32
    ensures var e, next := Current(EntryAfter(run, ip, window), t, window), run + Burst(ip, t, n);
      && Continues(next, ip, window, t)
      && EntryAfter(next, ip, window) == Some(Entry(e.start, e.count + n))
      && AdmittedIn(next, ip, max, window, lo, hi) ==
           AdmittedIn(run, ip, max, window, lo, hi) + if lo <= t <= hi then n else 0
  {
    hide Continues;
    hide Touched;
    hide Burst;
    BurstGrows(run, ip, t, n);
    var e := Current(EntryAfter(run, ip, window), t, window);
    StartsEarlier(run, ip, window, t);
    if n > 1 { BurstAdmits(run, ip, t, n - 1, max, window, lo, hi); }
    OneMore(run + Burst(ip, t, n - 1), ip, t, max, window, lo, hi);
    hide AdmittedIn;
    hide EntryAfter;
  }

  lemma BurstGrows(run: seq<Request>, ip: Ip, t: int, n: nat)
    requires n > 0
    ensures run + Burst(ip, t, n) == run + Burst(ip, t, n - 1) + [Request(ip, t)]
    ensures n == 1 ==> run + Burst(ip, t, n - 1) == run
  {
  }

  lemma StartsEarlier(run: seq<Request>, ip: Ip, window: nat, t: int)
    requires Continues(run, ip, window, t)
    ensures var e := Current(EntryAfter(run, ip, window), t, window); e.start <= t <= e.start + window
  {
    StartsBefore(run, ip, window);
  }

  /** Full windows one after another, each opening as soon as the one before has passed. */
  lemma {:induction false} TrainAdmits(run: seq<Request>, ip: Ip, t: int, k: nat, max: nat, window: nat, lo: int, hi: int)
      returns (next: seq<Request>)
    requires 1 <= max < U32 && k > 0 && Continues(run, ip, window, t)
    requires match EntryAfter(run, ip, window) case None => true case Some(e) => t > e.start + window
    requires lo <= t && t + Scaled(window + 1, k - 1) <= hi
    ensures Chronological(next) && NoOverflow(next, ip, window)
    ensures AdmittedIn(next, ip, max, window, lo, hi) == AdmittedIn(run, ip, max, window, lo, hi) + Scaled(max, k)
    decreases k
  {
    ScaledGrows(window + 1, k - 2);
    ScaledGrows(max, k - 1);
    ScaledIsPositive(window + 1, k - 1);
    BurstAdmits(run, ip, t, max, max, window, lo, hi);
    next := run + Burst(ip, t, max);
    var p := window + 1;
    LaterContinues(next, ip, window, t, t + p);
    hide NoOverflow;
    hide Scaled;
    hide Burst;
    hide EntryAfter;
    hide AdmittedIn;
    if k > 1 {
      next := TrainAdmits(next, ip, t + p, k - 1, max, window, lo, hi);
    } else {
      ScaledGrows(max, 0);
    }
  }

  lemma ScaledIsPositive(p: nat, k: nat)
    ensures Scaled(p, k) >= 0
  {
  }

  lemma LaterContinues(run: seq<Request>, ip: Ip, window: nat, t: int, u: int)
    requires Continues(run, ip, window, t) && t <= u
    ensures Continues(run, ip, window, u)
  {
    hide NoOverflow;
    hide Chronological;
  }

  /** For every maximum, window and length some run reaches the bound. */
  lemma BoundIsReached(ip: Ip, max: nat, window: nat, length: nat) returns (run: seq<Request>)
    requires 1 <= max < U32
    ensures Chronological(run) && NoOverflow(run, ip, window)
    ensures AdmittedIn(run, ip, max, window, 0, length) == Bound(length, max, window)
  {
    var p := window + 1;
    var q, r := length / p, length % p;
    assert length == q * p + r;
    assert Scaled(p, q) == q * p;
    ScaledGrows(max, q);
    NothingYet(ip, max, window, 0, 0, length);
    hide Scaled;
    hide AdmittedIn;
    hide EntryAfter;
    hide NoOverflow;
    hide Chronological;
    hide Continues;
    if r == 0 {
      run := TrainAdmits([], ip, 0, q + 1, max, window, 0, length);
    } else {
      var head := Head(ip, max, window, length);
      run := TrainAdmits(head, ip, 1, q + 1, max, window, 0, length);
    }
  }

  /** A window that opened before time 0 and is used up at time 0. */
  lemma Head(ip: Ip, max: nat, window: nat, hi: nat) returns (run: seq<Request>)
    requires 1 <= max < U32 && window > 0
    ensures Continues(run, ip, window, 1)
    ensures EntryAfter(run, ip, window) == Some(Entry(0 - window, max))
    ensures AdmittedIn(run, ip, max, window, 0, hi) == max - 1
  {
    hide NoOverflow;
    hide Chronological;
    hide Touched;
    hide Admitted;
    run := FirstRequest(ip, max, window, hi);
    LaterContinues(run, ip, window, 0 - window, 0);
    hide AdmittedIn;
    hide EntryAfter;
    hide Continues;
    hide Burst;
    if max > 1 {
      BurstAdmits(run, ip, 0, max - 1, max, window, 0, hi);
      run := run + Burst(ip, 0, max - 1);
    }
    LaterContinues(run, ip, window, 0, 1);
  }

  lemma FirstRequest(ip: Ip, max: nat, window: nat, hi: nat) returns (run: seq<Request>)
    requires 1 <= max < U32 && window > 0
    ensures Continues(run, ip, window, 0 - window)
    ensures EntryAfter(run, ip, window) == Some(Entry(0 - window, 1))
    ensures AdmittedIn(run, ip, max, window, 0, hi) == 0
  {
    NothingYet(ip, max, window, 0 - window, 0, hi);
    hide NoOverflow;
    hide Chronological;
    hide Touched;
    hide Admitted;
    hide EntryAfter;
    hide Continues;
    OneMore([], ip, 0 - window, max, window, 0, hi);
    run := [] + [Request(ip, 0 - window)];
    hide AdmittedIn;
  }

  lemma NothingYet(ip: Ip, max: nat, window: nat, t: int, lo: int, hi: int)
    ensures Continues([], ip, window, t) && EntryAfter([], ip, window) == None
    ensures AdmittedIn([], ip, max, window, lo, hi) == 0
  {
  }

  function AdmittedInOneWindow(run: seq<Request>, ip: Ip, max: nat, window: nat, lo: int): nat {
    AdmittedIn(run, ip, max, window, lo, lo + window)
  }

  /** What the name `per_minute(max)` suggests, of runs in which no counter wraps: at most the maximum in any
      interval of one window. */
  ghost predicate KeepsItsNameUnwrapped(max: nat, window: nat) {
    forall run: seq<Request>, ip: Ip, lo: int :: Chronological(run) && NoOverflow(run, ip, window) ==>
      AdmittedInOneWindow(run, ip, max, window, lo) <= max
  }

  /** As long as no counter wraps, the name is kept exactly for a maximum of one (or a window without length). */
  lemma KeepsItsNameUnwrappedIff(max: nat, window: nat)
    requires 1 <= max < U32
    ensures KeepsItsNameUnwrapped(max, window) <==> max == 1 || window == 0
  {
    assert window / (window + 1) == 0 && window % (window + 1) == window;
    assert Bound(window, max, window) == if window == 0 then max else max + max - 1;
    if max == 1 || window == 0 {
      forall run: seq<Request>, ip: Ip, lo: int | Chronological(run) && NoOverflow(run, ip, window)
        ensures AdmittedInOneWindow(run, ip, max, window, lo) <= max
      {
        IntervalBound(run, ip, max, window, lo, lo + window);
      }
    } else {
      var run := BoundIsReached(0, max, window, window);
      assert AdmittedInOneWindow(run, 0, max, window, 0) > max;
    }
  }

  // ---------------------------------------------------------------- the 32-bit counter

  lemma WordCounts(n: nat)
    ensures n < U32 ==> Low32(n) == n
    ensures n == U32 ==> Low32(n) == 0
    ensures Low32(Low32(n) + 1) == Low32(n + 1)
  {
  }

  lemma EmptyBurst(ip: Ip, t: int, max: nat, window: nat)
    ensures EntryAfter(Burst(ip, t, 0), ip, window) == None
    ensures AdmittedIn(Burst(ip, t, 0), ip, max, window, t, t) == 0
  {
  }

  /** The n-th request of a burst finds n, in 32 bits. */
  lemma {:induction false} BurstCounts(ip: Ip, t: int, n: nat, window: nat)
    requires n > 0
    ensures EntryAfter(Burst(ip, t, n), ip, window) == Some(Entry(t, Low32(n)))
  {
    hide Low32;
    WordCounts(n - 1);
    EmptyBurst(ip, t, 1, window);
    BurstTouches(ip, t, n, window);
    hide Burst;
    hide EntryAfter;
    if n > 1 { BurstCounts(ip, t, n - 1, window); } else { WordCounts(0); }
  }

  lemma BurstTouches(ip: Ip, t: int, n: nat, window: nat)
    requires n > 0
    ensures EntryAfter(Burst(ip, t, n), ip, window) ==
      Some(Touched(EntryAfter(Burst(ip, t, n - 1), ip, window), t, window))
  {
    hide Touched;
    assert Burst(ip, t, n)[..n - 1] == Burst(ip, t, n - 1);
  }

  lemma BurstStep(ip: Ip, t: int, n: nat, max: nat, window: nat)
    requires n > 0 && max > 0
    ensures AdmittedIn(Burst(ip, t, n), ip, max, window, t, t) ==
      AdmittedIn(Burst(ip, t, n - 1), ip, max, window, t, t) + if Low32(n) <= max then 1 else 0
  {
    var run := Burst(ip, t, n);
    BurstCounts(ip, t, n, window);
    assert run[..n - 1] == Burst(ip, t, n - 1) && run[n - 1] == Request(ip, t);
    hide Touched;
    hide Burst;
  }

  /** A burst is kept to the maximum exactly when it is too short to wrap the counter: the request that wraps it
      is admitted again. */
  lemma {:induction false} BurstIsBoundedIff(ip: Ip, t: int, n: nat, max: nat, window: nat)
    requires 1 <= max < U32
    ensures AdmittedIn(Burst(ip, t, n), ip, max, window, t, t) <= max <==> n < U32
    ensures n < U32 ==> AdmittedIn(Burst(ip, t, n), ip, max, window, t, t) == Least(n, max)
  {
    hide AdmittedIn;
    hide Burst;
    hide Low32;
    WordCounts(n);
    EmptyBurst(ip, t, max, window);
    if n > 0 {
      BurstStep(ip, t, n, max, window);
      BurstIsBoundedIff(ip, t, n - 1, max, window);
    }
  }

  lemma {:induction false} BurstIsChronological(ip: Ip, t: int, n: nat)
    ensures Chronological(Burst(ip, t, n)) && forall i :: 0 <= i < n ==> Burst(ip, t, n)[i] == Request(ip, t)
  {
    if n > 0 { BurstIsChronological(ip, t, n - 1); }
  }

  lemma {:induction false} WiderAdmitsMore(run: seq<Request>, ip: Ip, max: nat, window: nat, lo: int, hi: int, later: int)
    requires hi <= later
    ensures AdmittedIn(run, ip, max, window, lo, hi) <= AdmittedIn(run, ip, max, window, lo, later)
  {
    hide Admitted;
    if run != [] { WiderAdmitsMore(run[..|run| - 1], ip, max, window, lo, hi, later); }
  }

  /** The same of all runs in time order. */
  ghost predicate KeepsItsName(max: nat, window: nat) {
    forall run: seq<Request>, ip: Ip, lo: int :: Chronological(run) ==>
      AdmittedInOneWindow(run, ip, max, window, lo) <= max
  }

  /** Counting the runs that wrap the counter, the name is kept for no maximum: a burst of 2^32 breaks it. */
  lemma NameIsNotKept(max: nat, window: nat, n: nat)
    requires 1 <= max < U32 && n == U32
    ensures Chronological(Burst(0, 0, n)) && AdmittedInOneWindow(Burst(0, 0, n), 0, max, window, 0) > max
    ensures !KeepsItsName(max, window)
  {
    BurstIsChronological(0, 0, n);
    BurstIsBoundedIff(0, 0, n, max, window);
    WiderAdmitsMore(Burst(0, 0, n), 0, max, window, 0, 0, window);
    hide Burst;
    hide AdmittedIn;
    hide Chronological;
  }

  /** In no prefix of the run has the current window of the address admitted more than the maximum. */
  predicate WindowsKeepTheMaximum(run: seq<Request>, ip: Ip, max: nat, window: nat) {
    run == [] ||
    (WindowsKeepTheMaximum(run[..|run| - 1], ip, max, window) &&
     match EntryAfter(run, ip, window)
     case None => true
     case Some(e) => AdmittedSince(run, ip, max, window, e.start) <= max)
  }

  /** The first request too many for the counter is admitted on top of the maximum. */
  lemma WrapAdmits(run: seq<Request>, ip: Ip, max: nat, window: nat)
    requires 1 <= max < U32 && run != [] && Chronological(run)
    requires NoOverflow(run[..|run| - 1], ip, window) && !NoOverflow(run, ip, window)
    ensures EntryAfter(run, ip, window).Some?
    ensures AdmittedSince(run, ip, max, window, EntryAfter(run, ip, window).value.start) > max
  {
    var n := |run| - 1;
    var seen := run[..n];
    assert Chronological(seen);
    CounterCounts(seen, ip, window);
    var was, e := EntryAfter(seen, ip, window), EntryAfter(run, ip, window).value;
    assert run[n].ip == ip;
    if was.None? || run[n].now > was.value.start + window {
      NoneAfterWindow(seen, ip, window, run[n].now);
      assert false;
    }
    WordCounts(was.value.count + 1);
    WindowAdmissions(seen, ip, max, window);
    assert Admitted(run, n, max, window);
  }

  /** Every window that the limiter opens admits at most the maximum if and only if no counter wraps. */
  lemma {:induction false} WindowsKeepTheMaximumIff(run: seq<Request>, ip: Ip, max: nat, window: nat)
    requires 1 <= max < U32 && Chronological(run)
    ensures WindowsKeepTheMaximum(run, ip, max, window) <==> NoOverflow(run, ip, window)
  {
    hide Touched;
    hide AdmittedSince;
    if run != [] {
      WindowsKeepTheMaximumIff(run[..|run| - 1], ip, max, window);
      if NoOverflow(run, ip, window) {
        if EntryAfter(run, ip, window).Some? { WindowAdmissions(run, ip, max, window); }
      } else if NoOverflow(run[..|run| - 1], ip, window) {
        WrapAdmits(run, ip, max, window);
      }
    }
  }
}
