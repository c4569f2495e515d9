/** One poll cycle end to end: fetch, save in one transaction, count, broadcast, forward to each client. */
module Pipeline {
  import opened Wrappers
  import opened PriceMap
  import opened Metrics

  /** `broadcast::channel(16)` */
  const CAPACITY: nat := 16

  // ---------------------------------------------------------------- the repository

  /** Whether a transaction of `n` inserts fails: round trip 0 begins it, `n + 1` commits it. */
  predicate Fails(fault: Option<nat>, n: nat) { fault.Some? && fault.value <= n + 1 }

  class Repository {
    /** The committed table. */
    var rows: seq<Price>

    constructor ()
      ensures rows == []
    {
      rows := [];
    }

    /** All the prices are inserted, or none is. */
    method SavePrices(prices: seq<Price>, fault: Option<nat>) returns (ok: bool)
      modifies this
      ensures ok == !Fails(fault, |prices|)
      ensures rows == if ok then old(rows) + prices else old(rows)
    {
      if fault == Some(0) { return false; }
      var inserted := [];
      for i := 0 to |prices|
        invariant rows == old(rows) && inserted == prices[..i]
        invariant fault.Some? ==> fault.value > i
      {
        if fault == Some(i + 1) { return false; }
        inserted := inserted + [prices[i]];
      }
      if fault == Some(|prices| + 1) { return false; }
      rows := rows + inserted;
      return true;
    }
  }

  // ---------------------------------------------------------------- the polling loop

  /** What one tick of the loop meets: the provider's answer, the database's faults, the measured time. */
  datatype Tick = Tick(fetched: Option<seq<Price>>, fault: Option<nat>, durMs: nat)

  /** The batch a tick saves, if it does. */
  function Outcome(t: Tick): Option<seq<Price>> {
    if t.fetched.None? || Fails(t.fault, |t.fetched.value|) then None else t.fetched
  }

  /** The batches that a list of ticks saves. */
  function Batches(ticks: seq<Tick>): seq<seq<Price>> {
    if ticks == [] then []
    else
      var t := ticks[|ticks| - 1];
      Batches(ticks[..|ticks| - 1]) + if Outcome(t).Some? then [Outcome(t).value] else []
  }

  /** The use case: fetch, then save. It returns what was fetched exactly when the provider answered and none of the
      round trips to the database failed, and saves all of it then and nothing otherwise. */
  method Execute(repository: Repository, t: Tick) returns (r: Option<seq<Price>>)
    modifies repository
    ensures r == Outcome(t)
    ensures r.Some? <==> t.fetched.Some? && (t.fault.None? || t.fault.value > |t.fetched.value| + 1)
    ensures r.Some? ==> r == t.fetched && repository.rows == old(repository.rows) + r.value
    ensures r.None? ==> repository.rows == old(repository.rows)
  {
    if t.fetched.None? { return None; }
    var ok := repository.SavePrices(t.fetched.value, t.fault);
    return if ok then t.fetched else None;
  }

  /** The sending half: every batch sent, in order. The receiver kept by `main` keeps the channel open. */
  class Broadcaster {
    var log: seq<seq<Price>>

    constructor ()
      ensures log == []
    {
      log := [];
    }

    method Send(batch: seq<Price>)
      modifies this
      ensures log == old(log) + [batch]
    {
      log := log + [batch];
    }
  }

  /** A 64-bit counter at `now` was at `before` and counted `n` since. */
  predicate Advanced(before: nat, now: nat, n: nat) { now % U64 == (before + n) % U64 }

  lemma AdvanceMore(before: nat, now: nat, n: nat, m: nat)
    requires Advanced(before, now, n)
    ensures Advanced(before, (now + m) % U64, n + m)
  {
    SameRemainder(now, before + n, m);
    assert (now + m) % U64 % U64 == (now + m) % U64;
  }

  lemma SameRemainder(a: nat, b: nat, m: nat)
    requires a % U64 == b % U64
    ensures (a + m) % U64 == (b + m) % U64
  {
    assert U64 == 0x1_0000_0000_0000_0000;
    var d, q, r := a / U64 - b / U64, (b + m) / U64, (b + m) % U64;
    assert a - b == d * U64;
    assert a + m == (q + d) * U64 + r;
    assert ((q + d) * U64 + r) % U64 == r;
  }

  /** The loop's counters after its ticks saved the batches. */
  predicate Counted(before: Counters, now: Counters, ticks: nat, batches: seq<seq<Price>>) {
    && |batches| <= ticks
    && Advanced(before.pollsOk, now.pollsOk, |batches|)
    && Advanced(before.pollsErr, now.pollsErr, ticks - |batches|)
    && Advanced(before.pricesWritten, now.pricesWritten, |Flat(batches)|)
    && now == before.(pollsOk := now.pollsOk, pollsErr := now.pollsErr, pricesWritten := now.pricesWritten,
                      lastPollMs := now.lastPollMs)
  }

  lemma CountedOk(before: Counters, was: Counters, now: Counters, ticks: nat, batches: seq<seq<Price>>, batch: seq<Price>)
    requires Counted(before, was, ticks, batches)
    requires now == was.(pollsOk := (was.pollsOk + 1) % U64, pricesWritten := (was.pricesWritten + |batch|) % U64,
                         lastPollMs := now.lastPollMs)
    ensures Counted(before, now, ticks + 1, batches + [batch])
  {
    FlatAppend(batches, batch);
    AdvanceMore(before.pollsOk, was.pollsOk, |batches|, 1);
    AdvanceMore(before.pricesWritten, was.pricesWritten, |Flat(batches)|, |batch|);
    hide Advanced;
    hide Flat;
  }

  lemma CountedErr(before: Counters, was: Counters, now: Counters, ticks: nat, batches: seq<seq<Price>>)
    requires Counted(before, was, ticks, batches)
    requires now == was.(pollsErr := (was.pollsErr + 1) % U64)
    ensures Counted(before, now, ticks + 1, batches)
  {
    AdvanceMore(before.pollsErr, was.pollsErr, ticks - |batches|, 1);
    hide Advanced;
    hide Flat;
  }

  /** The duration of the last cycle that saved. */
  function LastMs(before: nat, ticks: seq<Tick>): nat {
    if ticks == [] then before
    else
      var t := ticks[|ticks| - 1];
      if Outcome(t).Some? then t.durMs else LastMs(before, ticks[..|ticks| - 1])
  }

  /** The provider answered, and the transaction, with its beginning and its commit, met no fault. */
  predicate Succeeds(t: Tick) {
    t.fetched.Some? && (t.fault.None? || t.fault.value > |t.fetched.value| + 1)
  }

  /** The ticks that succeed, in order and all of them. */
  ghost predicate AreSuccesses(at: seq<nat>, ticks: seq<Tick>) {
    && (forall j, k :: 0 <= j < k < |at| ==> at[j] < at[k])
    && (forall k :: 0 <= k < |at| ==> at[k] < |ticks| && Succeeds(ticks[at[k]]))
    && (forall i :: 0 <= i < |ticks| && Succeeds(ticks[i]) ==> Lists(at, i))
  }

  ghost predicate Lists(at: seq<nat>, i: nat) { exists k :: 0 <= k < |at| && at[k] == i }

  /** Each batch is what its tick fetched. */
  ghost predicate WereFetched(batches: seq<seq<Price>>, at: seq<nat>, ticks: seq<Tick>) {
    |batches| == |at| && forall k :: 0 <= k < |at| ==> at[k] < |ticks| && ticks[at[k]].fetched == Some(batches[k])
  }

  lemma NextSuccess(at: seq<nat>, ticks: seq<Tick>, t: Tick)
    requires AreSuccesses(at, ticks)
    ensures AreSuccesses(if Succeeds(t) then at + [|ticks|] else at, ticks + [t])
  {
    hide Succeeds;
    var n, all := |ticks|, ticks + [t];
    forall i | 0 <= i < n && Succeeds(all[i]) ensures Lists(at, i) && Lists(at + [n], i) {
      assert Succeeds(ticks[i]);
      var k :| 0 <= k < |at| && at[k] == i;
      assert (at + [n])[k] == i;
    }
    assert (at + [n])[|at|] == n;
    assert Lists(at + [n], n);
    forall k | 0 <= k < |at| ensures at[k] < n && Succeeds(all[at[k]]) { assert all[at[k]] == ticks[at[k]]; }
    hide Lists;
  }

  lemma NextFetched(batches: seq<seq<Price>>, at: seq<nat>, ticks: seq<Tick>, t: Tick)
    requires WereFetched(batches, at, ticks)
    ensures WereFetched(batches, at, ticks + [t])
    ensures t.fetched.Some? ==> WereFetched(batches + [t.fetched.value], at + [|ticks|], ticks + [t])
  {
  }

  lemma NextBatch(before: nat, rest: seq<Tick>, t: Tick, at: seq<nat>) returns (next: seq<nat>)
    requires AreSuccesses(at, rest) && WereFetched(Batches(rest), at, rest)
    ensures next == if Succeeds(t) then at + [|rest|] else at
    ensures AreSuccesses(next, rest + [t]) && WereFetched(Batches(rest + [t]), next, rest + [t])
    ensures LastMs(before, rest + [t]) == if Succeeds(t) then t.durMs else LastMs(before, rest)
  {
    var ticks := rest + [t];
    assert ticks[..|rest|] == rest && ticks[..|rest| + 1] == ticks;
    TickAdds(before, ticks, |rest|);
    NextSuccess(at, rest, t);
    NextFetched(Batches(rest), at, rest, t);
    hide Batches;
    hide LastMs;
    hide AreSuccesses;
    hide WereFetched;
    next := if Succeeds(t) then at + [|rest|] else at;
  }

  /** The batches are what the ticks that succeed fetched, all of them and in order, and the duration is that of the
      last one. */
  lemma {:induction false} BatchesAreFetched(before: nat, ticks: seq<Tick>) returns (at: seq<nat>)
    ensures AreSuccesses(at, ticks) && WereFetched(Batches(ticks), at, ticks)
    ensures at != [] ==> at[|at| - 1] < |ticks|
    ensures LastMs(before, ticks) == if at == [] then before else ticks[at[|at| - 1]].durMs
  {
    hide AreSuccesses;
    hide WereFetched;
    hide Batches;
    hide LastMs;
    hide Succeeds;
    if ticks == [] {
      at := [];
      NoSuccess(before);
    } else {
      var n := |ticks| - 1;
      var were := BatchesAreFetched(before, ticks[..n]);
      assert ticks[..n] + [ticks[n]] == ticks;
      at := NextBatch(before, ticks[..n], ticks[n], were);
      if at != [] && at == were { assert ticks[at[|at| - 1]] == ticks[..n][at[|at| - 1]]; }
    }
  }

  lemma NoSuccess(before: nat)
    ensures AreSuccesses([], []) && WereFetched(Batches([]), [], []) && LastMs(before, []) == before
  {
  }

  /** A whole life of the loop: what is saved is what is broadcast and what is counted. */
  method RunPollingLoop(repository: Repository, broadcaster: Broadcaster, metrics: AppMetrics, ticks: seq<Tick>)
    modifies repository, broadcaster, metrics
    ensures broadcaster.log == old(broadcaster.log) + Batches(ticks)
    ensures repository.rows == old(repository.rows) + Flat(Batches(ticks))
    ensures Counted(old(metrics.Snapshot()), metrics.Snapshot(), |ticks|, Batches(ticks))
    ensures metrics.lastPollMs == LastMs(old(metrics.lastPollMs), ticks)
  {
    hide Counted;
    hide Batches;
    hide LastMs;
    hide Outcome;
    hide Flat;
    ghost var saved := [];
    NoTicks(metrics.lastPollMs);
    assert ticks[..0] == [];
    NothingCounted(metrics.Snapshot());
    for i := 0 to |ticks|
      invariant saved == Batches(ticks[..i])
      invariant broadcaster.log == old(broadcaster.log) + saved
      invariant repository.rows == old(repository.rows) + Flat(saved)
      invariant Counted(old(metrics.Snapshot()), metrics.Snapshot(), i, saved)
      invariant metrics.lastPollMs == LastMs(old(metrics.lastPollMs), ticks[..i])
    {
      var t := ticks[i];
      TickAdds(old(metrics.lastPollMs), ticks, i);
      var result := Execute(repository, t);
      ghost var was := metrics.Snapshot();
      match result {
        case Some(prices) =>
          metrics.RecordPollOk(|prices|, t.durMs);
          CountedOk(old(metrics.Snapshot()), was, metrics.Snapshot(), i, saved, prices);
          broadcaster.Send(prices);
          FlatAppend(saved, prices);
          saved := saved + [prices];
        case None =>
          metrics.RecordPollErr();
          CountedErr(old(metrics.Snapshot()), was, metrics.Snapshot(), i, saved);
      }
    }
    assert ticks[..|ticks|] == ticks;
  }

  lemma NoTicks(before: nat)
    ensures Batches([]) == [] && Flat([]) == [] && LastMs(before, []) == before
  {
  }

  lemma TickAdds(before: nat, ticks: seq<Tick>, i: nat)
    requires i < |ticks|
    ensures Batches(ticks[..i + 1]) ==
      if Outcome(ticks[i]).Some? then Batches(ticks[..i]) + [Outcome(ticks[i]).value] else Batches(ticks[..i])
    ensures LastMs(before, ticks[..i + 1]) ==
      if Outcome(ticks[i]).Some? then ticks[i].durMs else LastMs(before, ticks[..i])
  {
    hide Outcome;
    assert ticks[..i + 1][..i] == ticks[..i];
  }

  lemma NothingCounted(c: Counters)
    ensures Counted(c, c, 0, [])
  {
  }

  // ---------------------------------------------------------------- the forwarding loop

  /** One turn of a client's loop: the channel's log when `recv` returns, and whether the socket took the batch. */
  datatype Turn = Turn(log: seq<seq<Price>>, taken: bool)

  predicate Lags(log: seq<seq<Price>>, next: nat) { |log| > next + CAPACITY }

  /** `recv` waits for a next batch, and logs only grow. */
  predicate Turns(start: nat, turns: seq<Turn>) {
    && (forall i :: 0 <= i < |turns| ==> start + i < |turns[i].log|)
    && (forall i, j :: 0 <= i < j < |turns| ==> turns[i].log <= turns[j].log)
  }

  /** Forward batch after batch until a receive lags or a send fails: what was sent is the stretch of the log from the
      subscription on, without a gap, and it ends at the first turn that finds the log more than the channel's 16
      batches ahead, or whose send fails. */
  method Forward(start: nat, turns: seq<Turn>) returns (sent: seq<seq<Price>>)
    requires Turns(start, turns)
    ensures |sent| <= |turns|
    ensures forall i :: |sent| <= i < |turns| ==> sent == turns[i].log[start..start + |sent|]
    ensures sent != [] ==> sent == turns[|sent| - 1].log[start..start + |sent|]
    ensures forall i :: 0 <= i < |sent| ==> |turns[i].log| <= start + i + 16 && turns[i].taken
    ensures |sent| < |turns| ==> |turns[|sent|].log| > start + |sent| + 16 || !turns[|sent|].taken
  {
    sent := [];
    for i := 0 to |turns|
      invariant |sent| == i
      invariant forall j :: 0 <= j < i ==> sent[j] == turns[j].log[start + j]
      invariant forall j :: 0 <= j < i ==> |turns[j].log| <= start + j + 16 && turns[j].taken
    {
      if Lags(turns[i].log, start + i) { break; }
      var prices := turns[i].log[start + i];
      if !turns[i].taken { break; }
      sent := sent + [prices];
    }
  }
}
