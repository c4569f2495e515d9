/** The polling loop and its clients as they interleave: every suspension point is a step of its own. */
module PipelineRuns {
  import opened Wrappers
  import opened PriceMap
  import opened Metrics
  import opened Pipeline

  /** Where the polling loop stands: at its head, or suspended within a cycle. */
  datatype Phase = Head | Fetched(batch: seq<Price>) | Saved(batch: seq<Price>) | Tallied(batch: seq<Price>) | Failed

  /** The loop, the table, the counters and the channel. `committed` and `cycles` are history. */
  datatype Loop = Loop(
    phase: Phase, rows: seq<Price>, log: seq<seq<Price>>,
    pollsOk: nat, pollsErr: nat, pricesWritten: nat,
    committed: seq<seq<Price>>, cycles: nat)

  /** A forwarding task: its receiver's position, a batch received but not yet sent, and what was sent. */
  datatype Client = Client(start: nat, next: nat, held: Option<seq<Price>>, sent: seq<seq<Price>>, ended: bool)

  datatype State = State(loop: Loop, clients: seq<Client>)

  datatype Event =
    | FetchOk(batch: seq<Price>) | FetchFailed
    | Commit | SaveFailed
    | Record | RecordError
    | Broadcast
    | Subscribe
    | Receive(i: nat)    // `recv` returns the next batch
    | Lagged(i: nat)     // `recv` returns the lag error
    | SendOk(i: nat)
    | SendFailed(i: nat)
    | Leave(i: nat)      // the client went away: its loop is aborted wherever it is suspended

  /** A 64-bit counter's value. */
  function Word(n: nat): nat { n % U64 }

  predicate OfLoop(e: Event) {
    e.FetchOk? || e.FetchFailed? || e.Commit? || e.SaveFailed? || e.Record? || e.RecordError? || e.Broadcast?
  }

  predicate LoopEnabled(l: Loop, e: Event)
    requires OfLoop(e)
  {
    match e
    case FetchOk(_) => l.phase.Head?
    case FetchFailed => l.phase.Head?
    case Commit => l.phase.Fetched?
    case SaveFailed => l.phase.Fetched?
    case Record => l.phase.Saved?
    case RecordError => l.phase.Failed?
    case Broadcast => l.phase.Tallied?
  }

  function LoopStep(l: Loop, e: Event): Loop
    requires OfLoop(e) && LoopEnabled(l, e)
  {
    match e
    case FetchOk(batch) => l.(phase := Fetched(batch))
    case FetchFailed => l.(phase := Failed)
    case Commit => l.(phase := Saved(l.phase.batch), rows := l.rows + l.phase.batch, committed := l.committed + [l.phase.batch])
    case SaveFailed => l.(phase := Failed)
    case Record => l.(phase := Tallied(l.phase.batch), pollsOk := Word(l.pollsOk + 1),
                      pricesWritten := Word(l.pricesWritten + |l.phase.batch|))
    case RecordError => l.(phase := Head, pollsErr := Word(l.pollsErr + 1), cycles := l.cycles + 1)
    case Broadcast => l.(phase := Head, log := l.log + [l.phase.batch], cycles := l.cycles + 1)
  }

  /** The client an event is about. */
  function Index(e: Event): nat
    requires !OfLoop(e) && !e.Subscribe?
  {
    e.i
  }

  predicate ClientEnabled(c: Client, log: seq<seq<Price>>, e: Event) {
    && !c.ended
    && match e
       case Receive(_) => c.held.None? && c.next < |log| && !Lags(log, c.next)
       case Lagged(_) => c.held.None? && Lags(log, c.next)
       case SendOk(_) => c.held.Some?
       case SendFailed(_) => c.held.Some?
       case Leave(_) => true
       case _ => false
  }

  function ClientStep(c: Client, log: seq<seq<Price>>, e: Event): Client
    requires ClientEnabled(c, log, e)
  {
    match e
    case Receive(_) => c.(held := Some(log[c.next]), next := c.next + 1)
    case SendOk(_) => c.(held := None, sent := c.sent + [c.held.value])
    case _ => c.(held := None, ended := true)
  }

  predicate Enabled(s: State, e: Event) {
    if OfLoop(e) then LoopEnabled(s.loop, e)
    else e.Subscribe? || (Index(e) < |s.clients| && ClientEnabled(s.clients[Index(e)], s.loop.log, e))
  }

  function Step(s: State, e: Event): State
    requires Enabled(s, e)
  {
    if OfLoop(e) then s.(loop := LoopStep(s.loop, e))
    else if e.Subscribe? then s.(clients := s.clients + [Client(|s.loop.log|, |s.loop.log|, None, [], false)])
    else
      var i := Index(e);
      s.(clients := s.clients[i := ClientStep(s.clients[i], s.loop.log, e)])
  }

  function Initial(rows: seq<Price>): State {
    State(Loop(Head, rows, [], 0, 0, 0, [], 0), [])
  }

  // ---------------------------------------------------------------- what every step keeps

  /** The batch committed but not yet broadcast. */
  function Unsent(p: Phase): seq<seq<Price>> { if p.Saved? || p.Tallied? then [p.batch] else [] }

  /** The batches counted so far: a saved one is counted before it is broadcast. */
  function Recorded(l: Loop): seq<seq<Price>> { if l.phase.Saved? then l.log else l.committed }

  /** The cycles counted so far. */
  function Cycles(l: Loop): nat { if l.phase.Tallied? then l.cycles + 1 else l.cycles }

  ghost predicate TableInv(l: Loop, rows: seq<Price>) {
    l.rows == rows + Flat(l.committed) && l.committed == l.log + Unsent(l.phase)
  }

  ghost predicate CountInv(l: Loop) {
    && l.pollsOk == Word(|Recorded(l)|)
    && l.pricesWritten == Word(|Flat(Recorded(l))|)
    && |Recorded(l)| <= Cycles(l)
    && l.pollsErr == Word(Cycles(l) - |Recorded(l)|)
  }

  ghost predicate LoopInv(l: Loop, rows: seq<Price>) { TableInv(l, rows) && CountInv(l) }

  /** Sent, then held: exactly the log from the subscription up to the receiver's position. */
  ghost predicate ClientInv(c: Client, log: seq<seq<Price>>) {
    && c.start <= c.next <= |log|
    && |c.sent| <= c.next - c.start
    && c.sent == log[c.start..c.start + |c.sent|]
    && (!c.ended ==> c.sent + (if c.held.Some? then [c.held.value] else []) == log[c.start..c.next])
  }

  ghost predicate Inv(s: State, rows: seq<Price>) {
    && LoopInv(s.loop, rows)
    && (forall i :: 0 <= i < |s.clients| ==> ClientInv(s.clients[i], s.loop.log))
  }

  lemma WordMore(n: nat, k: nat)
    ensures Word(Word(n) + k) == Word(n + k)
  {
    SameRemainder(n % U64, n, k);
  }

  /** The counters wrap at 64 bits. */
  lemma WordWraps(n: nat)
    ensures n < 0x1_0000_0000_0000_0000 ==> Word(n) == n && Word(n + 0x1_0000_0000_0000_0000) == n
  {
  }

  lemma WordsAdd(n: nat, k: nat)
    ensures Word(Word(n) + Word(k)) == Word(n + k)
  {
    WordMore(n, Word(k));
    WordMore(k, n);
    hide Word;
  }

  lemma StepKeepsTable(l: Loop, rows: seq<Price>, e: Event)
    requires TableInv(l, rows) && OfLoop(e) && LoopEnabled(l, e)
    ensures TableInv(LoopStep(l, e), rows)
    ensures l.log <= LoopStep(l, e).log && l.committed <= LoopStep(l, e).committed
  {
    hide Flat;
    hide Word;
    if e.Commit? {
      FlatAppend(l.committed, l.phase.batch);
      assert l.log + [] == l.log;
    }
  }

  lemma StepKeepsCounts(l: Loop, rows: seq<Price>, e: Event)
    requires TableInv(l, rows) && CountInv(l) && OfLoop(e) && LoopEnabled(l, e)
    ensures CountInv(LoopStep(l, e))
  {
    hide Flat;
    hide Word;
    assert l.log + [] == l.log;
    match e
    case Record =>
      FlatAppend(l.log, l.phase.batch);
      WordMore(|l.log|, 1);
      WordMore(|Flat(l.log)|, |l.phase.batch|);
    case RecordError =>
      WordMore(l.cycles - |l.committed|, 1);
    case _ =>
  }

  lemma LoopKeepsInv(l: Loop, rows: seq<Price>, e: Event)
    requires LoopInv(l, rows) && OfLoop(e) && LoopEnabled(l, e)
    ensures LoopInv(LoopStep(l, e), rows)
    ensures l.log <= LoopStep(l, e).log && l.committed <= LoopStep(l, e).committed
  {
    StepKeepsTable(l, rows, e);
    StepKeepsCounts(l, rows, e);
    hide TableInv;
    hide CountInv;
    hide LoopStep;
    hide LoopEnabled;
  }

  lemma ClientKeepsInv(c: Client, log: seq<seq<Price>>, e: Event)
    requires ClientInv(c, log) && ClientEnabled(c, log, e)
    ensures ClientInv(ClientStep(c, log, e), log)
    ensures c.sent <= ClientStep(c, log, e).sent
  {
    if e.Receive? {
      assert log[c.start..c.next + 1] == log[c.start..c.next] + [log[c.next]];
    } else if e.SendOk? {
      assert c.sent + [c.held.value] + [] == log[c.start..c.next];
    }
  }

  lemma ClientOutlivesLog(c: Client, log: seq<seq<Price>>, longer: seq<seq<Price>>)
    requires ClientInv(c, log) && log <= longer
    ensures ClientInv(c, longer)
  {
    assert log[c.start..c.next] == longer[c.start..c.next];
    assert log[c.start..c.start + |c.sent|] == longer[c.start..c.start + |c.sent|];
  }

  lemma StepKeepsInv(s: State, rows: seq<Price>, e: Event)
    requires Inv(s, rows) && Enabled(s, e)
    ensures Inv(Step(s, e), rows)
  {
    var t := Step(s, e);
    if OfLoop(e) {
      LoopKeepsInv(s.loop, rows, e);
      forall i | 0 <= i < |s.clients| ensures ClientInv(t.clients[i], t.loop.log) {
        ClientOutlivesLog(s.clients[i], s.loop.log, t.loop.log);
      }
    } else if !e.Subscribe? {
      ClientKeepsInv(s.clients[Index(e)], s.loop.log, e);
      hide ClientInv;
    }
    hide LoopInv;
    hide LoopStep;
    hide ClientStep;
    hide LoopEnabled;
    hide ClientEnabled;
  }

  // ---------------------------------------------------------------- whole runs

  /** `t` is reached from `s` by the events in order. */
  ghost predicate Leads(s: State, events: seq<Event>, t: State)
    decreases events
  {
    if events == [] then s == t
    else Enabled(s, events[0]) && Leads(Step(s, events[0]), events[1..], t)
  }

  lemma {:induction false} RunKeepsInv(s: State, rows: seq<Price>, events: seq<Event>, t: State)
    requires Inv(s, rows) && Leads(s, events, t)
    ensures Inv(t, rows)
    decreases events
  {
    if events != [] {
      StepKeepsInv(s, rows, events[0]);
      hide Inv;
      hide Enabled;
      hide Step;
      RunKeepsInv(Step(s, events[0]), rows, events[1..], t);
    }
  }

  lemma Reachable(rows: seq<Price>, events: seq<Event>, t: State)
    requires Leads(Initial(rows), events, t)
    ensures Inv(t, rows)
  {
    assert Flat([]) == [] && rows + [] == rows;
    assert Inv(Initial(rows), rows);
    RunKeepsInv(Initial(rows), rows, events, t);
    hide Leads;
  }

  /** Over every run a client is sent a stretch of the committed batches, in order and without a gap, from its
      subscription on; whoever is caught up has been sent everything broadcast since. */
  lemma DeliveryIsGapFree(rows: seq<Price>, events: seq<Event>, t: State, i: nat)
    requires Leads(Initial(rows), events, t) && i < |t.clients|
    ensures var c, committed := t.clients[i], t.loop.committed;
      && c.start + |c.sent| <= |t.loop.log| <= |committed|
      && c.sent == committed[c.start..c.start + |c.sent|]
      && (!c.ended && c.held.None? && c.next == |t.loop.log| ==> c.sent == t.loop.log[c.start..])
  {
    Reachable(rows, events, t);
    hide Leads;
    var c, log := t.clients[i], t.loop.log;
    assert ClientInv(c, log);
    ClientOutlivesLog(c, log, t.loop.committed);
    assert log[c.start..|log|] == log[c.start..];
    assert c.sent + [] == c.sent;
    hide Flat;
  }

  /** The event ends the loop of client `i`: its receive lags, its send fails, or it leaves. */
  predicate Ends(e: Event, i: nat) { e == Lagged(i) || e == SendFailed(i) || e == Leave(i) }

  /** Only that ends a client's loop; and a receive lags exactly when the channel is more than 16 batches ahead. */
  lemma ClientEnds(c: Client, log: seq<seq<Price>>, e: Event)
    requires ClientEnabled(c, log, e)
    ensures ClientStep(c, log, e).ended <==> Ends(e, Index(e))
    ensures e.Lagged? ==> |log| > c.next + 16
    ensures e.Receive? ==> c.next < |log| <= c.next + 16
  {
  }

  lemma StepEnds(s: State, e: Event, i: nat)
    requires Enabled(s, e) && i < |Step(s, e).clients|
    ensures Step(s, e).clients[i].ended <==> (i < |s.clients| && s.clients[i].ended) || Ends(e, i)
    ensures |Step(s, e).clients| >= |s.clients|
  {
    if !OfLoop(e) && !e.Subscribe? { ClientEnds(s.clients[Index(e)], s.loop.log, e); }
    hide LoopStep;
    hide ClientStep;
  }

  /** Over every run a client's loop has ended if and only if one of its receives lagged, one of its sends failed, or
      it left. */
  lemma {:induction false} EndedIff(s: State, events: seq<Event>, t: State, i: nat)
    requires Leads(s, events, t) && i < |t.clients|
    ensures t.clients[i].ended <==>
      (i < |s.clients| && s.clients[i].ended) || exists k :: 0 <= k < |events| && Ends(events[k], i)
    ensures |t.clients| >= |s.clients|
    decreases events
  {
    if events != [] {
      var next, rest := Step(s, events[0]), events[1..];
      EndedIff(next, rest, t, i);
      if i < |next.clients| { StepEnds(s, events[0], i); } else { StepKeepsClients(s, events[0], i); }
      if k :| 0 <= k < |rest| && Ends(rest[k], i) { assert Ends(events[k + 1], i); }
      assert forall k :: 0 < k < |events| ==> events[k] == rest[k - 1];
      hide Step;
      hide Enabled;
      hide Ends;
    }
  }

  /** An event is about a client that is there. */
  lemma StepKeepsClients(s: State, e: Event, i: nat)
    requires Enabled(s, e) && i >= |Step(s, e).clients|
    ensures !Ends(e, i) && |Step(s, e).clients| >= |s.clients|
  {
  }

  /** Over every run, whenever the loop is at its head, exactly the batches it committed are in the table,
      counted and broadcast, and every completed cycle is counted once, as a success or as a failure. */
  lemma HeadsBalance(rows: seq<Price>, events: seq<Event>, t: State)
    requires Leads(Initial(rows), events, t) && t.loop.phase.Head?
    ensures var l := t.loop;
      && l.log == l.committed
      && l.rows == rows + Flat(l.committed)
      && |l.committed| <= l.cycles
      && l.pricesWritten == Word(|l.rows| - |rows|)
      && l.pollsOk == Word(|l.committed|)
      && l.pollsErr == Word(l.cycles - |l.committed|)
      && Word(l.pollsOk + l.pollsErr) == Word(l.cycles)
      && (l.cycles < U64 ==> l.pollsOk + l.pollsErr == l.cycles)
  {
    hide Leads;
    hide Flat;
    hide Word;
    hide ClientInv;
    Reachable(rows, events, t);
    var l := t.loop;
    assert l.log + [] == l.log;
    CyclesAdd(|l.committed|, l.cycles);
  }

  /** Counters of a part and of the rest add up to the whole. */
  lemma CyclesAdd(part: nat, whole: nat)
    requires part <= whole
    ensures Word(Word(part) + Word(whole - part)) == Word(whole)
    ensures whole < U64 ==> Word(part) + Word(whole - part) == whole
  {
    WordsAdd(part, whole - part);
    if whole < U64 { SmallWords(part, whole - part); }
    hide Word;
  }

  lemma SmallWords(n: nat, k: nat)
    requires n + k < U64
    ensures Word(n) + Word(k) == n + k
  {
  }

  /** Between heads the table may be ahead of the counters and the counters ahead of the channel, by one batch. */
  lemma OneBatchAhead(rows: seq<Price>, events: seq<Event>, t: State)
    requires Leads(Initial(rows), events, t)
    ensures var l := t.loop;
      |l.log| <= |Recorded(l)| <= |l.committed| <= |l.log| + 1 && l.log <= Recorded(l) <= l.committed
  {
    Reachable(rows, events, t);
    hide Leads;
    hide Flat;
    hide ClientInv;
  }

  // ---------------------------------------------------------------- the loop is undisturbed by its clients

  function LoopEvents(events: seq<Event>): seq<Event> {
    if events == [] then []
    else (if OfLoop(events[0]) then [events[0]] else []) + LoopEvents(events[1..])
  }

  ghost predicate LoopLeads(l: Loop, events: seq<Event>, m: Loop)
    decreases events
  {
    if events == [] then l == m
    else OfLoop(events[0]) && LoopEnabled(l, events[0]) && LoopLeads(LoopStep(l, events[0]), events[1..], m)
  }

  lemma {:induction false} LoopRuns(s: State, events: seq<Event>, t: State)
    requires Leads(s, events, t)
    ensures LoopLeads(s.loop, LoopEvents(events), t.loop)
    decreases events
  {
    if events != [] {
      var e, rest := events[0], LoopEvents(events[1..]);
      LoopRuns(Step(s, e), events[1..], t);
      assert [] + rest == rest && ([e] + rest)[1..] == rest;
      hide LoopStep;
      hide LoopEnabled;
      hide ClientStep;
      hide ClientEnabled;
    }
  }

  /** The loop's steps within one tick. */
  function Cycle(t: Tick): seq<Event> {
    if t.fetched.None? then [FetchFailed, RecordError]
    else if Outcome(t).None? then [FetchOk(t.fetched.value), SaveFailed, RecordError]
    else [FetchOk(t.fetched.value), Commit, Record, Broadcast]
  }

  function CyclesOf(ticks: seq<Tick>): seq<Event> {
    if ticks == [] then [] else CyclesOf(ticks[..|ticks| - 1]) + Cycle(ticks[|ticks| - 1])
  }

  lemma {:induction false} LoopSplits(l: Loop, a: seq<Event>, b: seq<Event>, m: Loop) returns (mid: Loop)
    requires LoopLeads(l, a + b, m)
    ensures LoopLeads(l, a, mid) && LoopLeads(mid, b, m)
    decreases a
  {
    hide LoopStep;
    hide LoopEnabled;
    if a == [] {
      mid := l;
      assert a + b == b;
    } else {
      assert (a + b)[0] == a[0] && (a + b)[1..] == a[1..] + b;
      mid := LoopSplits(LoopStep(l, a[0]), a[1..], b, m);
    }
  }

  lemma CycleTakesTick(l: Loop, t: Tick, m: Loop)
    requires l.phase.Head? && LoopLeads(l, Cycle(t), m)
    ensures m.phase.Head? && m.cycles == l.cycles + 1
    ensures m.committed == l.committed + if Outcome(t).Some? then [Outcome(t).value] else []
  {
    var es := Cycle(t);
    hide Word;
    var l1, l2 := LoopStep(l, es[0]), LoopStep(LoopStep(l, es[0]), es[1]);
    LoopUnfolds(l, es, m);
    LoopUnfolds(l1, es[1..], m);
    assert es[1..][1..] == es[2..];
    if |es| > 2 { LoopUnfolds(l2, es[2..], m); }
    if |es| > 3 {
      assert es[2..][1..] == es[3..];
      LoopUnfolds(LoopStep(l2, es[2]), es[3..], m);
    }
    hide LoopLeads;
  }

  /** The first step of a run, and the end of an empty one. */
  lemma LoopUnfolds(l: Loop, events: seq<Event>, m: Loop)
    requires LoopLeads(l, events, m) && events != []
    ensures OfLoop(events[0]) && LoopEnabled(l, events[0])
    ensures LoopLeads(LoopStep(l, events[0]), events[1..], m)
    ensures |events| == 1 ==> m == LoopStep(l, events[0])
  {
    hide LoopStep;
    hide LoopEnabled;
  }

  lemma {:induction false} LoopTakesTicks(l: Loop, ticks: seq<Tick>, m: Loop)
    requires l.phase.Head? && LoopLeads(l, CyclesOf(ticks), m)
    ensures m.phase.Head? && m.cycles == l.cycles + |ticks| && m.committed == l.committed + Batches(ticks)
  {
    if ticks == [] {
      assert l.committed + [] == l.committed;
    } else {
      var n := |ticks| - 1;
      var mid := LoopSplits(l, CyclesOf(ticks[..n]), Cycle(ticks[n]), m);
      LoopTakesTicks(l, ticks[..n], mid);
      CycleTakesTick(mid, ticks[n], m);
      hide LoopLeads;
      hide Cycle;
    }
  }

  /** However its clients come, lag and go, the loop saves, counts and broadcasts what its ticks alone decide. */
  lemma ClientsDoNotMatter(rows: seq<Price>, ticks: seq<Tick>, events: seq<Event>, t: State)
    requires Leads(Initial(rows), events, t) && LoopEvents(events) == CyclesOf(ticks)
    ensures t.loop.log == Batches(ticks) && t.loop.rows == rows + Flat(Batches(ticks)) && t.loop.cycles == |ticks|
    ensures t.loop.pollsOk == Word(|Batches(ticks)|) && t.loop.pricesWritten == Word(|Flat(Batches(ticks))|)
  {
    LoopRuns(Initial(rows), events, t);
    LoopTakesTicks(Initial(rows).loop, ticks, t.loop);
    HeadsBalance(rows, events, t);
    assert [] + Batches(ticks) == Batches(ticks);
    hide Leads;
    hide LoopLeads;
    hide LoopEvents;
    hide CyclesOf;
    hide Batches;
    hide Flat;
  }
}
