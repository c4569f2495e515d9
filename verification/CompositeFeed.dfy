/** The fan-in over both adapters: one subscriber, one hold switch, one unsubscription. */
module CompositeFeed {
  import opened Wrappers
  import opened PriceMap
  import opened Backoff
  import A = BackendFeed
  import B = BinanceFeed
  import R = BinanceRuns

  /** Both subscriptions, and every batch the shared subscriber was given, in order. */
  datatype State = State(a: A.State, b: B.State, log: seq<seq<Price>>)

  datatype Event =
    | Backend(a: A.Event)
    | Binance(b: B.Event)
    | Hold(paused: bool)
    | Pass(ms: nat)
    | Unsubscribe

  function Initial(hasFrames: bool, hidden: bool, now: int, paused: bool): State {
    State(A.Initial(now, paused), B.Initial(hasFrames, hidden, now, paused), [])
  }

  /** What only one adapter sees; the clock, the switch and the unsubscription are shared. */
  predicate OwnA(e: A.Event) { !e.SetPaused? && !e.Wait? && !e.Unsubscribe? }

  predicate OwnB(e: B.Event) { !e.SetPaused? && !e.Wait? && !e.Unsubscribe? }

  predicate Enabled(s: State, e: Event) {
    match e
    case Backend(a) => OwnA(a) && A.Enabled(s.a, a)
    case Binance(b) => OwnB(b) && B.Enabled(s.b, b)
    case _ => true
  }

  /** The subscriber cancels the composite from inside this event. */
  predicate Cancels(s: State, e: Event)
    requires Enabled(s, e)
  {
    e.Binance? && !s.b.conn.stopped && B.Step(s.b, e.b).conn.stopped
  }

  /** The events of one adapter within one event of the composite. */
  function PartA(s: State, e: Event): seq<A.Event>
    requires Enabled(s, e)
  {
    match e
    case Backend(a) => [a]
    case Binance(_) => if Cancels(s, e) then [A.Unsubscribe] else []
    case Hold(p) => [A.SetPaused(p)]
    case Pass(ms) => [A.Wait(ms)]
    case Unsubscribe => [A.Unsubscribe]
  }

  function PartB(e: Event): seq<B.Event> {
    match e
    case Backend(_) => []
    case Binance(b) => [b]
    case Hold(p) => [B.SetPaused(p)]
    case Pass(ms) => [B.Wait(ms)]
    case Unsubscribe => [B.Unsubscribe]
  }

  function NextA(s: A.State, part: seq<A.Event>): A.State
    requires |part| <= 1 && (part == [] || A.Enabled(s, part[0]))
  {
    if part == [] then s else A.Step(s, part[0])
  }

  function NextB(s: B.State, part: seq<B.Event>): B.State
    requires |part| <= 1 && (part == [] || B.Enabled(s, part[0]))
  {
    if part == [] then s else B.Step(s, part[0])
  }

  function Step(s: State, e: Event): State
    requires Enabled(s, e)
  {
    var a, b := NextA(s.a, PartA(s, e)), NextB(s.b, PartB(e));
    State(a, b, s.log + New(s.a.delivered, a.delivered) + New(s.b.buffer.delivered, b.buffer.delivered))
  }

  /** The batches a step added. */
  function New(before: seq<seq<Price>>, after: seq<seq<Price>>): seq<seq<Price>> {
    if |before| <= |after| then after[|before|..] else []
  }

  // ---------------------------------------------------------------- what a step of each adapter may change

  lemma EffectA(s: A.State, e: A.Event)
    requires A.Inv(s) && A.Enabled(s, e)
    ensures var t := A.Step(s, e);
      && s.delivered <= t.delivered
      && t.paused == (if e.SetPaused? then e.paused else s.paused)
      && t.now == (if e.Wait? then s.now + e.ms else s.now)
      && t.stopped == (s.stopped || e.Unsubscribe?)
      && (s.paused || s.stopped ==> t.delivered == s.delivered)
  {
    hide Delay;
    hide TotalDelay;
  }

  lemma EffectB(s: B.State, e: B.Event)
    requires B.ClockInv(s.clock, s.conn.stopped) && B.Enabled(s, e)
    ensures var t := B.Step(s, e);
      && s.buffer.delivered <= t.buffer.delivered
      && t.buffer.paused == (if e.SetPaused? then e.paused else s.buffer.paused)
      && t.conn.now == (if e.Wait? then s.conn.now + e.ms else s.conn.now)
      && (s.conn.stopped || e.Unsubscribe? ==> t.conn.stopped)
      && (s.buffer.paused || s.conn.stopped ==> t.buffer.delivered == s.buffer.delivered)
  {
    hide Delay;
    hide B.HasStreams;
    hide Put;
    hide B.PriceOf;
  }

  // ---------------------------------------------------------------- every reachable state

  ghost predicate InvB(s: B.State) { B.ConnInv(s.conn) && B.ClockInv(s.clock, s.conn.stopped) }

  /** Both adapters are in a reachable state and agree on the switch, the clock and the unsubscription. */
  ghost predicate Inv(s: State) {
    && A.Inv(s.a) && InvB(s.b)
    && s.a.paused == s.b.buffer.paused
    && s.a.now == s.b.conn.now
    && s.a.stopped == s.b.conn.stopped
  }

  lemma InitialInv(hasFrames: bool, hidden: bool, now: int, paused: bool)
    ensures Inv(Initial(hasFrames, hidden, now, paused))
  {
    A.InitialInv(now, paused);
    B.InitialInv(hasFrames, hidden, now, paused);
    hide A.Inv;
    hide B.ConnInv;
  }

  lemma PartsEnabled(s: State, e: Event)
    requires Enabled(s, e)
    ensures |PartA(s, e)| <= 1 && (PartA(s, e) == [] || A.Enabled(s.a, PartA(s, e)[0]))
    ensures |PartB(e)| <= 1 && (PartB(e) == [] || B.Enabled(s.b, PartB(e)[0]))
    ensures Step(s, e).a == NextA(s.a, PartA(s, e)) && Step(s, e).b == NextB(s.b, PartB(e))
  {
    hide A.Step;
    hide B.Step;
    hide NextA;
    hide NextB;
    hide New;
  }

  lemma StepKeepsInv(s: State, e: Event)
    requires Inv(s) && Enabled(s, e)
    ensures Inv(Step(s, e))
  {
    PartsEnabled(s, e);
    hide Step;
    hide New;
    var partA, partB := PartA(s, e), PartB(e);
    if partA != [] { KeepsA(s.a, partA[0]); }
    if partB != [] { KeepsB(s.b, partB[0]); }
    hide A.Inv;
    hide InvB;
    hide A.Step;
    hide B.Step;
    hide A.Enabled;
    hide B.Enabled;
  }

  lemma KeepsA(s: A.State, e: A.Event)
    requires A.Inv(s) && A.Enabled(s, e)
    ensures var t := A.Step(s, e);
      && A.Inv(t)
      && t.paused == (if e.SetPaused? then e.paused else s.paused)
      && t.now == (if e.Wait? then s.now + e.ms else s.now)
      && t.stopped == (s.stopped || e.Unsubscribe?)
  {
    A.StepKeepsInv(s, e);
    EffectA(s, e);
    hide A.Inv;
    hide A.Step;
  }

  lemma KeepsB(s: B.State, e: B.Event)
    requires InvB(s) && B.Enabled(s, e)
    ensures var t := B.Step(s, e);
      && InvB(t)
      && t.buffer.paused == (if e.SetPaused? then e.paused else s.buffer.paused)
      && t.conn.now == (if e.Wait? then s.conn.now + e.ms else s.conn.now)
      && (s.conn.stopped || e.Unsubscribe? ==> t.conn.stopped)
  {
    B.StepKeepsConn(s, e);
    B.StepKeepsClock(s, e);
    EffectB(s, e);
    hide B.ConnInv;
    hide B.ClockInv;
    hide B.Step;
  }

  lemma StepGrowsLog(s: State, e: Event)
    requires Inv(s) && Enabled(s, e)
    ensures var t := Step(s, e);
      && s.log <= t.log
      && |t.log| - |s.log| ==
           |t.a.delivered| - |s.a.delivered| + |t.b.buffer.delivered| - |s.b.buffer.delivered|
      && (s.a.paused || s.a.stopped ==> t.log == s.log)
      && (s.a.paused && !e.Hold? ==> t.a.paused)
  {
    PartsEnabled(s, e);
    hide A.Inv;
    hide B.ConnInv;
    hide B.ClockInv;
    hide A.Step;
    hide B.Step;
    hide A.Enabled;
    hide B.Enabled;
    var partA, partB := PartA(s, e), PartB(e);
    if partA != [] { EffectA(s.a, partA[0]); }
    if partB != [] { EffectB(s.b, partB[0]); }
  }

  // ---------------------------------------------------------------- whole runs

  /** `t` is reached from `s` by the events in order. */
  ghost predicate Leads(s: State, events: seq<Event>, t: State)
    decreases events
  {
    if events == [] then s == t
    else Enabled(s, events[0]) && Leads(Step(s, events[0]), events[1..], t)
  }

  lemma PrependA(s: A.State, part: seq<A.Event>, rest: seq<A.Event>, t: A.State) returns (events: seq<A.Event>)
    requires |part| <= 1 && (part == [] || A.Enabled(s, part[0]))
    requires A.Leads(NextA(s, part), rest, t)
    ensures A.Leads(s, events, t)
  {
    events := part + rest;
    hide A.Step;
    hide A.Enabled;
    if part == [] {
      assert events == rest;
    } else {
      assert events[0] == part[0] && events[1..] == rest;
    }
  }

  lemma PrependB(s: B.State, part: seq<B.Event>, rest: seq<B.Event>, t: B.State) returns (events: seq<B.Event>)
    requires |part| <= 1 && (part == [] || B.Enabled(s, part[0]))
    requires R.Leads(NextB(s, part), rest, t)
    ensures R.Leads(s, events, t)
  {
    events := part + rest;
    hide B.Step;
    hide B.Enabled;
    if part == [] {
      assert events == rest;
    } else {
      assert events[0] == part[0] && events[1..] == rest;
    }
  }

  /** A run of the composite is a run of each adapter; everything proved of one adapter holds within it. */
  lemma {:induction false} RunProjects(s: State, events: seq<Event>, t: State)
      returns (eventsA: seq<A.Event>, eventsB: seq<B.Event>)
    requires Leads(s, events, t)
    ensures A.Leads(s.a, eventsA, t.a) && R.Leads(s.b, eventsB, t.b)
    decreases events
  {
    hide A.Leads;
    hide R.Leads;
    hide Step;
    hide Enabled;
    hide PartA;
    hide PartB;
    hide NextA;
    hide NextB;
    if events == [] {
      eventsA, eventsB := NoEvents(s);
    } else {
      var e := events[0];
      PartsEnabled(s, e);
      eventsA, eventsB := RunProjects(Step(s, e), events[1..], t);
      eventsA := PrependA(s.a, PartA(s, e), eventsA, t.a);
      eventsB := PrependB(s.b, PartB(e), eventsB, t.b);
    }
  }

  lemma NoEvents(s: State) returns (eventsA: seq<A.Event>, eventsB: seq<B.Event>)
    ensures A.Leads(s.a, eventsA, s.a) && R.Leads(s.b, eventsB, s.b)
  {
    eventsA, eventsB := [], [];
  }

  /** `log` interleaves `a` and `b`, each in its own order. */
  ghost predicate Interleaves(log: seq<seq<Price>>, a: seq<seq<Price>>, b: seq<seq<Price>>)
    decreases |log|
  {
    if log == [] then a == [] && b == []
    else
      var last, rest := log[|log| - 1], log[..|log| - 1];
      || (a != [] && a[|a| - 1] == last && Interleaves(rest, a[..|a| - 1], b))
      || (b != [] && b[|b| - 1] == last && Interleaves(rest, a, b[..|b| - 1]))
  }

  lemma InterleavesMore(log: seq<seq<Price>>, a: seq<seq<Price>>, b: seq<seq<Price>>, x: seq<Price>)
    requires Interleaves(log, a, b)
    ensures Interleaves(log + [x], a + [x], b) && Interleaves(log + [x], a, b + [x])
  {
    assert (log + [x])[..|log|] == log && (a + [x])[..|a|] == a && (b + [x])[..|b|] == b;
  }

  lemma DeliversOne(s: A.State, e: A.Event) returns (batch: seq<Price>)
    requires A.Enabled(s, e)
    ensures var before, after := s.delivered, A.Step(s, e).delivered;
      after == before || after == before + [batch]
  {
    batch := if e.Message? && e.frame.Some? then e.frame.value else [];
    hide Delay;
  }

  lemma DeliversPending(s: B.State, e: B.Event)
    requires B.Enabled(s, e)
    ensures var before, after := s.buffer.delivered, B.Step(s, e).buffer.delivered;
      after == before || after == before + [s.buffer.pending]
  {
    B.BufferSteps(s, e);
    hide B.Step;
    hide B.Enabled;
  }

  /** A step hands over nothing, one batch of the backend, or the pending trades. */
  lemma NewBatches(s: State, e: Event) returns (batch: seq<Price>)
    requires Inv(s) && Enabled(s, e)
    ensures var t := Step(s, e);
      var a, b, a', b' := s.a.delivered, s.b.buffer.delivered, t.a.delivered, t.b.buffer.delivered;
      || (t.log == s.log && a' == a && b' == b)
      || (t.log == s.log + [batch] && a' == a + [batch] && b' == b)
      || (t.log == s.log + [s.b.buffer.pending] && a' == a && b' == b + [s.b.buffer.pending])
  {
    batch := [];
    PartsEnabled(s, e);
    var partA, partB := PartA(s, e), PartB(e);
    if e.Backend? {
      batch := DeliversOne(s.a, e.a);
    } else {
      if partA != [] { QuietA(s.a, partA[0]); }
      if partB != [] { DeliversPending(s.b, partB[0]); }
    }
    hide A.Step;
    hide B.Step;
    hide A.Enabled;
    hide B.Enabled;
    hide Inv;
  }

  lemma QuietA(s: A.State, e: A.Event)
    requires A.Enabled(s, e) && !OwnA(e)
    ensures A.Step(s, e).delivered == s.delivered
  {
  }

  ghost predicate LogInterleaves(s: State) { Interleaves(s.log, s.a.delivered, s.b.buffer.delivered) }

  lemma StepInterleaves(s: State, e: Event)
    requires Inv(s) && Enabled(s, e) && LogInterleaves(s)
    ensures LogInterleaves(Step(s, e))
  {
    var batch := NewBatches(s, e);
    InterleavesMore(s.log, s.a.delivered, s.b.buffer.delivered, batch);
    InterleavesMore(s.log, s.a.delivered, s.b.buffer.delivered, s.b.buffer.pending);
    hide Interleaves;
    hide Step;
    hide Enabled;
    hide Inv;
  }

  lemma {:induction false} RunInterleaves(s: State, events: seq<Event>, t: State)
    requires Inv(s) && Leads(s, events, t) && LogInterleaves(s)
    ensures LogInterleaves(t)
    decreases events
  {
    if events != [] {
      StepKeepsInv(s, events[0]);
      StepInterleaves(s, events[0]);
      hide LogInterleaves;
      hide Inv;
      hide Enabled;
      hide Step;
      RunInterleaves(Step(s, events[0]), events[1..], t);
    }
  }

  /** In every reachable state the subscriber's log is an interleaving of exactly what the two adapters delivered,
      each in its own order. */
  lemma LogIsInterleaving(hasFrames: bool, hidden: bool, now: int, paused: bool, events: seq<Event>, t: State)
    requires Leads(Initial(hasFrames, hidden, now, paused), events, t)
    ensures Interleaves(t.log, t.a.delivered, t.b.buffer.delivered)
  {
    InitialInv(hasFrames, hidden, now, paused);
    assert LogInterleaves(Initial(hasFrames, hidden, now, paused));
    RunInterleaves(Initial(hasFrames, hidden, now, paused), events, t);
    hide Leads;
    hide Initial;
    hide Interleaves;
  }

  /** The subscriber's log only grows, by as many batches as the two adapters deliver. */
  lemma {:induction false} RunKeepsInv(s: State, events: seq<Event>, t: State)
    requires Inv(s) && Leads(s, events, t)
    ensures Inv(t) && s.log <= t.log
    ensures |t.log| - |s.log| == |t.a.delivered| - |s.a.delivered| + |t.b.buffer.delivered| - |s.b.buffer.delivered|
    decreases events
  {
    if events != [] {
      StepKeepsInv(s, events[0]);
      StepGrowsLog(s, events[0]);
      hide Inv;
      hide Enabled;
      hide Step;
      RunKeepsInv(Step(s, events[0]), events[1..], t);
    }
  }

  /** Once either adapter is stopped, by the joint unsubscription from outside or from inside a delivery, both
      are, and neither opens, arms or delivers anything, whatever still happens to either. */
  lemma StoppedIsFinal(hasFrames: bool, hidden: bool, now: int, paused: bool,
                       before: seq<Event>, s: State, events: seq<Event>, t: State)
    requires Leads(Initial(hasFrames, hidden, now, paused), before, s) && (s.a.stopped || s.b.conn.stopped)
    requires Leads(s, events, t)
    ensures t.log == s.log
    ensures t.a.stopped && |t.a.sockets| == |s.a.sockets| && t.a.timers == map[]
    ensures t.b.conn.stopped && |t.b.conn.sockets| == |s.b.conn.sockets| && t.b.conn.timers == map[]
  {
    InitialInv(hasFrames, hidden, now, paused);
    RunKeepsInv(Initial(hasFrames, hidden, now, paused), before, s);
    RunKeepsInv(s, events, t);
    var eventsA, eventsB := RunProjects(s, events, t);
    hide A.Leads;
    hide R.Leads;
    hide Leads;
    hide Initial;
    A.StoppedIsFinal(s.a, eventsA, t.a);
    R.StoppedIsFinal(s.b, eventsB, t.b);
    hide A.Inv;
    hide B.ConnInv;
    hide B.ClockInv;
  }

  /** While the feed is held the subscriber is given nothing by either source. */
  lemma {:induction false} HeldIsSilent(s: State, events: seq<Event>, t: State)
    requires Inv(s) && s.a.paused && Leads(s, events, t)
    requires forall i :: 0 <= i < |events| ==> !events[i].Hold?
    ensures t.log == s.log
    decreases events
  {
    if events != [] {
      StepKeepsInv(s, events[0]);
      StepGrowsLog(s, events[0]);
      hide Inv;
      hide Enabled;
      hide Step;
      HeldIsSilent(Step(s, events[0]), events[1..], t);
    }
  }

  // ---------------------------------------------------------------- which source a quote comes from

  predicate AllUsd(prices: seq<Price>) { forall i :: 0 <= i < |prices| ==> prices[i].currency.USD? }

  lemma {:induction false} PutUsd(view: seq<Price>, p: Price)
    requires AllUsd(view) && p.currency.USD?
    ensures AllUsd(Put(view, p))
  {
    if view != [] {
      PutUsd(view[1..], p);
    }
  }

  lemma BufferedUsd(s: B.State, e: B.Event)
    requires AllUsd(s.buffer.pending) && B.Enabled(s, e)
    ensures AllUsd(B.Step(s, e).buffer.pending)
  {
    B.BufferSteps(s, e);
    if e.Message? && e.frame.Trade? { PutUsd(s.buffer.pending, B.PriceOf(e.frame)); }
    hide B.Step;
    hide Put;
  }

  /** What a subscriber's list shows under a key once it was given one more batch. */
  lemma BatchEntry(view: seq<Price>, batches: seq<seq<Price>>, batch: seq<Price>, q: Price)
    ensures Entry(B.View(view, batches + [batch]), q) ==
      if Latest(batch, q).Found? then Latest(batch, q) else Entry(B.View(view, batches), q)
  {
    assert (batches + [batch])[..|batches|] == batches;
    LastWriteWins(B.View(view, batches), batch, q);
    hide PutAll;
    hide Entry;
    hide Latest;
  }

  lemma {:induction false} UsdHasNone(prices: seq<Price>, q: Price)
    requires AllUsd(prices) && !q.currency.USD?
    ensures Latest(prices, q).Nothing?
  {
    if prices != [] {
      UsdHasNone(prices[..|prices| - 1], q);
    }
  }

  /** The merged list agrees with the backend's batches alone under the key of `q`. */
  ghost predicate FromBackend(s: State, view: seq<Price>, q: Price) {
    AllUsd(s.b.buffer.pending) && Entry(B.View(view, s.log), q) == Entry(B.View(view, s.a.delivered), q)
  }

  lemma StepKeepsSource(s: State, e: Event, view: seq<Price>, q: Price)
    requires Inv(s) && Enabled(s, e) && FromBackend(s, view, q) && !q.currency.USD?
    ensures FromBackend(Step(s, e), view, q)
  {
    var batch := NewBatches(s, e);
    var pending := s.b.buffer.pending;
    PartsEnabled(s, e);
    if PartB(e) != [] { BufferedUsd(s.b, PartB(e)[0]); }
    hide B.Step;
    hide B.Enabled;
    hide PartA;
    hide PartB;
    hide NextA;
    hide Step;
    hide Enabled;
    hide Inv;
    UsdHasNone(pending, q);
    BatchEntry(view, s.log, batch, q);
    BatchEntry(view, s.a.delivered, batch, q);
    BatchEntry(view, s.log, pending, q);
    hide B.View;
    hide Entry;
    hide Latest;
    hide AllUsd;
  }

  lemma {:induction false} RunKeepsSource(s: State, events: seq<Event>, t: State, view: seq<Price>, q: Price)
    requires Inv(s) && Leads(s, events, t) && FromBackend(s, view, q) && !q.currency.USD?
    ensures FromBackend(t, view, q)
    decreases events
  {
    if events != [] {
      StepKeepsInv(s, events[0]);
      StepKeepsSource(s, events[0], view, q);
      hide Inv;
      hide Enabled;
      hide Step;
      hide FromBackend;
      RunKeepsSource(Step(s, events[0]), events[1..], t, view, q);
    }
  }

  /** In every interleaving of the two feeds, the quotes in any currency but USD are exactly the backend's. */
  lemma OtherCurrenciesAreTheBackends(hasFrames: bool, hidden: bool, now: int, paused: bool,
                                      events: seq<Event>, t: State, view: seq<Price>, q: Price)
    requires Leads(Initial(hasFrames, hidden, now, paused), events, t) && !q.currency.USD?
    ensures Entry(B.View(view, t.log), q) == Entry(B.View(view, t.a.delivered), q)
  {
    InitialInv(hasFrames, hidden, now, paused);
    assert FromBackend(Initial(hasFrames, hidden, now, paused), view, q);
    RunKeepsSource(Initial(hasFrames, hidden, now, paused), events, t, view, q);
    hide Leads;
  }

  /** Under every key the later source wins simply by arriving later. */
  lemma {:induction false} LaterSourceWins(view: seq<Price>, log: seq<seq<Price>>, q: Price)
    ensures B.View(view, log) == PutAll(view, Flat(log))
    ensures Entry(B.View(view, log), q) == if Latest(Flat(log), q).Found? then Latest(Flat(log), q) else Entry(view, q)
  {
    if log != [] {
      var n := |log| - 1;
      LaterSourceWins(view, log[..n], q);
      hide PutAll;
      hide Entry;
      hide Latest;
      PutAllConcat(view, Flat(log[..n]), log[n]);
    }
    LastWriteWins(view, Flat(log), q);
  }

  /** The well-formed backend frames among the events, but for those that arrive while the feed is held. */
  function Frames(paused: bool, events: seq<Event>): seq<seq<Price>>
    decreases events
  {
    if events == [] then []
    else
      match events[0]
      case Backend(a) =>
        (if a.Message? && a.frame.Some? && !paused then [a.frame.value] else []) + Frames(paused, events[1..])
      case Hold(p) => Frames(p, events[1..])
      case _ => Frames(paused, events[1..])
  }

  /** The exchange trades among the events. */
  function Trades(events: seq<Event>): seq<Price>
    decreases events
  {
    if events == [] then []
    else (if events[0].Binance? then R.TradeOf(events[0].b) else []) + Trades(events[1..])
  }

  lemma StepTakes(s: State, e: Event)
    requires Enabled(s, e)
    ensures var t := Step(s, e);
      && t.a.delivered == s.a.delivered + Frames(s.a.paused, [e])
      && t.a.paused == (if e.Hold? then e.paused else s.a.paused)
      && t.b.buffer.received == s.b.buffer.received + Trades([e])
  {
    PartsEnabled(s, e);
    if PartA(s, e) != [] { A.DeliveredStep(s.a, PartA(s, e)[0]); }
    if PartB(e) != [] { R.ReceivedStep(s.b, PartB(e)[0]); }
    hide Step;
    hide A.Step;
    hide B.Step;
    hide A.Enabled;
    hide B.Enabled;
    hide Cancels;
  }

  lemma FramesSplit(paused: bool, events: seq<Event>)
    requires events != []
    ensures var e := events[0];
      Frames(paused, events) == Frames(paused, [e]) + Frames(if e.Hold? then e.paused else paused, events[1..])
    ensures Trades(events) == Trades([events[0]]) + Trades(events[1..])
  {
    assert [events[0]][1..] == [];
  }

  /** The fan-in loses nothing: over every run the backend adapter hands over every frame it should, and the exchange
      adapter takes in every trade. */
  lemma {:induction false} RunTakes(s: State, events: seq<Event>, t: State)
    requires Leads(s, events, t)
    ensures t.a.delivered == s.a.delivered + Frames(s.a.paused, events)
    ensures t.b.buffer.received == s.b.buffer.received + Trades(events)
    decreases events
  {
    hide Step;
    hide Enabled;
    NothingTaken(s);
    hide Frames;
    hide Trades;
    if events != [] {
      var next := Step(s, events[0]);
      StepTakes(s, events[0]);
      FramesSplit(s.a.paused, events);
      RunTakes(next, events[1..], t);
      assert t.a.delivered == s.a.delivered + (Frames(s.a.paused, [events[0]]) + Frames(next.a.paused, events[1..]));
      assert t.b.buffer.received == s.b.buffer.received + (Trades([events[0]]) + Trades(events[1..]));
    }
  }

  lemma NothingTaken(s: State)
    ensures s.a.delivered == s.a.delivered + Frames(s.a.paused, [])
    ensures s.b.buffer.received == s.b.buffer.received + Trades([])
  {
  }

  /** So in any currency but USD the list shows the last quote of a backend frame that was not held. */
  lemma ListIsOfFrames(hasFrames: bool, hidden: bool, now: int, paused: bool,
                       events: seq<Event>, t: State, view: seq<Price>, q: Price)
    requires Leads(Initial(hasFrames, hidden, now, paused), events, t) && !q.currency.USD?
    ensures var frames := Flat(Frames(paused, events));
      Entry(B.View(view, t.log), q) == if Latest(frames, q).Found? then Latest(frames, q) else Entry(view, q)
  {
    OtherCurrenciesAreTheBackends(hasFrames, hidden, now, paused, events, t, view, q);
    RunTakes(Initial(hasFrames, hidden, now, paused), events, t);
    assert t.a.delivered == Frames(paused, events);
    LaterSourceWins(view, t.a.delivered, q);
    hide Leads;
    hide Frames;
    hide Entry;
    hide Latest;
    hide B.View;
  }

  /** A mounted component's list after any batches is the view of them. */
  method DeliverAll(component: LivePrices, batches: seq<seq<Price>>)
    requires !component.cancelled && Distinct(component.prices)
    modifies component
    ensures !component.cancelled && Distinct(component.prices)
    ensures component.prices == B.View(old(component.prices), batches)
  {
    hide PutAll;
    hide Distinct;
    for i := 0 to |batches|
      invariant !component.cancelled && Distinct(component.prices)
      invariant component.prices == B.View(old(component.prices), batches[..i])
    {
      assert batches[..i + 1][..i] == batches[..i];
      DistinctIsKept(component.prices);
      component.OnPrices(batches[i]);
    }
    assert batches[..|batches|] == batches;
  }
}
