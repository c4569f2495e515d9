/** Whole runs of the exchange adapter: its connection, its stray frames, its waiting, and what it delivers. */
module BinanceRuns {
  import opened Wrappers
  import opened PriceMap
  import opened Backoff
  import opened BinanceFeed

  /** `t` is reached from `s` by the events in order. */
  ghost predicate Leads(s: State, events: seq<Event>, t: State)
    decreases events
  {
    if events == [] then s == t
    else Enabled(s, events[0]) && Leads(Step(s, events[0]), events[1..], t)
  }

  lemma {:induction false} RunKeepsInv(s: State, events: seq<Event>, t: State, view: seq<Price>)
    requires ConnInv(s.conn) && ClockInv(s.clock, s.conn.stopped) && Shows(s.buffer, view) && Leads(s, events, t)
    ensures ConnInv(t.conn) && ClockInv(t.clock, t.conn.stopped) && Shows(t.buffer, view)
    decreases events
  {
    hide ConnInv;
    hide ClockInv;
    hide Shows;
    hide Enabled;
    hide Step;
    hide FlushBuffer;
    hide Receive;
    if events != [] {
      StepKeepsConn(s, events[0]);
      StepKeepsClock(s, events[0]);
      BufferSteps(s, events[0]);
      FlushKeepsShown(s.buffer, view);
      if events[0].Message? { ReceiveKeepsShown(s.buffer, events[0].frame, view); }
      if events[0].SetPaused? { HoldKeepsShown(s.buffer, events[0].paused, view); }
      RunKeepsInv(Step(s, events[0]), events[1..], t, view);
    }
  }

  lemma Reachable(hasFrames: bool, hidden: bool, now: int, paused: bool, events: seq<Event>, t: State, view: seq<Price>)
    requires Leads(Initial(hasFrames, hidden, now, paused), events, t)
    ensures ConnInv(t.conn) && ClockInv(t.clock, t.conn.stopped) && Shows(t.buffer, view)
  {
    var s := Initial(hasFrames, hidden, now, paused);
    InitialInv(hasFrames, hidden, now, paused);
    assert s.buffer.received[..0] == [];
    assert Shows(s.buffer, view);
    RunKeepsInv(s, events, t, view);
    hide Leads;
  }

  function Unclosed(c: Conn): set<nat> { set i: nat | i < |c.sockets| && !c.sockets[i].Closed? }

  /** Some symbol list came back without a stream. */
  ghost predicate ListWithoutStreams(events: seq<Event>) {
    exists i :: 0 <= i < |events| && events[i].SymbolsArrived? && !HasStreams(events[i].symbols)
  }

  lemma {:induction false} GaveUpIff(s: State, events: seq<Event>, t: State)
    requires Leads(s, events, t) && !t.conn.stopped
    ensures !s.conn.stopped && (t.conn.gaveUp <==> s.conn.gaveUp || ListWithoutStreams(events))
    decreases events
  {
    if events != [] {
      var e, rest := events[0], events[1..];
      GaveUpIff(Step(s, e), rest, t);
      GaveUpStep(s, e);
      WithoutStreamsSplits(events);
      hide Step;
      hide Enabled;
      hide ListWithoutStreams;
    }
  }

  lemma WithoutStreamsSplits(events: seq<Event>)
    requires events != []
    ensures ListWithoutStreams(events) <==>
      (events[0].SymbolsArrived? && !HasStreams(events[0].symbols)) || ListWithoutStreams(events[1..])
  {
    hide HasStreams;
    var rest := events[1..];
    if ListWithoutStreams(events) {
      var i :| 0 <= i < |events| && events[i].SymbolsArrived? && !HasStreams(events[i].symbols);
      if i > 0 { assert rest[i - 1].SymbolsArrived? && !HasStreams(rest[i - 1].symbols); }
    }
    if ListWithoutStreams(rest) {
      var i :| 0 <= i < |rest| && rest[i].SymbolsArrived? && !HasStreams(rest[i].symbols);
      assert events[i + 1].SymbolsArrived? && !HasStreams(events[i + 1].symbols);
    }
  }

  lemma GaveUpStep(s: State, e: Event)
    requires Enabled(s, e) && !Step(s, e).conn.stopped
    ensures !s.conn.stopped
    ensures Step(s, e).conn.gaveUp <==> s.conn.gaveUp || (e.SymbolsArrived? && !HasStreams(e.symbols))
  {
    hide Delay;
    hide HasStreams;
    hide FlushBuffer;
    hide Receive;
  }

  /** In every reachable state there is at most one awaited list, unclosed socket or armed reconnect timer;
      while subscribed there is exactly one if and only if no symbol list came back without streams. */
  lemma SingleAttempt(hasFrames: bool, hidden: bool, now: int, paused: bool, events: seq<Event>, t: State)
    requires Leads(Initial(hasFrames, hidden, now, paused), events, t)
    ensures t.conn.awaiting + |Unclosed(t.conn)| + |t.conn.timers| <= 1
    ensures !t.conn.stopped ==>
      (t.conn.awaiting + |Unclosed(t.conn)| + |t.conn.timers| == 1 <==> !ListWithoutStreams(events))
    ensures t.conn.stopped ==> t.conn.timers == map[]
  {
    if !t.conn.stopped { GaveUpIff(Initial(hasFrames, hidden, now, paused), events, t); }
    assert !Initial(hasFrames, hidden, now, paused).conn.gaveUp;
    hide ListWithoutStreams;
    Reachable(hasFrames, hidden, now, paused, events, t, []);
    hide Leads;
    hide Initial;
    hide TotalDelay;
    hide Shows;
    hide ClockInv;
    var c := t.conn;
    if Live(c) {
      assert Unclosed(c) == {c.ws.value};
    } else {
      assert Unclosed(c) == {};
      if c.timers != map[] {
        var k :| k in c.timers;
        assert c.timers.Keys == {k};
        assert |c.timers.Keys| == 1;
      }
    }
  }

  /** The trade an event brings. */
  function TradeOf(e: Event): seq<Price> { if e.Message? && e.frame.Trade? then [PriceOf(e.frame)] else [] }

  /** The trades among the events. */
  function Trades(events: seq<Event>): seq<Price>
    decreases events
  {
    if events == [] then [] else TradeOf(events[0]) + Trades(events[1..])
  }

  lemma {:induction false} RunReceives(s: State, events: seq<Event>, t: State)
    requires Leads(s, events, t)
    ensures t.buffer.received == s.buffer.received + Trades(events)
    decreases events
  {
    if events == [] {
      assert s.buffer.received + [] == s.buffer.received;
    } else {
      RunReceives(Step(s, events[0]), events[1..], t);
      ReceivedStep(s, events[0]);
      Regroup(s.buffer.received, TradeOf(events[0]), Trades(events[1..]));
      hide Step;
      hide Enabled;
      hide TradeOf;
    }
  }

  lemma Regroup(a: seq<Price>, b: seq<Price>, c: seq<Price>)
    ensures a + b + c == a + (b + c)
  {
  }

  lemma ReceivedStep(s: State, e: Event)
    requires Enabled(s, e)
    ensures Step(s, e).buffer.received == s.buffer.received + TradeOf(e)
  {
    hide Delay;
    hide HasStreams;
    hide Put;
    hide PriceOf;
    hide Delivers;
  }

  lemma AllReceived(hasFrames: bool, hidden: bool, now: int, paused: bool, events: seq<Event>, t: State)
    requires Leads(Initial(hasFrames, hidden, now, paused), events, t)
    ensures t.buffer.received == Trades(events)
  {
    RunReceives(Initial(hasFrames, hidden, now, paused), events, t);
    hide Leads;
    hide Trades;
    assert [] + Trades(events) == Trades(events);
  }

  /** For every interleaving, what the subscriber was given and then the pending trades merge to the
      last-write-wins list of every trade received, holds included. */
  lemma CoalescedRunIsTransparent(hasFrames: bool, hidden: bool, now: int, paused: bool,
                                  events: seq<Event>, t: State, view: seq<Price>)
    requires Leads(Initial(hasFrames, hidden, now, paused), events, t)
    ensures PutAll(View(view, t.buffer.delivered), t.buffer.pending) == PutAll(view, Trades(events))
    ensures t.buffer.pending == [] ==> View(view, t.buffer.delivered) == PutAll(view, Trades(events))
  {
    Reachable(hasFrames, hidden, now, paused, events, t, view);
    AllReceived(hasFrames, hidden, now, paused, events, t);
    hide Trades;
    hide Leads;
    hide Initial;
    hide ConnInv;
    hide ClockInv;
    var b := t.buffer;
    FlushKeepsView(b.(paused := false), view);
    var done, recent := b.received[..b.flushed], b.received[b.flushed..];
    hide View;
    hide PutAll;
    CoalescingIsTransparent(PutAll(view, done), recent);
    PutAllConcat(view, done, recent);
    assert done + recent == b.received;
    NothingToPut(View(view, b.delivered));
  }

  /** The symbol of a frame that quotes the coin: the coin with USDT behind it, or a coin that has no USDT behind it. */
  ghost predicate Quotes(symbol: string, coin: string) {
    symbol == coin + "USDT" || (symbol == coin && !(|coin| >= 4 && coin[|coin| - 4..] == "USDT"))
  }

  lemma QuotedCoin(symbol: string, coin: string)
    ensures Quotes(symbol, coin) <==> CoinOf(symbol) == coin
  {
    CoinIsBase(symbol);
    CoinIsBase(coin);
    if symbol == coin + "USDT" { assert symbol[|coin|..] == "USDT"; }
  }

  /** A trade is buffered under the coin that its symbol quotes, in dollars, with its price and time; under every other
      key the buffer is as before. */
  lemma TradeIsBuffered(s: State, i: nat, symbol: string, coin: string, price: string, at: int)
    requires Enabled(s, Message(i, Frame.Trade(symbol, price, at))) && Quotes(symbol, coin)
    ensures var p, b := Price(coin, USD, price, at), Step(s, Message(i, Frame.Trade(symbol, price, at))).buffer;
      && b.received == s.buffer.received + [p]
      && forall q: Price :: Entry(b.pending, q) ==
           if q.coin == coin && q.currency == USD then Found(p) else Entry(s.buffer.pending, q)
  {
    QuotedCoin(symbol, coin);
    var p := Price(coin, USD, price, at);
    forall q: Price ensures Entry(Put(s.buffer.pending, p), q) ==
      if q.coin == coin && q.currency == USD then Found(p) else Entry(s.buffer.pending, q)
    {
      PutEntry(s.buffer.pending, p, q);
    }
    hide CoinOf;
    hide Put;
    hide Quotes;
  }

  /** The last trade frame among the events that quotes the coin. */
  ghost function LastQuote(events: seq<Event>, coin: string): Frame
    decreases events
  {
    if events == [] then Other
    else
      var e, later := events[0], LastQuote(events[1..], coin);
      if later.Trade? then later
      else if e.Message? && e.frame.Trade? && Quotes(e.frame.symbol, coin) then e.frame
      else Other
  }

  /** What a list should show of the coin after such a frame, or with no frame at all. */
  ghost function Quoted(f: Frame, coin: string, before: Found): Found {
    if f.Trade? then Found(Price(coin, USD, f.price, f.at)) else before
  }

  lemma {:induction false} LatestIsLastQuote(events: seq<Event>, coin: string)
    ensures Latest(Trades(events), Price(coin, USD, "", 0)) == Quoted(LastQuote(events, coin), coin, Nothing)
    decreases events
  {
    if events != [] {
      var e, q := events[0], Price(coin, USD, "", 0);
      LatestIsLastQuote(events[1..], coin);
      LatestConcat(TradeOf(e), Trades(events[1..]), q);
      if e.Message? && e.frame.Trade? {
        QuotedCoin(e.frame.symbol, coin);
        assert Latest([PriceOf(e.frame)], q) ==
          if CoinOf(e.frame.symbol) == coin then Found(PriceOf(e.frame)) else Nothing by { assert [PriceOf(e.frame)][..0] == []; }
      }
      hide CoinOf;
      hide Quotes;
    }
  }

  lemma {:induction false} TradesAreUsd(events: seq<Event>, q: Price)
    requires q.currency != USD
    ensures Latest(Trades(events), q) == Nothing
    decreases events
  {
    if events != [] {
      TradesAreUsd(events[1..], q);
      LatestConcat(TradeOf(events[0]), Trades(events[1..]), q);
      hide CoinOf;
    }
  }

  /** For every interleaving and every coin: once what was delivered and what is pending are merged, the list shows the
      price and the time of the last frame that quotes the coin, or its old entry; entries in other currencies stay. */
  lemma MergedIsLastQuote(hasFrames: bool, hidden: bool, now: int, paused: bool,
                          events: seq<Event>, t: State, view: seq<Price>, coin: string)
    requires Leads(Initial(hasFrames, hidden, now, paused), events, t)
    ensures var merged, q := PutAll(View(view, t.buffer.delivered), t.buffer.pending), Price(coin, USD, "", 0);
      && Entry(merged, q) == Quoted(LastQuote(events, coin), coin, Entry(view, q))
      && forall other: Price :: other.currency != USD ==> Entry(merged, other) == Entry(view, other)
  {
    CoalescedRunIsTransparent(hasFrames, hidden, now, paused, events, t, view);
    LastWriteWins(view, Trades(events), Price(coin, USD, "", 0));
    LatestIsLastQuote(events, coin);
    forall other: Price | other.currency != USD ensures Entry(PutAll(view, Trades(events)), other) == Entry(view, other) {
      LastWriteWins(view, Trades(events), other);
      TradesAreUsd(events, other);
    }
    hide Leads;
    hide Initial;
    hide Trades;
    hide LastQuote;
    hide PutAll;
    hide View;
    hide Entry;
    hide Latest;
  }

  /** When a batch is handed over and when the subscription stops. */
  lemma HandsOverIff(s: State, e: Event)
    requires ClockInv(s.clock, s.conn.stopped) && Enabled(s, e)
    ensures var t := Step(s, e);
      var flushes := (e.FrameFired? && !s.conn.stopped) || (e.IntervalFired? && (s.clock.hidden || !s.clock.hasFrames));
      var hands := flushes && !s.buffer.paused && s.buffer.pending != [];
      && t.buffer.delivered == (if hands then s.buffer.delivered + [s.buffer.pending] else s.buffer.delivered)
      && (t.conn.stopped <==> s.conn.stopped || e.Unsubscribe? || (hands && e.cancels))
  {
    hide Delay;
    hide Put;
    hide HasStreams;
  }

  /** While subscribed and not held, a flush is always due: the next animation frame drains the buffer, and so
      does the fallback timer in a hidden tab or without animation frames. In a visible tab it does nothing. */
  lemma FlushIsDue(hasFrames: bool, hidden: bool, now: int, paused: bool, events: seq<Event>, t: State)
    requires Leads(Initial(hasFrames, hidden, now, paused), events, t) && !t.conn.stopped && !t.buffer.paused
    ensures t.clock.hasFrames ==> exists k :: Enabled(t, FrameFired(k, false))
    ensures forall k, cancels :: Enabled(t, FrameFired(k, cancels)) ==>
              Step(t, FrameFired(k, cancels)).buffer.pending == []
    ensures forall cancels :: Enabled(t, IntervalFired(cancels)) &&
              (if t.clock.hasFrames && !t.clock.hidden then Step(t, IntervalFired(cancels)) == t
               else Step(t, IntervalFired(cancels)).buffer.pending == [])
  {
    Reachable(hasFrames, hidden, now, paused, events, t, []);
    hide Leads;
    hide ConnInv;
    hide Shows;
    if t.clock.hasFrames { assert Enabled(t, FrameFired(t.clock.frame.value, false)); }
  }

  /** After unsubscribing nothing is opened, armed or delivered, whatever happens; in particular not by
      the symbol list that was awaited or the frame that was requested. */
  lemma {:induction false} StoppedIsFinal(s: State, events: seq<Event>, t: State)
    requires ConnInv(s.conn) && ClockInv(s.clock, true) && s.conn.stopped && Leads(s, events, t)
    ensures t.conn.stopped && |t.conn.sockets| == |s.conn.sockets| && t.conn.timers == map[]
    ensures t.buffer.delivered == s.buffer.delivered && |t.clock.frames| <= |s.clock.frames|
    decreases events
  {
    if events != [] {
      StepKeepsConn(s, events[0]);
      StepKeepsClock(s, events[0]);
      StoppedStep(s, events[0]);
      hide Step;
      hide Enabled;
      hide ConnInv;
      hide ClockInv;
      StoppedIsFinal(Step(s, events[0]), events[1..], t);
    }
    hide ClockInv;
    hide RunningInv;
  }

  lemma StoppedStep(s: State, e: Event)
    requires ClockInv(s.clock, true) && s.conn.stopped && Enabled(s, e)
    ensures var t := Step(s, e);
      && t.conn.stopped && |t.conn.sockets| == |s.conn.sockets|
      && t.buffer.delivered == s.buffer.delivered && t.clock.frames <= s.clock.frames
      && |t.clock.frames| <= |s.clock.frames|
  {
    hide Delay;
    hide HasStreams;
    SubsetSize(Step(s, e).clock.frames, s.clock.frames);
  }

  lemma {:induction false} SubsetSize(a: set<nat>, b: set<nat>)
    ensures a <= b ==> |a| <= |b|
  {
    if a <= b && a != {} {
      var x :| x in a;
      SubsetSize(a - {x}, b - {x});
    }
  }

  /** Unsubscribing from inside the subscriber: a frame that delivered the batch still asks for the next one,
      which then does nothing; the fallback timer does not. Unsubscribing between callbacks leaves no frame. */
  lemma StrayFrame(s: State)
    requires ClockInv(s.clock, s.conn.stopped) && !s.conn.stopped
    ensures forall k :: k in s.clock.frames && Delivers(s.buffer) ==>
      Step(s, FrameFired(k, true)).clock.frames == {s.clock.nextFrame}
    ensures Delivers(s.buffer) && (s.clock.hidden || !s.clock.hasFrames) ==>
      Step(s, IntervalFired(true)).conn.stopped && Step(s, IntervalFired(true)).clock.frames == {}
    ensures Step(s, Unsubscribe).clock.frames == {}
  {
    forall k | k in s.clock.frames ensures s.clock.frames - {k} == {} { }
    if s.clock.frame.Some? { assert s.clock.frames - {s.clock.frame.value} == {}; }
  }

  /** No frame fires, and the unsubscription is not called again. */
  predicate FrameStays(events: seq<Event>) {
    forall i :: 0 <= i < |events| ==> !events[i].FrameFired? && !events[i].Unsubscribe?
  }

  /** The subscription is cancelled from inside a frame's delivery, and the frame requested then stays. */
  ghost predicate CancelledInFrame(s: State, events: seq<Event>)
    decreases events
  {
    && events != []
    && Enabled(s, events[0])
    && if !s.conn.stopped && Step(s, events[0]).conn.stopped
       then events[0].FrameFired? && FrameStays(events[1..])
       else CancelledInFrame(Step(s, events[0]), events[1..])
  }

  /** Over every run, a stopped subscription still has a requested frame if and only if it was cancelled from
      inside a frame's delivery and the next frame has neither fired yet nor been cancelled by a second call. */
  lemma StrayFrameIff(hasFrames: bool, hidden: bool, now: int, paused: bool, events: seq<Event>, t: State)
    requires Leads(Initial(hasFrames, hidden, now, paused), events, t) && t.conn.stopped
    ensures t.clock.frames != {} <==> CancelledInFrame(Initial(hasFrames, hidden, now, paused), events)
  {
    InitialInv(hasFrames, hidden, now, paused);
    assert !Initial(hasFrames, hidden, now, paused).conn.stopped;
    StrayFrameOfRun(Initial(hasFrames, hidden, now, paused), events, t);
    hide Initial;
    hide Leads;
    hide CancelledInFrame;
  }

  lemma {:induction false} StrayFrameOfRun(s: State, events: seq<Event>, t: State)
    requires ClockInv(s.clock, s.conn.stopped) && !s.conn.stopped && Leads(s, events, t) && t.conn.stopped
    ensures t.clock.frames != {} <==> CancelledInFrame(s, events)
    decreases events
  {
    var e, rest := events[0], events[1..];
    StepKeepsClock(s, e);
    hide ClockInv;
    if Step(s, e).conn.stopped {
      StoppingStep(s, e);
      StoppedFrames(Step(s, e), rest, t);
    } else {
      StrayFrameOfRun(Step(s, e), rest, t);
    }
    hide Step;
    hide Enabled;
    hide FrameStays;
  }

  lemma StoppingStep(s: State, e: Event)
    requires ClockInv(s.clock, false) && !s.conn.stopped && Enabled(s, e) && Step(s, e).conn.stopped
    ensures Step(s, e).clock.frames != {} <==> e.FrameFired?
  {
    hide Delay;
    hide HasStreams;
    hide FlushBuffer;
    hide Receive;
    hide Delivers;
    if s.clock.frame.Some? { assert s.clock.frames - {s.clock.frame.value} == {}; }
    if e.FrameFired? { assert s.clock.nextFrame in Step(s, e).clock.frames; }
  }

  lemma {:induction false} StoppedFrames(s: State, events: seq<Event>, t: State)
    requires ClockInv(s.clock, true) && s.conn.stopped && Leads(s, events, t)
    ensures t.clock.frames != {} <==> s.clock.frames != {} && FrameStays(events)
    decreases events
  {
    if events != [] {
      StepKeepsClock(s, events[0]);
      StoppedFrameStep(s, events[0]);
      hide Step;
      hide Enabled;
      hide ClockInv;
      StoppedFrames(Step(s, events[0]), events[1..], t);
      NoneSplits(events);
      hide FrameStays;
    }
  }

  lemma NoneSplits(events: seq<Event>)
    requires events != []
    ensures FrameStays(events) <==> !events[0].FrameFired? && !events[0].Unsubscribe? && FrameStays(events[1..])
  {
    if FrameStays(events[1..]) {
      assert forall i :: 0 < i < |events| ==> events[i] == events[1..][i - 1];
    }
  }

  lemma StoppedFrameStep(s: State, e: Event)
    requires ClockInv(s.clock, true) && s.conn.stopped && Enabled(s, e)
    ensures Step(s, e).conn.stopped
    ensures Step(s, e).clock.frames != {} <==> s.clock.frames != {} && !e.FrameFired? && !e.Unsubscribe?
  {
    hide Delay;
    hide HasStreams;
    hide FlushBuffer;
    hide Receive;
    hide Delivers;
    if e.FrameFired? { assert s.clock.frames - {e.k} == {}; }
    if s.clock.frame.Some? { assert s.clock.frames - {s.clock.frame.value} == {}; }
  }

  /** Failures in a row: drops and failed symbol lists since the last open, on top of `n`. */
  function Failures(n: nat, events: seq<Event>): nat
    decreases events
  {
    if events == [] then n
    else Failures(match events[0] case Opened(_) => 0 case Dropped(_, _) => n + 1 case SymbolsFailed => n + 1 case _ => n,
                  events[1..])
  }

  lemma {:induction false} AttemptCountsFailures(s: State, events: seq<Event>, t: State)
    requires Leads(s, events, t) && !t.conn.stopped
    ensures !s.conn.stopped && t.conn.attempt == Failures(s.conn.attempt, events)
    decreases events
  {
    if events != [] {
      AttemptCountsFailures(Step(s, events[0]), events[1..], t);
      AttemptSteps(s, events[0]);
      hide Step;
      hide Enabled;
    }
  }

  lemma AttemptSteps(s: State, e: Event)
    requires Enabled(s, e) && !Step(s, e).conn.stopped
    ensures !s.conn.stopped
    ensures Step(s, e).conn.attempt == match e
      case Opened(_) => 0
      case Dropped(_, _) => s.conn.attempt + 1
      case SymbolsFailed => s.conn.attempt + 1
      case _ => s.conn.attempt
  {
    hide Delay;
    hide HasStreams;
    hide FlushBuffer;
    hide Receive;
  }

  /** A drop or a failed symbol list arms exactly one timer, due after the capped power of two of the failures
      before it. */
  lemma FailureArmsBackoff(hasFrames: bool, hidden: bool, now: int, paused: bool,
                           events: seq<Event>, s: State, e: Event)
    requires Leads(Initial(hasFrames, hidden, now, paused), events, s) && !s.conn.stopped && Enabled(s, e)
    requires e.Dropped? || e.SymbolsFailed?
    ensures var c, d := Step(s, e).conn, 1000 * Pow2(Failures(0, events));
      c.timer.Some? && c.timers == map[c.timer.value := s.conn.now + if d <= 30000 then d else 30000]
  {
    Reachable(hasFrames, hidden, now, paused, events, s, []);
    AttemptCountsFailures(Initial(hasFrames, hidden, now, paused), events, s);
    assert Initial(hasFrames, hidden, now, paused).conn.attempt == 0;
    FailureArms(s, e);
    hide Leads;
    hide Failures;
    hide Pow2;
    hide ConnInv;
    hide Step;
  }

  lemma FailureArms(s: State, e: Event)
    requires ConnInv(s.conn) && !s.conn.stopped && Enabled(s, e) && (e.Dropped? || e.SymbolsFailed?)
    ensures var c := Step(s, e).conn;
      c.timer.Some? && c.timers == map[c.timer.value := s.conn.now + Delay(s.conn.attempt + 1)]
  {
    hide TotalDelay;
    hide Delay;
    assert s.conn.timers == map[];
  }

  /** The clock after the events. */
  function ClockAfter(now: int, events: seq<Event>): int
    decreases events
  {
    if events == [] then now
    else ClockAfter(match events[0] case Wait(ms) => now + ms case _ => now, events[1..])
  }

  /** When the current streak of failures began: the time of its first failure, with `n` failures so far and the
      last streak begun at `since`. */
  function StreakStart(n: nat, now: int, since: int, events: seq<Event>): int
    decreases events
  {
    if events == [] then since
    else
      var start := if n == 0 then now else since;
      match events[0]
      case Opened(_) => StreakStart(0, now, since, events[1..])
      case Dropped(_, _) => StreakStart(n + 1, now, start, events[1..])
      case SymbolsFailed => StreakStart(n + 1, now, start, events[1..])
      case Wait(ms) => StreakStart(n, now + ms, since, events[1..])
      case _ => StreakStart(n, now, since, events[1..])
  }

  lemma {:induction false} HistoryIsOfEvents(s: State, events: seq<Event>, t: State)
    requires Leads(s, events, t) && !t.conn.stopped
    ensures !s.conn.stopped && t.conn.now == ClockAfter(s.conn.now, events)
    ensures t.conn.failingSince == StreakStart(s.conn.attempt, s.conn.now, s.conn.failingSince, events)
    decreases events
  {
    if events != [] {
      HistoryIsOfEvents(Step(s, events[0]), events[1..], t);
      AttemptSteps(s, events[0]);
      HistoryStep(s, events[0]);
      hide Step;
      hide Enabled;
    }
  }

  lemma HistoryStep(s: State, e: Event)
    requires Enabled(s, e) && !Step(s, e).conn.stopped
    ensures Step(s, e).conn.now == if e.Wait? then s.conn.now + e.ms else s.conn.now
    ensures Step(s, e).conn.failingSince ==
      if (e.Dropped? || e.SymbolsFailed?) && s.conn.attempt == 0 then s.conn.now else s.conn.failingSince
  {
    hide Delay;
    hide HasStreams;
    hide FlushBuffer;
    hide Receive;
  }

  /** After n consecutive failures the next attempt starts no sooner after the first of them than their backoff
      adds up to. */
  lemma ReconnectWaits(hasFrames: bool, hidden: bool, now: int, paused: bool, events: seq<Event>, t: State)
    requires Leads(Initial(hasFrames, hidden, now, paused), events, t) && !t.conn.stopped && Failures(0, events) > 0
    requires Live(t.conn) || t.conn.awaiting > 0
    ensures var n := Failures(0, events);
      ClockAfter(now, events) - StreakStart(0, now, now, events) >=
        if n <= 5 then 1000 * (Pow2(n) - 1) else 31000 + 30000 * (n - 5)
  {
    var s := Initial(hasFrames, hidden, now, paused);
    Reachable(hasFrames, hidden, now, paused, events, t, []);
    AttemptCountsFailures(s, events, t);
    HistoryIsOfEvents(s, events, t);
    TotalDelayIs(t.conn.attempt);
    assert s.conn.attempt == 0 && s.conn.now == now && s.conn.failingSince == now;
    hide Leads;
    hide Initial;
    hide Failures;
    hide StreakStart;
    hide ClockAfter;
    hide Shows;
    hide ClockInv;
  }

  // ---------------------------------------------------------------- what a batch is made of

  /** The delivered batches are the chunks, each coalesced; together the chunks are the flushed trades. */
  ghost predicate Chunks(b: Buffer, chunks: seq<seq<Price>>) {
    && b.flushed <= |b.received| && Flat(chunks) == b.received[..b.flushed]
    && |chunks| == |b.delivered|
    && forall i :: 0 <= i < |chunks| ==> b.delivered[i] == Coalesced(chunks[i])
  }

  lemma FlushAddsChunk(b: Buffer, chunks: seq<seq<Price>>) returns (more: seq<seq<Price>>)
    requires Shows(b, []) && Chunks(b, chunks)
    ensures Chunks(FlushBuffer(b), more) && chunks <= more
  {
    hide Coalesced;
    hide View;
    hide PutAll;
    if Delivers(b) {
      more := chunks + [b.received[b.flushed..]];
      assert more[..|chunks|] == chunks;
      assert b.received[..b.flushed] + b.received[b.flushed..] == b.received == b.received[..|b.received|];
    } else {
      more := chunks;
    }
  }

  lemma ReceiveKeepsChunks(b: Buffer, f: Frame, chunks: seq<seq<Price>>)
    requires Chunks(b, chunks)
    ensures Chunks(Receive(b, f), chunks)
  {
    hide Coalesced;
    hide Flat;
    hide Put;
    hide PriceOf;
    if f.Trade? { assert (b.received + [PriceOf(f)])[..b.flushed] == b.received[..b.flushed]; }
  }

  lemma {:induction false} RunChunks(s: State, events: seq<Event>, t: State, before: seq<seq<Price>>)
      returns (chunks: seq<seq<Price>>)
    requires Shows(s.buffer, []) && Chunks(s.buffer, before) && Leads(s, events, t)
    ensures Chunks(t.buffer, chunks)
    decreases events
  {
    hide Shows;
    hide Chunks;
    hide Step;
    hide Enabled;
    hide FlushBuffer;
    hide Receive;
    chunks := before;
    if events != [] {
      var b, c, e := s.buffer, Step(s, events[0]).buffer, events[0];
      BufferSteps(s, e);
      FlushKeepsShown(b, []);
      var flushed := FlushAddsChunk(b, before);
      if e.Message? {
        ReceiveKeepsShown(b, e.frame, []);
        ReceiveKeepsChunks(b, e.frame, before);
      }
      if e.SetPaused? {
        HoldKeepsShown(b, e.paused, []);
        HoldKeepsChunks(b, e.paused, before);
      }
      if c == FlushBuffer(b) { chunks := flushed; }
      chunks := RunChunks(Step(s, e), events[1..], t, chunks);
    }
  }

  lemma HoldKeepsChunks(b: Buffer, paused: bool, chunks: seq<seq<Price>>)
    requires Chunks(b, chunks)
    ensures Chunks(b.(paused := paused), chunks)
  {
  }

  /** Over every run the trades flushed so far split into chunks, each delivered as one batch that holds the last
      price of every key in its chunk, once. */
  lemma BatchesAreCoalesced(hasFrames: bool, hidden: bool, now: int, paused: bool, events: seq<Event>, t: State)
      returns (chunks: seq<seq<Price>>)
    requires Leads(Initial(hasFrames, hidden, now, paused), events, t)
    ensures Flat(chunks) <= Trades(events) && |chunks| == |t.buffer.delivered|
    ensures t.buffer.pending == [] ==> Flat(chunks) == Trades(events)
    ensures forall i :: 0 <= i < |chunks| ==> t.buffer.delivered[i] == Coalesced(chunks[i]) && Distinct(Coalesced(chunks[i]))
  {
    var s := Initial(hasFrames, hidden, now, paused);
    assert s.buffer.received[..0] == [];
    InitialInv(hasFrames, hidden, now, paused);
    assert Shows(s.buffer, []) && Chunks(s.buffer, []);
    Reachable(hasFrames, hidden, now, paused, events, t, []);
    AllReceived(hasFrames, hidden, now, paused, events, t);
    chunks := RunChunks(s, events, t, []);
    hide Leads;
    hide Initial;
    hide Trades;
    hide ConnInv;
    hide ClockInv;
    forall i | 0 <= i < |chunks| ensures Distinct(Coalesced(chunks[i])) { CoalescedIsDistinct(chunks[i]); }
    CoalescedIsDistinct(t.buffer.received[t.buffer.flushed..]);
    hide Coalesced;
    hide Distinct;
    hide View;
    hide Flat;
    if t.buffer.pending == [] {
      assert t.buffer.received[..t.buffer.flushed] == t.buffer.received;
    }
  }
}
