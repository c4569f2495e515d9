/** The exchange stream adapter: coalescing, flushing, the asynchronous connect, backoff and unsubscription. */
module BinanceFeed {
  import opened Wrappers
  import opened PriceMap
  import opened Backoff
  import Exposition

  /** A parsed socket frame: a trade, or anything else. */
  datatype Frame = Other | Trade(symbol: string, price: string, at: int)

  /** The connection: the closure's `ws`, `stopped`, `attempt` and `reconnectTimer`, the browser's sockets,
      armed timers with their due times and clock, and the number of symbol lists awaited. `gaveUp` and
      `failingSince` are history: a list came back without streams; the failure streak began. */
  datatype Conn = Conn(
    ws: Option<nat>, stopped: bool, attempt: nat, timer: Option<nat>,
    sockets: seq<Socket>, timers: map<nat, int>, nextTimer: nat, now: int, awaiting: nat,
    gaveUp: bool, failingSince: int)

  /** The flush clocks: the closure's `frame` and `fallbackTimer`, the requested animation frames, the tab. */
  datatype Clock = Clock(
    frame: Option<nat>, fallback: bool, hasFrames: bool, hidden: bool, frames: set<nat>, nextFrame: nat)

  /** The buffer: the closure's `pending`, the hold switch, every trade received and every batch delivered.
      `flushed` is history: how many of the received trades were flushed. */
  datatype Buffer = Buffer(
    pending: seq<Price>, paused: bool, received: seq<Price>, delivered: seq<seq<Price>>, flushed: nat)

  datatype State = State(conn: Conn, clock: Clock, buffer: Buffer)

  datatype Event =
    | SymbolsArrived(symbols: seq<string>)
    | SymbolsFailed
    | Opened(i: nat)
    | PeerCloses(i: nat)                 // the closing handshake begins: CLOSING, without a callback
    | Message(i: nat, frame: Frame)
    | Dropped(i: nat, failed: bool)
    | TimerFired(k: nat)
    | FrameFired(k: nat, cancels: bool)  // cancels: the subscriber unsubscribes when it is given a batch
    | IntervalFired(cancels: bool)
    | SetPaused(paused: bool)
    | SetHidden(hidden: bool)
    | Unsubscribe
    | Wait(ms: nat)

  // ---------------------------------------------------------------- callbacks as functions

  function UpperChar(c: char): char {
    if 'a' <= c <= 'z' then (c as int - 32) as char else c
  }

  predicate IsUsdt(s: string) {
    |s| == 4 && UpperChar(s[0]) == 'U' && UpperChar(s[1]) == 'S' && UpperChar(s[2]) == 'D' && UpperChar(s[3]) == 'T'
  }

  /** The joined stream names are non-empty. */
  predicate HasStreams(symbols: seq<string>) { exists i :: 0 <= i < |symbols| && !IsUsdt(symbols[i]) }

  function Lower(s: string): string {
    if s == "" then ""
    else [if 'A' <= s[0] <= 'Z' then (s[0] as int + 32) as char else s[0]] + Lower(s[1..])
  }

  /** The combined stream names: one per symbol but USDT, joined by slashes. */
  function Streams(symbols: seq<string>): string {
    if symbols == [] then ""
    else if IsUsdt(symbols[0]) then Streams(symbols[1..])
    else
      var rest := Streams(symbols[1..]);
      Lower(symbols[0]) + "usdt@trade" + if rest == "" then "" else "/" + rest
  }

  lemma {:induction false} StreamsAreJoined(symbols: seq<string>)
    ensures Streams(symbols) != "" <==> HasStreams(symbols)
  {
    if symbols != [] {
      StreamsAreJoined(symbols[1..]);
      if IsUsdt(symbols[0]) {
        if HasStreams(symbols) {
          var i :| 0 <= i < |symbols| && !IsUsdt(symbols[i]);
          assert symbols[1..][i - 1] == symbols[i];
        }
        if HasStreams(symbols[1..]) {
          var i :| 0 <= i < |symbols[1..]| && !IsUsdt(symbols[1..][i]);
          assert symbols[i + 1] == symbols[1..][i];
        }
      } else {
        assert !IsUsdt(symbols[0]);
      }
    }
    hide IsUsdt;
  }

  /** `toUpperCase() === "USDT"`: each letter in either case. */
  lemma UsdtInAnyCase(s: string)
    ensures IsUsdt(s) <==> |s| == 4 && forall k :: 0 <= k < 4 ==> s[k] == "USDT"[k] || s[k] == "usdt"[k]
  {
    if |s| == 4 { UpperLetters(s); }
  }

  lemma UpperLetters(s: string)
    requires |s| == 4
    ensures forall k :: 0 <= k < 4 ==> (UpperChar(s[k]) == "USDT"[k] <==> s[k] == "USDT"[k] || s[k] == "usdt"[k])
  {
    forall k | 0 <= k < 4 ensures UpperChar(s[k]) == "USDT"[k] <==> s[k] == "USDT"[k] || s[k] == "usdt"[k] {
      if s[k] == "usdt"[k] { assert UpperChar(s[k]) == "USDT"[k]; }
    }
  }

  /** The stream of a symbol: its letters in lower case, then the quote and the kind of event. */
  ghost predicate IsStreamOf(name: string, symbol: string) {
    && |name| == |symbol| + 10 && name[|symbol|..] == "usdt@trade"
    && forall k :: 0 <= k < |symbol| ==>
         name[k] == if 'A' <= symbol[k] <= 'Z' then (symbol[k] as int + 32) as char else symbol[k]
  }

  function Tradable(symbols: seq<string>): seq<string> {
    if symbols == [] then []
    else if IsUsdt(symbols[0]) then Tradable(symbols[1..])
    else [symbols[0]] + Tradable(symbols[1..])
  }

  lemma {:induction false} LowerLetters(s: string)
    ensures |Lower(s)| == |s|
    ensures forall k :: 0 <= k < |s| ==>
      Lower(s)[k] == if 'A' <= s[k] <= 'Z' then (s[k] as int + 32) as char else s[k]
  {
    if s != "" { LowerLetters(s[1..]); }
  }

  lemma StreamOf(symbol: string)
    ensures IsStreamOf(Lower(symbol) + "usdt@trade", symbol)
    ensures Exposition.Lacks(symbol, '/') ==> Exposition.Lacks(Lower(symbol) + "usdt@trade", '/')
  {
    LowerLetters(symbol);
    var lower := Lower(symbol);
    hide Lower;
    assert forall k :: 0 <= k < |symbol| ==> (lower + "usdt@trade")[k] == lower[k];
    assert (lower + "usdt@trade")[|symbol|..] == "usdt@trade";
    if Exposition.Lacks(symbol, '/') { NoSlashAdded(symbol, lower); }
    hide Exposition.Lacks;
  }

  lemma NoSlashAdded(symbol: string, lower: string)
    requires Exposition.Lacks(symbol, '/') && |lower| == |symbol|
    requires forall k :: 0 <= k < |symbol| ==>
      lower[k] == if 'A' <= symbol[k] <= 'Z' then (symbol[k] as int + 32) as char else symbol[k]
    ensures Exposition.Lacks(lower + "usdt@trade", '/')
  {
    var name := lower + "usdt@trade";
    forall k | 0 <= k < |name| ensures name[k] != '/' {
      if k < |symbol| { assert symbol[k] != '/'; } else { assert name[k] == "usdt@trade"[k - |symbol|]; }
    }
  }

  ghost predicate AreStreamsOf(names: seq<string>, symbols: seq<string>) {
    |names| == |symbols| && forall i :: 0 <= i < |names| ==> IsStreamOf(names[i], symbols[i])
  }

  lemma StreamsStep(symbol: string, rest: string, tail: seq<string>)
    requires Exposition.Lacks(symbol, '/') && (rest == "" <==> tail == [])
    requires rest != "" ==> AreStreamsOf(Exposition.Split(rest, '/'), tail)
    ensures var joined := Lower(symbol) + "usdt@trade" + if rest == "" then "" else "/" + rest;
      AreStreamsOf(Exposition.Split(joined, '/'), [symbol] + tail)
  {
    var name := Lower(symbol) + "usdt@trade";
    StreamOf(symbol);
    hide Lower;
    hide IsStreamOf;
    hide Exposition.Lacks;
    hide Exposition.Split;
    if rest == "" {
      Exposition.SplitWhole(name, '/');
      assert name + "" == name;
    } else {
      Exposition.SplitFirst(name, '/', rest);
      assert name + ("/" + rest) == name + ['/'] + rest;
    }
  }

  lemma {:induction false} StreamsSplit(symbols: seq<string>)
    requires forall i :: 0 <= i < |Tradable(symbols)| ==> Exposition.Lacks(Tradable(symbols)[i], '/')
    ensures Streams(symbols) != "" ==> AreStreamsOf(Exposition.Split(Streams(symbols), '/'), Tradable(symbols))
  {
    hide IsUsdt;
    hide AreStreamsOf;
    hide Exposition.Lacks;
    hide Exposition.Split;
    if symbols != [] {
      var t, rest := Tradable(symbols), Tradable(symbols[1..]);
      assert !IsUsdt(symbols[0]) ==> t[0] == symbols[0] && t[1..] == rest;
      assert forall i :: 0 <= i < |rest| ==> rest[i] == t[i + |t| - |rest|];
      StreamsSplit(symbols[1..]);
      NoStreamsNoSymbols(symbols[1..]);
      if !IsUsdt(symbols[0]) { StreamsStep(symbols[0], Streams(symbols[1..]), rest); }
    }
  }

  /** Every slash within a symbol is one part more. */
  lemma {:induction false} StreamsCount(symbols: seq<string>)
    ensures Streams(symbols) != "" ==>
      var parts := |Exposition.Split(Streams(symbols), '/')|;
      && parts >= |Tradable(symbols)|
      && (parts == |Tradable(symbols)| ==>
            forall i :: 0 <= i < |Tradable(symbols)| ==> Exposition.Lacks(Tradable(symbols)[i], '/'))
  {
    hide IsUsdt;
    hide Exposition.Lacks;
    hide Exposition.Split;
    if symbols != [] {
      StreamsCount(symbols[1..]);
      NoStreamsNoSymbols(symbols[1..]);
      if !IsUsdt(symbols[0]) {
        var name, rest := Lower(symbols[0]) + "usdt@trade", Streams(symbols[1..]);
        LacksSlash(symbols[0]);
        Exposition.SplitOnce(name, '/');
        if rest == "" {
          assert name + "" == name;
        } else {
          Exposition.SplitAdds(name, "/" + rest, '/');
          Exposition.SplitFirst("", '/', rest);
          assert "" + ['/'] + rest == "/" + rest;
        }
        hide Lower;
      }
    }
  }

  lemma LacksSlash(symbol: string)
    ensures Exposition.Lacks(Lower(symbol) + "usdt@trade", '/') ==> Exposition.Lacks(symbol, '/')
  {
    var name := Lower(symbol) + "usdt@trade";
    LowerLetters(symbol);
    forall k | 0 <= k < |symbol| && symbol[k] == '/' ensures name[k] == '/' {}
  }

  /** Split at its slashes, the joined list is one stream for each symbol but USDT, in order, if and only if none of
      these symbols has a slash of its own. */
  lemma StreamsSplitIff(symbols: seq<string>)
    requires Streams(symbols) != ""
    ensures AreStreamsOf(Exposition.Split(Streams(symbols), '/'), Tradable(symbols)) <==>
      forall i :: 0 <= i < |Tradable(symbols)| ==> Exposition.Lacks(Tradable(symbols)[i], '/')
  {
    StreamsCount(symbols);
    hide Exposition.Lacks;
    if forall i :: 0 <= i < |Tradable(symbols)| ==> Exposition.Lacks(Tradable(symbols)[i], '/') { StreamsSplit(symbols); }
  }

  lemma {:induction false} NoStreamsNoSymbols(symbols: seq<string>)
    ensures Streams(symbols) == "" <==> Tradable(symbols) == []
  {
    if symbols != [] { NoStreamsNoSymbols(symbols[1..]); }
    hide IsUsdt;
  }

  /** `replace(/USDT$/, "")` */
  function CoinOf(symbol: string): string {
    var n := |symbol| - 4;
    if n >= 0 && symbol[n..] == "USDT" then symbol[..n] else symbol
  }

  /** The coin is what precedes one trailing USDT, or the whole symbol. */
  lemma CoinIsBase(symbol: string)
    ensures symbol == CoinOf(symbol) + "USDT" ||
      (symbol == CoinOf(symbol) && forall base: string :: base + "USDT" != symbol)
    ensures CoinOf(symbol + "USDT") == symbol
  {
    assert (symbol + "USDT")[|symbol|..] == "USDT";
    forall base: string ensures base + "USDT" == symbol ==> CoinOf(symbol) == base {
      if base + "USDT" == symbol { assert symbol[|base|..] == "USDT"; }
    }
    if |symbol| >= 4 { assert symbol == symbol[..|symbol| - 4] + symbol[|symbol| - 4..]; }
  }

  function PriceOf(f: Frame): Price
    requires f.Trade?
  {
    Price(CoinOf(f.symbol), USD, f.price, f.at)
  }

  /** `connect`, up to its await. */
  function Connect(c: Conn): Conn {
    if c.stopped then c else c.(awaiting := c.awaiting + 1)
  }

  /** `connect`, after the symbols arrived. */
  function OpenSocket(c: Conn, symbols: seq<string>): Conn {
    if !HasStreams(symbols) || c.stopped then c.(gaveUp := c.gaveUp || !c.stopped)
    else c.(ws := Some(|c.sockets|), sockets := c.sockets + [Connecting])
  }

  /** `ws?.close()` */
  function CloseCurrent(c: Conn): Conn {
    if c.ws.Some? && c.ws.value < |c.sockets| && (c.sockets[c.ws.value].Connecting? || c.sockets[c.ws.value].Open?)
    then c.(sockets := c.sockets[c.ws.value := Closing])
    else c
  }

  function ScheduleReconnect(c: Conn): Conn {
    if c.stopped then c
    else c.(attempt := c.attempt + 1,
            timer := Some(c.nextTimer),
            timers := c.timers[c.nextTimer := c.now + Delay(c.attempt + 1)],
            nextTimer := c.nextTimer + 1,
            failingSince := if c.attempt == 0 then c.now else c.failingSince)
  }

  function CloseEvent(c: Conn, i: nat, failed: bool): Conn
    requires i < |c.sockets|
  {
    var closed := c.(sockets := c.sockets[i := Closed]);
    ScheduleReconnect(if failed then CloseCurrent(closed) else closed)
  }

  function StopConn(c: Conn): Conn {
    CloseCurrent(c.(stopped := true, timers := if c.timer.Some? then c.timers - {c.timer.value} else c.timers))
  }

  function StopClock(k: Clock): Clock {
    k.(frames := if k.frame.Some? then k.frames - {k.frame.value} else k.frames, fallback := false)
  }

  /** The closure that `subscribe` returns. */
  function Stop(s: State): State { State(StopConn(s.conn), StopClock(s.clock), s.buffer) }

  predicate Delivers(b: Buffer) { !b.paused && b.pending != [] }

  function FlushBuffer(b: Buffer): Buffer {
    if !Delivers(b) then b
    else b.(delivered := b.delivered + [b.pending], pending := [], flushed := |b.received|)
  }

  /** `flush`; the subscriber may cancel when it is given a batch. */
  function Flush(s: State, cancels: bool): State {
    var t := s.(buffer := FlushBuffer(s.buffer));
    if cancels && Delivers(s.buffer) then Stop(t) else t
  }

  function RequestFrame(k: Clock): Clock {
    k.(frame := Some(k.nextFrame), frames := k.frames + {k.nextFrame}, nextFrame := k.nextFrame + 1)
  }

  /** `tick`: flush, then ask for the next frame, even when the subscriber just cancelled. */
  function TickFrame(s: State, cancels: bool): State {
    if s.conn.stopped then s
    else
      var t := Flush(s, cancels);
      t.(clock := RequestFrame(t.clock))
  }

  function Receive(b: Buffer, f: Frame): Buffer {
    if f.Other? then b else b.(pending := Put(b.pending, PriceOf(f)), received := b.received + [PriceOf(f)])
  }

  function Initial(hasFrames: bool, hidden: bool, now: int, paused: bool): State {
    State(
      Connect(Conn(None, false, 0, None, [], map[], 0, now, 0, false, now)),
      if hasFrames then Clock(Some(0), true, true, hidden, {0}, 1) else Clock(None, true, false, hidden, {}, 0),
      Buffer([], paused, [], [], 0))
  }

  predicate Enabled(s: State, e: Event) {
    match e
    case SymbolsArrived(_) => s.conn.awaiting > 0
    case SymbolsFailed => s.conn.awaiting > 0
    case Opened(i) => i < |s.conn.sockets| && s.conn.sockets[i].Connecting?
    case PeerCloses(i) => i < |s.conn.sockets| && s.conn.sockets[i].Open?
    case Message(i, _) => i < |s.conn.sockets| && s.conn.sockets[i].Open?
    case Dropped(i, _) => i < |s.conn.sockets| && !s.conn.sockets[i].Closed?
    case TimerFired(k) => k in s.conn.timers && s.conn.timers[k] <= s.conn.now
    case FrameFired(k, _) => k in s.clock.frames
    case IntervalFired(_) => s.clock.fallback
    case _ => true
  }

  function Step(s: State, e: Event): State
    requires Enabled(s, e)
  {
    match e
    case SymbolsArrived(symbols) => s.(conn := OpenSocket(s.conn.(awaiting := s.conn.awaiting - 1), symbols))
    case SymbolsFailed => s.(conn := ScheduleReconnect(s.conn.(awaiting := s.conn.awaiting - 1)))
    case Opened(i) => s.(conn := s.conn.(sockets := s.conn.sockets[i := Open], attempt := 0))
    case PeerCloses(i) => s.(conn := s.conn.(sockets := s.conn.sockets[i := Closing]))
    case Message(i, f) => s.(buffer := Receive(s.buffer, f))
    case Dropped(i, failed) => s.(conn := CloseEvent(s.conn, i, failed))
    case TimerFired(k) => s.(conn := Connect(s.conn.(timers := s.conn.timers - {k})))
    case FrameFired(k, cancels) => TickFrame(s.(clock := s.clock.(frames := s.clock.frames - {k})), cancels)
    case IntervalFired(cancels) => if s.clock.hasFrames && !s.clock.hidden then s else Flush(s, cancels)
    case SetPaused(p) => s.(buffer := s.buffer.(paused := p))
    case SetHidden(h) => s.(clock := s.clock.(hidden := h))
    case Unsubscribe => Stop(s)
    case Wait(ms) => s.(conn := s.conn.(now := s.conn.now + ms))
  }

  // ---------------------------------------------------------------- the adapter

  // What is not in the closure: the browser's sockets, timers and symbol lists with the history of the connection;
  // its frames and tab; the hold switch, the trades received, the batches delivered and the number flushed.

  datatype Net = Net(
    sockets: seq<Socket>, timers: map<nat, int>, nextTimer: nat, now: int, awaiting: nat, gaveUp: bool, failingSince: int)

  datatype Page = Page(hasFrames: bool, hidden: bool, frames: set<nat>, nextFrame: nat)

  datatype Ledger = Ledger(paused: bool, received: seq<Price>, delivered: seq<seq<Price>>, flushed: nat)

  class Subscription {
    // the closure
    var ws: Option<nat>
    var stopped: bool
    var attempt: nat
    var reconnectTimer: Option<nat>
    var frame: Option<nat>
    var fallback: bool
    var pending: seq<Price>
    // everything else
    var net: Net
    var page: Page
    var ledger: Ledger

    function Abs(): State
      reads this
    {
      State(Conn(ws, stopped, attempt, reconnectTimer, net.sockets, net.timers, net.nextTimer, net.now, net.awaiting,
                 net.gaveUp, net.failingSince),
            Clock(frame, fallback, page.hasFrames, page.hidden, page.frames, page.nextFrame),
            Buffer(pending, ledger.paused, ledger.received, ledger.delivered, ledger.flushed))
    }

    /** `subscribe` */
    constructor (hasFrames: bool, hidden: bool, now: int, paused: bool)
      ensures Abs() == Initial(hasFrames, hidden, now, paused)
    {
      ws, stopped, attempt, reconnectTimer := None, false, 0, None;
      frame, fallback, pending := None, false, [];
      net := Net([], map[], 0, now, 0, false, now);
      page := Page(hasFrames, hidden, {}, 0);
      ledger := Ledger(paused, [], [], 0);
      new;
      if hasFrames { NextFrame(); }
      fallback := true;
      ConnectNow();
    }

    method NextFrame()
      modifies this
      ensures Abs() == old(Abs()).(clock := RequestFrame(old(Abs()).clock))
    {
      var k := page.nextFrame;
      frame := Some(k);
      page := page.(frames := page.frames + {k}, nextFrame := k + 1);
    }

    /** `connect`, up to its await. */
    method ConnectNow()
      modifies this
      ensures Abs() == old(Abs()).(conn := Connect(old(Abs()).conn))
    {
      if stopped { return; }
      net := net.(awaiting := net.awaiting + 1);
    }

    /** `connect`, after its await: give up without streams, else open the next socket. */
    method OnSymbols(symbols: seq<string>)
      requires Enabled(Abs(), SymbolsArrived(symbols))
      modifies this
      ensures Abs() == Step(old(Abs()), SymbolsArrived(symbols))
    {
      net := net.(awaiting := net.awaiting - 1);
      StreamsAreJoined(symbols);
      hide Streams;
      hide HasStreams;
      if Streams(symbols) == "" || stopped {
        net := net.(gaveUp := net.gaveUp || !stopped);
        return;
      }
      ws := Some(|net.sockets|);
      net := net.(sockets := net.sockets + [Connecting]);
    }

    method OnSymbolsFailed()
      requires Enabled(Abs(), SymbolsFailed)
      modifies this
      ensures Abs() == Step(old(Abs()), SymbolsFailed)
    {
      net := net.(awaiting := net.awaiting - 1);
      Reconnect();
    }

    method CloseSocket()
      modifies this
      ensures Abs() == old(Abs()).(conn := CloseCurrent(old(Abs()).conn))
    {
      if ws.Some? && ws.value < |net.sockets| {
        if net.sockets[ws.value].Connecting? || net.sockets[ws.value].Open? {
          net := net.(sockets := net.sockets[ws.value := Closing]);
        }
      }
    }

    /** `scheduleReconnect` */
    method Reconnect()
      modifies this
      ensures Abs() == old(Abs()).(conn := ScheduleReconnect(old(Abs()).conn))
    {
      if stopped { return; }
      if attempt == 0 { net := net.(failingSince := net.now); }
      attempt := attempt + 1;
      var delay := Delay(attempt);
      reconnectTimer := Some(net.nextTimer);
      net := net.(timers := net.timers[net.nextTimer := net.now + delay], nextTimer := net.nextTimer + 1);
    }

    method OnOpen(i: nat)
      requires Enabled(Abs(), Opened(i))
      modifies this
      ensures Abs() == Step(old(Abs()), Opened(i))
    {
      net := net.(sockets := net.sockets[i := Open]);
      attempt := 0;
    }

    /** Buffer a trade under its coin; anything else is ignored. */
    method OnMessage(i: nat, f: Frame)
      requires Enabled(Abs(), Message(i, f))
      modifies this
      ensures Abs() == Step(old(Abs()), Message(i, f))
    {
      if f.Other? { return; }
      var price := PriceOf(f);
      pending := Put(pending, price);
      ledger := ledger.(received := ledger.received + [price]);
    }

    method OnClose(i: nat, failed: bool)
      requires Enabled(Abs(), Dropped(i, failed))
      modifies this
      ensures Abs() == Step(old(Abs()), Dropped(i, failed))
    {
      net := net.(sockets := net.sockets[i := Closed]);
      if failed { CloseSocket(); }
      Reconnect();
    }

    method OnTimer(k: nat)
      requires Enabled(Abs(), TimerFired(k))
      modifies this
      ensures Abs() == Step(old(Abs()), TimerFired(k))
    {
      net := net.(timers := net.timers - {k});
      ConnectNow();
    }

    /** `flush`: hand the buffer over and clear it, unless held or empty. */
    method FlushNow(cancels: bool)
      modifies this
      ensures Abs() == Flush(old(Abs()), cancels)
    {
      if ledger.paused { return; }
      if |pending| > 0 {
        var batch := pending;
        pending := [];
        ledger := ledger.(delivered := ledger.delivered + [batch], flushed := |ledger.received|);
        if cancels { Cancel(); }
      }
    }

    /** `tick` */
    method OnFrame(k: nat, cancels: bool)
      requires Enabled(Abs(), FrameFired(k, cancels))
      modifies this
      ensures Abs() == Step(old(Abs()), FrameFired(k, cancels))
    {
      page := page.(frames := page.frames - {k});
      if stopped { return; }
      hide Flush;
      hide RequestFrame;
      FlushNow(cancels);
      NextFrame();
    }

    /** The fallback timer: with animation frames it only drains a hidden tab. */
    method OnInterval(cancels: bool)
      requires Enabled(Abs(), IntervalFired(cancels))
      modifies this
      ensures Abs() == Step(old(Abs()), IntervalFired(cancels))
    {
      if !page.hasFrames || page.hidden { FlushNow(cancels); }
    }

    /** The closure that `subscribe` returns. */
    method Cancel()
      modifies this
      ensures Abs() == Stop(old(Abs()))
    {
      stopped := true;
      if frame.Some? { page := page.(frames := page.frames - {frame.value}); }
      fallback := false;
      if reconnectTimer.Some? { net := net.(timers := net.timers - {reconnectTimer.value}); }
      CloseSocket();
    }
  }

  // ---------------------------------------------------------------- one connection attempt

  predicate Live(c: Conn) { c.ws.Some? && c.ws.value < |c.sockets| && !c.sockets[c.ws.value].Closed? }

  /** At most one of an awaited symbol list, an unclosed socket and an armed timer; none only after
      the list came back without streams, or after stopping. */
  ghost predicate ConnInv(c: Conn) {
    && (c.ws.Some? ==> c.ws.value < |c.sockets|)
    && (forall i :: 0 <= i < |c.sockets| && c.ws != Some(i) ==> c.sockets[i].Closed?)
    && (forall k :: k in c.timers ==> k < c.nextTimer && c.timer == Some(k))
    && c.awaiting <= 1
    && (Live(c) ==> c.awaiting == 0)
    && if c.stopped then StoppedInv(c) else RunningInv(c)
  }

  ghost predicate StoppedInv(c: Conn) {
    c.timers == map[] && (Live(c) ==> c.sockets[c.ws.value].Closing?)
  }

  ghost predicate RunningInv(c: Conn) {
    && (Live(c) || c.awaiting > 0 ==> c.timers == map[])
    && (Live(c) && c.sockets[c.ws.value].Open? ==> c.attempt == 0)
    && (!Live(c) && c.awaiting == 0 && !c.gaveUp ==> c.timer.Some? && c.timers.Keys == {c.timer.value})
    && (c.gaveUp ==> !Live(c) && c.awaiting == 0 && c.timers == map[])
    && (c.attempt > 0 && (Live(c) || c.awaiting > 0) ==> c.now >= c.failingSince + TotalDelay(c.attempt))
    && (forall k :: k in c.timers ==> c.attempt > 0 && c.timers[k] >= c.failingSince + TotalDelay(c.attempt))
  }

  /** The frame requests: exactly the current one until stopped, then at most one stray. */
  ghost predicate ClockInv(k: Clock, stopped: bool) {
    && (forall f :: f in k.frames ==> k.frame == Some(f))
    && k.fallback == !stopped
    && (!stopped ==> if k.hasFrames then k.frame.Some? && k.frames == {k.frame.value} else k.frames == {})
    && (!k.hasFrames ==> k.frames == {})
  }

  /** The trades not yet flushed are pending, coalesced. */
  ghost predicate BufferInv(b: Buffer) {
    b.flushed <= |b.received| && b.pending == Coalesced(b.received[b.flushed..])
  }

  ghost predicate Inv(s: State) {
    ConnInv(s.conn) && ClockInv(s.clock, s.conn.stopped) && BufferInv(s.buffer)
  }

  lemma InitialInv(hasFrames: bool, hidden: bool, now: int, paused: bool)
    ensures Inv(Initial(hasFrames, hidden, now, paused))
  {
  }

  lemma ReconnectKeepsConn(c: Conn)
    requires (c.ws.Some? ==> c.ws.value < |c.sockets|) && c.awaiting == 0 && !Live(c)
    requires forall i :: 0 <= i < |c.sockets| && c.ws != Some(i) ==> c.sockets[i].Closed?
    requires c.timers == map[] && !c.gaveUp && !c.stopped
    requires c.attempt > 0 ==> c.now >= c.failingSince + TotalDelay(c.attempt)
    ensures ConnInv(ScheduleReconnect(c))
  {
    hide Delay;
    var t := ScheduleReconnect(c);
    assert TotalDelay(t.attempt) == TotalDelay(c.attempt) + Delay(t.attempt);
    assert TotalDelay(0) == 0;
    assert t.timers.Keys == {c.nextTimer};
  }

  lemma CloseKeepsConn(c: Conn, i: nat, failed: bool)
    requires ConnInv(c) && i < |c.sockets| && !c.sockets[i].Closed?
    ensures ConnInv(CloseEvent(c, i, failed))
  {
    hide TotalDelay;
    assert c.ws == Some(i);
    var closed := c.(sockets := c.sockets[i := Closed]);
    assert CloseCurrent(closed) == closed;
    if !c.stopped {
      ReconnectKeepsConn(closed);
    }
  }

  lemma SymbolsKeepConn(c: Conn, symbols: seq<string>)
    requires ConnInv(c) && c.awaiting > 0
    ensures ConnInv(OpenSocket(c.(awaiting := c.awaiting - 1), symbols))
    ensures ConnInv(ScheduleReconnect(c.(awaiting := c.awaiting - 1)))
  {
    hide TotalDelay;
    hide HasStreams;
    if !c.stopped {
      ReconnectKeepsConn(c.(awaiting := c.awaiting - 1));
    }
    hide Delay;
  }

  lemma StopKeepsConn(c: Conn)
    requires ConnInv(c)
    ensures ConnInv(StopConn(c))
  {
    hide TotalDelay;
    var t := StopConn(c);
    assert t.timers == map[] by {
      assert forall k :: k in t.timers ==> k in c.timers && c.timer == Some(k);
    }
  }

  lemma TimerKeepsConn(c: Conn, k: nat)
    requires ConnInv(c) && k in c.timers && c.timers[k] <= c.now
    ensures ConnInv(Connect(c.(timers := c.timers - {k})))
  {
    hide TotalDelay;
    assert c.timer == Some(k);
    assert c.timers - {k} == map[] by {
      assert forall j :: j in c.timers - {k} ==> j in c.timers && j != k;
    }
  }

  lemma FlushKeepsConn(s: State, cancels: bool)
    requires ConnInv(s.conn)
    ensures ConnInv(Flush(s, cancels).conn)
  {
    StopKeepsConn(s.conn);
    hide ConnInv;
  }

  lemma StepKeepsConn(s: State, e: Event)
    requires ConnInv(s.conn) && Enabled(s, e)
    ensures ConnInv(Step(s, e).conn)
  {
    match e
    case SymbolsArrived(symbols) => SymbolsKeepConn(s.conn, symbols);
    case SymbolsFailed => SymbolsKeepConn(s.conn, []);
    case Dropped(i, failed) => CloseKeepsConn(s.conn, i, failed);
    case TimerFired(k) => TimerKeepsConn(s.conn, k);
    case Opened(i) =>
      hide TotalDelay;
      assert s.conn.ws == Some(i);
    case PeerCloses(i) =>
      hide TotalDelay;
      assert s.conn.ws == Some(i);
    case FrameFired(k, cancels) =>
      FlushKeepsConn(s.(clock := s.clock.(frames := s.clock.frames - {k})), cancels);
      hide ConnInv;
      hide Flush;
    case IntervalFired(cancels) =>
      FlushKeepsConn(s, cancels);
      hide ConnInv;
      hide Flush;
    case Unsubscribe => StopKeepsConn(s.conn);
    case _ => hide TotalDelay;
  }

  lemma StepKeepsClock(s: State, e: Event)
    requires ClockInv(s.clock, s.conn.stopped) && Enabled(s, e)
    ensures ClockInv(Step(s, e).clock, Step(s, e).conn.stopped)
  {
    hide Delay;
    hide HasStreams;
    hide Receive;
    hide FlushBuffer;
    hide Delivers;
    if e.FrameFired? {
      assert s.clock.frame == Some(e.k);
      assert s.clock.frames - {e.k} == {};
    }
  }

  // ---------------------------------------------------------------- coalescing is transparent

  /** A subscriber's list after the batches it was given. */
  function View(view: seq<Price>, batches: seq<seq<Price>>): seq<Price> {
    if batches == [] then view else PutAll(View(view, batches[..|batches| - 1]), batches[|batches| - 1])
  }

  /** What was delivered shows exactly the trades that were flushed. */
  ghost predicate ViewInv(b: Buffer, view: seq<Price>) {
    b.flushed <= |b.received| && View(view, b.delivered) == PutAll(view, b.received[..b.flushed])
  }

  lemma ReceiveKeepsBuffer(b: Buffer, f: Frame)
    requires BufferInv(b)
    ensures BufferInv(Receive(b, f))
  {
    if f.Trade? {
      var recent := b.received[b.flushed..];
      hide PriceOf;
      PutAllAppends([], recent, PriceOf(f));
      assert (b.received + [PriceOf(f)])[b.flushed..] == recent + [PriceOf(f)];
    }
    hide PutAll;
  }

  lemma FlushKeepsBuffer(b: Buffer)
    requires BufferInv(b)
    ensures BufferInv(FlushBuffer(b))
  {
    assert b.received[|b.received|..] == [];
  }

  lemma ReceiveKeepsView(b: Buffer, f: Frame, view: seq<Price>)
    requires ViewInv(b, view)
    ensures ViewInv(Receive(b, f), view)
  {
    hide PriceOf;
    hide PutAll;
    hide View;
    hide Put;
    if f.Trade? {
      assert (b.received + [PriceOf(f)])[..b.flushed] == b.received[..b.flushed];
    }
  }

  lemma FlushKeepsView(b: Buffer, view: seq<Price>)
    requires BufferInv(b) && ViewInv(b, view)
    ensures ViewInv(FlushBuffer(b), view)
  {
    var done, recent := b.received[..b.flushed], b.received[b.flushed..];
    assert (b.delivered + [b.pending])[..|b.delivered|] == b.delivered;
    hide PutAll;
    CoalescingIsTransparent(PutAll(view, done), recent);
    PutAllConcat(view, done, recent);
    assert done + recent == b.received && b.received[..|b.received|] == b.received;
  }

  /** What one event may do to the buffer. */
  lemma BufferSteps(s: State, e: Event)
    requires Enabled(s, e)
    ensures var b, t := s.buffer, Step(s, e).buffer;
      t == b || t == FlushBuffer(b) || (e.Message? && t == Receive(b, e.frame)) || (e.SetPaused? && t == b.(paused := e.paused))
  {
    hide Delay;
    hide HasStreams;
    hide Receive;
    hide FlushBuffer;
    hide Delivers;
  }

  ghost predicate Shows(b: Buffer, view: seq<Price>) { BufferInv(b) && ViewInv(b, view) }

  lemma FlushKeepsShown(b: Buffer, view: seq<Price>)
    requires Shows(b, view)
    ensures Shows(FlushBuffer(b), view)
  {
    hide FlushBuffer;
    hide View;
    hide Coalesced;
    hide PutAll;
    FlushKeepsBuffer(b);
    FlushKeepsView(b, view);
  }

  lemma ReceiveKeepsShown(b: Buffer, f: Frame, view: seq<Price>)
    requires Shows(b, view)
    ensures Shows(Receive(b, f), view)
  {
    hide Receive;
    hide View;
    hide Coalesced;
    hide PutAll;
    ReceiveKeepsBuffer(b, f);
    ReceiveKeepsView(b, f, view);
  }

  lemma HoldKeepsShown(b: Buffer, paused: bool, view: seq<Price>)
    requires Shows(b, view)
    ensures Shows(b.(paused := paused), view)
  {
  }
}
