/** The backend stream adapter: its callbacks, the browser they run in, and every interleaving of the two. */
module BackendFeed {
  import opened Wrappers
  import opened PriceMap
  import opened Backoff

  datatype State = State(
    // the closure of one subscription
    ws: Option<nat>, stopped: bool, attempt: nat, timer: Option<nat>,
    // the browser: every socket ever made, the armed timers with their due times, the clock, the hold switch
    sockets: seq<Socket>, timers: map<nat, int>, nextTimer: nat, now: int, paused: bool,
    // what the subscriber was given
    delivered: seq<seq<Price>>,
    // history: when the current streak of failures began
    failingSince: int)

  datatype Event =
    | Opened(i: nat)
    | PeerCloses(i: nat)                          // the closing handshake begins: CLOSING, without a callback
    | Message(i: nat, frame: Option<seq<Price>>)  // None: a malformed frame
    | Dropped(i: nat, failed: bool)               // the close event, after an error event when failed
    | TimerFired(k: nat)
    | SetPaused(paused: bool)
    | Unsubscribe
    | Wait(ms: nat)

  // ---------------------------------------------------------------- callbacks as functions

  function Connect(s: State): State {
    if s.stopped then s else s.(ws := Some(|s.sockets|), sockets := s.sockets + [Connecting])
  }

  /** `ws?.close()` */
  function CloseCurrent(s: State): State {
    if s.ws.Some? && s.ws.value < |s.sockets| && (s.sockets[s.ws.value].Connecting? || s.sockets[s.ws.value].Open?)
    then s.(sockets := s.sockets[s.ws.value := Closing])
    else s
  }

  function ScheduleReconnect(s: State): State {
    if s.stopped then s
    else s.(attempt := s.attempt + 1,
            timer := Some(s.nextTimer),
            timers := s.timers[s.nextTimer := s.now + Delay(s.attempt + 1)],
            nextTimer := s.nextTimer + 1,
            failingSince := if s.attempt == 0 then s.now else s.failingSince)
  }

  function Stop(s: State): State {
    CloseCurrent(s.(stopped := true, timers := if s.timer.Some? then s.timers - {s.timer.value} else s.timers))
  }

  function Initial(now: int, paused: bool): State {
    Connect(State(None, false, 0, None, [], map[], 0, now, paused, [], now))
  }

  predicate Enabled(s: State, e: Event) {
    match e
    case Opened(i) => i < |s.sockets| && s.sockets[i].Connecting?
    case PeerCloses(i) => i < |s.sockets| && s.sockets[i].Open?
    case Message(i, _) => i < |s.sockets| && s.sockets[i].Open?
    case Dropped(i, _) => i < |s.sockets| && !s.sockets[i].Closed?
    case TimerFired(k) => k in s.timers && s.timers[k] <= s.now
    case SetPaused(_) => true
    case Unsubscribe => true
    case Wait(_) => true
  }

  function Step(s: State, e: Event): State
    requires Enabled(s, e)
  {
    match e
    case Opened(i) => s.(sockets := s.sockets[i := Open], attempt := 0)
    case PeerCloses(i) => s.(sockets := s.sockets[i := Closing])
    case Message(i, frame) =>
      if s.paused || frame.None? then s else s.(delivered := s.delivered + [frame.value])
    case Dropped(i, failed) =>
      var closed := s.(sockets := s.sockets[i := Closed]);
      ScheduleReconnect(if failed then CloseCurrent(closed) else closed)
    case TimerFired(k) => Connect(s.(timers := s.timers - {k}))
    case SetPaused(p) => s.(paused := p)
    case Unsubscribe => Stop(s)
    case Wait(ms) => s.(now := s.now + ms)
  }

  // ---------------------------------------------------------------- the adapter

  class Subscription {
    // the closure
    var ws: Option<nat>
    var stopped: bool
    var attempt: nat
    var timer: Option<nat>
    // the browser, the subscriber and the history
    var sockets: seq<Socket>
    var timers: map<nat, int>
    var nextTimer: nat
    var now: int
    var paused: bool
    var delivered: seq<seq<Price>>
    var failingSince: int

    function Abs(): State
      reads this
    {
      State(ws, stopped, attempt, timer, sockets, timers, nextTimer, now, paused, delivered, failingSince)
    }

    /** `subscribe` */
    constructor (now: int, paused: bool)
      ensures Abs() == Initial(now, paused)
    {
      ws, stopped, attempt, timer := None, false, 0, None;
      sockets, timers, nextTimer, this.now, this.paused := [], map[], 0, now, paused;
      delivered, failingSince := [], now;
      new;
      ConnectNow();
    }

    method ConnectNow()
      modifies this
      ensures Abs() == Connect(old(Abs()))
    {
      if stopped { return; }
      ws := Some(|sockets|);
      sockets := sockets + [Connecting];
    }

    method CloseSocket()
      modifies this
      ensures Abs() == CloseCurrent(old(Abs()))
    {
      if ws.Some? && ws.value < |sockets| {
        if sockets[ws.value].Connecting? || sockets[ws.value].Open? {
          sockets := sockets[ws.value := Closing];
        }
      }
    }

    method Reconnect()
      modifies this
      ensures Abs() == ScheduleReconnect(old(Abs()))
    {
      if stopped { return; }
      if attempt == 0 { failingSince := now; }
      attempt := attempt + 1;
      var delay := Delay(attempt);
      timer := Some(nextTimer);
      timers, nextTimer := timers[nextTimer := now + delay], nextTimer + 1;
    }

    method OnOpen(i: nat)
      requires Enabled(Abs(), Opened(i))
      modifies this
      ensures Abs() == Step(old(Abs()), Opened(i))
    {
      sockets := sockets[i := Open];
      attempt := 0;
    }

    method OnMessage(i: nat, frame: Option<seq<Price>>)
      requires Enabled(Abs(), Message(i, frame))
      modifies this
      ensures Abs() == Step(old(Abs()), Message(i, frame))
    {
      if paused { return; }
      if frame.Some? { delivered := delivered + [frame.value]; }
    }

    method OnClose(i: nat, failed: bool)
      requires Enabled(Abs(), Dropped(i, failed))
      modifies this
      ensures Abs() == Step(old(Abs()), Dropped(i, failed))
    {
      sockets := sockets[i := Closed];
      if failed { CloseSocket(); }
      Reconnect();
    }

    method OnTimer(k: nat)
      requires Enabled(Abs(), TimerFired(k))
      modifies this
      ensures Abs() == Step(old(Abs()), TimerFired(k))
    {
      timers := timers - {k};
      ConnectNow();
    }

    /** The closure that `subscribe` returns. */
    method Cancel()
      modifies this
      ensures Abs() == Step(old(Abs()), Unsubscribe)
    {
      stopped := true;
      if timer.Some? { timers := timers - {timer.value}; }
      CloseSocket();
    }
  }

  // ---------------------------------------------------------------- every reachable state

  /** The one socket that may not be closed. */
  predicate Live(s: State) { s.ws.Some? && s.ws.value < |s.sockets| && !s.sockets[s.ws.value].Closed? }

  ghost predicate Inv(s: State) {
    && (s.ws.Some? ==> s.ws.value < |s.sockets|)
    && (forall i :: 0 <= i < |s.sockets| && s.ws != Some(i) ==> s.sockets[i].Closed?)
    && (forall k :: k in s.timers ==> k < s.nextTimer && s.timer == Some(k))
    && (s.stopped ==> s.timers == map[] && (Live(s) ==> s.sockets[s.ws.value].Closing?))
    && (!s.stopped ==>
          && (Live(s) ==> s.timers == map[])
          && (!Live(s) ==> s.timer.Some? && s.timers.Keys == {s.timer.value})
          && (s.attempt > 0 ==>
                if Live(s) then s.now >= s.failingSince + TotalDelay(s.attempt)
                else s.timers[s.timer.value] >= s.failingSince + TotalDelay(s.attempt))
          && (Live(s) && s.sockets[s.ws.value].Open? ==> s.attempt == 0)
          && (!Live(s) ==> s.attempt > 0))
  }

  lemma InitialInv(now: int, paused: bool)
    ensures Inv(Initial(now, paused))
  {
  }

  lemma DroppedKeepsInv(s: State, i: nat, failed: bool)
    requires Inv(s) && Enabled(s, Dropped(i, failed))
    ensures Inv(Step(s, Dropped(i, failed)))
  {
    hide Delay;
    assert s.ws == Some(i);
    var t := Step(s, Dropped(i, failed));
    assert t.sockets == s.sockets[i := Closed];
    if !s.stopped {
      assert TotalDelay(t.attempt) == TotalDelay(s.attempt) + Delay(t.attempt);
      assert TotalDelay(0) == 0;
      assert t.timers.Keys == {s.nextTimer};
    }
  }

  lemma TimerKeepsInv(s: State, k: nat)
    requires Inv(s) && Enabled(s, TimerFired(k))
    ensures Inv(Step(s, TimerFired(k)))
  {
    hide Delay;
    hide TotalDelay;
    var t := Step(s, TimerFired(k));
    assert !s.stopped && s.timer == Some(k);
    assert t.timers == map[];
  }

  lemma StopKeepsInv(s: State)
    requires Inv(s)
    ensures Inv(Stop(s))
  {
    hide TotalDelay;
    var t := Stop(s);
    assert t.timers == map[] by {
      if s.timer.Some? && !s.stopped && !Live(s) { assert t.timers.Keys == {}; }
    }
  }

  lemma StepKeepsInv(s: State, e: Event)
    requires Inv(s) && Enabled(s, e)
    ensures Inv(Step(s, e))
  {
    match e
    case Dropped(i, failed) => DroppedKeepsInv(s, i, failed);
    case TimerFired(k) => TimerKeepsInv(s, k);
    case Unsubscribe => StopKeepsInv(s);
    case Opened(i) => hide TotalDelay; assert s.ws == Some(i);
    case PeerCloses(i) => hide TotalDelay; assert s.ws == Some(i);
    case _ => hide TotalDelay;
  }

  // ---------------------------------------------------------------- whole runs

  /** `t` is reached from `s` by the events in order. */
  ghost predicate Leads(s: State, events: seq<Event>, t: State)
    decreases events
  {
    if events == [] then s == t
    else Enabled(s, events[0]) && Leads(Step(s, events[0]), events[1..], t)
  }

  lemma {:induction false} RunKeepsInv(s: State, events: seq<Event>, t: State)
    requires Inv(s) && Leads(s, events, t)
    ensures Inv(t)
    decreases events
  {
    hide Inv;
    hide Enabled;
    hide Step;
    if events != [] {
      StepKeepsInv(s, events[0]);
      RunKeepsInv(Step(s, events[0]), events[1..], t);
    }
  }

  function Unclosed(s: State): set<nat> { set i: nat | i < |s.sockets| && !s.sockets[i].Closed? }

  /** In every reachable state a live subscription has exactly one unclosed socket or armed timer. */
  lemma SingleAttempt(now: int, paused: bool, events: seq<Event>, t: State)
    requires Leads(Initial(now, paused), events, t)
    ensures !t.stopped ==> |Unclosed(t)| + |t.timers| == 1
    ensures t.stopped ==> |Unclosed(t)| <= 1 && t.timers == map[]
  {
    InitialInv(now, paused);
    RunKeepsInv(Initial(now, paused), events, t);
    hide Leads;
    hide Initial;
    hide TotalDelay;
    if Live(t) {
      assert Unclosed(t) == {t.ws.value};
    } else {
      assert Unclosed(t) == {};
      if !t.stopped { assert |t.timers.Keys| == 1; }
    }
  }

  /** After unsubscribing nothing is opened, armed or delivered, whatever happens. */
  lemma {:induction false} StoppedIsFinal(s: State, events: seq<Event>, t: State)
    requires Inv(s) && s.stopped && Leads(s, events, t)
    ensures t.stopped && |t.sockets| == |s.sockets| && t.timers == map[] && t.delivered == s.delivered
    decreases events
  {
    if events != [] {
      var e := events[0];
      StepKeepsInv(s, e);
      hide TotalDelay;
      assert Step(s, e).stopped && |Step(s, e).sockets| == |s.sockets| && Step(s, e).delivered == s.delivered;
      hide Step;
      hide Enabled;
      StoppedIsFinal(Step(s, e), events[1..], t);
    }
  }

  /** Only unsubscribing stops the subscription, and it always does. */
  lemma {:induction false} StoppedIff(s: State, events: seq<Event>, t: State)
    requires Leads(s, events, t)
    ensures t.stopped <==> s.stopped || exists i :: 0 <= i < |events| && events[i].Unsubscribe?
    decreases events
  {
    if events != [] {
      var rest := events[1..];
      StoppedIff(Step(s, events[0]), rest, t);
      StoppedStep(s, events[0]);
      assert forall i :: 0 < i < |events| ==> events[i] == rest[i - 1];
      if i :| 0 <= i < |rest| && rest[i].Unsubscribe? { assert events[i + 1].Unsubscribe?; }
      hide Step;
      hide Enabled;
    }
  }

  lemma StoppedStep(s: State, e: Event)
    requires Enabled(s, e)
    ensures Step(s, e).stopped <==> s.stopped || e.Unsubscribe?
  {
    hide Delay;
  }

  /** The well-formed frames among the events, but for those that arrive while the feed is held. */
  function Unheld(paused: bool, events: seq<Event>): seq<seq<Price>>
    decreases events
  {
    if events == [] then []
    else
      match events[0]
      case Message(_, frame) => (if paused || frame.None? then [] else [frame.value]) + Unheld(paused, events[1..])
      case SetPaused(p) => Unheld(p, events[1..])
      case _ => Unheld(paused, events[1..])
  }

  /** Over every run the subscriber is given exactly those frames, in order. */
  lemma {:induction false} DeliversUnheldFrames(s: State, events: seq<Event>, t: State)
    requires Leads(s, events, t)
    ensures t.delivered == s.delivered + Unheld(s.paused, events)
    decreases events
  {
    if events == [] {
      assert s.delivered + [] == s.delivered;
    } else {
      var next, rest := Step(s, events[0]), Unheld(Step(s, events[0]).paused, events[1..]);
      DeliversUnheldFrames(next, events[1..], t);
      DeliveredStep(s, events[0]);
      assert s.delivered + [] + rest == s.delivered + rest;
      hide Step;
      hide Enabled;
    }
  }

  lemma DeliveredStep(s: State, e: Event)
    requires Enabled(s, e)
    ensures Step(s, e).delivered ==
      s.delivered + if e.Message? && !s.paused && e.frame.Some? then [e.frame.value] else []
    ensures Step(s, e).paused == if e.SetPaused? then e.paused else s.paused
  {
    hide Delay;
  }

  /** Failures in a row: drops since the last open, on top of `n`. */
  function Failures(n: nat, events: seq<Event>): nat
    decreases events
  {
    if events == [] then n
    else Failures(match events[0] case Opened(_) => 0 case Dropped(_, _) => n + 1 case _ => n, events[1..])
  }

  lemma {:induction false} AttemptCountsFailures(s: State, events: seq<Event>, t: State)
    requires Leads(s, events, t) && !t.stopped
    ensures !s.stopped && t.attempt == Failures(s.attempt, events)
    decreases events
  {
    if events != [] {
      AttemptCountsFailures(Step(s, events[0]), events[1..], t);
      hide Delay;
    }
  }

  /** A drop arms exactly one timer, due after the capped power of two of the failures before it. */
  lemma DropArmsBackoff(now: int, paused: bool, events: seq<Event>, s: State, i: nat, failed: bool)
    requires Leads(Initial(now, paused), events, s) && !s.stopped && Enabled(s, Dropped(i, failed))
    ensures var t, d := Step(s, Dropped(i, failed)), 1000 * Pow2(Failures(0, events));
      t.timer.Some? && t.timers == map[t.timer.value := s.now + if d <= 30000 then d else 30000]
  {
    InitialInv(now, paused);
    RunKeepsInv(Initial(now, paused), events, s);
    AttemptCountsFailures(Initial(now, paused), events, s);
    assert Initial(now, paused).attempt == 0;
    DropArms(s, i, failed);
    hide Leads;
    hide Failures;
    hide Pow2;
    hide Inv;
    hide Step;
  }

  lemma DropArms(s: State, i: nat, failed: bool)
    requires Inv(s) && !s.stopped && Enabled(s, Dropped(i, failed))
    ensures var t := Step(s, Dropped(i, failed));
      t.timer.Some? && t.timers == map[t.timer.value := s.now + Delay(s.attempt + 1)]
  {
    hide TotalDelay;
    hide Delay;
    assert s.ws == Some(i) && s.timers == map[];
  }

  /** The clock after the events. */
  function ClockAfter(now: int, events: seq<Event>): int
    decreases events
  {
    if events == [] then now
    else ClockAfter(match events[0] case Wait(ms) => now + ms case _ => now, events[1..])
  }

  /** When the current streak of failures began: the time of its first drop, with `n` failures so far and the
      last streak begun at `since`. */
  function StreakStart(n: nat, now: int, since: int, events: seq<Event>): int
    decreases events
  {
    if events == [] then since
    else
      match events[0]
      case Opened(_) => StreakStart(0, now, since, events[1..])
      case Dropped(_, _) => StreakStart(n + 1, now, if n == 0 then now else since, events[1..])
      case Wait(ms) => StreakStart(n, now + ms, since, events[1..])
      case _ => StreakStart(n, now, since, events[1..])
  }

  lemma {:induction false} HistoryIsOfEvents(s: State, events: seq<Event>, t: State)
    requires Leads(s, events, t) && !t.stopped
    ensures !s.stopped && t.now == ClockAfter(s.now, events)
    ensures t.failingSince == StreakStart(s.attempt, s.now, s.failingSince, events)
    decreases events
  {
    if events != [] {
      HistoryIsOfEvents(Step(s, events[0]), events[1..], t);
      hide Delay;
    }
  }

  /** After n consecutive failures the next socket is opened no sooner after the first of them than their backoff
      adds up to. */
  lemma ReconnectWaits(now: int, paused: bool, events: seq<Event>, t: State)
    requires Leads(Initial(now, paused), events, t) && !t.stopped && Live(t) && Failures(0, events) > 0
    ensures var n := Failures(0, events);
      ClockAfter(now, events) - StreakStart(0, now, now, events) >=
        if n <= 5 then 1000 * (Pow2(n) - 1) else 31000 + 30000 * (n - 5)
  {
    InitialInv(now, paused);
    RunKeepsInv(Initial(now, paused), events, t);
    AttemptCountsFailures(Initial(now, paused), events, t);
    HistoryIsOfEvents(Initial(now, paused), events, t);
    TotalDelayIs(t.attempt);
    var s := Initial(now, paused);
    assert s.attempt == 0 && s.now == now && s.failingSince == now;
    hide Leads;
    hide Initial;
    hide Failures;
    hide StreakStart;
    hide ClockAfter;
  }
}
