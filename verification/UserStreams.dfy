/** The wake-up protocol between a user's event stream and the clients waiting on it. */
module UserStreams {
  import opened StreamTokens

  /**
   * A client's wait for news: pending on the deferred of some generation, since it had seen `since`;
   * or over, because there was news or because it took too long.
   */
  datatype Listener = Pending(generation: nat, since: StreamToken) | Resolved(at: StreamToken) | TimedOut

  /** A stream: its tokens, the number of the deferred now in force, and all listeners ever created on it. */
  datatype Stream = Stream(current: StreamToken, lastNotified: StreamToken, generation: nat, listeners: seq<Listener>)

  function Woken(listener: Listener, generation: nat, at: StreamToken): Listener {
    if listener.Pending? && listener.generation == generation then Resolved(at) else listener
  }

  /** The deferred of a generation fires. */
  function Fired(listeners: seq<Listener>, generation: nat, at: StreamToken): seq<Listener> {
    seq(|listeners|, i requires 0 <= i < |listeners| => Woken(listeners[i], generation, at))
  }

  /** News: the tokens advance, a new deferred comes into force, and the old one fires. */
  function Notified(s: Stream, update: Update): Stream {
    var current := s.current.Advanced(update);
    Stream(current, current, s.generation + 1, Fired(s.listeners, s.generation, current))
  }

  /** A new listener is resolved at once if there has been news since its token. */
  function NewListener(s: Stream, since: StreamToken): Listener {
    if s.lastNotified != since then Resolved(s.current) else Pending(s.generation, since)
  }

  function Listening(s: Stream, since: StreamToken): Stream {
    s.(listeners := s.listeners + [NewListener(s, since)])
  }

  /** The listeners that would be woken by news. */
  function CountListeners(s: Stream): nat {
    |set i | 0 <= i < |s.listeners| && s.listeners[i].Pending? && s.listeners[i].generation == s.generation|
  }

  /** Every pending listener waits on the deferred in force, since the last news there was. */
  ghost predicate StreamSound(s: Stream) {
    && s.current == s.lastNotified
    && forall i | 0 <= i < |s.listeners| && s.listeners[i].Pending? ::
         s.listeners[i].generation == s.generation && s.listeners[i].since == s.lastNotified
  }

  /** News wakes every pending listener, at the token it leads to. */
  lemma NotifiedWakesAll(s: Stream, update: Update)
    requires StreamSound(s)
    ensures StreamSound(Notified(s, update))
    ensures forall i | 0 <= i < |s.listeners| :: !Notified(s, update).listeners[i].Pending?
    ensures forall i | 0 <= i < |s.listeners| && s.listeners[i].Pending? ::
              Notified(s, update).listeners[i] == Resolved(s.current.Advanced(update))
  {
  }

  // ---------------------------------------------------------------- a waiting client

  /** Where a call to wait for events stands. */
  datatype Phase =
    | AtLoop                // about to listen
    | Asleep(listener: nat)
    | InCallback            // the callback runs on the last interval
    | Leaving               // the loop is over
    | InLastCallback
    | Returned
    | Raised                // an exception went to the caller

  /** What the last callback gave: nothing at all so far, an empty result, or a result to return. */
  datatype CallbackResult = NoResult | EmptyResult | Something

  /** What a callback was asked for; `aborted` says that it did not come to an end. */
  datatype Interval = Interval(from: StreamToken, to: StreamToken, aborted: bool)

  /** A call: its local variables, and all that its callbacks were asked for. */
  datatype Waiter = Waiter(prev: StreamToken, current: StreamToken, phase: Phase, result: CallbackResult, intervals: seq<Interval>)

  datatype Sys = Sys(stream: Stream, waiter: Waiter)

  datatype Action =
    | Notify(update: Update)
    | OtherListens(since: StreamToken)
    | OtherTimesOut(listener: nat)
    | Listen
    | DeadlinePassed               // found before listening
    | WakeUp
    | SleepTimesOut
    | CallbackReturns(result: CallbackResult)
    | CallbackAborts               // by a timeout or a cancellation
    | CallbackFails                // by any other exception
    | Leave

  predicate Enabled(s: Sys, action: Action) {
    var listeners, phase := s.stream.listeners, s.waiter.phase;
    match action
    case Notify(_) => true
    case OtherListens(_) => true
    case OtherTimesOut(i) => i < |listeners| && listeners[i].Pending? && phase != Asleep(i)
    case Listen => phase == AtLoop
    case DeadlinePassed => phase == AtLoop
    case WakeUp => phase.Asleep? && phase.listener < |listeners| && listeners[phase.listener].Resolved?
    case SleepTimesOut => phase.Asleep? && phase.listener < |listeners| && listeners[phase.listener].Pending?
    case CallbackReturns(_) => phase == InCallback || phase == InLastCallback
    case CallbackAborts => phase == InCallback || phase == InLastCallback
    case CallbackFails => phase == InCallback || phase == InLastCallback
    case Leave => phase == Leaving
  }

  function TimeOut(s: Stream, i: nat): Stream
    requires i < |s.listeners|
  {
    s.(listeners := s.listeners[i := TimedOut])
  }

  /** The callback is run on the interval from what the client has seen to what the stream has reached. */
  function RunCallback(s: Sys, phase: Phase): Sys {
    var current := s.stream.current;
    s.(waiter := s.waiter.(current := current, phase := phase,
                           intervals := s.waiter.intervals + [Interval(s.waiter.prev, current, false)]))
  }

  /** The last interval was not dealt with. */
  function Abort(intervals: seq<Interval>): seq<Interval> {
    if intervals == [] then []
    else intervals[|intervals| - 1 := intervals[|intervals| - 1].(aborted := true)]
  }

  function Do(s: Sys, action: Action): Sys
    requires Enabled(s, action)
  {
    var w := s.waiter;
    match action
    case Notify(update) => s.(stream := Notified(s.stream, update))
    case OtherListens(since) => s.(stream := Listening(s.stream, since))
    case OtherTimesOut(i) => s.(stream := TimeOut(s.stream, i))
    case Listen => Sys(Listening(s.stream, w.prev), w.(phase := Asleep(|s.stream.listeners|)))
    case DeadlinePassed => s.(waiter := w.(phase := Leaving))
    case WakeUp => RunCallback(s, InCallback)
    case SleepTimesOut => Sys(TimeOut(s.stream, w.phase.listener), w.(phase := Leaving))
    case CallbackReturns(result) =>
      if w.phase == InLastCallback || result == Something then s.(waiter := w.(phase := Returned, result := result))
      else s.(waiter := w.(phase := AtLoop, result := result, prev := w.current))
    case CallbackAborts =>
      s.(waiter := w.(phase := if w.phase == InCallback then Leaving else Raised, intervals := Abort(w.intervals)))
    case CallbackFails => s.(waiter := w.(phase := Raised, intervals := Abort(w.intervals)))
    case Leave =>
      if w.result == NoResult then RunCallback(s, InLastCallback) else s.(waiter := w.(phase := Returned))
  }

  /** A client starts to wait: in the loop, or past it if it does not want to wait at all. */
  ghost predicate Init(s: Sys, from: StreamToken) {
    && StreamSound(s.stream)
    && s.waiter.prev == from && s.waiter.result == NoResult && s.waiter.intervals == []
    && (s.waiter.phase == AtLoop || s.waiter.phase == Leaving)
  }

  /** How far an interval has brought the client. */
  function Covers(interval: Interval): StreamToken {
    if interval.aborted then interval.from else interval.to
  }

  /**
   * The first interval starts at the client's own token, and each other where the one before it ended,
   * or where it started if it was aborted.
   */
  ghost predicate Chained(intervals: seq<Interval>, from: StreamToken) {
    && (intervals != [] ==> intervals[0].from == from)
    && forall i | 0 < i < |intervals| :: intervals[i].from == Covers(intervals[i - 1])
  }

  /** What the client has been given so far. */
  function Reached(intervals: seq<Interval>, from: StreamToken): StreamToken {
    if intervals == [] then from else Covers(intervals[|intervals| - 1])
  }

  /** While a callback runs, it is on the last interval. */
  ghost predicate OnLastInterval(w: Waiter) {
    w.intervals != [] && w.intervals[|w.intervals| - 1] == Interval(w.prev, w.current, false)
  }

  /** How many of the intervals must have been dealt with: all, until the loop is left, and then all but the last in it. */
  function Settled(w: Waiter): int {
    if w.phase.AtLoop? || w.phase.Asleep? || w.phase.InCallback? then |w.intervals|
    else if w.phase.Leaving? then |w.intervals| - 1
    else |w.intervals| - 2
  }

  ghost predicate WaiterSound(s: Sys, from: StreamToken) {
    var w := s.waiter;
    && StreamSound(s.stream)
    && Chained(w.intervals, from)
    && (forall i | 0 <= i < Settled(w) :: !w.intervals[i].aborted)
    && (w.phase.AtLoop? || w.phase.Asleep? || w.phase.Leaving? ==> w.prev == Reached(w.intervals, from))
    && (w.phase.InCallback? || w.phase.InLastCallback? ==> OnLastInterval(w))
    && (w.phase.Asleep? ==>
          && w.phase.listener < |s.stream.listeners|
          && !s.stream.listeners[w.phase.listener].TimedOut?
          && (s.stream.listeners[w.phase.listener].Pending? ==> w.prev == s.stream.current))
  }

  lemma StepKeepsWaiterSound(s: Sys, action: Action, from: StreamToken)
    requires Enabled(s, action) && WaiterSound(s, from)
    ensures WaiterSound(Do(s, action), from)
  {
    match action
    case Notify(update) => NotifiedWakesAll(s.stream, update);
    case WakeUp => ChainedOn(s.waiter.intervals, from, s.stream.current);
    case Leave => ChainedOn(s.waiter.intervals, from, s.stream.current);
    case CallbackAborts => AbortedChained(s.waiter.intervals, from);
    case CallbackFails => AbortedChained(s.waiter.intervals, from);
    case _ =>
  }

  lemma ChainedOn(intervals: seq<Interval>, from: StreamToken, to: StreamToken)
    requires Chained(intervals, from)
    ensures Chained(intervals + [Interval(Reached(intervals, from), to, false)], from)
  {
    var longer := intervals + [Interval(Reached(intervals, from), to, false)];
    forall i | 0 < i < |longer|
      ensures longer[i].from == Covers(longer[i - 1])
    {
      assert longer[i - 1] == intervals[i - 1];
      if i < |intervals| {
        assert longer[i] == intervals[i];
      }
    }
  }

  lemma AbortedChained(intervals: seq<Interval>, from: StreamToken)
    requires Chained(intervals, from) && intervals != []
    ensures Chained(Abort(intervals), from)
    ensures Reached(Abort(intervals), from) == intervals[|intervals| - 1].from
  {
    var after := Abort(intervals);
    forall i | 0 < i < |after|
      ensures after[i].from == Covers(after[i - 1])
    {
      assert after[i].from == intervals[i].from && after[i - 1] == intervals[i - 1];
    }
  }

  ghost predicate Run(states: seq<Sys>, actions: seq<Action>, from: StreamToken) {
    && |states| == |actions| + 1
    && Init(states[0], from)
    && forall n {:trigger actions[n]} | 0 <= n < |actions| ::
         && Enabled(states[n], actions[n])
         && states[n + 1] == Do(states[n], actions[n])
  }

  /**
   * In every interleaving, the intervals given to the callback chain without gaps from the client's token;
   * what an aborted callback was given is given again.
   */
  lemma {:induction false} NothingIsMissed(states: seq<Sys>, actions: seq<Action>, from: StreamToken, n: nat)
    requires Run(states, actions, from) && n < |states|
    ensures WaiterSound(states[n], from)
  {
    if n > 0 {
      NothingIsMissed(states, actions, from, n - 1);
      StepKeepsWaiterSound(states[n - 1], actions[n - 1], from);
    }
  }

  /** Every new callback is on what the client has not seen yet, up to where the stream is. */
  lemma CallbacksExactly(s: Sys, action: Action)
    requires Enabled(s, action)
    ensures var before, after := s.waiter, Do(s, action).waiter;
            if action.WakeUp? || (action.Leave? && before.result == NoResult)
            then after.intervals == before.intervals + [Interval(before.prev, s.stream.current, false)]
            else |after.intervals| == |before.intervals|
  {
  }

  /** A call returns with the first result there is; once the loop is over, with an empty one, or with what a last callback gives. */
  lemma ReturnsExactly(s: Sys, action: Action)
    requires Enabled(s, action)
    ensures var before, after := s.waiter, Do(s, action).waiter;
            after.phase == Returned <==>
            || before.phase == Returned
            || (action == CallbackReturns(Something))
            || (action.CallbackReturns? && before.phase == InLastCallback)
            || (action == Leave && before.result != NoResult)
    ensures action.CallbackReturns? ==> Do(s, action).waiter.result == action.result
    ensures !action.CallbackReturns? ==> Do(s, action).waiter.result == s.waiter.result
  {
  }

  /** No two intervals overlap: each starts where the one before it ended. */
  ghost predicate Disjoint(intervals: seq<Interval>) {
    forall i | 0 < i < |intervals| :: intervals[i].from == intervals[i - 1].to
  }

  /** The intervals overlap exactly when a callback on a proper interval was aborted and another was made after it. */
  lemma OverlapExactly(states: seq<Sys>, actions: seq<Action>, from: StreamToken, n: nat)
    requires Run(states, actions, from) && n < |states|
    ensures var intervals := states[n].waiter.intervals;
            Disjoint(intervals)
            <==> forall i | 0 <= i < |intervals| - 1 :: intervals[i].aborted ==> intervals[i].from == intervals[i].to
  {
    NothingIsMissed(states, actions, from, n);
    OverlapOfChain(states[n].waiter.intervals, from);
  }

  lemma OverlapOfChain(intervals: seq<Interval>, from: StreamToken)
    requires Chained(intervals, from)
    ensures Disjoint(intervals)
       <==> forall i | 0 <= i < |intervals| - 1 :: intervals[i].aborted ==> intervals[i].from == intervals[i].to
  {
    if Disjoint(intervals) {
      forall i | 0 <= i < |intervals| - 1
        ensures intervals[i].aborted ==> intervals[i].from == intervals[i].to
      {
        assert intervals[i + 1].from == intervals[i + 1 - 1].to;
      }
    }
  }

  /** The waiter's own listener has not been resolved yet. */
  predicate Sleeps(s: Sys) {
    && s.waiter.phase.Asleep?
    && s.waiter.phase.listener < |s.stream.listeners|
    && s.stream.listeners[s.waiter.phase.listener].Pending?
  }

  /** A client sleeps only while it has been given everything, and any news wakes it. */
  lemma NobodySleepsThroughNews(states: seq<Sys>, actions: seq<Action>, from: StreamToken, n: nat)
    requires Run(states, actions, from) && n < |states| && Sleeps(states[n])
    ensures Reached(states[n].waiter.intervals, from) == states[n].stream.current
    ensures n < |actions| && actions[n].Notify? ==> Enabled(states[n + 1], WakeUp)
  {
    NothingIsMissed(states, actions, from, n);
    if n < |actions| && actions[n].Notify? {
      NotifiedWakesAll(states[n].stream, actions[n].update);
    }
  }

  /** A client behind the stream is called back at once; the callback times out, and the last callback starts over. */
  lemma AbortedCallbackIsRepeated(seen: StreamToken, update: Update) returns (states: seq<Sys>, actions: seq<Action>)
    requires seen.Advanced(update) != seen
    ensures Run(states, actions, seen)
    ensures !Disjoint(states[|actions|].waiter.intervals)
  {
    var a, b := seen, seen.Advanced(update);
    var s0 := Sys(Stream(b, b, 0, []), Waiter(a, a, AtLoop, NoResult, []));
    var s1 := Do(s0, Listen);
    assert s1.stream.listeners == [Resolved(b)];
    var s2 := Do(s1, WakeUp);
    var s3 := Do(s2, CallbackAborts);
    assert s2.waiter.intervals == [Interval(a, b, false)] && s3.waiter.intervals == [Interval(a, b, true)];
    var s4 := Do(s3, Leave);
    assert s4.waiter.intervals == [Interval(a, b, true), Interval(a, b, false)];
    states, actions := [s0, s1, s2, s3, s4], [Listen, WakeUp, CallbackAborts, Leave];
    assert s4.waiter.intervals[1].from != s4.waiter.intervals[0].to;
  }
}
