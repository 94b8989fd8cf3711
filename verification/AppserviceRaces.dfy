/** Two interleavings by which a transaction comes to be left behind. */
module AppserviceRaces {
  import opened Results
  import opened AppserviceQueues
  import opened AppserviceDelivery

  // ---------------------------------------------------------------- runs put together from stretches

  ghost predicate Leads(s: Service, actions: seq<Action>, t: Service)
    decreases |actions|
  {
    if actions == [] then s == t
    else Enabled(s, actions[0]) && Leads(Do(s, actions[0]), actions[1..], t)
  }

  lemma {:induction false} LeadsOn(s: Service, first: seq<Action>, t: Service, second: seq<Action>, u: Service)
    requires Leads(s, first, t) && Leads(t, second, u)
    ensures Leads(s, first + second, u)
    decreases |first|
  {
    if first == [] {
      assert first + second == second;
    } else {
      assert (first + second)[1..] == first[1..] + second;
      LeadsOn(Do(s, first[0]), first[1..], t, second, u);
    }
  }

  lemma ThreeSteps(s: Service, actions: seq<Action>, s1: Service, s2: Service, s3: Service)
    requires |actions| == 3
    requires Enabled(s, actions[0]) && s1 == Do(s, actions[0])
    requires Enabled(s1, actions[1]) && s2 == Do(s1, actions[1])
    requires Enabled(s2, actions[2]) && s3 == Do(s2, actions[2])
    ensures Leads(s, actions, s3)
  {
    assert Leads(s3, [], s3);
    assert actions[2..] == [actions[2]] && actions[2..][1..] == [];
    assert Leads(s2, actions[2..], s3);
    assert actions[1..][1..] == actions[2..];
    assert Leads(s1, actions[1..], s3);
  }

  /** A run goes on along a stretch. */
  lemma {:induction false} RunOn(states: seq<Service>, done: seq<Action>, rest: seq<Action>, t: Service)
      returns (all: seq<Service>)
    requires Run(states, done) && Leads(states[|done|], rest, t)
    ensures Run(all, done + rest) && states <= all && all[|done + rest|] == t
    decreases |rest|
  {
    if rest == [] {
      all := states;
      assert done + rest == done;
    } else {
      var next := Do(states[|done|], rest[0]);
      all := RunOn(states + [next], done + [rest[0]], rest[1..], t);
      assert done + [rest[0]] + rest[1..] == done + rest;
    }
  }

  /** Two stretches from a first state make a run. */
  lemma RunThrough(start: Service, first: seq<Action>, middle: Service, rest: seq<Action>, end: Service)
      returns (states: seq<Service>)
    requires Init(start) && Leads(start, first, middle) && Leads(middle, rest, end)
    ensures Run(states, first + rest)
    ensures states[0] == start && states[|first|] == middle && states[|first + rest|] == end
  {
    states := RunOn([start], [], first, middle);
    assert [] + first == first;
    states := RunOn(states, first, rest, end);
  }

  // ---------------------------------------------------------------- the stretches

  function EventBatch(event: RoomEvent): Batch {
    Batch([event], [], [], DeviceListUpdates({}, {}))
  }

  function QueueOf(events: seq<RoomEvent>, inFlight: bool): Queues {
    Queues(events, [], [], [], inFlight)
  }

  const IDLE := Front(QueueOf([], false), [], [])

  /** A front whose only sender is at a given point, with nothing queued. */
  function Busy(sender: Sender, enqueued: seq<RoomEvent>): Front {
    Front(QueueOf([], true), [sender], enqueued)
  }

  lemma FirstEventArrives(event: RoomEvent)
    ensures Arrive(IDLE, EventBatch(event)) == Busy(Deciding(EventBatch(event)), [event])
  {
    var batch := EventBatch(event);
    var queues := Extended(QueueOf([], false), batch).(inFlight := true);
    assert queues == QueueOf([event], true);
    assert NextBatch(queues) == batch;
    assert [] + [event] == [event];
    assert [] + [Resuming] == [Resuming] && [Resuming][0 := Deciding(batch)] == [Deciding(batch)];
  }

  lemma NextEventArrives(sender: Sender, event: RoomEvent, next: RoomEvent)
    ensures Arrive(Busy(sender, [event]), EventBatch(next)) == Front(QueueOf([next], true), [sender], [event, next])
  {
    assert [] + [next] == [next] && [event] + [next] == [event, next];
  }

  lemma NextTurn(sender: Sender, event: RoomEvent, enqueued: seq<RoomEvent>)
    ensures Turn(Front(QueueOf([event], true), [sender], enqueued), 0) == Busy(Deciding(EventBatch(event)), enqueued)
  {
    assert NextBatch(QueueOf([event], true)) == EventBatch(event);
    assert [sender][0 := Deciding(EventBatch(event))] == [Deciding(EventBatch(event))];
  }

  lemma LastTurn(sender: Sender, enqueued: seq<RoomEvent>)
    ensures Turn(Busy(sender, enqueued), 0) == Front(QueueOf([], false), [], enqueued)
  {
  }

  /** The only recoverer is at a given point. */
  function Recovering(phase: Phase, done: seq<nat>, failed: nat): Recovery {
    Recovery(false, 0, failed, true, [Recoverer(1, phase, done)], 0)
  }

  /** A recoverer is started for a service that is down, and waits for its store. */
  lemma StartupLooks(s0: Service) returns (s2: Service)
    requires s0.recovery == Recovery(false, 0, 0, false, [], 0)
    ensures Leads(s0, [StartupStartsRecoverer, DelayPasses(0)], s2)
    ensures s2 == s0.(recovery := Recovering(Fetching, [], 0))
  {
    var s1 := s0.(recovery := Recovering(Waiting, [], 0));
    s2 := s0.(recovery := Recovering(Fetching, [], 0));
    assert s1 == Do(s0, StartupStartsRecoverer);
    TwoSteps(s0, [StartupStartsRecoverer, DelayPasses(0)], s1, s2);
  }

  /** An event arrives, and its transaction is stored: to be sent if the service is up. */
  lemma EventIsStored(s0: Service, event: RoomEvent) returns (s3: Service, s2: Service)
    requires s0.front == IDLE
    ensures Leads(s0, [Enqueue(EventBatch(event)), ReadState(0)], s2)
    ensures s2 == s0.(front := Busy(Creating(EventBatch(event), s0.recovery.up), [event]))
    ensures Enabled(s2, CreateTxn(0)) && s3 == Do(s2, CreateTxn(0))
    ensures s3 == s0.(store := Created(s0.store, EventBatch(event)),
                      front := Busy(if s0.recovery.up then Sending(Txn(s0.store.nextId, EventBatch(event))) else Resuming, [event]))
  {
    FirstEventArrives(event);
    var s1 := s0.(front := Busy(Deciding(EventBatch(event)), [event]));
    assert s1 == Do(s0, Enqueue(EventBatch(event)));
    s2 := s0.(front := Busy(Creating(EventBatch(event), s0.recovery.up), [event]));
    assert Decided(EventBatch(event), s0.recovery.up) == Creating(EventBatch(event), s0.recovery.up);
    assert s2 == Do(s1, ReadState(0));
    TwoSteps(s0, [Enqueue(EventBatch(event)), ReadState(0)], s1, s2);
    s3 := Do(s2, CreateTxn(0));
  }

  lemma TwoSteps(s: Service, actions: seq<Action>, s1: Service, s2: Service)
    requires |actions| == 2
    requires Enabled(s, actions[0]) && s1 == Do(s, actions[0])
    requires Enabled(s1, actions[1]) && s2 == Do(s1, actions[1])
    ensures Leads(s, actions, s2)
  {
    assert Leads(s2, [], s2);
    assert actions[1..] == [actions[1]] && actions[1..][1..] == [];
    assert Leads(s1, actions[1..], s2);
  }

  /** The recoverer is gone, the sender has nothing more to do, and the service is marked as up. */
  lemma ServiceComesUp(s0: Service) returns (s3: Service)
    requires s0.front == Busy(Resuming, s0.front.enqueued) && s0.recovery == Recovering(Emptied, [], 0)
    ensures Leads(s0, [NothingLeft(0), Resume(0), WriteUp], s3)
    ensures s3 == Service(Front(QueueOf([], false), [], s0.front.enqueued), s0.store, Recovery(true, 0, 0, false, [], 0))
  {
    LastTurn(Resuming, s0.front.enqueued);
    var s1 := s0.(recovery := Recovery(false, 0, 0, false, [], 1));
    var s2 := s1.(front := Front(QueueOf([], false), [], s0.front.enqueued));
    s3 := s2.(recovery := Recovery(true, 0, 0, false, [], 0));
    ThreeSteps(s0, [NothingLeft(0), Resume(0), WriteUp], s1, s2, s3);
  }

  /**
   * A run in which a sender that read DOWN stores its transaction between the store's empty answer and what the
   * recoverer makes of it; the service ends up and quiet.
   */
  lemma TransactionLeftBehind(event: RoomEvent) returns (states: seq<Service>, actions: seq<Action>, k: nat)
    ensures Run(states, actions) && states[0].store.unsent == map[]
    ensures k < |actions| && StoresUnattended(states[k], actions[k])
    ensures var end := states[|actions|]; Quiet(end) && end.recovery.up && end.store.unsent != map[]
  {
    var start, first, s5 := UpToTheStore(event);
    var s9 := FromTheStore(s5, event);
    var rest := [CreateTxn(0)] + [NothingLeft(0), Resume(0), WriteUp];
    states := RunThrough(start, first, s5, rest, s9);
    actions, k := first + rest, |first|;
    assert actions[k] == CreateTxn(0);
    assert s5.store.nextId in s9.store.unsent;
  }

  /** The sender reads DOWN while the recoverer waits for the store, which then has nothing for it. */
  lemma UpToTheStore(event: RoomEvent) returns (start: Service, actions: seq<Action>, s: Service)
    ensures Init(start) && start.store.unsent == map[]
    ensures Leads(start, actions, s)
    ensures s.front == Busy(Creating(EventBatch(event), false), [event]) && s.recovery == Recovering(Emptied, [], 0)
  {
    start := Service(IDLE, Store(map[], 0, map[], [], {}), Recovery(false, 0, 0, false, [], 0));
    var s2 := StartupLooks(start);
    var s5, s4 := EventIsStored(s2, event);
    LeadsOn(start, [StartupStartsRecoverer, DelayPasses(0)], s2, [Enqueue(EventBatch(event)), ReadState(0)], s4);
    actions := [StartupStartsRecoverer, DelayPasses(0)] + [Enqueue(EventBatch(event)), ReadState(0)];
    s := s4.(recovery := Recovering(Emptied, [], 0));
    assert s == Do(s4, FetchOldest(0));
    assert Leads(s, [], s) && [FetchOldest(0)][1..] == [];
    LeadsOn(start, actions, s4, [FetchOldest(0)], s);
    actions := actions + [FetchOldest(0)];
  }

  lemma FromTheStore(s: Service, event: RoomEvent) returns (end: Service)
    requires s.front == Busy(Creating(EventBatch(event), false), [event]) && s.recovery == Recovering(Emptied, [], 0)
    ensures Leads(s, [CreateTxn(0)] + [NothingLeft(0), Resume(0), WriteUp], end)
    ensures end.store == Created(s.store, EventBatch(event)) && end.front.senders == [] && end.recovery == Recovery(true, 0, 0, false, [], 0)
  {
    var next := Do(s, CreateTxn(0));
    end := ServiceComesUp(next);
    assert ([CreateTxn(0)] + [NothingLeft(0), Resume(0), WriteUp])[1..] == [NothingLeft(0), Resume(0), WriteUp];
  }

  // ---------------------------------------------------------------- a handler that gives up

  /** The first send fails while the next event waits; the sender reads UP for that one, too. */
  lemma SendFailsWhileUp(s0: Service, x: RoomEvent, y: RoomEvent) returns (s3: Service)
    requires s0.front == Busy(Sending(Txn(0, EventBatch(x))), [x]) && s0.recovery == Recovery(true, 0, 0, false, [], 0)
    ensures Leads(s0, [Enqueue(EventBatch(y)), SendFails(0), ReadState(0)], s3)
    ensures s3 == s0.(front := Busy(Creating(EventBatch(y), true), [x, y]), recovery := Recovery(true, 1, 0, false, [], 0))
  {
    var sending := Sending(Txn(0, EventBatch(x)));
    NextEventArrives(sending, x, y);
    NextTurn(sending, y, [x, y]);
    var s1 := s0.(front := Front(QueueOf([y], true), [sending], [x, y]));
    var s2 := s0.(front := Busy(Deciding(EventBatch(y)), [x, y]), recovery := Recovery(true, 1, 0, false, [], 0));
    s3 := s2.(front := Busy(Creating(EventBatch(y), true), [x, y]));
    assert Decided(EventBatch(y), true) == Creating(EventBatch(y), true);
    ThreeSteps(s0, [Enqueue(EventBatch(y)), SendFails(0), ReadState(0)], s1, s2, s3);
  }

  lemma HandlerStarts(s0: Service) returns (s3: Service)
    requires s0.recovery == Recovery(true, 1, 0, false, [], 0)
    ensures Leads(s0, [WriteDown, HandlerStartsRecoverer, DelayPasses(0)], s3)
    ensures s3 == s0.(recovery := Recovering(Fetching, [], 0))
  {
    var s1 := s0.(recovery := Recovery(false, 0, 1, false, [], 0));
    var s2 := s0.(recovery := Recovering(Waiting, [], 0));
    s3 := s0.(recovery := Recovering(Fetching, [], 0));
    assert s2 == Do(s1, HandlerStartsRecoverer);
    ThreeSteps(s0, [WriteDown, HandlerStartsRecoverer, DelayPasses(0)], s1, s2, s3);
  }

  /** The recoverer delivers the only transaction there is. */
  lemma RecovererDelivers(s0: Service, x: RoomEvent) returns (s3: Service)
    requires s0.store.unsent == map[0 := EventBatch(x)] && s0.recovery == Recovering(Fetching, [], 0)
    ensures Leads(s0, [FetchOldest(0), ResendSucceeds(0), FinishTxn(0)], s3)
    ensures s3 == s0.(store := Deleted(Acknowledged(s0.store, 0), 0), recovery := Recovering(Fetching, [0], 0))
  {
    var txn := Txn(0, EventBatch(x));
    var s1 := s0.(recovery := Recovering(Resending(txn), [], 0));
    var s2 := s0.(store := Acknowledged(s0.store, 0), recovery := Recovering(Finishing(txn), [], 0));
    s3 := s0.(store := Deleted(Acknowledged(s0.store, 0), 0), recovery := Recovering(Fetching, [0], 0));
    assert s1 == Do(s0, FetchOldest(0)) by {
      assert IsLeast(s0.store.unsent.Keys, Oldest(s0.store.unsent.Keys));
    }
    assert [] + [0] == [0];
    ThreeSteps(s0, [FetchOldest(0), ResendSucceeds(0), FinishTxn(0)], s1, s2, s3);
  }

  /** It finds nothing more; only then is the next transaction stored, and its send fails as well. */
  lemma SecondSendFails(s0: Service, y: RoomEvent) returns (s3: Service)
    requires s0.front == Busy(Creating(EventBatch(y), true), s0.front.enqueued)
    requires s0.store.unsent == map[] && s0.recovery == Recovering(Fetching, [0], 0)
    ensures Leads(s0, [FetchOldest(0), CreateTxn(0), SendFails(0)], s3)
    ensures s3 == Service(Front(QueueOf([], false), [], s0.front.enqueued), Created(s0.store, EventBatch(y)),
                          Recovery(false, 1, 0, true, [Recoverer(1, Emptied, [0])], 0))
  {
    var sending := Sending(Txn(s0.store.nextId, EventBatch(y)));
    var s1 := s0.(recovery := Recovering(Emptied, [0], 0));
    var s2 := s1.(front := Busy(sending, s0.front.enqueued), store := Created(s0.store, EventBatch(y)));
    LastTurn(sending, s0.front.enqueued);
    s3 := Service(Front(QueueOf([], false), [], s0.front.enqueued), Created(s0.store, EventBatch(y)),
                  Recovery(false, 1, 0, true, [Recoverer(1, Emptied, [0])], 0));
    ThreeSteps(s0, [FetchOldest(0), CreateTxn(0), SendFails(0)], s1, s2, s3);
  }

  /** The handler of that failure finds a recoverer registered, which is about to go. */
  lemma HandlerFindsRecoverer(s0: Service) returns (s1: Service, s4: Service)
    requires s0.recovery == Recovery(false, 1, 0, true, [Recoverer(1, Emptied, [0])], 0)
    ensures Enabled(s0, WriteDown) && s1 == Do(s0, WriteDown) && s1 == s0.(recovery := Recovering(Emptied, [0], 1))
    ensures Leads(s1, [HandlerStartsRecoverer, NothingLeft(0), WriteUp], s4)
    ensures s4 == s0.(recovery := Recovery(true, 0, 0, false, [], 0))
  {
    s1 := s0.(recovery := Recovering(Emptied, [0], 1));
    var s2 := s0.(recovery := Recovering(Emptied, [0], 0));
    var s3 := s0.(recovery := Recovery(false, 0, 0, false, [], 1));
    s4 := s0.(recovery := Recovery(true, 0, 0, false, [], 0));
    ThreeSteps(s1, [HandlerStartsRecoverer, NothingLeft(0), WriteUp], s2, s3, s4);
  }

  /** Up to the point where the recoverer looks at the store for the first time. */
  lemma UpToTheRecoverer(x: RoomEvent, y: RoomEvent) returns (start: Service, actions: seq<Action>, s: Service)
    ensures Init(start) && start.store.unsent == map[]
    ensures Leads(start, actions, s)
    ensures s.front == Busy(Creating(EventBatch(y), true), [x, y]) && s.recovery == Recovering(Fetching, [], 0)
    ensures s.store.unsent == map[0 := EventBatch(x)] && s.store.nextId == 1
  {
    start := Service(IDLE, Store(map[], 0, map[], [], {}), Recovery(true, 0, 0, false, [], 0));
    var s3, s2 := EventIsStored(start, x);
    assert Leads(s3, [], s3) && [CreateTxn(0)][1..] == [];
    LeadsOn(start, [Enqueue(EventBatch(x)), ReadState(0)], s2, [CreateTxn(0)], s3);
    actions := [Enqueue(EventBatch(x)), ReadState(0)] + [CreateTxn(0)];
    var s6 := SendFailsWhileUp(s3, x, y);
    LeadsOn(start, actions, s3, [Enqueue(EventBatch(y)), SendFails(0), ReadState(0)], s6);
    actions := actions + [Enqueue(EventBatch(y)), SendFails(0), ReadState(0)];
    s := HandlerStarts(s6);
    LeadsOn(start, actions, s6, [WriteDown, HandlerStartsRecoverer, DelayPasses(0)], s);
    actions := actions + [WriteDown, HandlerStartsRecoverer, DelayPasses(0)];
  }

  /** Up to the point where the handler of the second failure is about to write DOWN. */
  lemma UpToTheHandler(x: RoomEvent, y: RoomEvent) returns (start: Service, actions: seq<Action>, s: Service)
    ensures Init(start) && start.store.unsent == map[]
    ensures Leads(start, actions, s)
    ensures s.front.senders == [] && 1 in s.store.unsent
    ensures s.recovery == Recovery(false, 1, 0, true, [Recoverer(1, Emptied, [0])], 0)
  {
    var s9;
    start, actions, s9 := UpToTheRecoverer(x, y);
    var s12 := RecovererDelivers(s9, x);
    LeadsOn(start, actions, s9, [FetchOldest(0), ResendSucceeds(0), FinishTxn(0)], s12);
    actions := actions + [FetchOldest(0), ResendSucceeds(0), FinishTxn(0)];
    assert s12.store.unsent == map[];
    s := SecondSendFails(s12, y);
    LeadsOn(start, actions, s12, [FetchOldest(0), CreateTxn(0), SendFails(0)], s);
    actions := actions + [FetchOldest(0), CreateTxn(0), SendFails(0)];
  }

  /** A run in which the last failure handler starts no recoverer for its transaction; the service ends up and quiet. */
  lemma HandlerLeavesTransactionBehind(x: RoomEvent, y: RoomEvent) returns (states: seq<Service>, actions: seq<Action>, k: nat)
    ensures Run(states, actions) && states[0].store.unsent == map[]
    ensures k < |actions| && HandlerGivesUp(states[k], actions[k])
    ensures var end := states[|actions|]; Quiet(end) && end.recovery.up && end.store.unsent != map[]
  {
    var start, before, s15 := UpToTheHandler(x, y);
    var s16, s19 := HandlerFindsRecoverer(s15);
    assert Leads(s16, [], s16) && [WriteDown][1..] == [];
    LeadsOn(start, before, s15, [WriteDown], s16);
    var first := before + [WriteDown];
    var rest := [HandlerStartsRecoverer, NothingLeft(0), WriteUp];
    states := RunThrough(start, first, s16, rest, s19);
    actions, k := first + rest, |first|;
    assert actions[k] == HandlerStartsRecoverer;
    assert !Delivered(s16.front, 1) && !AllDelivered(s16);
    assert 1 in s19.store.unsent;
  }
}
