/**
 * The delivery of transactions to one application service, as steps between the points at which
 * the sender, the failure handler and the recoverer wait.
 */
module AppserviceDelivery {
  import opened Results
  import opened AppserviceQueues

  datatype Txn = Txn(id: nat, batch: Batch)

  /** Where a sender waits. */
  datatype Sender =
    | Deciding(batch: Batch)             // for the state of the service (and the key counts)
    | Creating(batch: Batch, up: bool)   // for the transaction to be stored
    | Sending(txn: Txn)                  // for the service to answer
    | Completing(txn: Txn)               // for the transaction to be deleted
    | Resuming                           // before the next turn of its loop

  /** Where a recoverer waits. */
  datatype Phase =
    | Waiting                // for its delay to pass
    | Fetching               // for the oldest unsent transaction
    | Resending(txn: Txn)    // for the service to answer
    | Finishing(txn: Txn)    // for the transaction to be deleted
    | Emptied                // to go on, the store having had nothing left

  /** A recoverer; `done` records what it completed. */
  datatype Recoverer = Recoverer(backoff: nat, phase: Phase, done: seq<nat>)

  /** The queues and the senders at work on them; `enqueued` records every event ever queued. */
  datatype Front = Front(queues: Queues, senders: seq<Sender>, enqueued: seq<RoomEvent>)

  /**
   * The store: the transactions not yet deleted, and the next id. The other fields record the history:
   * all transactions ever stored, those created by the senders, and those the service acknowledged.
   */
  datatype Store = Store(
    unsent: map<nat, Batch>,
    nextId: nat,
    stored: map<nat, Batch>,
    created: seq<Txn>,
    acknowledged: set<nat>)

  /**
   * Failure and recovery: `up` is the stored state, `failing` and `failed` count the failure handlers
   * before and after their DOWN write, `recovered` the finished recoverers before their UP write.
   */
  datatype Recovery = Recovery(
    up: bool,
    failing: nat,
    failed: nat,
    registered: bool,
    recoverers: seq<Recoverer>,
    recovered: nat)

  /** Everything that concerns one service. */
  datatype Service = Service(front: Front, store: Store, recovery: Recovery)

  /** At first nothing is queued or running; the store may hold transactions of an earlier process. */
  ghost predicate Init(s: Service) {
    && s.front == Front(Queues([], [], [], [], false), [], [])
    && s.store.created == [] && s.store.acknowledged == {} && s.store.stored == s.store.unsent
    && (forall id | id in s.store.unsent :: id < s.store.nextId)
    && s.recovery == Recovery(s.recovery.up, 0, 0, false, [], 0)
  }

  // ---------------------------------------------------------------- the steps

  datatype Action =
    | Enqueue(more: Batch)
    | OtherServiceSends            // drops the pending device list summaries
    | OtherServiceTakesIds(next: nat)
    | ReadState(i: nat)
    | CreateTxn(i: nat)
    | SendSucceeds(i: nat)
    | SendFails(i: nat)
    | CompleteTxn(i: nat)
    | Resume(i: nat)
    | WriteDown
    | HandlerStartsRecoverer
    | StartupStartsRecoverer
    | DelayPasses(j: nat)
    | FetchOldest(j: nat)
    | ResendSucceeds(j: nat)
    | ResendFails(j: nat)
    | FinishTxn(j: nat)
    | NothingLeft(j: nat)
    | WriteUp

  predicate Enabled(s: Service, action: Action) {
    var senders, recoverers := s.front.senders, s.recovery.recoverers;
    match action
    case Enqueue(_) => true
    case OtherServiceSends => true
    case OtherServiceTakesIds(next) => next >= s.store.nextId
    case ReadState(i) => i < |senders| && senders[i].Deciding?
    case CreateTxn(i) => i < |senders| && senders[i].Creating?
    case SendSucceeds(i) => i < |senders| && senders[i].Sending?
    case SendFails(i) => i < |senders| && senders[i].Sending?
    case CompleteTxn(i) => i < |senders| && senders[i].Completing?
    case Resume(i) => i < |senders| && senders[i].Resuming?
    case WriteDown => s.recovery.failing > 0
    case HandlerStartsRecoverer => s.recovery.failed > 0
    case StartupStartsRecoverer => true
    case DelayPasses(j) => j < |recoverers| && recoverers[j].phase.Waiting?
    case FetchOldest(j) => j < |recoverers| && recoverers[j].phase.Fetching?
    case ResendSucceeds(j) => j < |recoverers| && recoverers[j].phase.Resending?
    case ResendFails(j) => j < |recoverers| && recoverers[j].phase.Resending?
    case FinishTxn(j) => j < |recoverers| && recoverers[j].phase.Finishing?
    case NothingLeft(j) => j < |recoverers| && recoverers[j].phase.Emptied?
    case WriteUp => s.recovery.recovered > 0
  }

  function Without<T>(xs: seq<T>, i: nat): seq<T>
    requires i < |xs|
  {
    xs[..i] + xs[i + 1..]
  }

  /** One turn of the loop of sender `i`: it takes a batch, or stops. */
  function Turn(front: Front, i: nat): Front
    requires i < |front.senders|
  {
    var batch := NextBatch(front.queues);
    front.(queues := AfterBatch(front.queues),
           senders := if batch.IsEmpty() then Without(front.senders, i) else front.senders[i := Deciding(batch)])
  }

  /** Data arrives; a sender starts unless one is in flight. */
  function Arrive(front: Front, more: Batch): Front {
    var queues, enqueued := Extended(front.queues, more), front.enqueued + more.events;
    if more.IsEmpty() || front.queues.inFlight then Front(queues, front.senders, enqueued)
    else Turn(Front(queues.(inFlight := true), front.senders + [Resuming], enqueued), |front.senders|)
  }

  /** What a sender does next, once it has read the state: while the service is down it creates no empty transaction. */
  function Decided(batch: Batch, up: bool): Sender {
    if !up && batch.events == [] then Resuming else Creating(batch, up)
  }

  function Created(store: Store, batch: Batch): Store {
    var id := store.nextId;
    store.(unsent := store.unsent[id := batch], stored := store.stored[id := batch],
           nextId := id + 1, created := store.created + [Txn(id, batch)])
  }

  function Acknowledged(store: Store, id: nat): Store {
    store.(acknowledged := store.acknowledged + {id})
  }

  function Deleted(store: Store, id: nat): Store {
    store.(unsent := store.unsent - {id})
  }

  /** A recoverer starts, unless the service has one already. */
  function Recover(recovery: Recovery): Recovery {
    if recovery.registered then recovery
    else recovery.(registered := true, recoverers := recovery.recoverers + [Recoverer(1, Waiting, [])])
  }

  predicate IsLeast(ids: set<nat>, id: nat) {
    id in ids && forall other | other in ids :: id <= other
  }

  /** The smallest id of a non-empty store. */
  function Oldest(ids: set<nat>): (id: nat)
    requires ids != {}
    ensures IsLeast(ids, id)
  {
    LeastExists(ids);
    var id :| IsLeast(ids, id);
    id
  }

  lemma {:induction false} LeastExists(ids: set<nat>)
    requires ids != {}
    ensures exists id :: IsLeast(ids, id)
  {
    var id :| id in ids;
    var rest := ids - {id};
    assert forall other | other in ids :: other == id || other in rest;
    if rest == {} {
      assert IsLeast(ids, id);
    } else {
      LeastExists(rest);
      var least :| IsLeast(rest, least);
      assert IsLeast(ids, if id < least then id else least);
    }
  }

  /** The store has answered the recoverer: with its oldest transaction, or with nothing. */
  function Fetched(r: Recoverer, store: Store): Recoverer {
    if store.unsent.Keys == {} then r.(phase := Emptied)
    else
      var id := Oldest(store.unsent.Keys);
      r.(phase := Resending(Txn(id, store.unsent[id])))
  }

  /** The recoverer that got nothing is done, except for its UP write. */
  function Removed(recovery: Recovery, j: nat): Recovery
    requires j < |recovery.recoverers|
  {
    recovery.(registered := false, recoverers := Without(recovery.recoverers, j), recovered := recovery.recovered + 1)
  }

  function Moved(recovery: Recovery, j: nat, r: Recoverer): Recovery
    requires j < |recovery.recoverers|
  {
    recovery.(recoverers := recovery.recoverers[j := r])
  }

  /** The next delay is longer, up to a cap. */
  function BackedOff(r: Recoverer): Recoverer {
    r.(backoff := if r.backoff < 9 then r.backoff + 1 else r.backoff, phase := Waiting)
  }

  /** Once something is completed the delays start over. */
  function Completed(r: Recoverer, id: nat): Recoverer {
    Recoverer(1, Fetching, r.done + [id])
  }

  /** The step a sender takes. */
  function SenderStep(s: Service, action: Action, i: nat): Service
    requires Enabled(s, action)
    requires action in {ReadState(i), CreateTxn(i), SendSucceeds(i), SendFails(i), CompleteTxn(i), Resume(i)}
  {
    var front, store, sender := s.front, s.store, s.front.senders[i];
    match action
    case ReadState(_) => s.(front := front.(senders := front.senders[i := Decided(sender.batch, s.recovery.up)]))
    case CreateTxn(_) =>
      var next := if sender.up then Sending(Txn(store.nextId, sender.batch)) else Resuming;
      s.(front := front.(senders := front.senders[i := next]), store := Created(store, sender.batch))
    case SendSucceeds(_) =>
      s.(front := front.(senders := front.senders[i := Completing(sender.txn)]), store := Acknowledged(store, sender.txn.id))
    case SendFails(_) =>
      s.(front := Turn(front, i), recovery := s.recovery.(failing := s.recovery.failing + 1))
    case CompleteTxn(_) =>
      s.(front := front.(senders := front.senders[i := Resuming]), store := Deleted(store, sender.txn.id))
    case Resume(_) => s.(front := Turn(front, i))
  }

  /** The step a recoverer takes. */
  function RecovererStep(s: Service, action: Action, j: nat): Service
    requires Enabled(s, action)
    requires action in {DelayPasses(j), FetchOldest(j), ResendSucceeds(j), ResendFails(j), FinishTxn(j), NothingLeft(j)}
  {
    var recovery, r := s.recovery, s.recovery.recoverers[j];
    match action
    case DelayPasses(_) => s.(recovery := Moved(recovery, j, r.(phase := Fetching)))
    case FetchOldest(_) => s.(recovery := Moved(recovery, j, Fetched(r, s.store)))
    case ResendSucceeds(_) =>
      s.(store := Acknowledged(s.store, r.phase.txn.id), recovery := Moved(recovery, j, r.(phase := Finishing(r.phase.txn))))
    case ResendFails(_) => s.(recovery := Moved(recovery, j, BackedOff(r)))
    case FinishTxn(_) =>
      s.(store := Deleted(s.store, r.phase.txn.id), recovery := Moved(recovery, j, Completed(r, r.phase.txn.id)))
    case NothingLeft(_) => s.(recovery := Removed(recovery, j))
  }

  function Do(s: Service, action: Action): Service
    requires Enabled(s, action)
  {
    var recovery := s.recovery;
    match action
    case Enqueue(more) => s.(front := Arrive(s.front, more))
    case OtherServiceSends => s.(front := s.front.(queues := s.front.queues.(summaries := [])))
    case OtherServiceTakesIds(next) => s.(store := s.store.(nextId := next))
    case WriteDown =>
      s.(recovery := recovery.(failing := recovery.failing - 1, failed := recovery.failed + 1, up := false))
    case HandlerStartsRecoverer => s.(recovery := Recover(recovery.(failed := recovery.failed - 1)))
    case StartupStartsRecoverer => s.(recovery := Recover(recovery))
    case WriteUp => s.(recovery := recovery.(recovered := recovery.recovered - 1, up := true))
    case ReadState(i) => SenderStep(s, action, i)
    case CreateTxn(i) => SenderStep(s, action, i)
    case SendSucceeds(i) => SenderStep(s, action, i)
    case SendFails(i) => SenderStep(s, action, i)
    case CompleteTxn(i) => SenderStep(s, action, i)
    case Resume(i) => SenderStep(s, action, i)
    case DelayPasses(j) => RecovererStep(s, action, j)
    case FetchOldest(j) => RecovererStep(s, action, j)
    case ResendSucceeds(j) => RecovererStep(s, action, j)
    case ResendFails(j) => RecovererStep(s, action, j)
    case FinishTxn(j) => RecovererStep(s, action, j)
    case NothingLeft(j) => RecovererStep(s, action, j)
  }

  // ---------------------------------------------------------------- what every step keeps

  function EventsOf(txns: seq<Txn>, n: nat): seq<RoomEvent>
    requires n <= |txns|
  {
    if n == 0 then [] else EventsOf(txns, n - 1) + txns[n - 1].batch.events
  }

  /** The events a sender has taken from the queue and not yet put into a transaction. */
  function InHand(senders: seq<Sender>): seq<RoomEvent> {
    if senders == [] then []
    else match senders[0]
      case Deciding(batch) => batch.events
      case Creating(batch, _) => batch.events
      case _ => []
  }

  /** There is one sender at most, and nothing waits without a sender. */
  ghost predicate SingleSender(front: Front) {
    && |front.senders| <= 1
    && (front.queues.inFlight <==> front.senders != [])
    && (!front.queues.inFlight ==>
          front.queues.events == [] && front.queues.ephemeral == [] && front.queues.toDevice == [])
    && |InHand(front.senders)| <= MAX_PER_TRANSACTION
  }

  /** No event is lost, doubled or reordered: transactions, then the batch in hand, then the queue. */
  ghost predicate NothingLost(front: Front, created: seq<Txn>) {
    && SingleSender(front)
    && EventsOf(created, |created|) + InHand(front.senders) + front.queues.events == front.enqueued
    && (forall i | 0 <= i < |created| :: |created[i].batch.events| <= MAX_PER_TRANSACTION)
  }

  /** A transaction leaves the store only once the service has acknowledged it; ids are never reused. */
  ghost predicate StoreSound(store: Store) {
    && (forall id | id in store.stored :: id < store.nextId)
    && (forall id | id in store.unsent :: id in store.stored && store.unsent[id] == store.stored[id])
    && (forall id | id in store.stored && id !in store.unsent :: id in store.acknowledged)
    && (forall i | 0 <= i < |store.created| :: Stored(store, store.created[i]))
    && (forall i, k | 0 <= i < k < |store.created| :: store.created[i].id < store.created[k].id)
  }

  ghost predicate Stored(store: Store, txn: Txn) {
    txn.id in store.stored && store.stored[txn.id] == txn.batch
  }

  /** A transaction under way was stored, and is deleted only after the service acknowledged it. */
  ghost predicate UnderWay(store: Store, txn: Txn, sent: bool) {
    Stored(store, txn) && (sent ==> txn.id in store.acknowledged)
  }

  ghost predicate SenderSound(store: Store, sender: Sender) {
    sender.Sending? || sender.Completing? ==> UnderWay(store, sender.txn, sender.Completing?)
  }

  ghost predicate SendersSound(store: Store, senders: seq<Sender>) {
    forall i | 0 <= i < |senders| :: SenderSound(store, senders[i])
  }

  function Min(a: nat, b: nat): nat {
    if a < b then a else b
  }

  predicate Increasing(ids: seq<nat>) {
    forall i, k | 0 <= i < k < |ids| :: ids[i] < ids[k]
  }

  /** An id all of whose predecessors have left the store. */
  predicate NoneOlder(store: Store, id: nat) {
    forall other | other in store.unsent :: id <= other
  }

  /** A recoverer works through the store from its oldest transaction on. */
  ghost predicate RecovererSound(store: Store, r: Recoverer) {
    && Increasing(r.done)
    && (forall i | 0 <= i < |r.done| :: r.done[i] in store.stored && r.done[i] !in store.unsent && NoneOlder(store, r.done[i]))
    && (r.phase.Resending? || r.phase.Finishing? ==>
          && UnderWay(store, r.phase.txn, r.phase.Finishing?)
          && NoneOlder(store, r.phase.txn.id)
          && forall i | 0 <= i < |r.done| :: r.done[i] < r.phase.txn.id)
  }

  /** There is one recoverer at most, the registered one. */
  ghost predicate RecoverySound(store: Store, recovery: Recovery) {
    && |recovery.recoverers| == (if recovery.registered then 1 else 0)
    && forall j | 0 <= j < |recovery.recoverers| :: RecovererSound(store, recovery.recoverers[j])
  }

  ghost predicate Sound(s: Service) {
    && NothingLost(s.front, s.store.created)
    && StoreSound(s.store)
    && SendersSound(s.store, s.front.senders)
    && RecoverySound(s.store, s.recovery)
  }

  // ---------------------------------------------------------------- the events are conserved

  lemma TurnKeepsEvents(front: Front, created: seq<Txn>, i: nat)
    requires i < |front.senders| == 1
    requires InHand(front.senders) == []
    requires EventsOf(created, |created|) + front.queues.events == front.enqueued
    requires forall k | 0 <= k < |created| :: |created[k].batch.events| <= MAX_PER_TRANSACTION
    ensures NothingLost(Turn(front, i), created)
  {
    var events := front.queues.events;
    assert EventsOf(created, |created|) + Head(events) + Tail(events) == EventsOf(created, |created|) + (Head(events) + Tail(events));
    assert Head(events) + Tail(events) == events;
  }

  lemma ArriveKeepsEvents(front: Front, created: seq<Txn>, more: Batch)
    requires NothingLost(front, created)
    ensures NothingLost(Arrive(front, more), created)
  {
    assert EventsOf(created, |created|) + InHand(front.senders) + (front.queues.events + more.events)
        == front.enqueued + more.events;
    if !more.IsEmpty() && !front.queues.inFlight {
      var queues := Extended(front.queues, more).(inFlight := true);
      TurnKeepsEvents(Front(queues, front.senders + [Resuming], front.enqueued + more.events), created, 0);
    }
  }

  lemma {:induction false} EventsOfPrefix(txns: seq<Txn>, more: Txn, n: nat)
    requires n <= |txns|
    ensures EventsOf(txns + [more], n) == EventsOf(txns, n)
  {
    if n > 0 {
      EventsOfPrefix(txns, more, n - 1);
    }
  }

  /** A transaction takes over the batch in hand. */
  lemma CreateKeepsEvents(front: Front, created: seq<Txn>, txn: Txn, next: Sender)
    requires NothingLost(front, created)
    requires front.senders != [] && txn.batch.events == InHand(front.senders) && InHand([next]) == []
    ensures NothingLost(front.(senders := front.senders[0 := next]), created + [txn])
  {
    EventsOfPrefix(created, txn, |created|);
    assert EventsOf(created + [txn], |created| + 1) == EventsOf(created, |created|) + txn.batch.events;
  }

  lemma StepKeepsNothingLost(s: Service, action: Action)
    requires Enabled(s, action) && NothingLost(s.front, s.store.created)
    ensures NothingLost(Do(s, action).front, Do(s, action).store.created)
  {
    match action
    case Enqueue(more) => ArriveKeepsEvents(s.front, s.store.created, more);
    case CreateTxn(i) =>
      var txn := Txn(s.store.nextId, s.front.senders[0].batch);
      CreateKeepsEvents(s.front, s.store.created, txn, if s.front.senders[0].up then Sending(txn) else Resuming);
    case SendFails(i) => TurnKeepsEvents(s.front, s.store.created, i);
    case Resume(i) => TurnKeepsEvents(s.front, s.store.created, i);
    case ReadState(i) => assert InHand(Do(s, action).front.senders) == InHand(s.front.senders);
    case _ =>
  }

  // ---------------------------------------------------------------- the store and the senders

  lemma StepKeepsStoreSound(s: Service, action: Action)
    requires Enabled(s, action) && StoreSound(s.store)
    requires SendersSound(s.store, s.front.senders) && RecoverySound(s.store, s.recovery)
    ensures StoreSound(Do(s, action).store)
  {
    match action
    case CreateTxn(i) => CreatedIsSound(s.store, s.front.senders[i].batch);
    case CompleteTxn(i) =>
      assert SenderSound(s.store, s.front.senders[i]);
      DeletedIsSound(s.store, s.front.senders[i].txn.id);
    case FinishTxn(j) =>
      assert RecovererSound(s.store, s.recovery.recoverers[j]);
      DeletedIsSound(s.store, s.recovery.recoverers[j].phase.txn.id);
    case _ =>
  }

  lemma CreatedIsSound(store: Store, batch: Batch)
    requires StoreSound(store)
    ensures StoreSound(Created(store, batch))
  {
  }

  lemma DeletedIsSound(store: Store, id: nat)
    requires StoreSound(store) && id in store.acknowledged
    ensures StoreSound(Deleted(store, id))
  {
  }

  /** The store keeps what it ever held, acknowledgements are never taken back, and new ids are larger. */
  ghost predicate Grows(store: Store, next: Store) {
    && (forall id | id in store.stored :: id in next.stored && next.stored[id] == store.stored[id])
    && store.acknowledged <= next.acknowledged
    && (forall id | id in next.unsent :: id in store.unsent || id >= store.nextId)
  }

  lemma StepGrowsStore(s: Service, action: Action)
    requires Enabled(s, action) && StoreSound(s.store)
    ensures Grows(s.store, Do(s, action).store)
  {
  }

  lemma StepKeepsSendersSound(s: Service, action: Action)
    requires Enabled(s, action) && StoreSound(s.store) && SendersSound(s.store, s.front.senders)
    ensures SendersSound(Do(s, action).store, Do(s, action).front.senders)
  {
    StepGrowsStore(s, action);
    var next := Do(s, action);
    forall i | 0 <= i < |next.front.senders|
      ensures SenderSound(next.store, next.front.senders[i])
    {
      if action.SendSucceeds? {
        assert SenderSound(s.store, s.front.senders[action.i]);
      }
      if next.front.senders[i] in s.front.senders {
        var k :| 0 <= k < |s.front.senders| && s.front.senders[k] == next.front.senders[i];
        assert SenderSound(s.store, s.front.senders[k]);
      }
    }
  }

  // ---------------------------------------------------------------- the recoverer

  /** A recoverer that does not move is not disturbed by the others. */
  lemma RecovererUndisturbed(store: Store, next: Store, r: Recoverer)
    requires StoreSound(store) && RecovererSound(store, r) && Grows(store, next)
    ensures RecovererSound(next, r)
  {
  }

  /** The recoverer's own steps. */
  lemma RecovererMoves(s: Service, action: Action, j: nat)
    requires Enabled(s, action) && StoreSound(s.store) && RecoverySound(s.store, s.recovery)
    requires action in {DelayPasses(j), FetchOldest(j), ResendSucceeds(j), ResendFails(j), FinishTxn(j), NothingLeft(j)}
    ensures RecoverySound(Do(s, action).store, Do(s, action).recovery)
  {
    assert RecovererSound(s.store, s.recovery.recoverers[j]);
    if action.FetchOldest? {
      FetchedIsSound(s.store, s.recovery.recoverers[j]);
    } else if action.FinishTxn? {
      CompletedIsSound(s.store, s.recovery.recoverers[j]);
    }
  }

  lemma FetchedIsSound(store: Store, r: Recoverer)
    requires StoreSound(store) && RecovererSound(store, r)
    ensures RecovererSound(store, Fetched(r, store))
  {
  }

  lemma CompletedIsSound(store: Store, r: Recoverer)
    requires StoreSound(store) && RecovererSound(store, r) && r.phase.Finishing?
    ensures RecovererSound(Deleted(store, r.phase.txn.id), Completed(r, r.phase.txn.id))
  {
  }

  lemma StepKeepsRecoverySound(s: Service, action: Action)
    requires Enabled(s, action) && StoreSound(s.store) && RecoverySound(s.store, s.recovery)
    ensures RecoverySound(Do(s, action).store, Do(s, action).recovery)
  {
    match action
    case DelayPasses(j) => RecovererMoves(s, action, j);
    case FetchOldest(j) => RecovererMoves(s, action, j);
    case ResendSucceeds(j) => RecovererMoves(s, action, j);
    case ResendFails(j) => RecovererMoves(s, action, j);
    case FinishTxn(j) => RecovererMoves(s, action, j);
    case NothingLeft(j) => RecovererMoves(s, action, j);
    case _ => OthersMove(s, action);
  }

  predicate OfRecoverer(action: Action) {
    || action.DelayPasses? || action.FetchOldest? || action.ResendSucceeds?
    || action.ResendFails? || action.FinishTxn? || action.NothingLeft?
  }

  /** The steps of all others start a recoverer at most. */
  lemma OthersMove(s: Service, action: Action)
    requires Enabled(s, action) && !OfRecoverer(action) && StoreSound(s.store) && RecoverySound(s.store, s.recovery)
    ensures RecoverySound(Do(s, action).store, Do(s, action).recovery)
  {
    StepGrowsStore(s, action);
    OthersStartAtMost(s, action);
    if s.recovery.registered {
      RecovererUndisturbed(s.store, Do(s, action).store, s.recovery.recoverers[0]);
    }
  }

  lemma OthersStartAtMost(s: Service, action: Action)
    requires Enabled(s, action) && !OfRecoverer(action) && |s.recovery.recoverers| == (if s.recovery.registered then 1 else 0)
    ensures var before, after := s.recovery, Do(s, action).recovery;
            || (after.recoverers == before.recoverers && after.registered == before.registered)
            || (!before.registered && after.registered && after.recoverers == [Recoverer(1, Waiting, [])])
  {
  }

  // ---------------------------------------------------------------- runs

  /** The states an interleaving passes through. */
  ghost predicate Run(states: seq<Service>, actions: seq<Action>) {
    && |states| == |actions| + 1
    && Init(states[0])
    && forall n {:trigger actions[n]} | 0 <= n < |actions| :: Enabled(states[n], actions[n]) && states[n + 1] == Do(states[n], actions[n])
  }

  /** Every state of every interleaving is sound. */
  lemma {:induction false} RunsStaySound(states: seq<Service>, actions: seq<Action>, n: nat)
    requires Run(states, actions) && n < |states|
    ensures Sound(states[n])
  {
    if n > 0 {
      RunsStaySound(states, actions, n - 1);
      StepKeepsNothingLost(states[n - 1], actions[n - 1]);
      StepKeepsStoreSound(states[n - 1], actions[n - 1]);
      StepKeepsSendersSound(states[n - 1], actions[n - 1]);
      StepKeepsRecoverySound(states[n - 1], actions[n - 1]);
    }
  }

  /** Call `n` was a send of a transaction, by a sender or a recoverer, that the service acknowledged. */
  predicate SentSuccessfully(s: Service, action: Action, id: nat)
    requires Enabled(s, action)
  {
    || (action.SendSucceeds? && s.front.senders[action.i].txn.id == id)
    || (action.ResendSucceeds? && s.recovery.recoverers[action.j].phase.txn.id == id)
  }

  lemma {:induction false} AcknowledgedWasSent(states: seq<Service>, actions: seq<Action>, n: nat, id: nat) returns (k: nat)
    requires Run(states, actions) && n < |states|
    requires id in states[n].store.acknowledged
    ensures k < n && SentSuccessfully(states[k], actions[k], id)
  {
    if id in states[n - 1].store.acknowledged {
      k := AcknowledgedWasSent(states, actions, n - 1, id);
    } else {
      k := n - 1;
    }
  }

  /** A transaction that was in the store, and no longer is, was sent successfully before. */
  lemma DeletedWasSent(states: seq<Service>, actions: seq<Action>, n: nat, id: nat) returns (k: nat)
    requires Run(states, actions) && n < |states|
    requires id in states[n].store.stored && id !in states[n].store.unsent
    ensures k < n && SentSuccessfully(states[k], actions[k], id)
  {
    RunsStaySound(states, actions, n);
    k := AcknowledgedWasSent(states, actions, n, id);
  }

  function Pow2(n: nat): nat {
    if n == 0 then 1 else 2 * Pow2(n - 1)
  }

  /** The delay in seconds that a waiting recoverer has scheduled. */
  function Delay(r: Recoverer): nat {
    Pow2(r.backoff)
  }

  lemma {:induction false} Pow2Grows(m: nat, n: nat)
    requires m <= n
    ensures Pow2(m) <= Pow2(n)
  {
    if m < n {
      Pow2Grows(m, n - 1);
    }
  }

  /** How many retries in a row have failed, since a transaction was last completed or a recoverer last had nothing left. */
  function FailuresInARow(actions: seq<Action>, n: nat): nat
    requires n <= |actions|
  {
    if n == 0 then 0
    else if actions[n - 1].FinishTxn? || actions[n - 1].NothingLeft? then 0
    else FailuresInARow(actions, n - 1) + if actions[n - 1].ResendFails? then 1 else 0
  }

  /** The back-off counter follows the failures; without a recoverer there are none. */
  ghost predicate BackoffCounts(recovery: Recovery, failures: nat) {
    && |recovery.recoverers| <= 1
    && (recovery.recoverers == [] ==> failures == 0)
    && (recovery.recoverers != [] ==> recovery.recoverers[0].backoff == Min(1 + failures, 9))
  }

  lemma StepCounts(s: Service, actions: seq<Action>, n: nat)
    requires n < |actions| && Enabled(s, actions[n]) && RecoverySound(s.store, s.recovery)
    requires BackoffCounts(s.recovery, FailuresInARow(actions, n))
    ensures BackoffCounts(Do(s, actions[n]).recovery, FailuresInARow(actions, n + 1))
  {
  }

  lemma {:induction false} BackoffFollowsFailures(states: seq<Service>, actions: seq<Action>, n: nat)
    requires Run(states, actions) && n < |states|
    ensures BackoffCounts(states[n].recovery, FailuresInARow(actions, n))
  {
    if n > 0 {
      BackoffFollowsFailures(states, actions, n - 1);
      RunsStaySound(states, actions, n - 1);
      StepCounts(states[n - 1], actions, n - 1);
    }
  }

  /** After `k` failures in a row a recoverer waits 2^(1+k) seconds, and never longer than 512. */
  lemma DelaysAreCapped(states: seq<Service>, actions: seq<Action>, n: nat, j: nat)
    requires Run(states, actions) && n < |states|
    requires j < |states[n].recovery.recoverers|
    ensures Delay(states[n].recovery.recoverers[j]) == Pow2(Min(1 + FailuresInARow(actions, n), 9)) <= 512
  {
    BackoffFollowsFailures(states, actions, n);
    DelayIsCapped(states[n].recovery, FailuresInARow(actions, n), j);
  }

  lemma DelayIsCapped(recovery: Recovery, failures: nat, j: nat)
    requires BackoffCounts(recovery, failures) && j < |recovery.recoverers|
    ensures Delay(recovery.recoverers[j]) == Pow2(Min(1 + failures, 9)) <= 512
  {
    CappedAt512(Min(1 + failures, 9));
  }

  lemma CappedAt512(n: nat)
    requires n <= 9
    ensures Pow2(n) <= 512
  {
    Pow2Grows(n, 9);
    assert Pow2(5) == 32;
    assert Pow2(9) == 512;
  }

  // ---------------------------------------------------------------- every batch

  /** What becomes of a batch once the state has been read: it is dropped exactly if the service is down and it has no events. */
  lemma DroppedExactly(s: Service, i: nat)
    requires Enabled(s, ReadState(i))
    ensures var batch, next := s.front.senders[i].batch, Do(s, ReadState(i)).front.senders[i];
            if !s.recovery.up && batch.events == [] then next == Resuming else next == Creating(batch, s.recovery.up)
  {
  }

  /** A batch to be stored stays in hand until it is. */
  lemma {:induction false} CreatingStays(states: seq<Service>, actions: seq<Action>, n: nat, m: nat, batch: Batch, up: bool)
    requires Run(states, actions) && n <= m < |states|
    requires states[n].front.senders == [Creating(batch, up)]
    requires forall k {:trigger actions[k]} | n <= k < m :: !actions[k].CreateTxn?
    ensures states[m].front.senders == [Creating(batch, up)]
  {
    if n < m {
      CreatingStays(states, actions, n, m - 1, batch, up);
      RunsStaySound(states, actions, m - 1);
      assert !actions[m - 1].CreateTxn?;
      CreatingUndisturbed(states[m - 1], actions[m - 1]);
    }
  }

  lemma CreatingUndisturbed(s: Service, action: Action)
    requires Enabled(s, action) && SingleSender(s.front) && !action.CreateTxn?
    requires |s.front.senders| == 1 && s.front.senders[0].Creating?
    ensures Do(s, action).front.senders == s.front.senders
  {
  }

  /**
   * In every interleaving, a batch for which the sender read UP, or which has events, is the next to be stored:
   * all of it, whether or not it has events.
   */
  lemma BatchIsStored(states: seq<Service>, actions: seq<Action>, n: nat, m: nat, i: nat)
    requires Run(states, actions) && n < m < |actions|
    requires actions[n] == ReadState(i) && actions[m].CreateTxn?
    requires forall k {:trigger actions[k]} | n < k < m :: !actions[k].CreateTxn?
    requires i < |states[n].front.senders| && states[n].front.senders[i].Deciding?
    requires states[n].recovery.up || states[n].front.senders[i].batch.events != []
    ensures var created := states[m + 1].store.created;
            created == states[m].store.created + [Txn(states[m].store.nextId, states[n].front.senders[i].batch)]
  {
    var batch, up := states[n].front.senders[i].batch, states[n].recovery.up;
    RunsStaySound(states, actions, n);
    DroppedExactly(states[n], i);
    assert states[n + 1].front.senders == [Creating(batch, up)];
    CreatingStays(states, actions, n + 1, m, batch, up);
  }

  // ---------------------------------------------------------------- transactions nobody looks after

  /** A sender is delivering the transaction. */
  predicate Delivers(sender: Sender, id: nat) {
    (sender.Sending? || sender.Completing?) && sender.txn.id == id
  }

  ghost predicate Delivered(front: Front, id: nat) {
    exists i :: 0 <= i < |front.senders| && Delivers(front.senders[i], id)
  }

  /** The recoverer will look at the store again: unless it has found it empty and only has to go on. */
  predicate WillLook(recovery: Recovery) {
    exists j :: 0 <= j < |recovery.recoverers| && !recovery.recoverers[j].phase.Emptied?
  }

  /** A recoverer will look at the store, or a failure handler is about to start one. */
  predicate RecoveryUnderWay(recovery: Recovery) {
    WillLook(recovery) || recovery.failing > 0 || recovery.failed > 0
  }

  ghost predicate AllDelivered(s: Service) {
    forall id | id in s.store.unsent :: Delivered(s.front, id)
  }

  /** Every unsent transaction is being delivered, or will be looked after by a recoverer. */
  ghost predicate Attended(s: Service) {
    RecoveryUnderWay(s.recovery) || AllDelivered(s)
  }

  /** A sender that read DOWN stores its batch when the recoverer has looked at the store for the last time. */
  predicate StoresUnattended(s: Service, action: Action)
    requires Enabled(s, action)
  {
    action.CreateTxn? && !s.front.senders[action.i].up && !RecoveryUnderWay(s.recovery)
  }

  /** The last failure handler starts no recoverer, because one that will not look again is still registered. */
  ghost predicate HandlerGivesUp(s: Service, action: Action) {
    && action.HandlerStartsRecoverer?
    && s.recovery.failing == 0 && s.recovery.failed == 1
    && s.recovery.registered && !WillLook(s.recovery)
    && !AllDelivered(s)
  }

  /** Those are exactly the steps by which a transaction comes to be left behind. */
  lemma AttendedExactly(s: Service, action: Action)
    requires Enabled(s, action) && Sound(s) && Attended(s)
    ensures Attended(Do(s, action)) <==> !StoresUnattended(s, action) && !HandlerGivesUp(s, action)
  {
    var next := Do(s, action);
    if StoresUnattended(s, action) {
      assert s.store.nextId in next.store.unsent;
    } else if action.HandlerStartsRecoverer? {
      assert next.front == s.front && next.store == s.store;
      if !s.recovery.registered {
        assert !next.recovery.recoverers[0].phase.Emptied?;
      }
    } else if !RecoveryUnderWay(next.recovery) {
      UnattendedStep(s, action);
    }
  }

  /** A step after which no recovery is under way leaves only transactions that are being delivered. */
  lemma UnattendedStep(s: Service, action: Action)
    requires Enabled(s, action) && Sound(s) && Attended(s)
    requires !StoresUnattended(s, action) && !action.HandlerStartsRecoverer?
    requires !RecoveryUnderWay(Do(s, action).recovery)
    ensures AllDelivered(Do(s, action))
  {
    var next := Do(s, action);
    if RecoveryUnderWay(s.recovery) {
      RecoveryGoesOn(s, action);
    } else {
      forall id | id in next.store.unsent
        ensures Delivered(next.front, id)
      {
        DeliveryGoesOn(s, action, id);
      }
    }
  }

  /** A transaction being delivered is so until its send fails or it is deleted, and so is one stored by a sender that read UP. */
  lemma DeliveryGoesOn(s: Service, action: Action, id: nat)
    requires Enabled(s, action) && SingleSender(s.front) && id in Do(s, action).store.unsent
    requires !action.SendFails? && (action.CreateTxn? ==> s.front.senders[action.i].up)
    requires id in s.store.unsent ==> Delivered(s.front, id)
    ensures Delivered(Do(s, action).front, id)
  {
    if id in s.store.unsent {
      assert Delivers(s.front.senders[0], id);
    }
    assert Delivers(Do(s, action).front.senders[0], id);
  }

  /** A recovery under way stays so, unless a recoverer finds the store empty. */
  lemma RecoveryGoesOn(s: Service, action: Action)
    requires Enabled(s, action) && RecoverySound(s.store, s.recovery)
    requires RecoveryUnderWay(s.recovery) && !action.HandlerStartsRecoverer?
    ensures RecoveryUnderWay(Do(s, action).recovery) || (action.FetchOldest? && Do(s, action).store.unsent.Keys == {})
  {
    var next := Do(s, action).recovery;
    if WillLook(s.recovery) {
      var j :| 0 <= j < |s.recovery.recoverers| && !s.recovery.recoverers[j].phase.Emptied?;
      assert j == 0 && |next.recoverers| == 1;
      assert next.recoverers[0].phase.Emptied? ==> action.FetchOldest?;
    }
  }

  /** Nothing is running or pending for the service. */
  predicate Quiet(s: Service) {
    s.front.senders == [] && s.recovery.recoverers == [] && s.recovery.failing == 0 && s.recovery.failed == 0 && s.recovery.recovered == 0
  }

  /** A step by which a transaction comes to be left behind. */
  ghost predicate LeavesBehind(s: Service, action: Action) {
    Enabled(s, action) && (StoresUnattended(s, action) || HandlerGivesUp(s, action))
  }

  lemma {:induction false} AttendedStays(states: seq<Service>, actions: seq<Action>, from: nat, to: nat)
    requires Run(states, actions) && from <= to < |states|
    requires Attended(states[from])
    requires forall k {:trigger LeavesBehind(states[k], actions[k])} | from <= k < to :: !LeavesBehind(states[k], actions[k])
    ensures Attended(states[to])
  {
    if from < to {
      AttendedStays(states, actions, from, to - 1);
      RunsStaySound(states, actions, to - 1);
      assert !LeavesBehind(states[to - 1], actions[to - 1]);
      AttendedExactly(states[to - 1], actions[to - 1]);
    }
  }

  lemma QuietAndAttended(s: Service)
    requires Attended(s) && Quiet(s)
    ensures s.store.unsent == map[]
  {
    assert s.store.unsent.Keys == {};
  }

  /** So in a run without such steps since all was attended, whenever all is quiet everything has been sent. */
  lemma QuietMeansDelivered(states: seq<Service>, actions: seq<Action>, from: nat, to: nat)
    requires Run(states, actions) && from <= to < |states|
    requires Attended(states[from])
    requires forall k {:trigger LeavesBehind(states[k], actions[k])} | from <= k < to :: !LeavesBehind(states[k], actions[k])
    ensures Attended(states[to])
    ensures Quiet(states[to]) ==> states[to].store.unsent == map[]
  {
    AttendedStays(states, actions, from, to);
    if Quiet(states[to]) {
      QuietAndAttended(states[to]);
    }
  }

  /** At a restart a recoverer is started for a service that is down. */
  function Restarted(s: Service): Service {
    if s.recovery.up then s else Do(s, StartupStartsRecoverer)
  }

  /** So what an earlier process left in the store is attended exactly if the service is down, or nothing was left. */
  lemma RestartAttendsExactly(s: Service)
    requires Init(s)
    ensures Attended(Restarted(s)) <==> !s.recovery.up || s.store.unsent == map[]
  {
    if s.recovery.up {
      assert forall id :: !Delivered(s.front, id);
      if id :| id in s.store.unsent {
        assert !Delivered(s.front, id);
      } else {
        assert s.store.unsent.Keys == {};
      }
    } else {
      assert !Restarted(s).recovery.recoverers[0].phase.Emptied?;
    }
  }
}
