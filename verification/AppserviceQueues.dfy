/** The queues of data waiting to be sent to application services. */
module AppserviceQueues {
  import opened Results
  import RoomEvents

  type ServiceId = string
  type RoomEvent = string
  type Ephemeral = string
  type ToDevice = string

  const MAX_PER_TRANSACTION := 100

  // ---------------------------------------------------------------- device list summaries

  datatype DeviceListUpdates = DeviceListUpdates(changed: set<RoomEvents.UserId>, left: set<RoomEvents.UserId>) {
    predicate IsEmpty() {
      changed == {} && left == {}
    }
  }

  datatype Place = Changed | Left

  /** Where the last of the first `n` summaries to mention a user puts them. */
  function LastPlace(summaries: seq<DeviceListUpdates>, n: nat, user: RoomEvents.UserId): Option<Place>
    requires n <= |summaries|
  {
    if n == 0 then None
    else if user in summaries[n - 1].left then Some(Left)
    else if user in summaries[n - 1].changed then Some(Changed)
    else LastPlace(summaries, n - 1, user)
  }

  /** A summary puts each user where the last of the first `n` summaries to mention them puts them. */
  ghost predicate Summarizes(summary: DeviceListUpdates, summaries: seq<DeviceListUpdates>, n: nat)
    requires n <= |summaries|
  {
    forall user ::
      && (user in summary.changed <==> LastPlace(summaries, n, user) == Some(Changed))
      && (user in summary.left <==> LastPlace(summaries, n, user) == Some(Left))
  }

  /** Consolidates pending summaries into one, in which no user is both changed and left. */
  method Consolidate(summaries: seq<DeviceListUpdates>) returns (summary: DeviceListUpdates)
    ensures Summarizes(summary, summaries, |summaries|)
    ensures summary.changed !! summary.left
    ensures summary == Consolidated(summaries, |summaries|)
  {
    var changed, left := {}, {};
    for i := 0 to |summaries|
      invariant Summarizes(DeviceListUpdates(changed, left), summaries, i)
      invariant DeviceListUpdates(changed, left) == Consolidated(summaries, i)
    {
      left := left - summaries[i].changed;
      changed := changed + summaries[i].changed;
      changed := changed - summaries[i].left;
      left := left + summaries[i].left;
    }
    summary := DeviceListUpdates(changed, left);
    assert forall user :: !(user in summary.changed && user in summary.left);
  }

  function Consolidated(summaries: seq<DeviceListUpdates>, n: nat): DeviceListUpdates
    requires n <= |summaries|
  {
    if n == 0 then DeviceListUpdates({}, {})
    else
      var before, last := Consolidated(summaries, n - 1), summaries[n - 1];
      DeviceListUpdates(before.changed + last.changed - last.left, before.left - last.changed + last.left)
  }

  // ---------------------------------------------------------------- the queues of one service

  /** What waits for one service, and whether a sender is at work for it. */
  datatype Queues = Queues(
    events: seq<RoomEvent>,
    ephemeral: seq<Ephemeral>,
    toDevice: seq<ToDevice>,
    summaries: seq<DeviceListUpdates>,
    inFlight: bool)

  /** What one transaction carries. */
  datatype Batch = Batch(
    events: seq<RoomEvent>,
    ephemeral: seq<Ephemeral>,
    toDevice: seq<ToDevice>,
    summary: DeviceListUpdates)
  {
    predicate IsEmpty() {
      events == [] && ephemeral == [] && toDevice == [] && summary.IsEmpty()
    }
  }

  function Extended(queues: Queues, more: Batch): Queues {
    queues.(
      events := queues.events + more.events,
      ephemeral := queues.ephemeral + more.ephemeral,
      toDevice := queues.toDevice + more.toDevice,
      summaries := queues.summaries + if more.summary.IsEmpty() then [] else [more.summary])
  }

  function Head<T>(queue: seq<T>): seq<T> {
    if |queue| <= MAX_PER_TRANSACTION then queue else queue[..MAX_PER_TRANSACTION]
  }

  function Tail<T>(queue: seq<T>): seq<T> {
    if |queue| <= MAX_PER_TRANSACTION then [] else queue[MAX_PER_TRANSACTION..]
  }

  /** A batch is the front of a queue, as long as it may be, and the rest stays. */
  lemma HeadAndTail<T>(queue: seq<T>)
    ensures Head(queue) + Tail(queue) == queue
    ensures |Head(queue)| == if |queue| < 100 then |queue| else 100
  {
  }

  /** The batch at the front of the queues. */
  function NextBatch(queues: Queues): Batch {
    Batch(Head(queues.events), Head(queues.ephemeral), Head(queues.toDevice),
          Consolidated(queues.summaries, |queues.summaries|))
  }

  /** The queues without that batch; a sender that finds nothing to send stops. */
  function AfterBatch(queues: Queues): Queues {
    Queues(Tail(queues.events), Tail(queues.ephemeral), Tail(queues.toDevice), [], !NextBatch(queues).IsEmpty())
  }

  // ---------------------------------------------------------------- the queuer

  /** The queues of all services, each a dictionary from service to list. */
  class ServiceQueuer {
    var queuedEvents: map<ServiceId, seq<RoomEvent>>
    var queuedEphemeral: map<ServiceId, seq<Ephemeral>>
    var queuedToDevice: map<ServiceId, seq<ToDevice>>
    var queuedSummaries: map<ServiceId, seq<DeviceListUpdates>>
    var requestsInFlight: set<ServiceId>

    constructor ()
      ensures forall service :: View(service) == Queues([], [], [], [], false)
    {
      queuedEvents, queuedEphemeral, queuedToDevice, queuedSummaries := map[], map[], map[], map[];
      requestsInFlight := {};
    }

    ghost function View(service: ServiceId): Queues
      reads this
    {
      Queues(Get(queuedEvents, service), Get(queuedEphemeral, service), Get(queuedToDevice, service),
             Get(queuedSummaries, service), service in requestsInFlight)
    }

    static function Get<T>(queues: map<ServiceId, seq<T>>, service: ServiceId): seq<T> {
      if service in queues then queues[service] else []
    }

    /** Appends to the list of a service, which comes into being with its first element. */
    static function Appended<T(==)>(queues: map<ServiceId, seq<T>>, service: ServiceId, more: seq<T>): (after: map<ServiceId, seq<T>>)
      ensures Get(after, service) == Get(queues, service) + more
      ensures forall other | other != service :: Get(after, other) == Get(queues, other)
    {
      if more == [] then queues else queues[service := Get(queues, service) + more]
    }

    /** Replaces the list of a service. */
    static function Replaced<T>(queues: map<ServiceId, seq<T>>, service: ServiceId, queue: seq<T>): (after: map<ServiceId, seq<T>>)
      ensures Get(after, service) == queue
      ensures forall other | other != service :: Get(after, other) == Get(queues, other)
    {
      queues[service := queue]
    }

    /** Queues data for a service; `start` says that a sender must be started for it. */
    method EnqueueForAppservice(service: ServiceId, more: Batch) returns (start: bool)
      modifies this
      ensures View(service) == Extended(old(View(service)), more)
      ensures View(service).events == old(View(service)).events + more.events
      ensures View(service).ephemeral == old(View(service)).ephemeral + more.ephemeral
      ensures View(service).toDevice == old(View(service)).toDevice + more.toDevice
      ensures View(service).summaries == old(View(service)).summaries + if more.summary == DeviceListUpdates({}, {}) then [] else [more.summary]
      ensures forall other | other != service :: View(other) == old(View(other))
      ensures start <==> !more.IsEmpty() && !old(View(service)).inFlight
    {
      if more.IsEmpty() {
        return false;
      }
      queuedEvents := Appended(queuedEvents, service, more.events);
      queuedEphemeral := Appended(queuedEphemeral, service, more.ephemeral);
      queuedToDevice := Appended(queuedToDevice, service, more.toDevice);
      queuedSummaries := Appended(queuedSummaries, service, if more.summary.IsEmpty() then [] else [more.summary]);
      start := service !in requestsInFlight;
    }

    /** A sender starts for a service that has none, and takes its first batch. */
    method StartSending(service: ServiceId) returns (batch: Option<Batch>)
      requires !View(service).inFlight
      modifies this
      ensures View(service) == AfterBatch(old(View(service)))
      ensures batch == if NextBatch(old(View(service))).IsEmpty() then None else Some(NextBatch(old(View(service))))
      ensures Takes(old(View(service)), batch, View(service))
      ensures forall other | other != service :: View(other) == old(View(other)).(summaries := [])
    {
      requestsInFlight := requestsInFlight + {service};
      batch := TakeBatch(service);
    }

    /** The batch and what stays in the queues make up what was there, and the batch is as large as it may be. */
    ghost predicate Takes(before: Queues, batch: Option<Batch>, after: Queues) {
      match batch
      case Some(taken) =>
        && taken.events + after.events == before.events && |taken.events| == AtMost100(|before.events|)
        && taken.ephemeral + after.ephemeral == before.ephemeral && |taken.ephemeral| == AtMost100(|before.ephemeral|)
        && taken.toDevice + after.toDevice == before.toDevice && |taken.toDevice| == AtMost100(|before.toDevice|)
        && Summarizes(taken.summary, before.summaries, |before.summaries|)
        && after.summaries == [] && after.inFlight
      case None => before.events == [] && before.ephemeral == [] && before.toDevice == [] && after == Queues([], [], [], [], false)
    }

    static function AtMost100(n: nat): nat {
      if n < 100 then n else 100
    }

    /** One turn of the sender's loop. It drops the pending summaries of every service, not only its own. */
    method TakeBatch(service: ServiceId) returns (batch: Option<Batch>)
      requires View(service).inFlight
      modifies this
      ensures View(service) == AfterBatch(old(View(service)))
      ensures batch == if NextBatch(old(View(service))).IsEmpty() then None else Some(NextBatch(old(View(service))))
      ensures Takes(old(View(service)), batch, View(service))
      ensures forall other | other != service :: View(other) == old(View(other)).(summaries := [])
    {
      var events, ephemeral, toDevice :=
        Get(queuedEvents, service), Get(queuedEphemeral, service), Get(queuedToDevice, service);
      HeadAndTail(events);
      HeadAndTail(ephemeral);
      HeadAndTail(toDevice);
      var summary := Consolidate(Get(queuedSummaries, service));
      queuedEvents := Replaced(queuedEvents, service, Tail(events));
      queuedEphemeral := Replaced(queuedEphemeral, service, Tail(ephemeral));
      queuedToDevice := Replaced(queuedToDevice, service, Tail(toDevice));
      queuedSummaries := map[];
      var taken := Batch(Head(events), Head(ephemeral), Head(toDevice), summary);
      if taken.IsEmpty() {
        requestsInFlight := requestsInFlight - {service};
        return None;
      }
      return Some(taken);
    }
  }
}
