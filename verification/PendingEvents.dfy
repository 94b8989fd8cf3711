/** Room events that wait until everything before them has been persisted. */
module PendingEvents {
  import opened Results
  import opened StreamTokens
  import opened RoomEvents

  datatype Entry = Entry(
    pos: Position,
    extraUsers: set<UserId>,
    room: RoomId,
    eventType: string,
    stateKey: Option<string>,
    membership: Option<string>)
  {
    predicate JoinOf(user: UserId) {
      eventType == "m.room.member" && membership == Some("join") && stateKey == Some(user) && user != ""
    }
  }

  predicate Releases(token: WriterToken, entry: Entry) {
    !entry.pos.PersistedAfter(token)
  }

  /** What stays pending of the first `n` entries. */
  function Retained(entries: seq<Entry>, token: WriterToken, n: nat): seq<Entry>
    requires n <= |entries|
  {
    if n == 0 then []
    else Retained(entries, token, n - 1) + if Releases(token, entries[n - 1]) then [] else [entries[n - 1]]
  }

  /** The rooms a user is found to have joined by the first `n` entries. */
  function JoinedRooms(entries: seq<Entry>, token: WriterToken, n: nat, user: UserId): set<RoomId>
    requires n <= |entries|
  {
    if n == 0 then {}
    else
      var entry := entries[n - 1];
      JoinedRooms(entries, token, n - 1, user)
      + if Releases(token, entry) && entry.JoinOf(user) then {entry.room} else {}
  }

  /** The rooms of a user after the first `n` entries. */
  function RoomsAfter(rooms: set<RoomId>, entries: seq<Entry>, token: WriterToken, n: nat, user: UserId): set<RoomId>
    requires n <= |entries|
  {
    if n == 0 then rooms
    else
      var entry := entries[n - 1];
      RoomsAfter(rooms, entries, token, n - 1, user)
      + if Releases(token, entry) && entry.JoinOf(user) then {entry.room} else {}
  }

  lemma {:induction false} JoinedRoomsAreAdded(rooms: set<RoomId>, entries: seq<Entry>, token: WriterToken, n: nat, user: UserId)
    requires n <= |entries|
    ensures RoomsAfter(rooms, entries, token, n, user) == rooms + JoinedRooms(entries, token, n, user)
  {
    if n > 0 {
      JoinedRoomsAreAdded(rooms, entries, token, n - 1, user);
    }
  }

  /** The released entry says that the user, being in these rooms, is to be woken. */
  predicate Wakes(entry: Entry, token: WriterToken, user: UserId, rooms: set<RoomId>) {
    Releases(token, entry) && (user in entry.extraUsers || entry.room in rooms)
  }

  /** The users and rooms that the first `n` entries, where released, are news for. */
  function ReleasedUsers(entries: seq<Entry>, token: WriterToken, n: nat): set<UserId>
    requires n <= |entries|
  {
    if n == 0 then {}
    else ReleasedUsers(entries, token, n - 1) + if Releases(token, entries[n - 1]) then entries[n - 1].extraUsers else {}
  }

  function ReleasedRooms(entries: seq<Entry>, token: WriterToken, n: nat): set<RoomId>
    requires n <= |entries|
  {
    if n == 0 then {}
    else ReleasedRooms(entries, token, n - 1) + if Releases(token, entries[n - 1]) then {entries[n - 1].room} else {}
  }

  ghost predicate WokenBy(entries: seq<Entry>, token: WriterToken, n: nat, user: UserId, rooms: set<RoomId>)
    requires n <= |entries|
  {
    exists i | 0 <= i < n :: Wakes(entries[i], token, user, rooms)
  }

  lemma {:induction false} WokenByReleased(entries: seq<Entry>, token: WriterToken, n: nat, user: UserId, rooms: set<RoomId>)
    requires n <= |entries|
    ensures WokenBy(entries, token, n, user, rooms)
       <==> user in ReleasedUsers(entries, token, n) || !(rooms !! ReleasedRooms(entries, token, n))
  {
    if n > 0 {
      WokenByReleased(entries, token, n - 1, user, rooms);
      assert WokenBy(entries, token, n, user, rooms)
        <==> WokenBy(entries, token, n - 1, user, rooms) || Wakes(entries[n - 1], token, user, rooms);
    }
  }

  lemma PositionsExactly(entries: seq<Entry>, token: WriterToken)
    ensures forall i | 0 <= i < |entries| :: Releases(token, entries[i]) <==> !IsAfter(entries[i].pos, token)
  {
    forall i | 0 <= i < |entries|
      ensures Releases(token, entries[i]) <==> !IsAfter(entries[i].pos, token)
    {
      PersistedAfterExactly(entries[i].pos, token);
    }
  }

  /** A user is found to have joined the rooms of exactly the released member events that say so. */
  lemma {:induction false} JoinedRoomsAre(entries: seq<Entry>, token: WriterToken, n: nat, user: UserId, room: RoomId)
    requires n <= |entries|
    ensures room in JoinedRooms(entries, token, n, user)
       <==> exists i | 0 <= i < n ::
              && !IsAfter(entries[i].pos, token) && entries[i].room == room
              && entries[i].eventType == "m.room.member" && entries[i].membership == Some("join")
              && entries[i].stateKey == Some(user) && user != ""
  {
    PositionsExactly(entries, token);
    if n > 0 {
      JoinedRoomsAre(entries, token, n - 1, user, room);
    }
  }

  /** Whoever is found to have joined a room is woken for it. */
  lemma JoinWakes(entries: seq<Entry>, token: WriterToken, i: nat, user: UserId)
    requires i < |entries| && Releases(token, entries[i]) && entries[i].JoinOf(user)
    ensures forall rooms :: WokenBy(entries, token, |entries|, user, rooms + JoinedRooms(entries, token, |entries|, user))
  {
    JoinedRoomsAre(entries, token, |entries|, user, entries[i].room);
    forall rooms
      ensures WokenBy(entries, token, |entries|, user, rooms + JoinedRooms(entries, token, |entries|, user))
    {
      assert Wakes(entries[i], token, user, rooms + JoinedRooms(entries, token, |entries|, user));
    }
  }

  // ---------------------------------------------------------------- every run

  /** Entries are appended one by one, and in between a new token may release some. */
  datatype Op = Append(entry: Entry) | Release(token: WriterToken)

  /** Which entries, by the number of the operation that appended them, are pending after `n` operations. */
  ghost function Queue(ops: seq<Op>, n: nat): seq<nat>
    requires n <= |ops|
  {
    if n == 0 then []
    else if ops[n - 1].Append? then Queue(ops, n - 1) + [n - 1]
    else Kept(ops, Queue(ops, n - 1), ops[n - 1].token)
  }

  ghost predicate Survives(ops: seq<Op>, k: nat, token: WriterToken) {
    k < |ops| && ops[k].Append? && !Releases(token, ops[k].entry)
  }

  /** The entries of a queue that a token does not release. */
  ghost function Kept(ops: seq<Op>, queue: seq<nat>, token: WriterToken): seq<nat> {
    if queue == [] then []
    else
      var last := queue[|queue| - 1];
      Kept(ops, queue[..|queue| - 1], token) + if Survives(ops, last, token) then [last] else []
  }

  lemma {:induction false} KeptAre(ops: seq<Op>, queue: seq<nat>, token: WriterToken, k: nat)
    ensures k in Kept(ops, queue, token) <==> k in queue && Survives(ops, k, token)
  {
    if queue != [] {
      var front, last := queue[..|queue| - 1], queue[|queue| - 1];
      KeptAre(ops, front, token, k);
      assert queue == front + [last];
    }
  }

  ghost predicate HoldsEntries(ops: seq<Op>, queue: seq<nat>) {
    forall i | 0 <= i < |queue| :: queue[i] < |ops| && ops[queue[i]].Append?
  }

  /** The pending list itself. */
  ghost function Entries(ops: seq<Op>, queue: seq<nat>): seq<Entry>
    requires HoldsEntries(ops, queue)
  {
    seq(|queue|, i requires 0 <= i < |queue| => ops[queue[i]].entry)
  }

  ghost predicate Ascending(queue: seq<nat>) {
    forall i, j | 0 <= i < j < |queue| :: queue[i] < queue[j]
  }

  /** An operation that releases what `k` appended. */
  ghost predicate ReleasedBy(ops: seq<Op>, k: nat, m: nat) {
    k < m < |ops| && ops[k].Append? && ops[m].Release? && Releases(ops[m].token, ops[k].entry)
  }

  ghost predicate ReleasedBefore(ops: seq<Op>, k: nat, n: nat) {
    exists m: nat | m < n :: ReleasedBy(ops, k, m)
  }

  /** An entry is pending exactly as long as no token has released it. */
  lemma {:induction false} PendingExactly(ops: seq<Op>, n: nat, k: nat)
    requires n <= |ops|
    ensures k in Queue(ops, n) <==> k < n && ops[k].Append? && !ReleasedBefore(ops, k, n)
  {
    if n > 0 {
      PendingExactly(ops, n - 1, k);
      assert ReleasedBefore(ops, k, n) <==> ReleasedBefore(ops, k, n - 1) || ReleasedBy(ops, k, n - 1);
      if ops[n - 1].Release? {
        KeptAre(ops, Queue(ops, n - 1), ops[n - 1].token, k);
      }
    }
  }

  lemma {:induction false} KeptAscending(ops: seq<Op>, queue: seq<nat>, token: WriterToken)
    requires Ascending(queue)
    ensures Ascending(Kept(ops, queue, token))
  {
    if queue != [] {
      var front := queue[..|queue| - 1];
      KeptAscending(ops, front, token);
      var kept := Kept(ops, front, token);
      forall i | 0 <= i < |kept|
        ensures kept[i] < queue[|queue| - 1]
      {
        KeptAre(ops, front, token, kept[i]);
      }
    }
  }

  /** The pending entries keep the order in which they came, and none is there twice. */
  lemma {:induction false} OrderIsKept(ops: seq<Op>, n: nat)
    requires n <= |ops|
    ensures Ascending(Queue(ops, n))
  {
    if n > 0 {
      OrderIsKept(ops, n - 1);
      if ops[n - 1].Release? {
        KeptAscending(ops, Queue(ops, n - 1), ops[n - 1].token);
      } else {
        var before := Queue(ops, n - 1);
        forall i | 0 <= i < |before|
          ensures before[i] < n - 1
        {
          PendingExactly(ops, n - 1, before[i]);
        }
      }
    }
  }

  /** The operation at which an entry leaves the queue. */
  ghost predicate Leaves(ops: seq<Op>, k: nat, m: nat) {
    k < |ops| && m < |ops| && k in Queue(ops, m) && k !in Queue(ops, m + 1)
  }

  /**
   * Every entry that is no longer pending was released exactly once, by the first token after which it was
   * not persisted; and an entry leaves in no other way.
   */
  lemma ReleasedExactlyOnce(ops: seq<Op>, n: nat, k: nat) returns (m: nat)
    requires n <= |ops| && k < n && ops[k].Append? && k !in Queue(ops, n)
    ensures k < m < n && Leaves(ops, k, m) && ReleasedBy(ops, k, m)
    ensures !ReleasedBefore(ops, k, m)
    ensures forall other: nat | Leaves(ops, k, other) :: other == m
  {
    PendingExactly(ops, n, k);
    m := FirstRelease(ops, k, n);
    PendingExactly(ops, m, k);
    PendingExactly(ops, m + 1, k);
    forall other: nat | Leaves(ops, k, other)
      ensures other == m
    {
      PendingExactly(ops, other, k);
      PendingExactly(ops, other + 1, k);
    }
  }

  lemma {:induction false} FirstRelease(ops: seq<Op>, k: nat, n: nat) returns (m: nat)
    requires ReleasedBefore(ops, k, n)
    ensures m < n && ReleasedBy(ops, k, m) && !ReleasedBefore(ops, k, m)
  {
    if ReleasedBefore(ops, k, n - 1) {
      m := FirstRelease(ops, k, n - 1);
    } else {
      m := n - 1;
    }
  }

  /** Releasing, on the list of entries, is what `Retained` computes. */
  lemma {:induction false} RetainedIsKept(ops: seq<Op>, queue: seq<nat>, token: WriterToken, n: nat)
    requires n <= |queue| && HoldsEntries(ops, queue)
    ensures HoldsEntries(ops, Kept(ops, queue[..n], token))
    ensures Retained(Entries(ops, queue), token, n) == Entries(ops, Kept(ops, queue[..n], token))
  {
    if n > 0 {
      RetainedIsKept(ops, queue, token, n - 1);
      assert queue[..n][..n - 1] == queue[..n - 1];
    }
  }

  lemma RetainedOfQueue(ops: seq<Op>, queue: seq<nat>, token: WriterToken)
    requires HoldsEntries(ops, queue)
    ensures HoldsEntries(ops, Kept(ops, queue, token))
    ensures Retained(Entries(ops, queue), token, |queue|) == Entries(ops, Kept(ops, queue, token))
  {
    RetainedIsKept(ops, queue, token, |queue|);
    assert queue[..|queue|] == queue;
  }

  lemma EntriesAppended(ops: seq<Op>, queue: seq<nat>, k: nat)
    requires HoldsEntries(ops, queue) && k < |ops| && ops[k].Append?
    ensures HoldsEntries(ops, queue + [k]) && Entries(ops, queue + [k]) == Entries(ops, queue) + [ops[k].entry]
  {
  }

  /** The list as the notifier keeps it. */
  ghost function PendingList(ops: seq<Op>, n: nat): seq<Entry>
    requires n <= |ops|
  {
    if n == 0 then []
    else
      var before := PendingList(ops, n - 1);
      if ops[n - 1].Append? then before + [ops[n - 1].entry] else Retained(before, ops[n - 1].token, |before|)
  }

  /** That list holds the pending entries in order, so the laws of the queue are laws of the list. */
  lemma {:induction false} PendingListIsQueue(ops: seq<Op>, n: nat)
    requires n <= |ops|
    ensures HoldsEntries(ops, Queue(ops, n)) && PendingList(ops, n) == Entries(ops, Queue(ops, n))
  {
    if n > 0 {
      PendingListIsQueue(ops, n - 1);
      if ops[n - 1].Release? {
        RetainedOfQueue(ops, Queue(ops, n - 1), ops[n - 1].token);
      } else {
        EntriesAppended(ops, Queue(ops, n - 1), n - 1);
      }
    }
  }

  /** A client woken by a release has a token that covers the released event. */
  lemma WokenTokenCoversEvent(before: StreamToken, token: WriterToken, entry: Entry)
    requires Releases(token, entry)
    ensures !entry.pos.PersistedAfter(before.Advanced(Room(token)).room)
  {
    AfterAdvancedExactly(before.room, token, entry.pos);
  }
}
