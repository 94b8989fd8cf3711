/** The notifier's two indexes of user streams, and the calls that keep and use them. */
module Notifications {
  import opened Results
  import opened StreamTokens
  import opened RoomEvents
  import opened UserStreams
  import opened PendingEvents

  /** A stream that has not been notified for this long, and that nobody listens to, is dropped. */
  const UNUSED_STREAM_EXPIRY_MS := 10 * 60 * 1000

  /** What the server keeps for a user who listens for events. */
  class UserStream {
    const userId: UserId
    var rooms: set<RoomId>
    var currentToken: StreamToken
    var lastNotifiedToken: StreamToken
    var lastNotifiedMs: int
    var deferred: nat
    var listeners: seq<Listener>

    constructor (userId: UserId, rooms: set<RoomId>, currentToken: StreamToken, now: int)
      ensures this.userId == userId && this.rooms == rooms && lastNotifiedMs == now
      ensures View() == Stream(currentToken, currentToken, 0, []) && Sound()
    {
      this.userId, this.rooms := userId, rooms;
      this.currentToken, lastNotifiedToken, lastNotifiedMs := currentToken, currentToken, now;
      deferred, listeners := 0, [];
    }

    /** The stream as the wake-up protocol sees it. */
    function View(): Stream
      reads this
    {
      Stream(currentToken, lastNotifiedToken, deferred, listeners)
    }

    ghost predicate Sound()
      reads this
    {
      StreamSound(View())
    }

    ghost predicate HasPendingListener()
      reads this
    {
      exists i | 0 <= i < |listeners| :: listeners[i].Pending?
    }

    predicate Expired(now: int)
      reads this
    {
      CountListeners(View()) == 0 && lastNotifiedMs < now - UNUSED_STREAM_EXPIRY_MS
    }

    method Notify(update: Update, now: int)
      modifies this
      ensures View() == Notified(old(View()), update)
      ensures MovedTo(old(currentToken), update, currentToken) && lastNotifiedToken == currentToken
      ensures lastNotifiedMs == now && rooms == old(rooms)
      ensures old(Sound()) ==> Sound() && !HasPendingListener()
    {
      NotifyKeepsSound(View(), update);
      AdvancedExactly(currentToken, update);
      currentToken := currentToken.Advanced(update);
      lastNotifiedToken := currentToken;
      lastNotifiedMs := now;
      var firing := deferred;
      deferred := deferred + 1;
      listeners := Fired(listeners, firing, currentToken);
    }

    method NewListener(since: StreamToken) returns (listener: nat)
      modifies this`listeners
      ensures View() == Listening(old(View()), since) && listener == |old(listeners)|
      ensures old(Sound()) ==> Sound()
      ensures listeners[listener].Pending? <==> lastNotifiedToken == since
    {
      listener := |listeners|;
      if lastNotifiedToken != since {
        listeners := listeners + [Resolved(currentToken)];
      } else {
        listeners := listeners + [Pending(deferred, since)];
      }
    }

    /** Takes the stream out of both indexes. */
    method Remove(notifier: Notifier)
      requires notifier.Valid() && Registered(notifier.users, this)
      modifies notifier
      ensures notifier.Valid() && notifier.pending == old(notifier.pending)
      ensures notifier.users == old(notifier.users) - {userId}
      ensures forall room :: Get(notifier.roomStreams, room) == Get(old(notifier.roomStreams), room) - {this}
    {
      notifier.roomStreams := DiscardFrom(notifier.roomStreams, rooms, this);
      notifier.users := notifier.users - {userId};
    }
  }

  type RoomIndex = map<RoomId, set<UserStream>>

  function Get(index: RoomIndex, room: RoomId): set<UserStream> {
    if room in index then index[room] else {}
  }

  predicate Registered(users: map<UserId, UserStream>, stream: UserStream) {
    stream.userId in users && users[stream.userId] == stream
  }

  predicate AllRegistered(users: map<UserId, UserStream>, streams: set<UserStream>) {
    forall stream | stream in streams :: Registered(users, stream)
  }

  function Put(index: RoomIndex, room: RoomId, streams: set<UserStream>): (after: RoomIndex)
    ensures forall other :: Get(after, other) == if other == room then streams else Get(index, other)
  {
    index[room := streams]
  }

  function Dropped(index: RoomIndex, room: RoomId, stream: UserStream): (after: RoomIndex)
    ensures forall other :: Get(after, other) == if other == room then Get(index, room) - {stream} else Get(index, other)
  {
    if room in index then index[room := index[room] - {stream}] else index
  }

  /** Adds a stream to the sets of some rooms, which come into being where they are missing. */
  method AddTo(index: RoomIndex, rooms: set<RoomId>, stream: UserStream) returns (after: RoomIndex)
    ensures forall room :: Get(after, room) == if room in rooms then Get(index, room) + {stream} else Get(index, room)
  {
    after := index;
    var left := rooms;
    while left != {}
      invariant left <= rooms
      invariant forall room | room in rooms && room !in left :: Get(after, room) == Get(index, room) + {stream}
      invariant forall room | room !in rooms || room in left :: Get(after, room) == Get(index, room)
      decreases left
    {
      var room :| room in left;
      after := Put(after, room, Get(after, room) + {stream});
      left := left - {room};
    }
  }

  /** Takes a stream out of the sets of some rooms. */
  method DiscardFrom(index: RoomIndex, rooms: set<RoomId>, stream: UserStream) returns (after: RoomIndex)
    ensures forall room :: Get(after, room) == if room in rooms then Get(index, room) - {stream} else Get(index, room)
  {
    after := index;
    var left := rooms;
    while left != {}
      invariant left <= rooms
      invariant forall room | room in rooms && room !in left :: Get(after, room) == Get(index, room) - {stream}
      invariant forall room | room !in rooms || room in left :: Get(after, room) == Get(index, room)
      decreases left
    {
      var room :| room in left;
      after := Dropped(after, room, stream);
      left := left - {room};
    }
  }

  lemma NotifyKeepsSound(s: Stream, update: Update)
    ensures StreamSound(s) ==> StreamSound(Notified(s, update))
    ensures StreamSound(s) ==> forall i | 0 <= i < |s.listeners| :: !Notified(s, update).listeners[i].Pending?
  {
    if StreamSound(s) {
      NotifiedWakesAll(s, update);
    }
  }

  ghost predicate Agree(users: map<UserId, UserStream>, index: RoomIndex)
    reads users.Values
  {
    && (forall user | user in users :: users[user].userId == user)
    && (forall room :: AllRegistered(users, Get(index, room)))
    && (forall user, room | user in users :: users[user] in Get(index, room) <==> room in users[user].rooms)
  }

  /** Registration would put a stream in the place of another one that is in some room. */
  ghost predicate Displaces(users: map<UserId, UserStream>, stream: UserStream)
    reads users.Values
  {
    stream.userId in users && users[stream.userId] != stream && users[stream.userId].rooms != {}
  }

  ghost predicate AddedTo(index: RoomIndex, stream: UserStream, after: RoomIndex)
    reads stream
  {
    forall room :: Get(after, room) == if room in stream.rooms then Get(index, room) + {stream} else Get(index, room)
  }

  lemma RegistrationAgrees(users: map<UserId, UserStream>, index: RoomIndex, stream: UserStream, after: RoomIndex)
    requires Agree(users, index) && AddedTo(index, stream, after) && !Displaces(users, stream)
    ensures Agree(users[stream.userId := stream], after)
  {
    var added := users[stream.userId := stream];
    forall room
      ensures AllRegistered(added, Get(after, room))
    {
      assert AllRegistered(users, Get(index, room));
    }
  }

  lemma RegistrationDisagrees(users: map<UserId, UserStream>, index: RoomIndex, stream: UserStream, after: RoomIndex)
    requires Agree(users, index) && AddedTo(index, stream, after) && Displaces(users, stream)
    ensures !Agree(users[stream.userId := stream], after)
  {
    var displaced := users[stream.userId];
    var room :| room in displaced.rooms;
    assert displaced in Get(index, room);
    assert displaced in Get(after, room);
    assert !AllRegistered(users[stream.userId := stream], Get(after, room));
  }

  /** The users that are left when some streams are removed. */
  ghost predicate RemovedFrom(before: map<UserId, UserStream>, gone: set<UserStream>, after: map<UserId, UserStream>) {
    && (forall user :: user in after <==> user in before && before[user] !in gone)
    && (forall user | user in after :: after[user] == before[user])
  }

  lemma RemoveOne(before: map<UserId, UserStream>, gone: set<UserStream>, after: map<UserId, UserStream>, stream: UserStream)
    requires RemovedFrom(before, gone, after) && Registered(after, stream)
    requires forall user | user in after :: after[user].userId == user
    ensures RemovedFrom(before, gone + {stream}, after - {stream.userId})
    ensures forall other | other != stream && Registered(after, other) :: Registered(after - {stream.userId}, other)
  {
  }

  class Notifier {
    var users: map<UserId, UserStream>
    var roomStreams: map<RoomId, set<UserStream>>
    var pending: seq<Entry>

    constructor ()
      ensures Valid() && users == map[] && pending == []
    {
      users, roomStreams, pending := map[], map[], [];
    }

    ghost predicate Valid()
      reads this, users.Values
    {
      IndexesAgree() && StreamsAreSound()
    }

    ghost predicate StreamsAreSound()
      reads this, users.Values
    {
      forall user | user in users :: users[user].Sound()
    }

    /** A stream is in the set of a room exactly when it is registered and the room is one of its rooms. */
    ghost predicate IndexesAgree()
      reads this, users.Values
    {
      Agree(users, roomStreams)
    }

    /**
     * Registers a stream. The indexes stay in agreement exactly when the call does not displace another stream
     * that is in some room.
     */
    method RegisterWithKeys(stream: UserStream)
      requires Valid() && stream.Sound()
      modifies this
      ensures pending == old(pending) && users == old(users)[stream.userId := stream]
      ensures AddedTo(old(roomStreams), stream, roomStreams)
      ensures Valid() <==> !Displaces(old(users), stream)
    {
      ghost var before, index := users, roomStreams;
      users := users[stream.userId := stream];
      roomStreams := AddTo(roomStreams, stream.rooms, stream);
      if Displaces(before, stream) {
        RegistrationDisagrees(before, index, stream, roomStreams);
      } else {
        RegistrationAgrees(before, index, stream, roomStreams);
      }
    }

    method UserJoinedRoom(user: UserId, room: RoomId)
      requires Valid()
      modifies this`roomStreams
      modifies (if user in users then {users[user]} else {})`rooms
      ensures Valid()
      ensures user in users ==> users[user].rooms == old(users[user].rooms) + {room}
      ensures forall other :: Get(roomStreams, other)
                           == if other == room && user in users then Get(old(roomStreams), other) + {users[user]} else Get(old(roomStreams), other)
    {
      if user in users {
        var stream := users[user];
        roomStreams := Put(roomStreams, room, Get(roomStreams, room) + {stream});
        stream.rooms := stream.rooms + {room};
      }
    }

    /** Drops the streams nobody has used for a while: exactly those, and none that somebody listens to. */
    method RemoveExpiredStreams(now: int)
      requires Valid()
      modifies this
      ensures Valid() && pending == old(pending)
      ensures forall user ::
                user in users <==>
                user in old(users) && (old(users)[user].HasPendingListener() || old(users)[user].lastNotifiedMs >= now - 600_000)
      ensures forall user | user in users :: users[user] == old(users)[user]
    {
      var expired := ExpiredStreams(now);
      ghost var before := users;
      RemoveAll(expired);
      assert forall user | user in before :: before[user] in before.Values;
      forall user | user in before
        ensures CountListeners(before[user].View()) == 0 <==> !before[user].HasPendingListener()
      {
        ListenersCount(before[user].View());
      }
    }

    method ExpiredStreams(now: int) returns (expired: set<UserStream>)
      ensures forall stream :: stream in expired <==> stream in users.Values && stream.Expired(now)
    {
      expired := {};
      var unseen := users.Values;
      while unseen != {}
        invariant unseen <= users.Values
        invariant forall stream :: stream in expired <==> stream in users.Values && stream !in unseen && stream.Expired(now)
        decreases unseen
      {
        var stream :| stream in unseen;
        if stream.Expired(now) {
          expired := expired + {stream};
        }
        unseen := unseen - {stream};
      }
    }

    method RemoveAll(streams: set<UserStream>)
      requires Valid() && streams <= users.Values
      modifies this
      ensures Valid() && pending == old(pending)
      ensures RemovedFrom(old(users), streams, users)
    {
      var left := streams;
      while left != {}
        invariant Valid() && pending == old(pending)
        invariant left <= streams && AllRegistered(users, left)
        invariant RemovedFrom(old(users), streams - left, users)
        decreases left
      {
        var stream :| stream in left;
        RemoveOne(old(users), streams - left, users, stream);
        assert streams - left + {stream} == streams - (left - {stream});
        stream.Remove(this);
        left := left - {stream};
      }
    }

    /** The registered streams that news for these users and rooms concerns. */
    ghost function Concerned(userIds: set<UserId>, roomIds: set<RoomId>): set<UserStream>
      reads this, users.Values
    {
      set stream | stream in users.Values && (stream.userId in userIds || !(stream.rooms !! roomIds))
    }

    /** Wakes each stream concerned, once, and no other. */
    method OnNewEvent(update: Update, userIds: set<UserId>, roomIds: set<RoomId>, now: int)
      requires Valid()
      modifies users.Values
      ensures Valid()
      ensures forall stream | stream in users.Values ::
                && stream.rooms == old(stream.rooms)
                && stream.View() == (if stream in old(Concerned(userIds, roomIds)) then Notified(old(stream.View()), update)
                                     else old(stream.View()))
      ensures forall stream | stream in users.Values :: stream.lastNotifiedMs
                == if stream in old(Concerned(userIds, roomIds)) then now else old(stream.lastNotifiedMs)
    {
      var woken := FindConcerned(userIds, roomIds);
      NotifyEach(woken, update, now);
      forall user | user in users
        ensures users[user].Sound()
      {
        NotifyKeepsSound(old(users[user].View()), update);
      }
    }

    method FindConcerned(userIds: set<UserId>, roomIds: set<RoomId>) returns (woken: set<UserStream>)
      requires Valid()
      ensures woken == Concerned(userIds, roomIds)
    {
      woken := {};
      var usersLeft := userIds;
      while usersLeft != {}
        invariant usersLeft <= userIds
        invariant forall stream :: stream in woken <==> stream in users.Values && stream.userId in userIds - usersLeft
        decreases usersLeft
      {
        var user :| user in usersLeft;
        if user in users {
          woken := woken + {users[user]};
        }
        usersLeft := usersLeft - {user};
      }
      var roomsLeft := roomIds;
      ghost var done: set<RoomId> := {};
      while roomsLeft != {}
        invariant roomsLeft <= roomIds && done == roomIds - roomsLeft
        invariant forall stream :: stream in woken <==>
                    stream in users.Values && (stream.userId in userIds || !(stream.rooms !! done))
        decreases roomsLeft
      {
        var room :| room in roomsLeft;
        assert forall stream | stream in users.Values :: stream in Get(roomStreams, room) <==> room in stream.rooms;
        woken := woken + Get(roomStreams, room);
        roomsLeft := roomsLeft - {room};
        done := done + {room};
      }
      assert done == roomIds;
    }

    static method NotifyEach(woken: set<UserStream>, update: Update, now: int)
      modifies woken
      ensures forall stream | stream in woken ::
                && stream.rooms == old(stream.rooms)
                && stream.View() == Notified(old(stream.View()), update)
                && stream.lastNotifiedMs == now
    {
      var left := woken;
      while left != {}
        invariant left <= woken
        invariant forall stream | stream in woken && stream !in left ::
                    && stream.rooms == old(stream.rooms)
                    && stream.View() == Notified(old(stream.View()), update)
                    && stream.lastNotifiedMs == now
        invariant forall stream | stream in left :: unchanged(stream)
        decreases left
      {
        var stream :| stream in left;
        stream.Notify(update, now);
        left := left - {stream};
      }
    }

    /** A released entry that says a user joined a room puts the user's stream in the set of that room. */
    method HandleJoin(entry: Entry)
      requires Valid()
      modifies this`roomStreams, users.Values`rooms
      ensures Valid()
      ensures forall user | user in users ::
                users[user].rooms == old(users[user].rooms) + if entry.JoinOf(user) then {entry.room} else {}
    {
      if entry.eventType == "m.room.member" && entry.membership == Some("join") && entry.stateKey.Some? && entry.stateKey.value != "" {
        UserJoinedRoom(entry.stateKey.value, entry.room);
      }
    }

    /** An entry that is not released waits on. */
    method Retain(entry: Entry)
      requires Valid()
      modifies this`pending
      ensures Valid() && pending == old(pending) + [entry]
    {
      pending := pending + [entry];
    }

    method ReleaseEntries(token: WriterToken) returns (userIds: set<UserId>, roomIds: set<RoomId>)
      requires Valid()
      modifies this`pending, this`roomStreams, users.Values`rooms
      ensures Valid() && pending == Retained(old(pending), token, |old(pending)|)
      ensures userIds == ReleasedUsers(old(pending), token, |old(pending)|)
      ensures roomIds == ReleasedRooms(old(pending), token, |old(pending)|)
      ensures forall user | user in users ::
                users[user].rooms == RoomsAfter(old(users[user].rooms), old(pending), token, |old(pending)|, user)
    {
      var entries := pending;
      pending := [];
      userIds, roomIds := {}, {};
      for i := 0 to |entries|
        invariant Valid() && pending == Retained(entries, token, i)
        invariant userIds == ReleasedUsers(entries, token, i) && roomIds == ReleasedRooms(entries, token, i)
        invariant forall user | user in users :: users[user].rooms == RoomsAfter(old(users[user].rooms), entries, token, i, user)
      {
        var entry := entries[i];
        if entry.pos.PersistedAfter(token) {
          Retain(entry);
        } else {
          HandleJoin(entry);
          userIds := userIds + entry.extraUsers;
          roomIds := roomIds + {entry.room};
        }
      }
    }

    /** A new token: wakes exactly the streams that a released entry is news for, among them those of users who just joined. */
    method NotifyPendingNewRoomEvents(token: WriterToken, now: int)
      requires Valid()
      modifies this, users.Values
      ensures Valid() && users == old(users) && pending == Retained(old(pending), token, |old(pending)|)
      ensures forall user | user in users ::
                users[user].rooms == old(users[user].rooms) + JoinedRooms(old(pending), token, |old(pending)|, user)
      ensures forall user | user in users ::
                users[user].View() == if WokenBy(old(pending), token, |old(pending)|, user, users[user].rooms)
                                      then Notified(old(users[user].View()), Room(token)) else old(users[user].View())
      ensures forall i, user | 0 <= i < |old(pending)| && user in users
                  && Releases(token, old(pending)[i]) && old(pending)[i].JoinOf(user) ::
                users[user].View() == Notified(old(users[user].View()), Room(token))
    {
      ghost var entries := pending;
      WakeReleased(token, now);
      forall i, user | 0 <= i < |entries| && user in users && Releases(token, entries[i]) && entries[i].JoinOf(user)
        ensures WokenBy(entries, token, |entries|, user, users[user].rooms)
      {
        JoinWakes(entries, token, i, user);
      }
    }

    /** Releases what can be, and wakes the streams concerned. */
    method WakeReleased(token: WriterToken, now: int)
      requires Valid()
      modifies this, users.Values
      ensures Valid() && users == old(users) && pending == Retained(old(pending), token, |old(pending)|)
      ensures forall user | user in users ::
                users[user].rooms == old(users[user].rooms) + JoinedRooms(old(pending), token, |old(pending)|, user)
      ensures forall user | user in users ::
                users[user].View() == if WokenBy(old(pending), token, |old(pending)|, user, users[user].rooms)
                                      then Notified(old(users[user].View()), Room(token)) else old(users[user].View())
    {
      ghost var entries := pending;
      var userIds, roomIds := ReleaseEntries(token);
      forall user | user in users
        ensures users[user].rooms == old(users[user].rooms) + JoinedRooms(entries, token, |entries|, user)
      {
        JoinedRoomsAreAdded(old(users[user].rooms), entries, token, |entries|, user);
      }
      if userIds != {} || roomIds != {} {
        OnNewEvent(Room(token), userIds, roomIds, now);
      }
      forall user | user in users
        ensures WokenBy(entries, token, |entries|, user, users[user].rooms)
           <==> user in userIds || !(users[user].rooms !! roomIds)
      {
        WokenByReleased(entries, token, |entries|, user, users[user].rooms);
      }
    }
  }

  /**
   * Two requests of a user without a stream both find none, and wait for the user's rooms to be fetched;
   * then each registers a stream of its own, and the first stays in the room's set without being registered.
   */
  method TwoWaitersOfOneUser(user: UserId, room: RoomId, token: StreamToken, now: int)
      returns (notifier: Notifier, first: UserStream, second: UserStream)
    ensures first in Get(notifier.roomStreams, room) && !Registered(notifier.users, first)
    ensures !notifier.Valid()
  {
    notifier := new Notifier();
    var firstFinds, secondFinds := user in notifier.users, user in notifier.users;
    assert !firstFinds && !secondFinds;
    first := new UserStream(user, {room}, token, now);
    notifier.RegisterWithKeys(first);
    second := new UserStream(user, {room}, token, now);
    notifier.RegisterWithKeys(second);
  }

  /** On a sound stream the listeners that count are those that are pending. */
  lemma ListenersCount(s: Stream)
    requires StreamSound(s)
    ensures CountListeners(s) == 0 <==> !exists i | 0 <= i < |s.listeners| :: s.listeners[i].Pending?
  {
    var waiting := set i | 0 <= i < |s.listeners| && s.listeners[i].Pending? && s.listeners[i].generation == s.generation;
    if i :| 0 <= i < |s.listeners| && s.listeners[i].Pending? {
      assert i in waiting;
    } else {
      assert waiting == {};
    }
  }
}
