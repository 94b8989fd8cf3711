/** Room events, room state and room versions, as far as authorization and visibility read them. */
module RoomEvents {
  import opened Results

  type UserId = string
  type RoomId = string
  type EventId = string
  type PublicKey = string

  /** The flags of a room version that the authorization rules consult. */
  datatype RoomVersion = RoomVersion(
    v1v2EventFormat: bool,
    specialCaseAliasesAuth: bool,
    limitNotificationsPowerLevels: bool,
    implicitRoomCreator: bool,
    restrictedJoinRule: bool,
    knockJoinRule: bool,
    knockRestrictedJoinRule: bool,
    enforceIntPowerLevels: bool)

  /** The eleven known room versions, by their number. */
  function KnownVersion(n: nat): (v: RoomVersion)
    requires 1 <= n <= 11
    ensures v.knockRestrictedJoinRule ==> v.restrictedJoinRule && v.knockJoinRule
    ensures v.v1v2EventFormat <==> n in {1, 2}
    ensures v.specialCaseAliasesAuth <==> n in {1, 2, 3, 4, 5}
    ensures v.limitNotificationsPowerLevels <==> n in {6, 7, 8, 9, 10, 11}
    ensures v.knockJoinRule <==> n in {7, 8, 9, 10, 11}
    ensures v.restrictedJoinRule <==> n in {8, 9, 10, 11}
    ensures v.knockRestrictedJoinRule <==> n in {10, 11}
    ensures v.enforceIntPowerLevels <==> n in {10, 11}
    ensures v.implicitRoomCreator <==> n == 11
  {
    RoomVersion(
      v1v2EventFormat := n <= 2,
      specialCaseAliasesAuth := n <= 5,
      limitNotificationsPowerLevels := n >= 6,
      implicitRoomCreator := n == 11,
      restrictedJoinRule := n >= 8,
      knockJoinRule := n >= 7,
      knockRestrictedJoinRule := n >= 10,
      enforceIntPowerLevels := n >= 10)
  }

  datatype EventType =
    | CreateType
    | MemberType
    | JoinRulesType
    | PowerLevelsType
    | AliasesType
    | RedactionType
    | ThirdPartyInviteType
    | HistoryVisibilityType
    | DummyType
    | OtherType(name: string)

  datatype Membership = Join | Invite | Knock | Leave | Ban | OtherMembership(name: string)

  datatype JoinRule = Public | InviteOnly | KnockRule | Restricted | KnockRestricted | OtherJoinRule(name: string)

  datatype HistoryVisibility = WorldReadable | Shared | Invited | Joined | OtherVisibility(name: string)

  /** The levels that stand at the top of a power-levels content. */
  datatype LevelName = UsersDefault | EventsDefault | StateDefault | BanLevel | RedactLevel | KickLevel | InviteLevel

  /** Where in a power-levels content a level stands: at the top, or in one of the three sub-tables. */
  datatype LevelKey =
    | Named(name: LevelName)
    | OfUser(user: UserId)
    | OfEvent(eventType: EventType)
    | OfNotification(notification: string)

  /**
   * A JSON value standing where a level is expected. `Coercible` is a value other than an integer
   * that `int()` converts (a numeric string, say); `Malformed` is one on which `int()` raises.
   */
  datatype Level = Integer(n: int) | Coercible(n: int) | Null | Malformed

  /**
   * The `third_party_invite` part of a member event. `signedBy` holds the public keys under which
   * the signed block verifies: the cryptography itself is not modelled.
   */
  datatype ThirdPartyInvite =
    | NoToken
    | Signed(token: string, mxid: Option<string>, signedBy: set<PublicKey>)

  /**
   * The content fields that authorization reads. `federate` is true unless `m.federate` is present and not
   * exactly true; `roomVersionKnown` is true unless `room_version` names an unknown version.
   */
  datatype Content = Content(
    membership: Option<Membership>,
    joinRule: Option<JoinRule>,
    creator: Option<UserId>,
    federate: bool,
    roomVersionKnown: bool,
    authorisingUser: Option<UserId>,
    thirdPartyInvite: Option<ThirdPartyInvite>,
    publicKeys: seq<PublicKey>,
    levels: map<LevelKey, Level>)

  const EMPTY_CONTENT := Content(None, None, None, true, true, None, None, [], map[])

  /** An event as authorization sees it. */
  datatype Event = Event(
    id: EventId,
    eventType: EventType,
    stateKey: Option<string>,
    sender: UserId,
    roomId: RoomId,
    roomVersion: RoomVersion,
    prevEvents: seq<EventId>,
    authEvents: seq<EventId>,
    redacts: Option<EventId>,
    rejected: bool,
    content: Content)

  /** A position in the room state. */
  datatype Slot = Slot(eventType: EventType, key: string)

  type StateMap = map<Slot, Event>

  function Lookup(state: StateMap, eventType: EventType, key: string): Option<Event> {
    if Slot(eventType, key) in state then Some(state[Slot(eventType, key)]) else None
  }

  function Apply(state: StateMap, event: Event): StateMap {
    if event.stateKey.Some? then state[Slot(event.eventType, event.stateKey.value) := event] else state
  }

  /** The membership the state records for a user. */
  function MembershipOf(state: StateMap, user: UserId): Option<Membership> {
    match Lookup(state, MemberType, user)
    case Some(member) => member.content.membership
    case None => None
  }
}
