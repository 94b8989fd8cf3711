/**
 * The authorization rules as relations between an event and a room state. Nothing here computes: levels and
 * domains are described by what the entries and identifiers must look like, and an event is allowed when
 * suitable levels exist.
 */
module AuthSpec {
  import opened Results
  import opened RoomEvents

  // ---------------------------------------------------------------- identifiers

  /** The domain of an identifier is what follows its first colon. */
  ghost predicate HasDomain(id: string, domain: string) {
    exists i :: FirstColon(id, i) && id[i + 1..] == domain
  }

  predicate FirstColon(id: string, i: int) {
    0 <= i < |id| && id[i] == ':' && forall j | 0 <= j < i :: id[j] != ':'
  }

  ghost predicate SameDomain(one: string, other: string) {
    exists domain :: HasDomain(one, domain) && HasDomain(other, domain)
  }

  ghost predicate SomeDomain(id: string) {
    exists domain :: HasDomain(id, domain)
  }

  predicate UserIdShaped(id: string) {
    |id| >= 1 && id[0] == '@' && ':' in id[1..]
  }

  // ---------------------------------------------------------------- what the state says

  predicate Says(state: StateMap, eventType: EventType, key: string, event: Event) {
    Slot(eventType, key) in state && state[Slot(eventType, key)] == event
  }

  predicate Silent(state: StateMap, eventType: EventType, key: string) {
    Slot(eventType, key) !in state
  }

  ghost predicate IsMember(state: StateMap, user: UserId, membership: Membership) {
    exists member :: Says(state, MemberType, user, member) && member.content.membership == Some(membership)
  }

  /** The creator, where the create event names one. */
  predicate Created(version: RoomVersion, create: Event, user: UserId) {
    if version.implicitRoomCreator then create.sender == user else create.content.creator == Some(user)
  }

  /** Servers other than the room's own may take part. */
  ghost predicate OpenToOthers(state: StateMap) {
    exists create :: Says(state, CreateType, "", create) && create.content.federate
  }

  ghost predicate ServerMayTakePart(event: Event, id: string, state: StateMap) {
    SomeDomain(event.roomId) && SomeDomain(id) && (SameDomain(event.roomId, id) || OpenToOthers(state))
  }

  /** The join rule in force: invitation, unless an event gives another. */
  ghost predicate HasJoinRule(state: StateMap, rule: JoinRule) {
    || (exists rules :: Says(state, JoinRulesType, "", rules) && rules.content.joinRule == Some(rule))
    || (rule == InviteOnly
        && forall rules | Says(state, JoinRulesType, "", rules) :: rules.content.joinRule == None)
  }

  // ---------------------------------------------------------------- levels

  /** The entry at a key is, or converts to, a number. */
  predicate Gives(levels: map<LevelKey, Level>, key: LevelKey, n: int) {
    key in levels && levels[key] in {Integer(n), Coercible(n)}
  }

  /** There is no entry, or a null. */
  predicate Unset(levels: map<LevelKey, Level>, key: LevelKey) {
    key !in levels || levels[key] == Null
  }

  /** A user's level: their own entry, else the default, else 0; without power levels 100 for the creator and 0 for others. */
  ghost predicate UserHas(state: StateMap, user: UserId, n: int) {
    || (exists power :: Says(state, PowerLevelsType, "", power) && EntryOfUser(power.content.levels, user, n))
    || (Silent(state, PowerLevelsType, "") && Silent(state, CreateType, "") && n == 0)
    || (Silent(state, PowerLevelsType, "") && exists create, creator ::
          && Says(state, CreateType, "", create) && Created(create.roomVersion, create, creator)
          && n == if creator == user then 100 else 0)
  }

  predicate EntryOfUser(levels: map<LevelKey, Level>, user: UserId, n: int) {
    || Gives(levels, OfUser(user), n)
    || (Unset(levels, OfUser(user)) && Gives(levels, Named(UsersDefault), n))
    || (Unset(levels, OfUser(user)) && Unset(levels, Named(UsersDefault)) && n == 0)
  }

  /** What it takes to invite, kick, ban or redact. */
  function DefaultFor(name: LevelName): int {
    if name == InviteLevel then 0 else 50
  }

  ghost predicate Takes(state: StateMap, name: LevelName, n: int) {
    || (exists power :: Says(state, PowerLevelsType, "", power) && Gives(power.content.levels, Named(name), n))
    || (n == DefaultFor(name) && forall power | Says(state, PowerLevelsType, "", power) :: Unset(power.content.levels, Named(name)))
  }

  /** What it takes to send: the entry for the type, else the default for state or for messages, else 50 for state and 0 for messages. */
  predicate EntryOfType(levels: map<LevelKey, Level>, eventType: EventType, isState: bool, n: int) {
    var default := Named(if isState then StateDefault else EventsDefault);
    || Gives(levels, OfEvent(eventType), n)
    || (Unset(levels, OfEvent(eventType)) && Gives(levels, default, n))
    || (Unset(levels, OfEvent(eventType)) && default !in levels && n == if isState then 50 else 0)
  }

  ghost predicate TakesToSend(state: StateMap, eventType: EventType, isState: bool, n: int) {
    || (exists power :: Says(state, PowerLevelsType, "", power) && EntryOfType(power.content.levels, eventType, isState, n))
    || (Silent(state, PowerLevelsType, "") && n == if isState then 50 else 0)
  }

  // ---------------------------------------------------------------- membership

  /** An invite answers a token that its sender published, names the user and is signed with a key of the token. */
  ghost predicate AnswersToken(event: Event, user: UserId, state: StateMap) {
    && event.content.thirdPartyInvite.Some?
    && event.content.thirdPartyInvite.value.Signed?
    && event.content.thirdPartyInvite.value.mxid == Some(user)
    && exists published, key ::
         && Says(state, ThirdPartyInviteType, event.content.thirdPartyInvite.value.token, published)
         && published.sender == event.sender
         && key in published.content.publicKeys
         && key in event.content.thirdPartyInvite.value.signedBy
  }

  /** A member with the level to invite vouches for the newcomer. */
  ghost predicate IsVouchedFor(event: Event, state: StateMap) {
    && event.content.authorisingUser.Some?
    && IsMember(state, event.content.authorisingUser.value, Join)
    && exists level, needed :: UserHas(state, event.content.authorisingUser.value, level) && Takes(state, InviteLevel, needed) && level >= needed
  }

  predicate VouchingRule(version: RoomVersion, rule: JoinRule) {
    (rule == Restricted && version.restrictedJoinRule) || (rule == KnockRestricted && version.knockRestrictedJoinRule)
  }

  predicate InvitationRule(version: RoomVersion, rule: JoinRule) {
    rule == InviteOnly || (rule == KnockRule && version.knockJoinRule) || VouchingRule(version, rule)
  }

  predicate KnockingRule(version: RoomVersion, rule: JoinRule) {
    rule == KnockRule || (rule == KnockRestricted && version.knockRestrictedJoinRule)
  }

  ghost predicate MayJoin(event: Event, user: UserId, state: StateMap) {
    && event.sender == user
    && !IsMember(state, user, Ban)
    && exists rule :: HasJoinRule(state, rule) &&
         (|| rule == Public
          || (InvitationRule(event.roomVersion, rule) && (IsMember(state, user, Join) || IsMember(state, user, Invite)))
          || (VouchingRule(event.roomVersion, rule) && IsVouchedFor(event, state)))
  }

  ghost predicate MayInvite(event: Event, user: UserId, state: StateMap) {
    && !IsMember(state, user, Ban)
    && (if event.content.thirdPartyInvite.Some? then AnswersToken(event, user, state)
        else
          && !IsMember(state, user, Join)
          && IsMember(state, event.sender, Join)
          && exists level, needed :: UserHas(state, event.sender, level) && Takes(state, InviteLevel, needed) && level >= needed)
  }

  ghost predicate MayKnock(event: Event, user: UserId, state: StateMap) {
    && event.sender == user
    && event.roomVersion.knockJoinRule
    && !IsMember(state, user, Join) && !IsMember(state, user, Invite) && !IsMember(state, user, Ban)
    && exists rule :: HasJoinRule(state, rule) && KnockingRule(event.roomVersion, rule)
  }

  /** A member who outranks the user, and has the level for it. */
  ghost predicate Outranks(event: Event, user: UserId, state: StateMap, name: LevelName) {
    && IsMember(state, event.sender, Join)
    && exists level, other, needed ::
         UserHas(state, event.sender, level) && UserHas(state, user, other) && Takes(state, name, needed) && level > other && level >= needed
  }

  ghost predicate MayRemove(event: Event, user: UserId, state: StateMap) {
    if event.sender == user then
      IsMember(state, user, Join) || IsMember(state, user, Invite) || (IsMember(state, user, Knock) && event.roomVersion.knockJoinRule)
    else
      Outranks(event, user, state, KickLevel) && (IsMember(state, user, Ban) ==> Outranks(event, user, state, BanLevel))
  }

  /** The levels that every membership change reads. */
  ghost predicate LevelsReadable(event: Event, user: UserId, state: StateMap) {
    && (exists n :: UserHas(state, event.sender, n))
    && (exists n :: UserHas(state, user, n))
    && (exists n :: Takes(state, InviteLevel, n))
    && (exists n :: Takes(state, BanLevel, n))
  }

  /** The join directly after the create event. */
  ghost predicate FollowsCreation(event: Event, create: Event, state: StateMap) {
    Says(state, CreateType, "", create) && event.prevEvents == [create.id] && event.content.membership == Some(Join)
  }

  ghost predicate MayChangeMembership(event: Event, state: StateMap) {
    event.stateKey.Some? && event.content.membership.Some? &&
    var user := event.stateKey.value;
    || (exists create :: FollowsCreation(event, create, state) && Created(event.roomVersion, create, user))
    || (&& (forall create | FollowsCreation(event, create, state) :: exists creator :: Created(event.roomVersion, create, creator))
        && ServerMayTakePart(event, user, state)
        && LevelsReadable(event, user, state)
        && match event.content.membership.value
           case Join => MayJoin(event, user, state)
           case Invite => MayInvite(event, user, state)
           case Knock => MayKnock(event, user, state)
           case Leave => MayRemove(event, user, state)
           case Ban => Outranks(event, user, state, BanLevel)
           case OtherMembership(_) => false)
  }

  // ---------------------------------------------------------------- other events

  /** A state key that is a user id is that user's alone. */
  predicate OwnKey(event: Event) {
    event.stateKey.Some? && event.stateKey.value != "" && event.stateKey.value[0] == '@' ==> event.stateKey.value == event.sender
  }

  ghost predicate MaySend(event: Event, state: StateMap) {
    && OwnKey(event)
    && exists level, needed ::
         UserHas(state, event.sender, level) && TakesToSend(state, event.eventType, event.stateKey.Some?, needed) && level >= needed
  }

  /** A level may be left as it is; else neither the old nor the new value may exceed the sender's level, nor the old one equal it on another user. */
  ghost predicate MayMoveLevel(sender: UserId, level: int, key: LevelKey, before: map<LevelKey, Level>, after: map<LevelKey, Level>) {
    && (key in before ==> exists n :: Gives(before, key, n))
    && (key in after ==> exists n :: Gives(after, key, n))
    && (|| (exists n :: Gives(before, key, n) && Gives(after, key, n))
        || (&& (forall n | Gives(before, key, n) :: n < level || (n == level && (!key.OfUser? || key.user == sender)))
            && (forall n | Gives(after, key, n) :: n <= level)))
  }

  /** The keys that are compared: all that stand in either content, save notifications in old versions. */
  predicate Compared(version: RoomVersion, key: LevelKey) {
    key.OfNotification? ==> version.limitNotificationsPowerLevels
  }

  ghost predicate MaySetLevels(event: Event, state: StateMap) {
    && event.stateKey.Some?
    && (forall key | key in event.content.levels ::
          && (key.OfUser? ==> UserIdShaped(key.user) && exists n :: Gives(event.content.levels, key, n))
          && (event.roomVersion.enforceIntPowerLevels ==> event.content.levels[key].Integer?))
    && (forall current | Says(state, PowerLevelsType, event.stateKey.value, current) ::
          exists level :: UserHas(state, event.sender, level)
            && forall key | Compared(event.roomVersion, key) ::
                 MayMoveLevel(event.sender, level, key, current.content.levels, event.content.levels))
  }

  /** The redacted event, if there is one, belongs to the server of the redaction. */
  ghost predicate OwnServersEvent(event: Event) {
    SomeDomain(event.id) && (event.redacts.Some? ==> SameDomain(event.id, event.redacts.value))
  }

  /** `recheck`: the redaction must be checked again, against the event it redacts. */
  ghost predicate MayRedact(event: Event, state: StateMap, recheck: bool) {
    exists level, needed :: UserHas(state, event.sender, level) && Takes(state, RedactLevel, needed) &&
      (|| (level >= needed && !recheck)
       || (level < needed && event.roomVersion.v1v2EventFormat && OwnServersEvent(event) && !recheck)
       || (level < needed && !event.roomVersion.v1v2EventFormat && recheck))
  }

  /** An alias is set by its own server. */
  ghost predicate MayAlias(event: Event) {
    event.stateKey.Some? && event.stateKey.value != "" && HasDomain(event.sender, event.stateKey.value)
  }

  ghost predicate MayPublishToken(event: Event, state: StateMap) {
    exists level, needed :: UserHas(state, event.sender, level) && Takes(state, InviteLevel, needed) && level >= needed
  }

  // ---------------------------------------------------------------- all rules

  /** What a member may do besides changing memberships. */
  ghost predicate MayAct(event: Event, state: StateMap, recheck: bool) {
    match event.eventType
    case ThirdPartyInviteType => MayPublishToken(event, state) && !recheck
    case PowerLevelsType => MaySend(event, state) && MaySetLevels(event, state) && !recheck
    case RedactionType => MaySend(event, state) && MayRedact(event, state, recheck)
    case _ => MaySend(event, state) && !recheck
  }

  /** The event is allowed by the room state; `recheck` is true for a redaction that must be checked again. */
  ghost predicate Allowed(event: Event, state: StateMap, recheck: bool) {
    if event.eventType == CreateType then !recheck
    else if !ServerMayTakePart(event, event.sender, state) then false
    else if event.eventType == AliasesType && event.roomVersion.specialCaseAliasesAuth then MayAlias(event) && !recheck
    else if event.eventType == MemberType then MayChangeMembership(event, state) && !recheck
    else IsMember(state, event.sender, Join) && MayAct(event, state, recheck)
  }

  /** A create event starts a room of the sender's own server. */
  ghost predicate MayCreate(event: Event) {
    && event.prevEvents == []
    && SameDomain(event.sender, event.roomId)
    && event.content.roomVersionKnown
    && (event.roomVersion.implicitRoomCreator || event.content.creator.Some?)
  }
}
