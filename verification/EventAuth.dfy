/** The authorization rules for room events. */
module EventAuth {
  import opened Results
  import opened RoomEvents

  datatype AuthError =
    | MissingField | InvalidId | BadLevel | Unfederatable
    | CreateRefused | AuthEventsRefused
    | AliasStateKey
    | SenderNotJoined | TargetBanned | AlreadyJoined | AlreadyInvited
    | NotInvited | NoInvitePower | ForcedJoin | NoAuthoriser | JoinNotAllowed
    | CannotUnban | CannotKick | CannotBan | CannotKnock | UnknownMembership
    | NoSendPower | OthersState | CannotRedact | PowerLevelsRefused

  /** `Ok(recheck)`: allowed, and `recheck` says whether the redaction must be checked again later. */
  type Verdict = Result<bool, AuthError>

  // ---------------------------------------------------------------- identifiers

  function DomainOf(id: string): Result<string, AuthError> {
    if id == "" then Err(InvalidId)
    else if id[0] == ':' then Ok(id[1..])
    else DomainOf(id[1..])
  }

  predicate ValidUserId(s: string) {
    |s| >= 1 && s[0] == '@' && ':' in s[1..]
  }

  // ---------------------------------------------------------------- power levels

  function IntOf(level: Level): Result<int, AuthError> {
    match level
    case Integer(n) => Ok(n)
    case Coercible(n) => Ok(n)
    case Null => Err(BadLevel)
    case Malformed => Err(BadLevel)
  }

  /** `int()` of the entry at a key, or the default where the entry is absent or null. */
  function LevelOr(levels: map<LevelKey, Level>, key: LevelKey, default: int): Result<int, AuthError> {
    if key in levels && levels[key] != Null then IntOf(levels[key]) else Ok(default)
  }

  function CreatorOf(version: RoomVersion, create: Event): Result<UserId, AuthError> {
    if version.implicitRoomCreator then Ok(create.sender)
    else match create.content.creator
      case Some(creator) => Ok(creator)
      case None => Err(MissingField)
  }

  function UserLevel(user: UserId, state: StateMap): Result<int, AuthError> {
    match Lookup(state, PowerLevelsType, "")
    case Some(power) =>
      var levels := power.content.levels;
      if OfUser(user) in levels && levels[OfUser(user)] != Null then IntOf(levels[OfUser(user)])
      else LevelOr(levels, Named(UsersDefault), 0)
    case None =>
      match Lookup(state, CreateType, "")
      case Some(create) =>
        var creator :- CreatorOf(create.roomVersion, create);
        Ok(if creator == user then 100 else 0)
      case None => Ok(0)
  }

  function NamedLevel(state: StateMap, name: LevelName, default: int): Result<int, AuthError> {
    match Lookup(state, PowerLevelsType, "")
    case Some(power) => LevelOr(power.content.levels, Named(name), default)
    case None => Ok(default)
  }

  function SendLevel(eventType: EventType, isState: bool, power: Option<Event>): Result<int, AuthError> {
    var levels := if power.Some? then power.value.content.levels else map[];
    var fallback := Named(if isState then StateDefault else EventsDefault);
    if OfEvent(eventType) in levels && levels[OfEvent(eventType)] != Null then IntOf(levels[OfEvent(eventType)])
    else if fallback in levels then IntOf(levels[fallback])
    else Ok(if isState then 50 else 0)
  }

  // ---------------------------------------------------------------- membership

  predicate CanFederate(state: StateMap) {
    var create := Lookup(state, CreateType, "");
    create.Some? && create.value.content.federate
  }

  function CheckCreate(event: Event): Verdict {
    var senderDomain :- DomainOf(event.sender);
    var roomDomain :- DomainOf(event.roomId);
    if event.prevEvents != [] then Err(CreateRefused)
    else if senderDomain != roomDomain then Err(CreateRefused)
    else if !event.content.roomVersionKnown then Err(CreateRefused)
    else if !event.roomVersion.implicitRoomCreator && event.content.creator.None? then Err(CreateRefused)
    else Ok(false)
  }

  /** A third-party invite must answer a token event of the same sender, and be signed with its key. */
  predicate VerifyThirdPartyInvite(event: Event, state: StateMap) {
    match event.content.thirdPartyInvite
    case Some(Signed(token, mxid, signedBy)) =>
      var invite := Lookup(state, ThirdPartyInviteType, token);
      && invite.Some?
      && invite.value.sender == event.sender
      && mxid.Some?
      && mxid == event.stateKey
      && exists key :: key in invite.value.content.publicKeys && key in signedBy
    case _ => false
  }

  /** The creator's own first join, directly after the create event. */
  function IsCreatorJoin(version: RoomVersion, event: Event, target: UserId, state: StateMap): Verdict {
    var create := Lookup(state, CreateType, "");
    if |event.prevEvents| == 1 && event.content.membership == Some(Join)
       && create.Some? && event.prevEvents[0] == create.value.id
    then
      var creator :- CreatorOf(version, create.value);
      Ok(creator == target)
    else Ok(false)
  }

  /** What the membership rules read from the room state. */
  datatype Facts = Facts(
    caller: Option<Membership>,
    target: Option<Membership>,
    joinRule: JoinRule,
    callerLevel: int,
    targetLevel: int,
    inviteLevel: int,
    banLevel: int)

  function JoinRuleOf(state: StateMap): JoinRule {
    var rules := Lookup(state, JoinRulesType, "");
    if rules.Some? && rules.value.content.joinRule.Some? then rules.value.content.joinRule.value else InviteOnly
  }

  function GatherFacts(event: Event, target: UserId, state: StateMap): Result<Facts, AuthError> {
    var callerLevel :- UserLevel(event.sender, state);
    var targetLevel :- UserLevel(target, state);
    var inviteLevel :- NamedLevel(state, InviteLevel, 0);
    var banLevel :- NamedLevel(state, BanLevel, 50);
    Ok(Facts(MembershipOf(state, event.sender), MembershipOf(state, target), JoinRuleOf(state),
             callerLevel, targetLevel, inviteLevel, banLevel))
  }

  function CheckInvite(facts: Facts): Verdict {
    if facts.target == Some(Ban) then Err(TargetBanned)
    else if facts.target == Some(Join) then Err(AlreadyJoined)
    else if facts.callerLevel < facts.inviteLevel then Err(NoInvitePower)
    else Ok(false)
  }

  /** Whether the join rule in force admits users vouched for by an authorising user. */
  predicate RestrictedRuleInForce(version: RoomVersion, rule: JoinRule) {
    || (version.restrictedJoinRule && rule == Restricted)
    || (version.knockRestrictedJoinRule && rule == KnockRestricted)
  }

  function CheckAuthoriser(event: Event, inviteLevel: int, state: StateMap): Verdict {
    match event.content.authorisingUser
    case None => Err(NoAuthoriser)
    case Some(authoriser) =>
      if MembershipOf(state, authoriser) != Some(Join) then Err(SenderNotJoined)
      else
        var level :- UserLevel(authoriser, state);
        if level < inviteLevel then Err(NoAuthoriser) else Ok(false)
  }

  function CheckJoin(version: RoomVersion, event: Event, target: UserId, facts: Facts, state: StateMap): Verdict {
    var admitted := facts.caller == Some(Join) || facts.caller == Some(Invite);
    if event.sender != target then Err(ForcedJoin)
    else if facts.target == Some(Ban) then Err(TargetBanned)
    else if facts.joinRule == Public then Ok(false)
    else if RestrictedRuleInForce(version, facts.joinRule) then
      if admitted then Ok(false) else CheckAuthoriser(event, facts.inviteLevel, state)
    else if facts.joinRule == InviteOnly
         || (version.knockJoinRule && facts.joinRule == KnockRule)
         || (version.knockRestrictedJoinRule && facts.joinRule == KnockRestricted)
    then
      if admitted then Ok(false) else Err(NotInvited)
    else Err(JoinNotAllowed)
  }

  function CheckLeave(event: Event, target: UserId, facts: Facts, state: StateMap): Verdict {
    if facts.target == Some(Ban) && facts.callerLevel < facts.banLevel then Err(CannotUnban)
    else if target != event.sender then
      var kickLevel :- NamedLevel(state, KickLevel, 50);
      if facts.callerLevel < kickLevel || facts.callerLevel <= facts.targetLevel then Err(CannotKick)
      else Ok(false)
    else Ok(false)
  }

  function CheckBan(facts: Facts): Verdict {
    if facts.callerLevel < facts.banLevel || facts.callerLevel <= facts.targetLevel then Err(CannotBan)
    else Ok(false)
  }

  function CheckKnock(version: RoomVersion, event: Event, target: UserId, facts: Facts): Verdict {
    if facts.joinRule != KnockRule
       && (!version.knockRestrictedJoinRule || facts.joinRule != KnockRestricted)
    then Err(CannotKnock)
    else if target != event.sender then Err(CannotKnock)
    else if facts.target == Some(Join) then Err(AlreadyJoined)
    else if facts.caller == Some(Invite) then Err(AlreadyInvited)
    else if facts.target == Some(Ban) then Err(TargetBanned)
    else Ok(false)
  }

  function DecideMembership(version: RoomVersion, event: Event, target: UserId, membership: Membership,
                            facts: Facts, state: StateMap): Verdict
  {
    if membership == Invite && event.content.thirdPartyInvite.Some? then
      if !VerifyThirdPartyInvite(event, state) then Err(NotInvited)
      else if facts.target == Some(Ban) then Err(TargetBanned)
      else Ok(false)
    else if membership == Leave && target == event.sender
         && (facts.caller == Some(Invite) || (version.knockJoinRule && facts.caller == Some(Knock)))
    then Ok(false)
    else if membership != Join && membership != Knock && facts.caller != Some(Join) then Err(SenderNotJoined)
    else match membership
      case Invite => CheckInvite(facts)
      case Join => CheckJoin(version, event, target, facts, state)
      case Leave => CheckLeave(event, target, facts, state)
      case Ban => CheckBan(facts)
      case Knock => if version.knockJoinRule then CheckKnock(version, event, target, facts) else Err(UnknownMembership)
      case OtherMembership(_) => Err(UnknownMembership)
  }

  function CheckMembershipChange(version: RoomVersion, event: Event, state: StateMap): Verdict {
    if event.content.membership.None? || event.stateKey.None? then Err(MissingField)
    else
      var target := event.stateKey.value;
      var creatorJoin :- IsCreatorJoin(version, event, target, state);
      if creatorJoin then Ok(false)
      else
        var creatingDomain :- DomainOf(event.roomId);
        var targetDomain :- DomainOf(target);
        if creatingDomain != targetDomain && !CanFederate(state) then Err(Unfederatable)
        else
          var facts :- GatherFacts(event, target, state);
          DecideMembership(version, event, target, event.content.membership.value, facts, state)
  }

  // ---------------------------------------------------------------- sending

  function CheckCanSend(event: Event, state: StateMap): Verdict {
    var sendLevel :- SendLevel(event.eventType, event.stateKey.Some?, Lookup(state, PowerLevelsType, ""));
    var userLevel :- UserLevel(event.sender, state);
    if userLevel < sendLevel then Err(NoSendPower)
    else if event.stateKey.Some? && event.stateKey.value != "" && event.stateKey.value[0] == '@'
         && event.stateKey.value != event.sender
    then Err(OthersState)
    else Ok(false)
  }

  function CheckRedaction(version: RoomVersion, event: Event, state: StateMap): Verdict {
    var userLevel :- UserLevel(event.sender, state);
    var redactLevel :- NamedLevel(state, RedactLevel, 50);
    if userLevel >= redactLevel then Ok(false)
    else if version.v1v2EventFormat then
      var redacterDomain :- DomainOf(event.id);
      if event.redacts.None? then Ok(false)
      else
        var redacteeDomain :- DomainOf(event.redacts.value);
        if redacterDomain == redacteeDomain then Ok(false) else Err(CannotRedact)
    else Ok(true)
  }

  // ---------------------------------------------------------------- changing power levels

  /** The users must be user ids with levels, and where the version says so every level an integer. */
  ghost predicate LevelsWellFormed(version: RoomVersion, levels: map<LevelKey, Level>) {
    forall key | key in levels ::
      && (key.OfUser? ==> ValidUserId(key.user) && IntOf(levels[key]).Ok?)
      && (version.enforceIntPowerLevels ==> levels[key].Integer?)
  }

  /** A key whose old and new levels must be compared. */
  predicate MustCompare(version: RoomVersion, before: map<LevelKey, Level>, after: map<LevelKey, Level>, key: LevelKey) {
    key.Named? || ((key in before || key in after) && (key.OfNotification? ==> version.limitNotificationsPowerLevels))
  }

  /** The level at a key: absent, a number, or an error where `int()` raises. */
  function Entry(levels: map<LevelKey, Level>, key: LevelKey): Result<Option<int>, AuthError> {
    if key !in levels then Ok(None)
    else
      var n :- IntOf(levels[key]);
      Ok(Some(n))
  }

  /** Whether a sender of the given level may move one entry from its old to its new value. */
  predicate MayMove(sender: UserId, senderLevel: int, key: LevelKey, was: Option<int>, becomes: Option<int>) {
    || (was.Some? && was == becomes)
    || (&& (key.OfUser? && key.user != sender ==> was != Some(senderLevel))
        && (was.Some? ==> was.value <= senderLevel)
        && (becomes.Some? ==> becomes.value <= senderLevel))
  }

  predicate EntryMoveAllowed(sender: UserId, senderLevel: int, key: LevelKey,
                             before: map<LevelKey, Level>, after: map<LevelKey, Level>)
  {
    && Entry(before, key).Ok?
    && Entry(after, key).Ok?
    && MayMove(sender, senderLevel, key, Entry(before, key).value, Entry(after, key).value)
  }

  ghost predicate PowerLevelsAllowed(version: RoomVersion, event: Event, state: StateMap) {
    && event.stateKey.Some?
    && LevelsWellFormed(version, event.content.levels)
    && var current := Lookup(state, PowerLevelsType, event.stateKey.value);
       current.Some? ==>
         && UserLevel(event.sender, state).Ok?
         && forall key | MustCompare(version, current.value.content.levels, event.content.levels, key) ::
              EntryMoveAllowed(event.sender, UserLevel(event.sender, state).value, key,
                               current.value.content.levels, event.content.levels)
  }

  /** Compares every level an event would change with the level of its sender. */
  method CheckPowerLevels(version: RoomVersion, event: Event, state: StateMap) returns (verdict: Verdict)
    ensures verdict.Ok? <==> PowerLevelsAllowed(version, event, state)
    ensures verdict.Ok? ==> verdict == Ok(false)
  {
    var after := event.content.levels;
    var unchecked := after.Keys;
    while unchecked != {}
      invariant unchecked <= after.Keys
      invariant forall key | key in after.Keys - unchecked ::
                  && (key.OfUser? ==> ValidUserId(key.user) && IntOf(after[key]).Ok?)
                  && (version.enforceIntPowerLevels ==> after[key].Integer?)
    {
      var key :| key in unchecked;
      if key.OfUser? && !ValidUserId(key.user) {
        return Err(InvalidId);
      }
      if key.OfUser? && IntOf(after[key]).Err? {
        return Err(BadLevel);
      }
      if version.enforceIntPowerLevels && !after[key].Integer? {
        return Err(BadLevel);
      }
      unchecked := unchecked - {key};
    }
    if event.stateKey.None? {
      return Err(MissingField);
    }
    var current := Lookup(state, PowerLevelsType, event.stateKey.value);
    if current.None? {
      return Ok(false);
    }
    var before := current.value.content.levels;
    var userLevel := UserLevel(event.sender, state);
    if userLevel.Err? {
      return Err(userLevel.error);
    }
    var toCheck := LevelsToCheck(version, before, after);
    for i := 0 to |toCheck|
      invariant forall j | 0 <= j < i :: EntryMoveAllowed(event.sender, userLevel.value, toCheck[j], before, after)
    {
      var key := toCheck[i];
      assert key in toCheck && MustCompare(version, before, after, key);
      var was, becomes := Entry(before, key), Entry(after, key);
      if was.Err? || becomes.Err? {
        return Err(BadLevel);
      }
      if was.value.Some? && was.value == becomes.value {
        continue;
      }
      if key.OfUser? && key.user != event.sender && was.value == Some(userLevel.value) {
        return Err(PowerLevelsRefused);
      }
      if (was.value.Some? && was.value.value > userLevel.value)
         || (becomes.value.Some? && becomes.value.value > userLevel.value) {
        return Err(PowerLevelsRefused);
      }
    }
    return Ok(false);
  }

  /** The seven top-level keys, then every user, event type and notification of either content. */
  method LevelsToCheck(version: RoomVersion, before: map<LevelKey, Level>, after: map<LevelKey, Level>)
      returns (keys: seq<LevelKey>)
    ensures forall key :: key in keys <==> MustCompare(version, before, after, key)
  {
    keys := [Named(UsersDefault), Named(EventsDefault), Named(StateDefault), Named(BanLevel),
             Named(RedactLevel), Named(KickLevel), Named(InviteLevel)];
    forall name
      ensures Named(name) in keys
    {
      match name
      case UsersDefault => assert keys[0] == Named(name);
      case EventsDefault => assert keys[1] == Named(name);
      case StateDefault => assert keys[2] == Named(name);
      case BanLevel => assert keys[3] == Named(name);
      case RedactLevel => assert keys[4] == Named(name);
      case KickLevel => assert keys[5] == Named(name);
      case InviteLevel => assert keys[6] == Named(name);
    }
    var rest := before.Keys + after.Keys;
    while rest != {}
      invariant rest <= before.Keys + after.Keys
      invariant forall name :: Named(name) in keys
      invariant forall key | key in keys :: MustCompare(version, before, after, key)
      invariant forall key | key in before.Keys + after.Keys - rest && MustCompare(version, before, after, key) :: key in keys
    {
      var key :| key in rest;
      rest := rest - {key};
      if !key.Named? && (key.OfNotification? ==> version.limitNotificationsPowerLevels) {
        keys := keys + [key];
      }
    }
  }

  // ---------------------------------------------------------------- all state-dependent rules

  /** The rules for a member who does not change a membership. */
  ghost function CheckAct(event: Event, state: StateMap): Verdict {
    if event.eventType == ThirdPartyInviteType then
      var userLevel :- UserLevel(event.sender, state);
      var inviteLevel :- NamedLevel(state, InviteLevel, 0);
      if userLevel < inviteLevel then Err(NoInvitePower) else Ok(false)
    else
      var _ :- CheckCanSend(event, state);
      if event.eventType == PowerLevelsType then
        if PowerLevelsAllowed(event.roomVersion, event, state) then Ok(false) else Err(PowerLevelsRefused)
      else if event.eventType == RedactionType then
        CheckRedaction(event.roomVersion, event, state)
      else Ok(false)
  }

  ghost function CheckStateDependent(event: Event, state: StateMap): Verdict {
    if event.eventType == CreateType then Ok(false)
    else
      var creatingDomain :- DomainOf(event.roomId);
      var originatingDomain :- DomainOf(event.sender);
      if creatingDomain != originatingDomain && !CanFederate(state) then Err(Unfederatable)
      else if event.eventType == AliasesType && event.roomVersion.specialCaseAliasesAuth then
        if event.stateKey == Some(originatingDomain) && originatingDomain != "" then Ok(false) else Err(AliasStateKey)
      else if event.eventType == MemberType then
        CheckMembershipChange(event.roomVersion, event, state)
      else if MembershipOf(state, event.sender) != Some(Join) then Err(SenderNotJoined)
      else CheckAct(event, state)
  }

  /** The state that the first `n` of a list of events make up: a later event replaces an earlier one. */
  function StateFrom(events: seq<Event>, n: nat): StateMap
    requires n <= |events|
  {
    if n == 0 then map[] else Apply(StateFrom(events, n - 1), events[n - 1])
  }

  /** Judges an event by a list of state events, gathered into a dictionary first. */
  method CheckStateDependentAuthRules(event: Event, authEvents: seq<Event>) returns (verdict: Verdict)
    requires forall i | 0 <= i < |authEvents| :: authEvents[i].stateKey.Some?
    ensures verdict.Ok? <==> CheckStateDependent(event, StateFrom(authEvents, |authEvents|)).Ok?
    ensures verdict.Ok? ==> verdict == CheckStateDependent(event, StateFrom(authEvents, |authEvents|))
  {
    if event.eventType == CreateType {
      return Ok(false);
    }
    var authDict: StateMap := map[];
    for i := 0 to |authEvents|
      invariant authDict == StateFrom(authEvents, i)
    {
      authDict := authDict[Slot(authEvents[i].eventType, authEvents[i].stateKey.value) := authEvents[i]];
    }
    var creatingDomain, originatingDomain := DomainOf(event.roomId), DomainOf(event.sender);
    if creatingDomain.Err? || originatingDomain.Err? {
      return Err(InvalidId);
    }
    if creatingDomain.value != originatingDomain.value && !CanFederate(authDict) {
      return Err(Unfederatable);
    }
    if event.eventType == AliasesType && event.roomVersion.specialCaseAliasesAuth {
      if event.stateKey.None? || event.stateKey.value == "" || event.stateKey.value != originatingDomain.value {
        return Err(AliasStateKey);
      }
      return Ok(false);
    }
    if event.eventType == MemberType {
      return CheckMembershipChange(event.roomVersion, event, authDict);
    }
    if MembershipOf(authDict, event.sender) != Some(Join) {
      return Err(SenderNotJoined);
    }
    if event.eventType == ThirdPartyInviteType {
      var userLevel, inviteLevel := UserLevel(event.sender, authDict), NamedLevel(authDict, InviteLevel, 0);
      if userLevel.Err? || inviteLevel.Err? {
        return Err(BadLevel);
      }
      return if userLevel.value < inviteLevel.value then Err(NoInvitePower) else Ok(false);
    }
    var canSend := CheckCanSend(event, authDict);
    if canSend.Err? {
      return canSend;
    }
    if event.eventType == PowerLevelsType {
      verdict := CheckPowerLevels(event.roomVersion, event, authDict);
      return;
    }
    if event.eventType == RedactionType {
      return CheckRedaction(event.roomVersion, event, authDict);
    }
    return Ok(false);
  }
}
