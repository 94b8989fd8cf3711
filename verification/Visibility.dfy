/** Which clients may see an event: the check for one user, and the check for many users at once. */
module Visibility {
  import opened Results
  import opened RoomEvents

  /** The parts of an event's content that decide who sees it. */
  datatype Contents = Contents(membership: Option<Membership>, visibility: Option<HistoryVisibility>)

  /** An event as the visibility checks see it, with the content of the state event it replaced. */
  datatype ClientEvent = ClientEvent(
    id: EventId,
    eventType: EventType,
    stateKey: Option<string>,
    originServerTs: int,
    softFailed: bool,
    outlier: bool,
    content: Contents,
    prevContent: Contents)
  {
    predicate IsState() {
      stateKey.Some?
    }

    predicate IsMembershipOf(user: UserId) {
      eventType == MemberType && stateKey == Some(user)
    }
  }

  type State = map<Slot, ClientEvent>

  function EventIn(state: State, key: Slot): Option<ClientEvent> {
    if key in state then Some(state[key]) else None
  }

  const HISTORY_VISIBILITY_KEY: Slot := Slot(HistoryVisibilityType, "")

  // ---------------------------------------------------------------- the decisions

  /** Position in the order from the laxest to the strictest. */
  function VisibilityPriority(visibility: HistoryVisibility): nat
    requires !visibility.OtherVisibility?
  {
    match visibility
    case WorldReadable => 0
    case Shared => 1
    case Invited => 2
    case Joined => 3
  }

  /** Position in the order from the most to the least joined. */
  function MembershipPriority(membership: Membership): nat
    requires !membership.OtherMembership?
  {
    match membership
    case Join => 0
    case Invite => 1
    case Knock => 2
    case Leave => 3
    case Ban => 4
  }

  /** A missing or unknown visibility counts as shared. */
  function KnownVisibility(visibility: Option<HistoryVisibility>): (known: HistoryVisibility)
    ensures !known.OtherVisibility?
  {
    if visibility == None || visibility.value.OtherVisibility? then Shared else visibility.value
  }

  /** A missing or unknown membership counts as leave. */
  function KnownMembership(membership: Option<Membership>): (known: Membership)
    ensures !known.OtherMembership?
  {
    if membership == None || membership.value.OtherMembership? then Leave else membership.value
  }

  function EffectiveVisibility(state: State): (visibility: HistoryVisibility)
    ensures !visibility.OtherVisibility?
  {
    match EventIn(state, HISTORY_VISIBILITY_KEY)
    case Some(event) => KnownVisibility(event.content.visibility)
    case None => Shared
  }

  /** Everybody may see events under such a visibility. */
  predicate Lax(visibility: HistoryVisibility, peeking: bool) {
    visibility == WorldReadable || (visibility == Shared && !peeking)
  }

  /** A change of the history visibility is itself under the laxer of the old and the new one. */
  predicate CheckHistoryVisibility(event: ClientEvent, visibility: HistoryVisibility, peeking: bool)
    requires !visibility.OtherVisibility?
  {
    var before := KnownVisibility(event.prevContent.visibility);
    var laxer :=
      if event.eventType == HistoryVisibilityType && VisibilityPriority(before) < VisibilityPriority(visibility) then before
      else visibility;
    Lax(laxer, peeking)
  }

  datatype MembershipCheck = MembershipCheck(allowed: bool, joined: bool)

  /** The user's own leave after a join or an invite, which the user always sees. */
  predicate OwnDeparture(user: UserId, event: ClientEvent) {
    && event.IsMembershipOf(user)
    && KnownMembership(event.content.membership) == Leave
    && KnownMembership(event.prevContent.membership) in {Join, Invite}
  }

  /** The membership by which a user is judged: for the user's own membership event, the more joined of the old and the new. */
  function MembershipAt(user: UserId, event: ClientEvent, state: State): Option<Membership> {
    if event.IsMembershipOf(user) then
      var membership, before := KnownMembership(event.content.membership), KnownMembership(event.prevContent.membership);
      Some(if MembershipPriority(before) < MembershipPriority(membership) then before else membership)
    else match EventIn(state, Slot(MemberType, user))
      case Some(membership) => membership.content.membership
      case None => None
  }

  function CheckMembership(user: UserId, event: ClientEvent, visibility: HistoryVisibility, state: State, peeking: bool): MembershipCheck {
    var membership := MembershipAt(user, event, state);
    if OwnDeparture(user, event) then MembershipCheck(true, false)
    else if membership == Some(Join) then MembershipCheck(true, true)
    else if visibility == Joined then MembershipCheck(false, false)
    else if visibility == Invited then MembershipCheck(membership == Some(Invite), false)
    else if visibility == Shared && peeking then MembershipCheck(false, false)
    else MembershipCheck(true, false)
  }

  /** An event that must not be sent to a client, whoever the client is. */
  predicate DeniedToClient(event: ClientEvent, now: int, maxLifetime: Option<int>, senderIgnored: bool) {
    || event.eventType == DummyType
    || (!event.IsState() && senderIgnored)
    || event.eventType == AliasesType
    || (!event.IsState() && maxLifetime.Some? && event.originServerTs < now - maxLifetime.value)
  }

  /** What a check is made for, apart from the user and the state. */
  datatype Request = Request(forClient: bool, peeking: bool, now: int, maxLifetime: Option<int>)

  datatype View = Hidden | Full | Pruned

  datatype VisibilityError = MissingState

  /** The check for one user. */
  function CheckClientAllowed(
    user: UserId, event: ClientEvent, request: Request, alwaysInclude: set<EventId>,
    senderIgnored: bool, senderErased: bool, state: Option<State>): Result<View, VisibilityError>
  {
    if request.forClient && DeniedToClient(event, request.now, request.maxLifetime, senderIgnored) then Ok(Hidden)
    else if event.id in alwaysInclude then Ok(Full)
    else if event.outlier then Ok(if event.IsMembershipOf(user) then Full else Hidden)
    else if state == None then Err(MissingState)
    else
      var visibility := EffectiveVisibility(state.value);
      if !senderErased && CheckHistoryVisibility(event, visibility, request.peeking) then Ok(Full)
      else
        var check := CheckMembership(user, event, visibility, state.value, request.peeking);
        if !check.allowed then Ok(Hidden) else if senderErased && !check.joined then Ok(Pruned) else Ok(Full)
  }

  // ---------------------------------------------------------------- many users at once

  /** The state before an event, as event ids, and the events the store knows. */
  datatype Context = Context(prevStateIds: map<Slot, EventId>, stored: map<EventId, ClientEvent>)

  /** What the state right after the event holds under a key. */
  function EntryAfter(context: Context, event: ClientEvent, key: Slot): Option<ClientEvent> {
    if event.IsState() && key == Slot(event.eventType, event.stateKey.value) then Some(event)
    else if key in context.prevStateIds && context.prevStateIds[key] in context.stored then
      Some(context.stored[context.prevStateIds[key]])
    else None
  }

  /** The state right after the event. */
  function StateAfter(context: Context, event: ClientEvent): (state: State)
    ensures forall key :: EventIn(state, key) == EntryAfter(context, event, key)
  {
    var before :=
      map key | key in context.prevStateIds && context.prevStateIds[key] in context.stored ::
        context.stored[context.prevStateIds[key]];
    if event.IsState() then before[Slot(event.eventType, event.stateKey.value) := event] else before
  }

  /** The event stands in its own slot, and every other slot holds the stored event that was there before. */
  lemma StateAfterExactly(context: Context, event: ClientEvent, key: Slot, other: ClientEvent)
    ensures key in StateAfter(context, event) && StateAfter(context, event)[key] == other
       <==> if event.stateKey == Some(key.key) && event.eventType == key.eventType then other == event
            else exists id :: key in context.prevStateIds && context.prevStateIds[key] == id && id in context.stored && context.stored[id] == other
  {
    assert EventIn(StateAfter(context, event), key) == EntryAfter(context, event, key);
  }

  /** Fetches some keys of the state before the event, and puts the event itself on top. */
  method GetStateMap(context: Context, event: ClientEvent, keys: set<Slot>) returns (state: State)
    ensures forall key | key in keys :: EventIn(state, key) == EntryAfter(context, event, key)
  {
    state := map[];
    var left := context.prevStateIds.Keys * keys;
    while left != {}
      invariant left <= context.prevStateIds.Keys * keys
      invariant forall key | key in keys && key !in left ::
                  EventIn(state, key) == if key in context.prevStateIds && context.prevStateIds[key] in context.stored
                                        then Some(context.stored[context.prevStateIds[key]]) else None
      invariant forall key | key in left :: key !in state
      decreases left
    {
      var key :| key in left;
      var id := context.prevStateIds[key];
      if id in context.stored {
        state := state[key := context.stored[id]];
      }
      left := left - {key};
    }
    if event.IsState() {
      state := state[Slot(event.eventType, event.stateKey.value) := event];
    }
  }

  /** The user may see the event, judged by the whole state. */
  ghost predicate Sees(user: UserId, event: ClientEvent, request: Request, ignoredBy: set<UserId>, context: Context) {
    CheckClientAllowed(user, event, request, {}, user in ignoredBy, false, Some(StateAfter(context, event))) == Ok(Full)
  }

  /** Which of the users may see the event: exactly those that the check for one user lets see it. */
  method FilterEventForClientsWithState(
    userIds: seq<UserId>, event: ClientEvent, request: Request, ignoredBy: set<UserId>, context: Context)
    returns (visible: set<UserId>)
    ensures forall user :: user in visible <==> !event.softFailed && user in userIds && Sees(user, event, request, ignoredBy, context)
    ensures forall user | user in visible :: !Withheld(event, request, user in ignoredBy)
  {
    forall user
      ensures Sees(user, event, request, ignoredBy, context) ==> !Withheld(event, request, user in ignoredBy)
    {
      SeesExactly(user, event, request, ignoredBy, context);
    }
    if event.softFailed || userIds == [] {
      return {};
    }
    var allowed := NotDenied(userIds, event, request, ignoredBy);
    if event.outlier {
      if event.eventType == MemberType && event.stateKey.Some? && event.stateKey.value in allowed {
        return {event.stateKey.value};
      }
      return {};
    }
    visible := FilterByState(allowed, event, request.peeking, context);
  }

  /** The users who may see an event by its history visibility or by their membership. */
  method FilterByState(allowed: set<UserId>, event: ClientEvent, peeking: bool, context: Context) returns (visible: set<UserId>)
    ensures forall user :: user in visible <==> user in allowed && SeesByState(user, event, peeking, StateAfter(context, event))
  {
    var visibilityState := GetStateMap(context, event, {HISTORY_VISIBILITY_KEY});
    var visibility := EffectiveVisibility(visibilityState);
    if CheckHistoryVisibility(event, visibility, peeking) {
      return allowed;
    }
    visible := FilterByMembership(allowed, event, visibility, peeking, context);
  }

  /** Fetches the memberships of the users, and keeps those whose membership lets them see the event. */
  method FilterByMembership(allowed: set<UserId>, event: ClientEvent, visibility: HistoryVisibility, peeking: bool, context: Context)
    returns (visible: set<UserId>)
    ensures forall user :: user in visible <==>
              user in allowed && CheckMembership(user, event, visibility, StateAfter(context, event), peeking).allowed
  {
    var state := GetMemberships(allowed, event, context);
    forall user | user in allowed
      ensures CheckMembership(user, event, visibility, state, peeking)
           == CheckMembership(user, event, visibility, StateAfter(context, event), peeking)
    {
      MembershipIsRead(user, event, visibility, state, StateAfter(context, event), peeking);
    }
    visible := set user | user in allowed && CheckMembership(user, event, visibility, state, peeking).allowed;
  }

  method GetMemberships(allowed: set<UserId>, event: ClientEvent, context: Context) returns (state: State)
    ensures forall user | user in allowed :: EventIn(state, Slot(MemberType, user)) == EntryAfter(context, event, Slot(MemberType, user))
  {
    var keys := (set user | user in allowed :: Slot(MemberType, user)) + {HISTORY_VISIBILITY_KEY};
    state := GetStateMap(context, event, keys);
    assert forall user | user in allowed :: Slot(MemberType, user) in keys;
  }

  /** Of the state, the membership check reads the user's own entry only. */
  lemma MembershipIsRead(user: UserId, event: ClientEvent, visibility: HistoryVisibility, one: State, other: State, peeking: bool)
    requires EventIn(one, Slot(MemberType, user)) == EventIn(other, Slot(MemberType, user))
    ensures CheckMembership(user, event, visibility, one, peeking) == CheckMembership(user, event, visibility, other, peeking)
  {
  }

  ghost predicate SeesByState(user: UserId, event: ClientEvent, peeking: bool, state: State) {
    SeesUnder(user, event, EffectiveVisibility(state), state, peeking)
  }

  method NotDenied(userIds: seq<UserId>, event: ClientEvent, request: Request, ignoredBy: set<UserId>) returns (allowed: set<UserId>)
    ensures forall user :: user in allowed <==>
              user in userIds && !(request.forClient && DeniedToClient(event, request.now, request.maxLifetime, user in ignoredBy))
    ensures forall user :: user in allowed <==> user in userIds && !Withheld(event, request, user in ignoredBy)
  {
    forall ignored
      ensures Withheld(event, request, ignored)
         <==> request.forClient && DeniedToClient(event, request.now, request.maxLifetime, ignored)
    {
      WithheldIsDenied(event, request, ignored);
    }
    allowed := set user | user in userIds;
    if request.forClient {
      for i := 0 to |userIds|
        invariant forall user :: user in allowed <==>
                    user in userIds && !(user in userIds[..i] && DeniedToClient(event, request.now, request.maxLifetime, user in ignoredBy))
      {
        if DeniedToClient(event, request.now, request.maxLifetime, userIds[i] in ignoredBy) {
          allowed := allowed - {userIds[i]};
        }
      }
    }
  }

  // ---------------------------------------------------------------- what the decisions amount to

  /** A message, or an event of a kind, that clients are not sent. */
  ghost predicate Withheld(event: ClientEvent, request: Request, senderIgnored: bool) {
    request.forClient &&
    (|| event.eventType in {DummyType, AliasesType}
     || (event.stateKey == None && senderIgnored)
     || (event.stateKey == None && exists life :: request.maxLifetime == Some(life) && request.now - event.originServerTs > life))
  }

  lemma WithheldIsDenied(event: ClientEvent, request: Request, senderIgnored: bool)
    ensures Withheld(event, request, senderIgnored)
       <==> request.forClient && DeniedToClient(event, request.now, request.maxLifetime, senderIgnored)
  {
    if request.maxLifetime.Some? {
      assert request.maxLifetime == Some(request.maxLifetime.value);
    }
  }

  /** What is withheld is hidden from everybody; on all else the sending rules have no influence. */
  lemma WithheldExactly(
    user: UserId, event: ClientEvent, request: Request, alwaysInclude: set<EventId>,
    senderIgnored: bool, senderErased: bool, state: Option<State>)
    ensures CheckClientAllowed(user, event, request, alwaysInclude, senderIgnored, senderErased, state)
         == if Withheld(event, request, senderIgnored) then Ok(Hidden)
            else CheckClientAllowed(user, event, Request(false, request.peeking, 0, None), alwaysInclude, false, senderErased, state)
  {
    if request.maxLifetime.Some? {
      assert request.maxLifetime == Some(request.maxLifetime.value);
    }
  }

  /** The visibility that a content gives, where unknown ones and none at all count as shared. */
  ghost predicate GivesVisibility(content: Contents, visibility: HistoryVisibility) {
    || (content.visibility == Some(visibility) && visibility in {WorldReadable, Shared, Invited, Joined})
    || (visibility == Shared && content.visibility !in {Some(WorldReadable), Some(Shared), Some(Invited), Some(Joined)})
  }

  ghost predicate RoomVisibility(state: State, visibility: HistoryVisibility) {
    if HISTORY_VISIBILITY_KEY in state then GivesVisibility(state[HISTORY_VISIBILITY_KEY].content, visibility) else visibility == Shared
  }

  /** Everybody sees: the visibility is world readable, or shared and the user is not peeking. */
  predicate OpenToAll(visibility: HistoryVisibility, peeking: bool) {
    visibility == WorldReadable || (visibility == Shared && !peeking)
  }

  /** Open to all by the visibility in force, or for a change of it by the one before. */
  ghost predicate PublicKnowledge(event: ClientEvent, state: State, peeking: bool) {
    || (exists visibility :: RoomVisibility(state, visibility) && OpenToAll(visibility, peeking))
    || (event.eventType == HistoryVisibilityType
        && exists visibility :: GivesVisibility(event.prevContent, visibility) && OpenToAll(visibility, peeking))
  }

  predicate IsOwn(user: UserId, event: ClientEvent) {
    event.eventType == MemberType && event.stateKey == Some(user)
  }

  /** The user was in the room; for the user's own membership, before or after it. */
  ghost predicate WasJoined(user: UserId, event: ClientEvent, state: State) {
    if IsOwn(user, event) then
      && Some(Join) in {event.content.membership, event.prevContent.membership}
      && !LeavesAs(event, Join)
    else Slot(MemberType, user) in state && state[Slot(MemberType, user)].content.membership == Some(Join)
  }

  /** The event takes its user out of the room, or out of an invite: an unknown membership counts as leave. */
  ghost predicate LeavesAs(event: ClientEvent, before: Membership) {
    && event.content.membership !in {Some(Join), Some(Invite), Some(Knock), Some(Ban)}
    && event.prevContent.membership == Some(before)
  }

  ghost predicate WasInvited(user: UserId, event: ClientEvent, state: State) {
    if IsOwn(user, event) then
      Some(Invite) in {event.content.membership, event.prevContent.membership} && Some(Join) !in {event.content.membership, event.prevContent.membership}
    else Slot(MemberType, user) in state && state[Slot(MemberType, user)].content.membership == Some(Invite)
  }

  ghost predicate SeesOwnDeparture(user: UserId, event: ClientEvent) {
    IsOwn(user, event) && (LeavesAs(event, Join) || LeavesAs(event, Invite))
  }

  /** The user may see the event on account of their membership. */
  ghost predicate InTheKnow(user: UserId, event: ClientEvent, state: State) {
    || WasJoined(user, event, state)
    || SeesOwnDeparture(user, event)
    || (RoomVisibility(state, Invited) && WasInvited(user, event, state))
  }

  lemma VisibilityExactly(content: Contents, visibility: HistoryVisibility)
    ensures KnownVisibility(content.visibility) == visibility <==> GivesVisibility(content, visibility)
  {
  }

  lemma RoomVisibilityExactly(state: State, visibility: HistoryVisibility)
    ensures EffectiveVisibility(state) == visibility <==> RoomVisibility(state, visibility)
  {
  }

  lemma HistoryExactly(event: ClientEvent, state: State, peeking: bool)
    ensures CheckHistoryVisibility(event, EffectiveVisibility(state), peeking) <==> PublicKnowledge(event, state, peeking)
  {
    var visibility, before := EffectiveVisibility(state), KnownVisibility(event.prevContent.visibility);
    RoomVisibilityExactly(state, visibility);
    VisibilityExactly(event.prevContent, before);
    assert RoomVisibility(state, visibility) && GivesVisibility(event.prevContent, before);
    forall other
      ensures RoomVisibility(state, other) <==> other == visibility
      ensures GivesVisibility(event.prevContent, other) <==> other == before
    {
      RoomVisibilityExactly(state, other);
      VisibilityExactly(event.prevContent, other);
    }
  }

  lemma MembershipCheckExactly(user: UserId, event: ClientEvent, state: State, peeking: bool)
    ensures CheckMembership(user, event, EffectiveVisibility(state), state, peeking).joined <==> WasJoined(user, event, state)
    ensures CheckMembership(user, event, EffectiveVisibility(state), state, peeking).allowed
       <==> InTheKnow(user, event, state) || exists visibility :: RoomVisibility(state, visibility) && OpenToAll(visibility, peeking)
  {
    var visibility := EffectiveVisibility(state);
    RoomVisibilityExactly(state, visibility);
    RoomVisibilityExactly(state, Invited);
    forall other
      ensures RoomVisibility(state, other) <==> other == visibility
    {
      RoomVisibilityExactly(state, other);
    }
    assert RoomVisibility(state, visibility);
  }

  /** Who sees an event that is not withheld, and in which form. */
  ghost function Shown(
    user: UserId, event: ClientEvent, peeking: bool, alwaysInclude: set<EventId>, senderErased: bool, state: State): View
  {
    if event.id in alwaysInclude then Full
    else if event.outlier then (if IsOwn(user, event) then Full else Hidden)
    else if !senderErased then
      if PublicKnowledge(event, state, peeking) || InTheKnow(user, event, state) then Full else Hidden
    else if WasJoined(user, event, state) then Full
    else if InTheKnow(user, event, state) || exists visibility :: RoomVisibility(state, visibility) && OpenToAll(visibility, peeking) then Pruned
    else Hidden
  }

  /** The check for one user, with the state at hand, shows exactly that. */
  lemma ShownExactly(
    user: UserId, event: ClientEvent, request: Request, alwaysInclude: set<EventId>,
    senderIgnored: bool, senderErased: bool, state: State)
    ensures CheckClientAllowed(user, event, request, alwaysInclude, senderIgnored, senderErased, Some(state))
         == Ok(if Withheld(event, request, senderIgnored) then Hidden
               else Shown(user, event, request.peeking, alwaysInclude, senderErased, state))
  {
    WithheldExactly(user, event, request, alwaysInclude, senderIgnored, senderErased, Some(state));
    HistoryExactly(event, state, request.peeking);
    MembershipCheckExactly(user, event, state, request.peeking);
  }

  /** Without the state the check fails, unless it does not come to need it. */
  lemma MissingStateExactly(
    user: UserId, event: ClientEvent, request: Request, alwaysInclude: set<EventId>, senderIgnored: bool, senderErased: bool)
    ensures CheckClientAllowed(user, event, request, alwaysInclude, senderIgnored, senderErased, None)
         == if Withheld(event, request, senderIgnored) then Ok(Hidden)
            else if event.id in alwaysInclude || (event.outlier && IsOwn(user, event)) then Ok(Full)
            else if event.outlier then Ok(Hidden)
            else Err(MissingState)
  {
    WithheldExactly(user, event, request, alwaysInclude, senderIgnored, senderErased, None);
  }

  /** So the check for many users names exactly those who see the event in this sense. */
  lemma SeesExactly(user: UserId, event: ClientEvent, request: Request, ignoredBy: set<UserId>, context: Context)
    ensures Sees(user, event, request, ignoredBy, context)
       <==> && !Withheld(event, request, user in ignoredBy)
            && (if event.outlier then IsOwn(user, event)
                else PublicKnowledge(event, StateAfter(context, event), request.peeking) || InTheKnow(user, event, StateAfter(context, event)))
  {
    ShownExactly(user, event, request, {}, user in ignoredBy, false, StateAfter(context, event));
  }

  // ---------------------------------------------------------------- erased senders

  /** The change of the history visibility is open to all by the visibility before it, not by the new one. */
  predicate OpenBefore(event: ClientEvent, visibility: HistoryVisibility, peeking: bool) {
    event.eventType == HistoryVisibilityType && Lax(KnownVisibility(event.prevContent.visibility), peeking) && !Lax(visibility, peeking)
  }

  predicate MemberEnough(membership: Option<Membership>, visibility: HistoryVisibility) {
    membership == Some(Join) || (visibility == Invited && membership == Some(Invite))
  }

  /**
   * Erasing the sender takes an event away from a user altogether only if it is a history visibility event which the
   * user sees by the visibility before it alone; and it never makes one appear. So the check for many users, which
   * does not look at erasure, names exactly those users in excess.
   */
  lemma ErasureHidesExactly(user: UserId, event: ClientEvent, request: Request, senderIgnored: bool, state: State)
    ensures && CheckClientAllowed(user, event, request, {}, senderIgnored, false, Some(state)) == Ok(Full)
            && CheckClientAllowed(user, event, request, {}, senderIgnored, true, Some(state)) == Ok(Hidden)
       <==>
            && !(request.forClient && DeniedToClient(event, request.now, request.maxLifetime, senderIgnored))
            && !event.outlier
            && OpenBefore(event, EffectiveVisibility(state), request.peeking)
            && !MemberEnough(MembershipAt(user, event, state), EffectiveVisibility(state))
    ensures CheckClientAllowed(user, event, request, {}, senderIgnored, false, Some(state)) == Ok(Hidden)
        ==> CheckClientAllowed(user, event, request, {}, senderIgnored, true, Some(state)) == Ok(Hidden)
  {
  }

  /** The history visibility of a room goes from shared to joined: a user outside sees the change, but not an erased sender's. */
  lemma ErasureHidesWitness(user: UserId) returns (event: ClientEvent, request: Request, state: State)
    ensures CheckClientAllowed(user, event, request, {}, false, false, Some(state)) == Ok(Full)
    ensures CheckClientAllowed(user, event, request, {}, false, true, Some(state)) == Ok(Hidden)
  {
    event := ClientEvent("$change", HistoryVisibilityType, Some(""), 0, false, false,
                         Contents(None, Some(Joined)), Contents(None, Some(Shared)));
    request := Request(true, false, 0, None);
    state := map[HISTORY_VISIBILITY_KEY := event];
  }

  /** Whoever still sees an erased sender's event sees it in full only if joined at the time, or if it came from outside the room's state. */
  lemma ErasedContentExactly(
    user: UserId, event: ClientEvent, request: Request, alwaysInclude: set<EventId>, senderIgnored: bool, state: Option<State>)
    requires CheckClientAllowed(user, event, request, alwaysInclude, senderIgnored, true, state) in {Ok(Full), Ok(Pruned)}
    ensures CheckClientAllowed(user, event, request, alwaysInclude, senderIgnored, true, state) == Ok(Full)
       <==> || event.id in alwaysInclude
            || event.outlier
            || (MembershipAt(user, event, state.value) == Some(Join) && !OwnDeparture(user, event))
  {
  }

  // ---------------------------------------------------------------- laxer visibilities

  predicate SeesUnder(user: UserId, event: ClientEvent, visibility: HistoryVisibility, state: State, peeking: bool)
    requires !visibility.OtherVisibility?
  {
    CheckHistoryVisibility(event, visibility, peeking) || CheckMembership(user, event, visibility, state, peeking).allowed
  }

  /**
   * A laxer visibility shows at least as much, with one exception: a peeking user who was invited at the time sees the
   * event under `Invited` and not under `Shared`.
   */
  lemma LaxerHidesExactly(
    user: UserId, event: ClientEvent, laxer: HistoryVisibility, stricter: HistoryVisibility, state: State, peeking: bool)
    requires !laxer.OtherVisibility? && !stricter.OtherVisibility?
    requires VisibilityPriority(laxer) <= VisibilityPriority(stricter)
    ensures SeesUnder(user, event, stricter, state, peeking) && !SeesUnder(user, event, laxer, state, peeking)
       <==> && peeking && laxer == Shared && stricter == Invited
            && MembershipAt(user, event, state) == Some(Invite) && !OwnDeparture(user, event)
            && !(event.eventType == HistoryVisibilityType && KnownVisibility(event.prevContent.visibility) == WorldReadable)
  {
  }

  /** A message in a room to which the peeking user was invited. */
  lemma LaxerHidesWitness(user: UserId) returns (event: ClientEvent, state: State)
    ensures SeesUnder(user, event, Invited, state, true) && !SeesUnder(user, event, Shared, state, true)
  {
    var nothing := Contents(None, None);
    event := ClientEvent("$message", OtherType("m.room.message"), None, 0, false, false, nothing, nothing);
    state := map[Slot(MemberType, user) :=
                 ClientEvent("$invite", MemberType, Some(user), 0, false, false, Contents(Some(Invite), None), nothing)];
  }
}
