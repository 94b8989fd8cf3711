/** The selection of auth events, and the rules that do not depend on the room state. */
module AuthSelection {
  import opened Results
  import opened RoomEvents
  import opened EventAuth

  /** The selection reads fields that a malformed member event lacks. */
  predicate SelectionDefined(event: Event) {
    event.eventType == MemberType ==>
      && event.content.membership.Some?
      && event.stateKey.Some?
      && (event.content.membership == Some(Invite) ==> event.content.thirdPartyInvite != Some(NoToken))
  }

  /** A slot of the room state that may be needed to authorize an event. */
  predicate IsAuthSlot(event: Event, slot: Slot) {
    event.eventType != CreateType &&
    (|| slot == Slot(PowerLevelsType, "")
     || slot == Slot(MemberType, event.sender)
     || slot == Slot(CreateType, "")
     || (&& event.eventType == MemberType
         && var membership := event.content.membership;
            || (slot == Slot(JoinRulesType, "") && membership in {Some(Join), Some(Invite), Some(Knock)})
            || (event.stateKey.Some? && slot == Slot(MemberType, event.stateKey.value))
            || (&& membership == Some(Invite)
                && event.content.thirdPartyInvite.Some?
                && event.content.thirdPartyInvite.value.Signed?
                && slot == Slot(ThirdPartyInviteType, event.content.thirdPartyInvite.value.token))
            || (&& event.roomVersion.restrictedJoinRule
                && membership == Some(Join)
                && event.content.authorisingUser.Some?
                && slot == Slot(MemberType, event.content.authorisingUser.value))))
  }

  /** Grows the set of slots that may be needed to authorize an event. */
  method AuthTypesForEvent(event: Event) returns (slots: Result<set<Slot>, AuthError>)
    ensures slots.Ok? <==> SelectionDefined(event)
    ensures slots.Ok? ==> forall slot :: slot in slots.value <==> IsAuthSlot(event, slot)
  {
    if event.eventType == CreateType {
      return Ok({});
    }
    var types := {Slot(PowerLevelsType, ""), Slot(MemberType, event.sender), Slot(CreateType, "")};
    if event.eventType == MemberType {
      if event.content.membership.None? || event.stateKey.None? {
        return Err(MissingField);
      }
      var membership := event.content.membership.value;
      if membership in {Join, Invite, Knock} {
        types := types + {Slot(JoinRulesType, "")};
      }
      types := types + {Slot(MemberType, event.stateKey.value)};
      if membership == Invite && event.content.thirdPartyInvite.Some? {
        if event.content.thirdPartyInvite.value.NoToken? {
          return Err(MissingField);
        }
        types := types + {Slot(ThirdPartyInviteType, event.content.thirdPartyInvite.value.token)};
      }
      if event.roomVersion.restrictedJoinRule && membership == Join && event.content.authorisingUser.Some? {
        types := types + {Slot(MemberType, event.content.authorisingUser.value)};
      }
    }
    return Ok(types);
  }

  // ---------------------------------------------------------------- sufficiency

  /** The part of a room state that the selection keeps. */
  function Selected(event: Event, state: StateMap): StateMap {
    map slot | slot in state && IsAuthSlot(event, slot) :: state[slot]
  }

  lemma SelectedLookup(event: Event, state: StateMap, eventType: EventType, key: string)
    ensures Lookup(Selected(event, state), eventType, key)
         == if IsAuthSlot(event, Slot(eventType, key)) then Lookup(state, eventType, key) else None
  {
  }

  /** The level lookups read the power-levels and the create event, and nothing else. */
  lemma LevelsReadTwoSlots(one: StateMap, other: StateMap, user: UserId)
    requires Lookup(one, PowerLevelsType, "") == Lookup(other, PowerLevelsType, "")
    requires Lookup(one, CreateType, "") == Lookup(other, CreateType, "")
    ensures UserLevel(user, one) == UserLevel(user, other)
    ensures forall name, default :: NamedLevel(one, name, default) == NamedLevel(other, name, default)
    ensures CanFederate(one) == CanFederate(other)
  {
  }

  lemma FactsOfSelection(event: Event, state: StateMap)
    requires event.eventType == MemberType && SelectionDefined(event)
    ensures
      var full := GatherFacts(event, event.stateKey.value, state);
      var part := GatherFacts(event, event.stateKey.value, Selected(event, state));
      && (full.Err? ==> part == full)
      && (full.Ok? ==> part.Ok? && part.value == full.value.(joinRule := part.value.joinRule))
      && (event.content.membership in {Some(Join), Some(Knock)} ==> part == full)
  {
    var selected := Selected(event, state);
    LevelsReadTwoSlots(state, selected, event.sender);
    LevelsReadTwoSlots(state, selected, event.stateKey.value);
  }

  lemma DecisionOnSelection(event: Event, facts: Facts, part: Facts, state: StateMap)
    requires event.eventType == MemberType && SelectionDefined(event)
    requires event.roomVersion.knockRestrictedJoinRule ==> event.roomVersion.restrictedJoinRule
    requires part == facts.(joinRule := part.joinRule)
    requires event.content.membership in {Some(Join), Some(Knock)} ==> part == facts
    ensures
      DecideMembership(event.roomVersion, event, event.stateKey.value, event.content.membership.value,
                       part, Selected(event, state))
      == DecideMembership(event.roomVersion, event, event.stateKey.value, event.content.membership.value, facts, state)
  {
    var selected := Selected(event, state);
    LevelsReadTwoSlots(state, selected, event.sender);
    match event.content.membership.value
    case Invite =>
      assert VerifyThirdPartyInvite(event, selected) == VerifyThirdPartyInvite(event, state);
    case Join =>
      if event.content.authorisingUser.Some? {
        LevelsReadTwoSlots(state, selected, event.content.authorisingUser.value);
      }
    case _ =>
  }

  lemma MembershipSelectionSuffices(event: Event, state: StateMap)
    requires event.eventType == MemberType && SelectionDefined(event)
    requires event.roomVersion.knockRestrictedJoinRule ==> event.roomVersion.restrictedJoinRule
    ensures CheckMembershipChange(event.roomVersion, event, Selected(event, state))
         == CheckMembershipChange(event.roomVersion, event, state)
  {
    var selected := Selected(event, state);
    var target := event.stateKey.value;
    FactsOfSelection(event, state);
    SelectedLookup(event, state, CreateType, "");
    assert CanFederate(selected) == CanFederate(state);
    assert IsCreatorJoin(event.roomVersion, event, target, selected) == IsCreatorJoin(event.roomVersion, event, target, state);
    var facts := GatherFacts(event, target, state);
    if facts.Ok? {
      DecisionOnSelection(event, facts.value, GatherFacts(event, target, selected).value, state);
    }
  }

  /**
   * A state key under which power levels are compared with the event that the selection holds, or under
   * which nobody can send them: only the user themselves may use a key that begins with `@`, and no
   * server has users without a `:`.
   */
  predicate HarmlessKey(key: Option<string>) {
    key == None || key.value == "" || (key.value[0] == '@' && ':' !in key.value)
  }

  lemma {:induction false} DomainNeedsColon(id: string)
    ensures DomainOf(id).Ok? <==> ':' in id
  {
    if id != "" && id[0] != ':' {
      DomainNeedsColon(id[1..]);
      assert id == [id[0]] + id[1..];
    }
  }

  /** Auth-event selection is sufficient: the rules decide the same on the selected state as on all of it. */
  lemma SelectionSuffices(event: Event, state: StateMap)
    requires SelectionDefined(event)
    requires event.roomVersion.knockRestrictedJoinRule ==> event.roomVersion.restrictedJoinRule
    requires event.eventType == PowerLevelsType ==> HarmlessKey(event.stateKey)
    ensures CheckStateDependent(event, Selected(event, state)) == CheckStateDependent(event, state)
  {
    var selected := Selected(event, state);
    if event.eventType == MemberType {
      MembershipSelectionSuffices(event, state);
    }
    DomainNeedsColon(event.sender);
    if event.eventType != CreateType {
      LevelsReadTwoSlots(state, selected, event.sender);
    }
  }

  /**
   * The hypothesis on the room version is exact: selection is sufficient for every event and state of
   * a version if and only if the version's `knock_restricted` rule comes with its `restricted` rule.
   */
  lemma SelectionSufficesExactly(version: RoomVersion)
    ensures (forall event, state | AuthorizableIn(version, event) ::
               CheckStateDependent(event, Selected(event, state)) == CheckStateDependent(event, state))
       <==> (version.knockRestrictedJoinRule ==> version.restrictedJoinRule)
  {
    if version.knockRestrictedJoinRule ==> version.restrictedJoinRule {
      forall event, state | AuthorizableIn(version, event)
        ensures CheckStateDependent(event, Selected(event, state)) == CheckStateDependent(event, state)
      {
        SelectionSuffices(event, state);
      }
    } else {
      var event, state := AuthorisedJoinWitness(version);
      assert AuthorizableIn(version, event);
    }
  }

  ghost predicate AuthorizableIn(version: RoomVersion, event: Event) {
    && event.roomVersion == version
    && SelectionDefined(event)
    && (event.eventType == PowerLevelsType ==> HarmlessKey(event.stateKey))
  }

  /** A member vouching for a newcomer, whom the selection of such a version leaves out. */
  lemma AuthorisedJoinWitness(version: RoomVersion) returns (event: Event, state: StateMap)
    requires version.knockRestrictedJoinRule && !version.restrictedJoinRule
    ensures AuthorizableIn(version, event)
    ensures CheckStateDependent(event, state) == Ok(false)
    ensures CheckStateDependent(event, Selected(event, state)) == Err(SenderNotJoined)
  {
    var a, b := Id("@a", "h"), Id("@b", "h");
    assert a[1] != b[1];
    var create := CreateEvent(version, a, "h");
    var rules := create.(id := "$rules", eventType := JoinRulesType, content := EMPTY_CONTENT.(joinRule := Some(KnockRestricted)));
    var member := JoinEvent(create, a);
    state := map[Slot(CreateType, "") := create, Slot(JoinRulesType, "") := rules, Slot(MemberType, a) := member];
    event := member.(id := "$event", sender := b, stateKey := Some(b),
                     content := EMPTY_CONTENT.(membership := Some(Join), authorisingUser := Some(a)));
    DomainOfId("@a", "h");
    DomainOfId("@b", "h");
    DomainOfId("!r", "h");
    JoinNeedsAuthoriser(event, state, create, rules);
    SelectionForgetsAuthoriser(event, state, create, rules);
  }

  /** Where the selection leaves out the authorising user, the join is refused. */
  lemma SelectionForgetsAuthoriser(event: Event, state: StateMap, create: Event, rules: Event)
    requires event.roomVersion.knockRestrictedJoinRule && !event.roomVersion.restrictedJoinRule && event.eventType == MemberType
    requires event.content.membership == Some(Join) && event.stateKey == Some(event.sender) && event.prevEvents == []
    requires event.content.authorisingUser.Some? && event.content.authorisingUser.value != event.sender
    requires DomainOf(event.roomId) == DomainOf(event.sender) && DomainOf(event.sender).Ok?
    requires Lookup(state, CreateType, "") == Some(create) && CreatorOf(create.roomVersion, create).Ok?
    requires Lookup(state, JoinRulesType, "") == Some(rules) && rules.content.joinRule == Some(KnockRestricted)
    requires Lookup(state, PowerLevelsType, "") == None && Lookup(state, MemberType, event.sender) == None
    ensures CheckStateDependent(event, Selected(event, state)) == Err(SenderNotJoined)
  {
    SelectedLookup(event, state, MemberType, event.content.authorisingUser.value);
    SelectedLookup(event, state, MemberType, event.sender);
    SelectedLookup(event, state, JoinRulesType, "");
    SelectedLookup(event, state, CreateType, "");
    SelectedLookup(event, state, PowerLevelsType, "");
    JoinNeedsAuthoriser(event, Selected(event, state), create, rules);
  }

  function Id(local: string, domain: string): string {
    local + ":" + domain
  }

  function CreateEvent(version: RoomVersion, creator: UserId, domain: string): Event {
    Event("$create", CreateType, Some(""), creator, Id("!r", domain), version, [], [], None, false,
          EMPTY_CONTENT.(creator := Some(creator)))
  }

  function JoinEvent(create: Event, user: UserId): Event {
    create.(id := "$join", eventType := MemberType, stateKey := Some(user), sender := user,
            content := EMPTY_CONTENT.(membership := Some(Join)))
  }

  lemma DomainOfId(local: string, domain: string)
    requires |local| == 2 && ':' !in local
    ensures DomainOf(Id(local, domain)) == Ok(domain)
  {
    var id := Id(local, domain);
    assert id[0] == local[0] != ':' && id[1..][0] == local[1] != ':' && id[1..][1..][0] == ':';
    assert id[1..][1..][1..] == domain;
    assert DomainOf(id[1..][1..]) == Ok(domain);
    assert DomainOf(id[1..]) == Ok(domain);
  }

  /** In a `knock_restricted` room without power levels, a newcomer's join stands and falls with the authorising user. */
  lemma JoinNeedsAuthoriser(event: Event, state: StateMap, create: Event, rules: Event)
    requires event.roomVersion.knockRestrictedJoinRule && event.eventType == MemberType
    requires event.content.membership == Some(Join) && event.stateKey == Some(event.sender) && event.prevEvents == []
    requires DomainOf(event.roomId) == DomainOf(event.sender) && DomainOf(event.sender).Ok?
    requires Lookup(state, CreateType, "") == Some(create) && CreatorOf(create.roomVersion, create).Ok?
    requires Lookup(state, JoinRulesType, "") == Some(rules) && rules.content.joinRule == Some(KnockRestricted)
    requires Lookup(state, PowerLevelsType, "") == None && Lookup(state, MemberType, event.sender) == None
    ensures CheckStateDependent(event, state) == CheckAuthoriser(event, 0, state)
  {
    var facts := GatherFacts(event, event.sender, state);
    assert facts.Ok? && facts.value.inviteLevel == 0 && facts.value.caller == None && facts.value.target == None;
    assert CheckMembershipChange(event.roomVersion, event, state) == CheckAuthoriser(event, 0, state);
  }

  // ---------------------------------------------------------------- power levels under other keys

  predicate SetsLevelsUnder(version: RoomVersion, key: Option<string>, event: Event) {
    event.roomVersion == version && event.eventType == PowerLevelsType && event.stateKey == key
  }

  /** Selection is sufficient for all power-levels events of a version under one state key. */
  ghost predicate SufficientForKey(version: RoomVersion, key: Option<string>) {
    forall event: Event, state | SetsLevelsUnder(version, key, event) ::
      CheckStateDependent(event, Selected(event, state)) == CheckStateDependent(event, state)
  }

  /** That is so exactly for the harmless keys, in every version. */
  lemma PowerLevelsKeysExactly(version: RoomVersion, key: Option<string>)
    ensures SufficientForKey(version, key) <==> HarmlessKey(key)
  {
    if HarmlessKey(key) {
      forall event: Event, state | SetsLevelsUnder(version, key, event)
        ensures CheckStateDependent(event, Selected(event, state)) == CheckStateDependent(event, state)
      {
        PowerLevelsSelectionSuffices(event, state);
      }
    } else {
      var event, state := OtherPowerLevelsKeyWitness(version, key.value);
    }
  }

  lemma PowerLevelsSelectionSuffices(event: Event, state: StateMap)
    requires event.eventType == PowerLevelsType && HarmlessKey(event.stateKey)
    ensures CheckStateDependent(event, Selected(event, state)) == CheckStateDependent(event, state)
  {
    DomainNeedsColon(event.sender);
    LevelsReadTwoSlots(state, Selected(event, state), event.sender);
  }

  /** Who could send power levels under a key: for a key that looks like a user id, that user. */
  function SenderFor(key: string): UserId
    requires key != ""
  {
    if key[0] == '@' then key else Id("@a", "h")
  }

  /** Under any other key, an event is compared with power levels that the selection leaves out. */
  lemma OtherPowerLevelsKeyWitness(version: RoomVersion, key: string) returns (event: Event, state: StateMap)
    requires !HarmlessKey(Some(key))
    ensures SetsLevelsUnder(version, Some(key), event)
    ensures CheckStateDependent(event, state) == Err(PowerLevelsRefused)
    ensures CheckStateDependent(event, Selected(event, state)) == Ok(false)
  {
    var sender := SenderFor(key);
    DomainOfId("@a", "h");
    DomainNeedsColon(sender);
    event, state := ComparedWitness(version, key, sender, DomainOf(sender).value);
  }

  lemma ComparedWitness(version: RoomVersion, key: string, sender: UserId, domain: string) returns (event: Event, state: StateMap)
    requires key != "" && (key[0] == '@' ==> key == sender) && DomainOf(sender) == Ok(domain)
    ensures SetsLevelsUnder(version, Some(key), event)
    ensures CheckStateDependent(event, state) == Err(PowerLevelsRefused)
    ensures CheckStateDependent(event, Selected(event, state)) == Ok(false)
  {
    DomainOfId("!r", domain);
    var create := CreateEvent(version, sender, domain);
    var member := JoinEvent(create, sender);
    var power := create.(id := "$power", eventType := PowerLevelsType, stateKey := Some(key),
                         content := EMPTY_CONTENT.(levels := map[Named(BanLevel) := Integer(200)]));
    state := map[Slot(CreateType, "") := create, Slot(MemberType, sender) := member, Slot(PowerLevelsType, key) := power];
    event := power.(id := "$event", content := EMPTY_CONTENT);
    CreatorCannotLower(event, state, create, power);
    CreatorSetsLevels(event, state, create, member);
    SelectionForgetsLevels(event, state, create, member);
  }

  /** Where the selection leaves out the levels to compare with, the event is allowed. */
  lemma SelectionForgetsLevels(event: Event, state: StateMap, create: Event, member: Event)
    requires event.eventType == PowerLevelsType && event.stateKey.Some? && event.stateKey.value != ""
    requires event.stateKey.value[0] == '@' ==> event.stateKey.value == event.sender
    requires DomainOf(event.roomId) == DomainOf(event.sender) && DomainOf(event.sender).Ok?
    requires Lookup(state, CreateType, "") == Some(create) && Lookup(state, PowerLevelsType, "") == None
    requires CreatorOf(create.roomVersion, create) == Ok(event.sender)
    requires Lookup(state, MemberType, event.sender) == Some(member) && member.content.membership == Some(Join)
    requires event.content.levels == map[]
    ensures CheckStateDependent(event, Selected(event, state)) == Ok(false)
  {
    SelectedLookup(event, state, PowerLevelsType, event.stateKey.value);
    SelectedLookup(event, state, PowerLevelsType, "");
    SelectedLookup(event, state, CreateType, "");
    SelectedLookup(event, state, MemberType, event.sender);
    CreatorSetsLevels(event, Selected(event, state), create, member);
  }

  /** The creator, joined to a room without power levels under the empty key, may set any that are not refused as such. */
  lemma CreatorSetsLevels(event: Event, state: StateMap, create: Event, member: Event)
    requires event.eventType == PowerLevelsType && event.stateKey.Some? && event.stateKey.value != ""
    requires event.stateKey.value[0] == '@' ==> event.stateKey.value == event.sender
    requires DomainOf(event.roomId) == DomainOf(event.sender) && DomainOf(event.sender).Ok?
    requires Lookup(state, CreateType, "") == Some(create) && Lookup(state, PowerLevelsType, "") == None
    requires CreatorOf(create.roomVersion, create) == Ok(event.sender)
    requires Lookup(state, MemberType, event.sender) == Some(member) && member.content.membership == Some(Join)
    ensures CheckStateDependent(event, state)
         == if PowerLevelsAllowed(event.roomVersion, event, state) then Ok(false) else Err(PowerLevelsRefused)
  {
    CreatorCanSend(event, state, create);
  }

  lemma CreatorCannotLower(event: Event, state: StateMap, create: Event, power: Event)
    requires Lookup(state, CreateType, "") == Some(create) && Lookup(state, PowerLevelsType, "") == None
    requires CreatorOf(create.roomVersion, create) == Ok(event.sender)
    requires event.stateKey.Some? && Lookup(state, PowerLevelsType, event.stateKey.value) == Some(power)
    requires power.content.levels == map[Named(BanLevel) := Integer(200)] && event.content.levels == map[]
    ensures !PowerLevelsAllowed(event.roomVersion, event, state)
  {
    assert UserLevel(event.sender, state) == Ok(100);
    assert MustCompare(event.roomVersion, power.content.levels, event.content.levels, Named(BanLevel));
    assert !EntryMoveAllowed(event.sender, 100, Named(BanLevel), power.content.levels, event.content.levels);
  }

  /** The creator, joined to a room without power levels, may send any state event that is not about another user. */
  lemma CreatorCanSend(event: Event, state: StateMap, create: Event)
    requires Lookup(state, CreateType, "") == Some(create) && Lookup(state, PowerLevelsType, "") == None
    requires CreatorOf(create.roomVersion, create) == Ok(event.sender)
    requires event.stateKey.Some? && event.stateKey.value != ""
    requires event.stateKey.value[0] == '@' ==> event.stateKey.value == event.sender
    ensures CheckCanSend(event, state) == Ok(false)
  {
  }

  // ---------------------------------------------------------------- rules 1 to 3

  /** The auth events as fetched: a batched event takes precedence over a stored one. */
  function Fetched(batched: map<EventId, Event>, store: map<EventId, Event>): map<EventId, Event> {
    store + batched
  }

  /** The slot that a state event fills. */
  function SlotOf(event: Event): Slot {
    Slot(event.eventType, if event.stateKey.Some? then event.stateKey.value else "")
  }

  /** A known state event of the room that was not rejected. */
  predicate InRoom(roomId: RoomId, known: map<EventId, Event>, id: EventId) {
    id in known && known[id].roomId == roomId && known[id].stateKey.Some? && !known[id].rejected
  }

  /** An event listed among the auth events that rule 2 does not refuse on its own. */
  predicate Acceptable(event: Event, known: map<EventId, Event>, id: EventId) {
    InRoom(event.roomId, known, id) && IsAuthSlot(event, SlotOf(known[id]))
  }

  /** The auth events fill distinct slots, all of them selected, and one of them is the create event. */
  ghost predicate AuthEventsAllowed(event: Event, known: map<EventId, Event>) {
    var ids := event.authEvents;
    && SelectionDefined(event)
    && (forall i | 0 <= i < |ids| :: Acceptable(event, known, ids[i]))
    && (forall i, j | 0 <= i < j < |ids| :: SlotOf(known[ids[i]]) != SlotOf(known[ids[j]]))
    && exists i :: 0 <= i < |ids| && SlotOf(known[ids[i]]) == Slot(CreateType, "")
  }

  ghost predicate StateIndependentAllowed(event: Event, known: map<EventId, Event>) {
    if event.eventType == CreateType then CheckCreate(event).Ok? else AuthEventsAllowed(event, known)
  }

  /** Rules 1 to 3: fetches the auth events that the batch does not hold, and walks through them. */
  method CheckStateIndependent(event: Event, batched: map<EventId, Event>, store: map<EventId, Event>)
      returns (verdict: Verdict)
    ensures verdict.Ok? <==> StateIndependentAllowed(event, Fetched(batched, store))
  {
    if event.eventType == CreateType {
      return CheckCreate(event);
    }
    var needed := set id | id in event.authEvents && id !in batched;
    var known := batched + (map id | id in needed && id in store :: store[id]);
    verdict := CheckAuthEvents(event, known);
    OnlyListedEventsMatter(event, known, Fetched(batched, store));
  }

  lemma OnlyListedEventsMatter(event: Event, one: map<EventId, Event>, other: map<EventId, Event>)
    requires forall id | id in event.authEvents :: (id in one <==> id in other) && (id in one ==> one[id] == other[id])
    ensures AuthEventsAllowed(event, one) <==> AuthEventsAllowed(event, other)
  {
    assert forall i | 0 <= i < |event.authEvents| :: event.authEvents[i] in event.authEvents;
  }

  /** Checks the auth events against the slots the selection expects. */
  method CheckAuthEvents(event: Event, known: map<EventId, Event>) returns (verdict: Verdict)
    ensures verdict.Ok? <==> AuthEventsAllowed(event, known)
  {
    var expected := AuthTypesForEvent(event);
    if expected.Err? {
      return Err(expected.error);
    }
    verdict := WalkAuthEvents(event.authEvents, event.roomId, known, expected.value);
  }

  /** Walks through the auth events, filling a dictionary of the slots seen so far. */
  method WalkAuthEvents(ids: seq<EventId>, roomId: RoomId, known: map<EventId, Event>, expected: set<Slot>) returns (verdict: Verdict)
    ensures verdict.Ok? <==>
            && (forall i | 0 <= i < |ids| :: InRoom(roomId, known, ids[i]) && SlotOf(known[ids[i]]) in expected)
            && (forall i, j | 0 <= i < j < |ids| :: SlotOf(known[ids[i]]) != SlotOf(known[ids[j]]))
            && exists i :: 0 <= i < |ids| && SlotOf(known[ids[i]]) == Slot(CreateType, "")
  {
    var authDict: map<Slot, EventId> := map[];
    ghost var place: map<Slot, nat> := map[];
    for i := 0 to |ids|
      invariant forall j | 0 <= j < i :: InRoom(roomId, known, ids[j]) && SlotOf(known[ids[j]]) in expected
      invariant forall j | 0 <= j < i :: SlotOf(known[ids[j]]) in authDict
      invariant forall slot | slot in authDict :: slot in place && place[slot] < i && SlotOf(known[ids[place[slot]]]) == slot
      invariant forall j, k | 0 <= j < k < i :: SlotOf(known[ids[j]]) != SlotOf(known[ids[k]])
    {
      if ids[i] !in known || known[ids[i]].stateKey.None? {
        return Err(MissingField);
      }
      var authEvent := known[ids[i]];
      var slot := SlotOf(authEvent);
      if authEvent.roomId != roomId || slot in authDict || slot !in expected || authEvent.rejected {
        return Err(AuthEventsRefused);
      }
      authDict := authDict[slot := ids[i]];
      place := place[slot := i];
    }
    if Slot(CreateType, "") !in authDict {
      return Err(AuthEventsRefused);
    }
    return Ok(false);
  }

  // ---------------------------------------------------------------- selecting from a state

  /** Every event of a state stands in its own slot, belongs to the room, and was not rejected. */
  ghost predicate SoundState(roomId: RoomId, state: StateMap) {
    forall slot | slot in state ::
      state[slot].stateKey.Some? && SlotOf(state[slot]) == slot && state[slot].roomId == roomId && !state[slot].rejected
  }

  /** The auth events of an event list, without repetition, the ids of the events selected from a state. */
  ghost predicate SelectedFrom(event: Event, state: StateMap, known: map<EventId, Event>) {
    var ids, selected := event.authEvents, Selected(event, state);
    && (forall i, j | 0 <= i < j < |ids| :: ids[i] != ids[j])
    && (forall id | id in ids :: id in known && known[id] in selected.Values && known[id].id == id)
    && (forall slot | slot in selected :: selected[slot].id in ids && known[selected[slot].id] == selected[slot])
  }

  /** Auth events selected from a sound state pass rules 2 and 3 exactly when the state has a create event. */
  lemma SelectedAuthEventsPass(event: Event, state: StateMap, known: map<EventId, Event>)
    requires event.eventType != CreateType && SelectionDefined(event)
    requires SoundState(event.roomId, state)
    requires SelectedFrom(event, state, known)
    ensures StateIndependentAllowed(event, known) <==> Slot(CreateType, "") in state
  {
    SelectedSlots(event, state, known);
    var ids, selected := event.authEvents, Selected(event, state);
    if Slot(CreateType, "") in state {
      assert Slot(CreateType, "") in selected && selected[Slot(CreateType, "")].id in ids;
      var i :| 0 <= i < |ids| && ids[i] == selected[Slot(CreateType, "")].id;
    }
  }

  lemma SelectedSlots(event: Event, state: StateMap, known: map<EventId, Event>)
    requires SoundState(event.roomId, state)
    requires SelectedFrom(event, state, known)
    ensures forall i | 0 <= i < |event.authEvents| ::
              && Acceptable(event, known, event.authEvents[i])
              && var slot := SlotOf(known[event.authEvents[i]]);
                 slot in Selected(event, state) && state[slot] == known[event.authEvents[i]]
    ensures forall i, j | 0 <= i < j < |event.authEvents| ::
              SlotOf(known[event.authEvents[i]]) != SlotOf(known[event.authEvents[j]])
  {
    var ids, selected := event.authEvents, Selected(event, state);
    forall i | 0 <= i < |ids|
      ensures Acceptable(event, known, ids[i])
      ensures SlotOf(known[ids[i]]) in selected && state[SlotOf(known[ids[i]])] == known[ids[i]]
    {
      assert ids[i] in ids;
      var slot :| slot in selected && selected[slot] == known[ids[i]];
    }
  }

  /** The listed events, as fetched. */
  function Listed(ids: seq<EventId>, known: map<EventId, Event>): seq<Event>
    requires forall id | id in ids :: id in known
  {
    seq(|ids|, i requires 0 <= i < |ids| => assert ids[i] in ids; known[ids[i]])
  }

  /** Judging an event by the auth events it selected is judging it by the whole room state. */
  lemma SelectedAuthEventsDecide(event: Event, state: StateMap, known: map<EventId, Event>)
    requires SelectionDefined(event)
    requires event.roomVersion.knockRestrictedJoinRule ==> event.roomVersion.restrictedJoinRule
    requires event.eventType == PowerLevelsType ==> HarmlessKey(event.stateKey)
    requires SoundState(event.roomId, state)
    requires SelectedFrom(event, state, known)
    ensures CheckStateDependent(event, StateFrom(Listed(event.authEvents, known), |event.authEvents|))
         == CheckStateDependent(event, state)
  {
    ListedMakeSelection(event, state, known);
    SelectionSuffices(event, state);
  }

  lemma ListedMakeSelection(event: Event, state: StateMap, known: map<EventId, Event>)
    requires SoundState(event.roomId, state)
    requires SelectedFrom(event, state, known)
    ensures StateFrom(Listed(event.authEvents, known), |event.authEvents|) == Selected(event, state)
  {
    var ids, selected := event.authEvents, Selected(event, state);
    var events := Listed(ids, known);
    SelectedSlots(event, state, known);
    forall slot | slot in selected
      ensures selected[slot] in events && SlotOf(selected[slot]) == slot
    {
      var i :| 0 <= i < |ids| && ids[i] == selected[slot].id;
      assert events[i] == selected[slot];
    }
    StateOfChosen(events, selected);
  }

  /** A list that holds just the events of a state makes up that state. */
  lemma StateOfChosen(events: seq<Event>, chosen: StateMap)
    requires forall i | 0 <= i < |events| :: IsChosen(chosen, events[i])
    requires forall slot | slot in chosen :: chosen[slot] in events && SlotOf(chosen[slot]) == slot
    ensures StateFrom(events, |events|) == chosen
  {
    PrefixOfChosen(events, |events|, chosen);
    var made := StateFrom(events, |events|);
    forall slot | slot in chosen
      ensures slot in made
    {
      var i :| 0 <= i < |events| && events[i] == chosen[slot];
      assert SlotOf(events[i]) in made;
    }
  }

  predicate IsChosen(chosen: StateMap, event: Event) {
    event.stateKey.Some? && SlotOf(event) in chosen && chosen[SlotOf(event)] == event
  }

  lemma {:induction false} PrefixOfChosen(events: seq<Event>, n: nat, chosen: StateMap)
    requires n <= |events| && forall i | 0 <= i < |events| :: IsChosen(chosen, events[i])
    ensures forall slot | slot in StateFrom(events, n) :: slot in chosen && StateFrom(events, n)[slot] == chosen[slot]
    ensures forall i | 0 <= i < n :: SlotOf(events[i]) in StateFrom(events, n)
  {
    if n > 0 {
      PrefixOfChosen(events, n - 1, chosen);
      assert IsChosen(chosen, events[n - 1]);
      assert StateFrom(events, n) == StateFrom(events, n - 1)[SlotOf(events[n - 1]) := events[n - 1]];
    }
  }
}
