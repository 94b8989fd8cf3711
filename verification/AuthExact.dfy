/** The authorization code decides exactly what the rules say. */
module AuthExact {
  import opened Results
  import opened RoomEvents
  import opened EventAuth
  import opened RoomRuns
  import opened AuthSelection
  import AuthSpec

  // ---------------------------------------------------------------- identifiers

  lemma {:induction false} DomainExactly(id: string, domain: string)
    ensures DomainOf(id) == Ok(domain) <==> AuthSpec.HasDomain(id, domain)
  {
    if id != "" {
      if id[0] == ':' {
        assert AuthSpec.FirstColon(id, 0);
      } else {
        DomainExactly(id[1..], domain);
        DomainOfRest(id, domain);
      }
    }
  }

  lemma DomainOfRest(id: string, domain: string)
    requires id != "" && id[0] != ':'
    ensures AuthSpec.HasDomain(id, domain) <==> AuthSpec.HasDomain(id[1..], domain)
  {
    var rest := id[1..];
    if AuthSpec.HasDomain(rest, domain) {
      var i :| AuthSpec.FirstColon(rest, i) && rest[i + 1..] == domain;
      assert AuthSpec.FirstColon(id, i + 1) && id[i + 2..] == rest[i + 1..];
    }
    if AuthSpec.HasDomain(id, domain) {
      var i :| AuthSpec.FirstColon(id, i) && id[i + 1..] == domain;
      assert AuthSpec.FirstColon(rest, i - 1) && rest[i..] == id[i + 1..];
    }
  }

  lemma SomeDomainExactly(id: string)
    ensures DomainOf(id).Ok? <==> AuthSpec.SomeDomain(id)
  {
    if DomainOf(id).Ok? {
      DomainExactly(id, DomainOf(id).value);
    }
    if AuthSpec.SomeDomain(id) {
      var domain :| AuthSpec.HasDomain(id, domain);
      DomainExactly(id, domain);
    }
  }

  lemma SameDomainExactly(one: string, other: string)
    requires DomainOf(one).Ok? && DomainOf(other).Ok?
    ensures DomainOf(one) == DomainOf(other) <==> AuthSpec.SameDomain(one, other)
  {
    DomainExactly(one, DomainOf(one).value);
    DomainExactly(other, DomainOf(one).value);
    if AuthSpec.SameDomain(one, other) {
      var domain :| AuthSpec.HasDomain(one, domain) && AuthSpec.HasDomain(other, domain);
      DomainExactly(one, domain);
      DomainExactly(other, domain);
    }
  }

  lemma ServerExactly(event: Event, id: string, state: StateMap)
    ensures AuthSpec.ServerMayTakePart(event, id, state)
       <==> DomainOf(event.roomId).Ok? && DomainOf(id).Ok? && (DomainOf(event.roomId) == DomainOf(id) || CanFederate(state))
  {
    SomeDomainExactly(event.roomId);
    SomeDomainExactly(id);
    if DomainOf(event.roomId).Ok? && DomainOf(id).Ok? {
      SameDomainExactly(event.roomId, id);
    }
    FederationExactly(state);
  }

  lemma FederationExactly(state: StateMap)
    ensures CanFederate(state) <==> AuthSpec.OpenToOthers(state)
  {
    if CanFederate(state) {
      assert AuthSpec.Says(state, CreateType, "", state[Slot(CreateType, "")]);
    }
  }

  // ---------------------------------------------------------------- levels

  lemma MemberExactly(state: StateMap, user: UserId, membership: Membership)
    ensures MembershipOf(state, user) == Some(membership) <==> AuthSpec.IsMember(state, user, membership)
  {
    if Slot(MemberType, user) in state {
      assert AuthSpec.Says(state, MemberType, user, state[Slot(MemberType, user)]);
    }
  }

  lemma UserLevelExactly(state: StateMap, user: UserId, n: int)
    ensures UserLevel(user, state) == Ok(n) <==> AuthSpec.UserHas(state, user, n)
  {
    if Slot(PowerLevelsType, "") in state {
      assert AuthSpec.Says(state, PowerLevelsType, "", state[Slot(PowerLevelsType, "")]);
    } else if Slot(CreateType, "") in state {
      var create := state[Slot(CreateType, "")];
      assert AuthSpec.Says(state, CreateType, "", create);
      if CreatorOf(create.roomVersion, create).Ok? {
        assert AuthSpec.Created(create.roomVersion, create, CreatorOf(create.roomVersion, create).value);
      }
    }
  }

  lemma NamedLevelExactly(state: StateMap, name: LevelName, n: int)
    ensures NamedLevel(state, name, AuthSpec.DefaultFor(name)) == Ok(n) <==> AuthSpec.Takes(state, name, n)
  {
    if Slot(PowerLevelsType, "") in state {
      assert AuthSpec.Says(state, PowerLevelsType, "", state[Slot(PowerLevelsType, "")]);
    }
  }

  lemma SendLevelExactly(state: StateMap, eventType: EventType, isState: bool, n: int)
    ensures SendLevel(eventType, isState, Lookup(state, PowerLevelsType, "")) == Ok(n)
       <==> AuthSpec.TakesToSend(state, eventType, isState, n)
  {
    if Slot(PowerLevelsType, "") in state {
      assert AuthSpec.Says(state, PowerLevelsType, "", state[Slot(PowerLevelsType, "")]);
    }
  }

  lemma JoinRuleExactly(state: StateMap, rule: JoinRule)
    ensures JoinRuleOf(state) == rule <==> AuthSpec.HasJoinRule(state, rule)
  {
    if Slot(JoinRulesType, "") in state {
      assert AuthSpec.Says(state, JoinRulesType, "", state[Slot(JoinRulesType, "")]);
    }
  }

  /** So there is a level to compare exactly where the lookups give one. */
  lemma LookupsExactly(state: StateMap, user: UserId, name: LevelName)
    ensures forall n :: AuthSpec.UserHas(state, user, n) <==> UserLevel(user, state) == Ok(n)
    ensures forall n :: AuthSpec.Takes(state, name, n) <==> NamedLevel(state, name, AuthSpec.DefaultFor(name)) == Ok(n)
  {
    forall n
      ensures AuthSpec.UserHas(state, user, n) <==> UserLevel(user, state) == Ok(n)
    {
      UserLevelExactly(state, user, n);
    }
    forall n
      ensures AuthSpec.Takes(state, name, n) <==> NamedLevel(state, name, AuthSpec.DefaultFor(name)) == Ok(n)
    {
      NamedLevelExactly(state, name, n);
    }
  }

  lemma MembersExactly(state: StateMap, user: UserId)
    ensures forall membership :: AuthSpec.IsMember(state, user, membership) <==> MembershipOf(state, user) == Some(membership)
  {
    forall membership
      ensures AuthSpec.IsMember(state, user, membership) <==> MembershipOf(state, user) == Some(membership)
    {
      MemberExactly(state, user, membership);
    }
  }

  lemma JoinRulesExactly(state: StateMap)
    ensures forall rule :: AuthSpec.HasJoinRule(state, rule) <==> JoinRuleOf(state) == rule
  {
    forall rule
      ensures AuthSpec.HasJoinRule(state, rule) <==> JoinRuleOf(state) == rule
    {
      JoinRuleExactly(state, rule);
    }
  }

  // ---------------------------------------------------------------- membership

  lemma FactsExactly(event: Event, user: UserId, state: StateMap)
    ensures GatherFacts(event, user, state).Ok? <==> AuthSpec.LevelsReadable(event, user, state)
  {
    LookupsExactly(state, event.sender, InviteLevel);
    LookupsExactly(state, user, BanLevel);
    if GatherFacts(event, user, state).Ok? {
      var facts := GatherFacts(event, user, state).value;
      assert AuthSpec.UserHas(state, event.sender, facts.callerLevel) && AuthSpec.UserHas(state, user, facts.targetLevel);
      assert AuthSpec.Takes(state, InviteLevel, facts.inviteLevel) && AuthSpec.Takes(state, BanLevel, facts.banLevel);
    }
  }

  lemma TokenExactly(event: Event, user: UserId, state: StateMap)
    requires event.stateKey == Some(user)
    ensures AuthSpec.AnswersToken(event, user, state) <==> VerifyThirdPartyInvite(event, state)
  {
    if event.content.thirdPartyInvite.Some? && event.content.thirdPartyInvite.value.Signed? {
      var token := event.content.thirdPartyInvite.value.token;
      if Slot(ThirdPartyInviteType, token) in state {
        assert AuthSpec.Says(state, ThirdPartyInviteType, token, state[Slot(ThirdPartyInviteType, token)]);
      }
    }
  }

  lemma VouchedExactly(event: Event, state: StateMap, inviteLevel: int)
    requires NamedLevel(state, InviteLevel, 0) == Ok(inviteLevel)
    ensures AuthSpec.IsVouchedFor(event, state) <==> Vouched(event, inviteLevel, state)
  {
    if event.content.authorisingUser.Some? {
      var authoriser := event.content.authorisingUser.value;
      MemberExactly(state, authoriser, Join);
      LookupsExactly(state, authoriser, InviteLevel);
      if UserLevel(authoriser, state).Ok? {
        assert AuthSpec.UserHas(state, authoriser, UserLevel(authoriser, state).value) && AuthSpec.Takes(state, InviteLevel, inviteLevel);
      }
    }
  }

  lemma OutranksExactly(event: Event, user: UserId, state: StateMap, name: LevelName)
    requires UserLevel(event.sender, state).Ok? && UserLevel(user, state).Ok?
    ensures AuthSpec.Outranks(event, user, state, name)
       <==> var level, needed := UserLevel(event.sender, state).value, NamedLevel(state, name, AuthSpec.DefaultFor(name));
            MembershipOf(state, event.sender) == Some(Join) && needed.Ok? && level > UserLevel(user, state).value && level >= needed.value
  {
    MemberExactly(state, event.sender, Join);
    LookupsExactly(state, event.sender, name);
    LookupsExactly(state, user, name);
    if NamedLevel(state, name, AuthSpec.DefaultFor(name)).Ok? {
      assert AuthSpec.Takes(state, name, NamedLevel(state, name, AuthSpec.DefaultFor(name)).value);
      assert AuthSpec.UserHas(state, event.sender, UserLevel(event.sender, state).value);
      assert AuthSpec.UserHas(state, user, UserLevel(user, state).value);
    }
  }

  lemma JoinExactly(event: Event, user: UserId, state: StateMap, facts: Facts)
    requires Concerns(event, user) && event.content.membership == Some(Join) && GatherFacts(event, user, state) == Ok(facts)
    ensures LegalMove(event, user, facts, state) <==> AuthSpec.MayJoin(event, user, state)
  {
    MembersExactly(state, user);
    JoinRulesExactly(state);
    VouchedExactly(event, state, facts.inviteLevel);
    assert AuthSpec.HasJoinRule(state, facts.joinRule);
  }

  lemma InviteExactly(event: Event, user: UserId, state: StateMap, facts: Facts)
    requires Concerns(event, user) && event.content.membership == Some(Invite) && GatherFacts(event, user, state) == Ok(facts)
    ensures LegalMove(event, user, facts, state) <==> AuthSpec.MayInvite(event, user, state)
  {
    MembersExactly(state, user);
    MembersExactly(state, event.sender);
    TokenExactly(event, user, state);
    LookupsExactly(state, event.sender, InviteLevel);
    assert AuthSpec.UserHas(state, event.sender, facts.callerLevel) && AuthSpec.Takes(state, InviteLevel, facts.inviteLevel);
  }

  lemma KnockExactly(event: Event, user: UserId, state: StateMap, facts: Facts)
    requires Concerns(event, user) && event.content.membership == Some(Knock) && GatherFacts(event, user, state) == Ok(facts)
    ensures LegalMove(event, user, facts, state) <==> AuthSpec.MayKnock(event, user, state)
  {
    MembersExactly(state, user);
    JoinRulesExactly(state);
    assert AuthSpec.HasJoinRule(state, facts.joinRule);
  }

  lemma RemovalExactly(event: Event, user: UserId, state: StateMap, facts: Facts)
    requires Concerns(event, user) && event.content.membership == Some(Leave) && GatherFacts(event, user, state) == Ok(facts)
    ensures LegalMove(event, user, facts, state) <==> AuthSpec.MayRemove(event, user, state)
  {
    MembersExactly(state, user);
    OutranksExactly(event, user, state, KickLevel);
    OutranksExactly(event, user, state, BanLevel);
  }

  lemma MembershipExactly(event: Event, state: StateMap)
    requires event.eventType == MemberType
    ensures CheckMembershipChange(event.roomVersion, event, state).Ok? <==> AuthSpec.MayChangeMembership(event, state)
  {
    if event.stateKey.Some? && event.content.membership.Some? {
      var user := event.stateKey.value;
      CreatorJoinExactly(event, user, state);
      ServerExactly(event, user, state);
      FactsExactly(event, user, state);
      if GatherFacts(event, user, state).Ok? {
        var facts := GatherFacts(event, user, state).value;
        MovesExactly(event, user, state);
        match event.content.membership.value
        case Join => JoinExactly(event, user, state, facts);
        case Invite => InviteExactly(event, user, state, facts);
        case Knock => KnockExactly(event, user, state, facts);
        case Leave => RemovalExactly(event, user, state, facts);
        case Ban => OutranksExactly(event, user, state, BanLevel);
        case OtherMembership(_) =>
      }
    }
  }

  lemma CreatorJoinExactly(event: Event, user: UserId, state: StateMap)
    ensures IsCreatorJoin(event.roomVersion, event, user, state) == Ok(true)
       <==> exists create :: AuthSpec.FollowsCreation(event, create, state) && AuthSpec.Created(event.roomVersion, create, user)
    ensures IsCreatorJoin(event.roomVersion, event, user, state).Ok?
       <==> forall create | AuthSpec.FollowsCreation(event, create, state) :: exists creator :: AuthSpec.Created(event.roomVersion, create, creator)
  {
    if Slot(CreateType, "") in state {
      var create := state[Slot(CreateType, "")];
      assert AuthSpec.Says(state, CreateType, "", create);
      assert |event.prevEvents| == 1 && event.prevEvents[0] == create.id <==> event.prevEvents == [create.id];
      if CreatorOf(event.roomVersion, create).Ok? {
        assert AuthSpec.Created(event.roomVersion, create, CreatorOf(event.roomVersion, create).value);
      } else {
        assert forall creator :: !AuthSpec.Created(event.roomVersion, create, creator);
        assert AuthSpec.FollowsCreation(event, create, state) <==> IsCreatorJoin(event.roomVersion, event, user, state).Err?;
      }
    }
  }

  // ---------------------------------------------------------------- other events

  lemma SendExactly(event: Event, state: StateMap)
    ensures CheckCanSend(event, state).Ok? <==> AuthSpec.MaySend(event, state)
  {
    var needed := SendLevel(event.eventType, event.stateKey.Some?, Lookup(state, PowerLevelsType, ""));
    forall n
      ensures AuthSpec.TakesToSend(state, event.eventType, event.stateKey.Some?, n) <==> needed == Ok(n)
    {
      SendLevelExactly(state, event.eventType, event.stateKey.Some?, n);
    }
    LookupsExactly(state, event.sender, InviteLevel);
    if needed.Ok? && UserLevel(event.sender, state).Ok? {
      assert AuthSpec.UserHas(state, event.sender, UserLevel(event.sender, state).value);
      assert AuthSpec.TakesToSend(state, event.eventType, event.stateKey.Some?, needed.value);
    }
  }

  lemma LevelMoveExactly(sender: UserId, level: int, key: LevelKey, before: map<LevelKey, Level>, after: map<LevelKey, Level>)
    ensures EntryMoveAllowed(sender, level, key, before, after) <==> AuthSpec.MayMoveLevel(sender, level, key, before, after)
  {
    EntryExactly(before, key);
    EntryExactly(after, key);
  }

  lemma EntryExactly(levels: map<LevelKey, Level>, key: LevelKey)
    ensures forall n :: AuthSpec.Gives(levels, key, n) <==> Entry(levels, key) == Ok(Some(n))
    ensures Entry(levels, key) == Ok(None) <==> key !in levels
    ensures Entry(levels, key).Ok? && Entry(levels, key).value.Some? ==> AuthSpec.Gives(levels, key, Entry(levels, key).value.value)
  {
  }

  lemma LevelsExactly(event: Event, state: StateMap)
    ensures PowerLevelsAllowed(event.roomVersion, event, state) <==> AuthSpec.MaySetLevels(event, state)
  {
    forall key: LevelKey | key in event.content.levels
      ensures IntOf(event.content.levels[key]).Ok? <==> exists n :: AuthSpec.Gives(event.content.levels, key, n)
    {
      EntryExactly(event.content.levels, key);
    }
    LookupsExactly(state, event.sender, InviteLevel);
    if event.stateKey.Some? && Slot(PowerLevelsType, event.stateKey.value) in state {
      var current := state[Slot(PowerLevelsType, event.stateKey.value)];
      assert AuthSpec.Says(state, PowerLevelsType, event.stateKey.value, current);
      ReplacementExactly(event, state, current);
    }
  }

  /** The comparison with the levels that an event replaces. */
  ghost predicate ReplacementAllowed(event: Event, state: StateMap, current: Event) {
    exists level :: AuthSpec.UserHas(state, event.sender, level)
      && forall key | AuthSpec.Compared(event.roomVersion, key) ::
           AuthSpec.MayMoveLevel(event.sender, level, key, current.content.levels, event.content.levels)
  }

  lemma ReplacementExactly(event: Event, state: StateMap, current: Event)
    ensures ReplacementAllowed(event, state, current)
       <==> && UserLevel(event.sender, state).Ok?
            && forall key | MustCompare(event.roomVersion, current.content.levels, event.content.levels, key) ::
                 EntryMoveAllowed(event.sender, UserLevel(event.sender, state).value, key, current.content.levels, event.content.levels)
  {
    LookupsExactly(state, event.sender, InviteLevel);
    if UserLevel(event.sender, state).Ok? {
      var level := UserLevel(event.sender, state).value;
      assert AuthSpec.UserHas(state, event.sender, level);
      forall key
        ensures EntryMoveAllowed(event.sender, level, key, current.content.levels, event.content.levels)
           <==> AuthSpec.MayMoveLevel(event.sender, level, key, current.content.levels, event.content.levels)
      {
        LevelMoveExactly(event.sender, level, key, current.content.levels, event.content.levels);
      }
      assert forall key | key !in current.content.levels && key !in event.content.levels ::
          EntryMoveAllowed(event.sender, level, key, current.content.levels, event.content.levels);
    }
  }

  lemma RedactionExactly(event: Event, state: StateMap, recheck: bool)
    ensures CheckRedaction(event.roomVersion, event, state) == Ok(recheck) <==> AuthSpec.MayRedact(event, state, recheck)
  {
    LookupsExactly(state, event.sender, RedactLevel);
    OwnServerExactly(event);
    if UserLevel(event.sender, state).Ok? && NamedLevel(state, RedactLevel, 50).Ok? {
      assert AuthSpec.UserHas(state, event.sender, UserLevel(event.sender, state).value);
      assert AuthSpec.Takes(state, RedactLevel, NamedLevel(state, RedactLevel, 50).value);
    }
  }

  lemma OwnServerExactly(event: Event)
    ensures AuthSpec.OwnServersEvent(event)
       <==> DomainOf(event.id).Ok? && (event.redacts.Some? ==> DomainOf(event.redacts.value) == DomainOf(event.id))
  {
    SomeDomainExactly(event.id);
    if event.redacts.Some? {
      SomeDomainExactly(event.redacts.value);
      if DomainOf(event.id).Ok? && DomainOf(event.redacts.value).Ok? {
        SameDomainExactly(event.id, event.redacts.value);
      }
    }
  }

  lemma TokenPublishingExactly(event: Event, state: StateMap)
    ensures AuthSpec.MayPublishToken(event, state)
       <==> var level, needed := UserLevel(event.sender, state), NamedLevel(state, InviteLevel, 0);
            level.Ok? && needed.Ok? && level.value >= needed.value
  {
    LookupsExactly(state, event.sender, InviteLevel);
    if UserLevel(event.sender, state).Ok? && NamedLevel(state, InviteLevel, 0).Ok? {
      assert AuthSpec.UserHas(state, event.sender, UserLevel(event.sender, state).value);
      assert AuthSpec.Takes(state, InviteLevel, NamedLevel(state, InviteLevel, 0).value);
    }
  }

  // ---------------------------------------------------------------- all rules

  /** The code allows an event, and asks for a recheck, exactly where the rules do. */
  lemma RulesExactly(event: Event, state: StateMap, recheck: bool)
    ensures CheckStateDependent(event, state) == Ok(recheck) <==> AuthSpec.Allowed(event, state, recheck)
  {
    if event.eventType == CreateType {
    } else if event.eventType == AliasesType && event.roomVersion.specialCaseAliasesAuth {
      AliasEventExactly(event, state, recheck);
    } else if event.eventType == MemberType {
      MemberEventExactly(event, state, recheck);
    } else {
      OtherEventExactly(event, state, recheck);
    }
  }

  lemma AliasEventExactly(event: Event, state: StateMap, recheck: bool)
    requires event.eventType == AliasesType && event.roomVersion.specialCaseAliasesAuth
    ensures CheckStateDependent(event, state) == Ok(recheck) <==> AuthSpec.Allowed(event, state, recheck)
  {
    ServerExactly(event, event.sender, state);
    if event.stateKey.Some? {
      DomainExactly(event.sender, event.stateKey.value);
    }
  }

  lemma MemberEventExactly(event: Event, state: StateMap, recheck: bool)
    requires event.eventType == MemberType
    ensures CheckStateDependent(event, state) == Ok(recheck) <==> AuthSpec.Allowed(event, state, recheck)
  {
    MemberVerdict(event, state, recheck);
    MemberRule(event, state, recheck);
    ChangeExactly(event, state, recheck);
  }

  lemma MemberVerdict(event: Event, state: StateMap, recheck: bool)
    requires event.eventType == MemberType
    ensures CheckStateDependent(event, state) == Ok(recheck)
       <==> AuthSpec.ServerMayTakePart(event, event.sender, state)
            && CheckMembershipChange(event.roomVersion, event, state) == Ok(recheck)
  {
    ServerExactly(event, event.sender, state);
  }

  lemma MemberRule(event: Event, state: StateMap, recheck: bool)
    requires event.eventType == MemberType
    ensures AuthSpec.Allowed(event, state, recheck)
       <==> AuthSpec.ServerMayTakePart(event, event.sender, state) && AuthSpec.MayChangeMembership(event, state) && !recheck
  {
  }

  lemma ChangeExactly(event: Event, state: StateMap, recheck: bool)
    requires event.eventType == MemberType
    ensures CheckMembershipChange(event.roomVersion, event, state) == Ok(recheck)
       <==> AuthSpec.MayChangeMembership(event, state) && !recheck
  {
    MembershipExactly(event, state);
    NoRecheck(event, state);
    WithoutRecheck(CheckMembershipChange(event.roomVersion, event, state), recheck);
  }

  lemma WithoutRecheck(verdict: Verdict, recheck: bool)
    requires verdict != Ok(true)
    ensures verdict == Ok(recheck) <==> verdict.Ok? && !recheck
  {
    if verdict.Ok? {
      assert verdict.value ==> verdict == Ok(true);
      assert !verdict.value ==> verdict == Ok(false);
    }
  }

  lemma OtherEventExactly(event: Event, state: StateMap, recheck: bool)
    requires event.eventType !in {CreateType, MemberType}
    requires event.eventType == AliasesType ==> !event.roomVersion.specialCaseAliasesAuth
    ensures CheckStateDependent(event, state) == Ok(recheck) <==> AuthSpec.Allowed(event, state, recheck)
  {
    var server := AuthSpec.ServerMayTakePart(event, event.sender, state);
    assert CheckStateDependent(event, state) == Ok(recheck)
      <==> server && MembershipOf(state, event.sender) == Some(Join) && CheckAct(event, state) == Ok(recheck) by {
      ServerExactly(event, event.sender, state);
    }
    MemberExactly(state, event.sender, Join);
    ActsExactly(event, state, recheck);
  }

  lemma NoRecheck(event: Event, state: StateMap)
    ensures CheckMembershipChange(event.roomVersion, event, state) != Ok(true)
  {
    if event.stateKey.Some? && event.content.membership.Some? && GatherFacts(event, event.stateKey.value, state).Ok? {
      var facts := GatherFacts(event, event.stateKey.value, state).value;
      DecisionNoRecheck(event, event.stateKey.value, event.content.membership.value, facts, state);
    }
  }

  lemma DecisionNoRecheck(event: Event, user: UserId, membership: Membership, facts: Facts, state: StateMap)
    ensures DecideMembership(event.roomVersion, event, user, membership, facts, state) != Ok(true)
  {
  }

  lemma ActsExactly(event: Event, state: StateMap, recheck: bool)
    ensures CheckAct(event, state) == Ok(recheck) <==> AuthSpec.MayAct(event, state, recheck)
  {
    match event.eventType
    case ThirdPartyInviteType => TokenPublishingExactly(event, state);
    case PowerLevelsType =>
      SendExactly(event, state);
      LevelsExactly(event, state);
    case RedactionType =>
      SendExactly(event, state);
      RedactionExactly(event, state, recheck);
    case _ => SendExactly(event, state);
  }

  /** And a create event exactly where the rules for it do. */
  lemma CreateExactly(event: Event)
    ensures CheckCreate(event).Ok? <==> AuthSpec.MayCreate(event)
  {
    SomeDomainExactly(event.sender);
    SomeDomainExactly(event.roomId);
    if DomainOf(event.sender).Ok? && DomainOf(event.roomId).Ok? {
      SameDomainExactly(event.sender, event.roomId);
    }
  }

  /** In every linear run every event follows the rules, and the first one those for a create event. */
  lemma EveryEventFollowsTheRules(run: seq<Event>, n: nat)
    requires LinearRun(run) && n < |run|
    ensures AuthSpec.Allowed(run[n], StateFrom(run, n), false) || AuthSpec.Allowed(run[n], StateFrom(run, n), true)
    ensures n == 0 ==> run[n].eventType == CreateType && AuthSpec.MayCreate(run[n])
  {
    assert Accepted(run, n);
    RulesExactly(run[n], StateFrom(run, n), false);
    RulesExactly(run[n], StateFrom(run, n), true);
    CreateExactly(run[n]);
    if CheckStateDependent(run[n], StateFrom(run, n)).Ok? {
      EitherVerdict(CheckStateDependent(run[n], StateFrom(run, n)));
    }
  }

  lemma EitherVerdict(verdict: Verdict)
    requires verdict.Ok?
    ensures verdict == Ok(false) || verdict == Ok(true)
  {
    assert verdict.value ==> verdict == Ok(true);
    assert !verdict.value ==> verdict == Ok(false);
  }

  // ---------------------------------------------------------------- the selection of auth events

  /** Rules 2 and 3: every auth event is a known, unrejected state event of the room in a slot of its own that is selected, and one is the create event. */
  lemma AuthEventsExactly(event: Event, known: map<EventId, Event>)
    requires SelectionDefined(event)
    ensures AuthEventsAllowed(event, known)
       <==> && (forall id | id in event.authEvents ::
                  && id in known && known[id].roomId == event.roomId && !known[id].rejected
                  && known[id].stateKey.Some? && IsAuthSlot(event, Slot(known[id].eventType, known[id].stateKey.value)))
            && (forall i, j | 0 <= i < |event.authEvents| && 0 <= j < |event.authEvents| && i != j ::
                  var one, other := known[event.authEvents[i]], known[event.authEvents[j]];
                  (one.eventType, one.stateKey) != (other.eventType, other.stateKey))
            && (exists id :: id in event.authEvents && known[id].eventType == CreateType && known[id].stateKey == Some(""))
  {
    var ids := event.authEvents;
    assert forall i | 0 <= i < |ids| :: ids[i] in ids;
    if AuthEventsAllowed(event, known) {
      var i :| 0 <= i < |ids| && SlotOf(known[ids[i]]) == Slot(CreateType, "");
      assert ids[i] in ids && Acceptable(event, known, ids[i]);
      forall j, k | 0 <= j < |ids| && 0 <= k < |ids| && j != k
        ensures (known[ids[j]].eventType, known[ids[j]].stateKey) != (known[ids[k]].eventType, known[ids[k]].stateKey)
      {
        assert SlotOf(known[ids[if j < k then j else k]]) != SlotOf(known[ids[if j < k then k else j]]);
      }
    }
  }

  const ALWAYS: set<Slot> := {Slot(PowerLevelsType, ""), Slot(CreateType, "")}

  const JOIN_RULES: set<Slot> := {Slot(JoinRulesType, "")}

  function MemberSlots(users: set<UserId>): set<Slot> {
    set user | user in users :: Slot(MemberType, user)
  }

  /** For any event but a membership, the selection is three slots; none is superfluous in the list. */
  lemma SelectionOfOthers(event: Event, slot: Slot)
    requires event.eventType !in {CreateType, MemberType}
    ensures IsAuthSlot(event, slot) <==> slot in ALWAYS + MemberSlots({event.sender})
  {
  }

  /** For a membership it depends on the membership: who is involved, whether the join rule counts, and an invite's token. */
  lemma SelectionOfMembers(event: Event, user: UserId, slot: Slot)
    requires event.eventType == MemberType && event.stateKey == Some(user) && SelectionDefined(event)
    ensures match event.content.membership.value
            case Leave => IsAuthSlot(event, slot) <==> slot in ALWAYS + MemberSlots({event.sender, user})
            case Ban => IsAuthSlot(event, slot) <==> slot in ALWAYS + MemberSlots({event.sender, user})
            case Knock => IsAuthSlot(event, slot) <==> slot in ALWAYS + JOIN_RULES + MemberSlots({event.sender, user})
            case Join => IsAuthSlot(event, slot) <==>
                slot in ALWAYS + JOIN_RULES + MemberSlots({event.sender, user} + Authorisers(event))
            case Invite => IsAuthSlot(event, slot) <==>
                slot in ALWAYS + JOIN_RULES + MemberSlots({event.sender, user}) + Tokens(event)
            case OtherMembership(_) => IsAuthSlot(event, slot) <==> slot in ALWAYS + MemberSlots({event.sender, user})
  {
  }

  function Authorisers(event: Event): set<UserId> {
    if event.roomVersion.restrictedJoinRule && event.content.authorisingUser.Some? then {event.content.authorisingUser.value} else {}
  }

  function Tokens(event: Event): set<Slot> {
    match event.content.thirdPartyInvite
    case Some(Signed(token, _, _)) => {Slot(ThirdPartyInviteType, token)}
    case _ => {}
  }
}
