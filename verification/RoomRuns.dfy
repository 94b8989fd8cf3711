/** What the authorization rules guarantee over whole histories of a room. */
module RoomRuns {
  import opened Results
  import opened RoomEvents
  import opened EventAuth

  /** Event `n` of a history was accepted: it follows the event before it, and the rules allow it there. */
  ghost predicate Accepted(run: seq<Event>, n: nat)
    requires n < |run|
  {
    var event := run[n];
    && event.roomId == run[0].roomId
    && event.roomVersion == run[0].roomVersion
    && (forall i | 0 <= i < n :: run[i].id != event.id)
    && event.prevEvents == (if n == 0 then [] else [run[n - 1].id])
    && (n == 0 ==> event.eventType == CreateType && event.stateKey == Some(""))
    && (event.eventType == CreateType ==> CheckCreate(event).Ok?)
    && CheckStateDependent(event, StateFrom(run, n)).Ok?
  }

  /** A linear history: a create event, then events each accepted in the state its predecessors made. */
  ghost predicate LinearRun(run: seq<Event>) {
    forall n | 0 <= n < |run| :: Accepted(run, n)
  }

  ghost function MembershipAt(run: seq<Event>, n: nat, user: UserId): Option<Membership>
    requires n <= |run|
  {
    MembershipOf(StateFrom(run, n), user)
  }

  /** Event `n` changes what the state records about a user's membership. */
  predicate Concerns(event: Event, user: UserId) {
    event.eventType == MemberType && event.stateKey == Some(user)
  }

  // ---------------------------------------------------------------- the first events of a run

  lemma NoSecondCreate(run: seq<Event>, n: nat)
    requires LinearRun(run) && 1 <= n < |run|
    ensures run[n].eventType != CreateType
  {
    assert Accepted(run, n);
    assert run[n].prevEvents != [];
  }

  /** The create event stays in the state, and there is no second one. */
  lemma {:induction false} CreateEventStays(run: seq<Event>, n: nat)
    requires LinearRun(run) && 1 <= n <= |run|
    ensures Lookup(StateFrom(run, n), CreateType, "") == Some(run[0])
    ensures n < |run| ==> run[n].eventType != CreateType
  {
    if n < |run| {
      NoSecondCreate(run, n);
    }
    if n == 1 {
      assert Accepted(run, 0);
    } else {
      CreateEventStays(run, n - 1);
      assert StateFrom(run, n) == Apply(StateFrom(run, n - 1), run[n - 1]);
    }
  }

  /** The creator's shortcut past the membership rules. */
  ghost predicate CreatorJoined(run: seq<Event>, n: nat, user: UserId)
    requires n < |run|
  {
    && Concerns(run[n], user)
    && run[n].content.membership == Some(Join)
    && CreatorOf(run[0].roomVersion, run[0]) == Ok(user)
  }

  /** The shortcut is open only to the creator, and only directly after the create event. */
  lemma ShortcutOnlyForSecondEvent(run: seq<Event>, n: nat, target: UserId)
    requires LinearRun(run) && 1 <= n < |run|
    requires Concerns(run[n], target)
    requires IsCreatorJoin(run[n].roomVersion, run[n], target, StateFrom(run, n)) == Ok(true)
    ensures n == 1 && CreatorJoined(run, n, target)
  {
    CreateEventStays(run, n);
    assert Accepted(run, n) && Accepted(run, n - 1);
  }

  lemma NoMembersBeforeSecondEvent(run: seq<Event>, user: UserId)
    requires LinearRun(run) && |run| >= 1
    ensures MembershipAt(run, 1, user) == None
  {
    assert Accepted(run, 0);
    assert StateFrom(run, 1) == Apply(StateFrom(run, 0), run[0]);
  }

  /** A membership event accepted without the shortcut satisfied the membership rules. */
  lemma MembershipDecided(run: seq<Event>, n: nat, target: UserId)
    requires LinearRun(run) && n < |run|
    requires Concerns(run[n], target)
    requires MembershipAt(run, n, target).Some? || n != 1 || !CreatorJoined(run, n, target)
    ensures n >= 1 && run[n].content.membership.Some?
    ensures var facts := GatherFacts(run[n], target, StateFrom(run, n));
            facts.Ok? && DecideMembership(run[n].roomVersion, run[n], target, run[n].content.membership.value,
                                          facts.value, StateFrom(run, n)).Ok?
  {
    assert Accepted(run, n);
    assert n >= 1;
    if IsCreatorJoin(run[n].roomVersion, run[n], target, StateFrom(run, n)) == Ok(true) {
      ShortcutOnlyForSecondEvent(run, n, target);
      NoMembersBeforeSecondEvent(run, target);
    }
  }

  // ---------------------------------------------------------------- the moves between memberships

  /** Under such a join rule those who were invited, or are in the room already, may join. */
  predicate AdmitsInvited(version: RoomVersion, rule: JoinRule) {
    || rule == InviteOnly
    || (version.knockJoinRule && rule == KnockRule)
    || RestrictedRuleInForce(version, rule)
  }

  /** A member with the power to invite vouches for the newcomer. */
  ghost predicate Vouched(event: Event, inviteLevel: int, state: StateMap) {
    && event.content.authorisingUser.Some?
    && MembershipOf(state, event.content.authorisingUser.value) == Some(Join)
    && UserLevel(event.content.authorisingUser.value, state).Ok?
    && UserLevel(event.content.authorisingUser.value, state).value >= inviteLevel
  }

  /** Who may move a user from one membership to another. */
  ghost predicate LegalMove(event: Event, user: UserId, facts: Facts, state: StateMap) {
    var version, was, own := event.roomVersion, facts.target, event.sender == user;
    var outranks := facts.caller == Some(Join) && facts.callerLevel > facts.targetLevel;
    match event.content.membership
    case Some(Join) =>
      && own
      && was != Some(Ban)
      && (|| facts.joinRule == Public
          || (AdmitsInvited(version, facts.joinRule) && was in {Some(Join), Some(Invite)})
          || (RestrictedRuleInForce(version, facts.joinRule) && Vouched(event, facts.inviteLevel, state)))
    case Some(Invite) =>
      && was != Some(Ban)
      && (if event.content.thirdPartyInvite.Some? then VerifyThirdPartyInvite(event, state)
          else was != Some(Join) && facts.caller == Some(Join) && facts.callerLevel >= facts.inviteLevel)
    case Some(Knock) =>
      && own
      && version.knockJoinRule
      && was !in {Some(Join), Some(Invite), Some(Ban)}
      && (facts.joinRule == KnockRule || (version.knockRestrictedJoinRule && facts.joinRule == KnockRestricted))
    case Some(Leave) =>
      if own then was in {Some(Join), Some(Invite)} || (version.knockJoinRule && was == Some(Knock))
      else
        var kickLevel := NamedLevel(state, KickLevel, 50);
        && outranks
        && kickLevel.Ok? && facts.callerLevel >= kickLevel.value
        && (was == Some(Ban) ==> facts.callerLevel >= facts.banLevel)
    case Some(Ban) => outranks && facts.callerLevel >= facts.banLevel
    case _ => false
  }

  /** The membership rules allow exactly the legal moves. */
  lemma MovesExactly(event: Event, user: UserId, state: StateMap)
    requires Concerns(event, user) && event.content.membership.Some?
    requires GatherFacts(event, user, state).Ok?
    ensures var facts := GatherFacts(event, user, state).value;
            DecideMembership(event.roomVersion, event, user, event.content.membership.value, facts, state).Ok?
            <==> LegalMove(event, user, facts, state)
  {
    var facts := GatherFacts(event, user, state).value;
    assert event.sender == user ==> facts.caller == facts.target;
  }

  /** In every run, every change of membership but the creator's first join was a legal move. */
  lemma EveryMoveIsLegal(run: seq<Event>, n: nat, user: UserId)
    requires LinearRun(run) && n < |run| && Concerns(run[n], user)
    requires !(n == 1 && CreatorJoined(run, n, user))
    ensures var facts := GatherFacts(run[n], user, StateFrom(run, n));
            facts.Ok? && LegalMove(run[n], user, facts.value, StateFrom(run, n))
  {
    MembershipDecided(run, n, user);
    MovesExactly(run[n], user, StateFrom(run, n));
  }

  /** In every run, every other event but an alias came from a member with the level that its type asks for. */
  lemma SendersHadThePower(run: seq<Event>, n: nat)
    requires LinearRun(run) && 1 <= n < |run|
    requires run[n].eventType != MemberType && run[n].eventType != AliasesType
    ensures MembershipAt(run, n, run[n].sender) == Some(Join)
    ensures var state, event := StateFrom(run, n), run[n];
            var required := if event.eventType == ThirdPartyInviteType then NamedLevel(state, InviteLevel, 0)
                            else SendLevel(event.eventType, event.stateKey.Some?, Lookup(state, PowerLevelsType, ""));
            UserLevel(event.sender, state).Ok? && required.Ok? && UserLevel(event.sender, state).value >= required.value
  {
    CreateEventStays(run, n);
    assert Accepted(run, n);
  }

  // ---------------------------------------------------------------- bans

  /** Event `n` lifts a ban: it comes from another, joined user with the power to do so. */
  ghost predicate Unbans(run: seq<Event>, n: nat, user: UserId)
    requires n < |run|
  {
    var event, state := run[n], StateFrom(run, n);
    var senderLevel, userLevel := UserLevel(event.sender, state), UserLevel(user, state);
    var banLevel, kickLevel := NamedLevel(state, BanLevel, 50), NamedLevel(state, KickLevel, 50);
    && Concerns(event, user)
    && event.content.membership == Some(Leave)
    && event.sender != user
    && MembershipOf(state, event.sender) == Some(Join)
    && senderLevel.Ok? && userLevel.Ok? && banLevel.Ok? && kickLevel.Ok?
    && senderLevel.value >= banLevel.value
    && senderLevel.value >= kickLevel.value
    && senderLevel.value > userLevel.value
  }

  /** The only step out of a ban is an unban, and it leads to `leave`. */
  lemma BanStep(run: seq<Event>, n: nat, user: UserId)
    requires LinearRun(run) && n < |run|
    requires MembershipAt(run, n, user) == Some(Ban)
    ensures MembershipAt(run, n + 1, user) == Some(Ban)
         || (MembershipAt(run, n + 1, user) == Some(Leave) && Unbans(run, n, user))
  {
    if Concerns(run[n], user) {
      MembershipDecided(run, n, user);
    }
  }

  /** A banned user stays banned until an accepted event unbans them. */
  lemma {:induction false} BanPersists(run: seq<Event>, from: nat, to: nat, user: UserId)
    requires LinearRun(run) && from <= to <= |run|
    requires MembershipAt(run, from, user) == Some(Ban)
    requires forall n | from <= n < to :: !Unbans(run, n, user)
    ensures MembershipAt(run, to, user) == Some(Ban)
  {
    if from < to {
      BanPersists(run, from, to - 1, user);
      BanStep(run, to - 1, user);
    }
  }

  /** So whoever was banned and no longer is was unbanned in between, while still banned. */
  lemma {:induction false} LiftedBanWasUnbanned(run: seq<Event>, from: nat, to: nat, user: UserId) returns (n: nat)
    requires LinearRun(run) && from <= to <= |run|
    requires MembershipAt(run, from, user) == Some(Ban)
    requires MembershipAt(run, to, user) != Some(Ban)
    ensures from <= n < to && MembershipAt(run, n, user) == Some(Ban) && Unbans(run, n, user)
  {
    if MembershipAt(run, to - 1, user) == Some(Ban) {
      n := to - 1;
      BanStep(run, n, user);
    } else {
      n := LiftedBanWasUnbanned(run, from, to - 1, user);
    }
  }

  // ---------------------------------------------------------------- invite-only rooms

  ghost predicate HasInvitePower(state: StateMap, user: UserId) {
    var userLevel, inviteLevel := UserLevel(user, state), NamedLevel(state, InviteLevel, 0);
    && MembershipOf(state, user) == Some(Join)
    && userLevel.Ok? && inviteLevel.Ok?
    && userLevel.value >= inviteLevel.value
  }

  /** Event `n` published a third-party token, and its sender was joined with the power to invite. */
  ghost predicate PublishesToken(run: seq<Event>, n: nat, token: string, sender: UserId)
    requires n < |run|
  {
    && run[n].eventType == ThirdPartyInviteType
    && run[n].stateKey == Some(token)
    && run[n].sender == sender
    && HasInvitePower(StateFrom(run, n), sender)
  }

  /** Event `n` invites a user, on the authority of a member who could invite. */
  ghost predicate Invites(run: seq<Event>, n: nat, user: UserId)
    requires n < |run|
  {
    && Concerns(run[n], user)
    && run[n].content.membership == Some(Invite)
    && match run[n].content.thirdPartyInvite
       case None => HasInvitePower(StateFrom(run, n), run[n].sender)
       case Some(NoToken) => false
       case Some(Signed(token, mxid, signedBy)) =>
         && mxid == Some(user)
         && exists m :: 0 <= m < n && PublishesToken(run, m, token, run[n].sender)
              && exists key :: key in run[m].content.publicKeys && key in signedBy
  }

  ghost predicate InvitedOrJoined(run: seq<Event>, n: nat, user: UserId)
    requires n <= |run|
  {
    MembershipAt(run, n, user) in {Some(Invite), Some(Join)}
  }

  /** Event `n` let a user in, and they have been invited or joined ever since. */
  ghost predicate LetIn(run: seq<Event>, n: nat, to: nat, user: UserId)
    requires n < to <= |run|
  {
    && (Invites(run, n, user) || (n == 1 && CreatorJoined(run, n, user)))
    && forall k | n < k <= to :: InvitedOrJoined(run, k, user)
  }

  /** Every event of the state is an earlier event of the run. */
  lemma {:induction false} StateEventsComeFromRun(run: seq<Event>, n: nat, slot: Slot) returns (m: nat)
    requires n <= |run| && slot in StateFrom(run, n)
    ensures m < n && run[m] == StateFrom(run, n)[slot]
    ensures run[m].stateKey == Some(slot.key) && run[m].eventType == slot.eventType
  {
    var event := run[n - 1];
    if event.stateKey == Some(slot.key) && event.eventType == slot.eventType {
      m := n - 1;
    } else {
      m := StateEventsComeFromRun(run, n - 1, slot);
    }
  }

  lemma TokenWasPublished(run: seq<Event>, n: nat, token: string) returns (m: nat)
    requires LinearRun(run) && n <= |run|
    requires Lookup(StateFrom(run, n), ThirdPartyInviteType, token).Some?
    ensures m < n && run[m] == StateFrom(run, n)[Slot(ThirdPartyInviteType, token)]
    ensures PublishesToken(run, m, token, run[m].sender)
  {
    m := StateEventsComeFromRun(run, n, Slot(ThirdPartyInviteType, token));
    assert Accepted(run, m);
  }

  lemma AcceptedInviteInvites(run: seq<Event>, n: nat, user: UserId)
    requires LinearRun(run) && n < |run|
    requires Concerns(run[n], user) && run[n].content.membership == Some(Invite)
    ensures Invites(run, n, user)
  {
    MembershipDecided(run, n, user);
    if run[n].content.thirdPartyInvite.Some? {
      var m := TokenWasPublished(run, n, run[n].content.thirdPartyInvite.value.token);
      assert PublishesToken(run, m, run[n].content.thirdPartyInvite.value.token, run[n].sender);
    }
  }

  /** In an invite-only room a user joins because they were let in already, or by the creator's shortcut. */
  lemma AcceptedJoinWasAdmitted(run: seq<Event>, n: nat, user: UserId)
    requires LinearRun(run) && n < |run|
    requires JoinRuleOf(StateFrom(run, n)) == InviteOnly
    requires Concerns(run[n], user) && run[n].content.membership == Some(Join)
    ensures InvitedOrJoined(run, n, user) || (n == 1 && CreatorJoined(run, n, user))
  {
    if !(n == 1 && CreatorJoined(run, n, user)) {
      EveryMoveIsLegal(run, n, user);
      InvitedJoin(run[n], user, StateFrom(run, n));
    }
  }

  lemma InvitedJoin(event: Event, user: UserId, state: StateMap)
    requires GatherFacts(event, user, state).Ok? && LegalMove(event, user, GatherFacts(event, user, state).value, state)
    requires event.content.membership == Some(Join) && JoinRuleOf(state) == InviteOnly
    ensures MembershipOf(state, user) in {Some(Invite), Some(Join)}
  {
  }

  /** In every invite-only run, whoever is joined or invited was let in, and has not left since. */
  lemma {:induction false} InviteOnlyRoomsNeedInvites(run: seq<Event>, to: nat, user: UserId) returns (n: nat)
    requires LinearRun(run) && to <= |run|
    requires forall k | 0 <= k <= to :: JoinRuleOf(StateFrom(run, k)) == InviteOnly
    requires InvitedOrJoined(run, to, user)
    ensures n < to && LetIn(run, n, to, user)
  {
    var last := to - 1;
    if !Concerns(run[last], user) {
      n := InviteOnlyRoomsNeedInvites(run, last, user);
    } else if run[last].content.membership == Some(Invite) {
      AcceptedInviteInvites(run, last, user);
      n := last;
    } else {
      AcceptedJoinWasAdmitted(run, last, user);
      if InvitedOrJoined(run, last, user) {
        n := InviteOnlyRoomsNeedInvites(run, last, user);
      } else {
        n := last;
      }
    }
  }

  /** Each joined user other than the creator has an earlier accepted invite in the history. */
  lemma JoinedUsersWereInvited(run: seq<Event>, user: UserId) returns (n: nat)
    requires LinearRun(run) && |run| >= 1
    requires forall k | 0 <= k <= |run| :: JoinRuleOf(StateFrom(run, k)) == InviteOnly
    requires MembershipAt(run, |run|, user) == Some(Join)
    requires CreatorOf(run[0].roomVersion, run[0]) != Ok(user)
    ensures n < |run| && Invites(run, n, user)
  {
    n := InviteOnlyRoomsNeedInvites(run, |run|, user);
  }
}
