/** What the power-level rules guarantee over whole histories of a room. */
module PowerLevelRuns {
  import opened Results
  import opened RoomEvents
  import opened EventAuth
  import opened RoomRuns

  /** The levels in force: those of the power-levels event under the empty state key. */
  ghost predicate HasLevels(state: StateMap) {
    Slot(PowerLevelsType, "") in state
  }

  ghost function LevelsOf(state: StateMap): map<LevelKey, Level>
    requires HasLevels(state)
  {
    state[Slot(PowerLevelsType, "")].content.levels
  }

  /** No user entry and no users default exceeds the bound. */
  ghost predicate Bounded(state: StateMap, bound: int) {
    && HasLevels(state)
    && forall key | key in LevelsOf(state) && (key.OfUser? || key == Named(UsersDefault)) ::
         IntOf(LevelsOf(state)[key]).Ok? ==> IntOf(LevelsOf(state)[key]).value <= bound
  }

  /** An entry of the levels in force, as a number. */
  ghost predicate Holds(state: StateMap, user: UserId, level: int) {
    HasLevels(state) && Entry(LevelsOf(state), OfUser(user)) == Ok(Some(level))
  }

  /** Event `n` replaces the levels in force. */
  predicate SetsLevels(event: Event) {
    event.eventType == PowerLevelsType && event.stateKey == Some("")
  }

  /** A non-negative bound on the entries bounds every user: an absent default counts as zero. */
  lemma BoundedUsers(state: StateMap, bound: int, user: UserId)
    requires bound >= 0 && Bounded(state, bound)
    ensures UserLevel(user, state).Ok? ==> UserLevel(user, state).value <= bound
  {
    var levels := LevelsOf(state);
    assert OfUser(user) in levels ==> (IntOf(levels[OfUser(user)]).Ok? ==> IntOf(levels[OfUser(user)]).value <= bound);
    assert Named(UsersDefault) in levels ==>
        (IntOf(levels[Named(UsersDefault)]).Ok? ==> IntOf(levels[Named(UsersDefault)]).value <= bound);
  }

  /** Until there are power levels, the state of the room is in the hands of its creator. */
  lemma OnlyCreatorSetsStateAtFirst(run: seq<Event>, n: nat)
    requires LinearRun(run) && 1 <= n < |run| && !HasLevels(StateFrom(run, n))
    requires run[n].stateKey.Some? && run[n].eventType !in {MemberType, AliasesType, ThirdPartyInviteType}
    ensures CreatorOf(run[0].roomVersion, run[0]) == Ok(run[n].sender)
  {
    SendersHadThePower(run, n);
    CreateEventStays(run, n);
  }

  /** A replacement of the levels in force was compared with them, key by key. */
  lemma ReplacementCompared(run: seq<Event>, n: nat, key: LevelKey)
    requires LinearRun(run) && n < |run|
    requires SetsLevels(run[n]) && HasLevels(StateFrom(run, n))
    requires MustCompare(run[n].roomVersion, LevelsOf(StateFrom(run, n)), run[n].content.levels, key)
    ensures UserLevel(run[n].sender, StateFrom(run, n)).Ok?
    ensures EntryMoveAllowed(run[n].sender, UserLevel(run[n].sender, StateFrom(run, n)).value, key,
                             LevelsOf(StateFrom(run, n)), run[n].content.levels)
  {
    assert Accepted(run, n);
    assert PowerLevelsAllowed(run[n].roomVersion, run[n], StateFrom(run, n));
  }

  lemma CeilingStep(run: seq<Event>, n: nat, bound: int)
    requires LinearRun(run) && n < |run|
    requires bound >= 0 && Bounded(StateFrom(run, n), bound)
    ensures Bounded(StateFrom(run, n + 1), bound)
  {
    var state, event := StateFrom(run, n), run[n];
    if SetsLevels(event) {
      var before, after := LevelsOf(state), event.content.levels;
      forall key | key in after && (key.OfUser? || key == Named(UsersDefault))
        ensures IntOf(after[key]).Ok? ==> IntOf(after[key]).value <= bound
      {
        ReplacementCompared(run, n, key);
        BoundedUsers(state, bound, event.sender);
      }
    }
  }

  /** Nobody can ever raise any user above the highest level there is. */
  lemma {:induction false} CeilingHolds(run: seq<Event>, from: nat, to: nat, bound: int, user: UserId)
    requires LinearRun(run) && from <= to <= |run|
    requires bound >= 0 && Bounded(StateFrom(run, from), bound)
    ensures Bounded(StateFrom(run, to), bound)
    ensures UserLevel(user, StateFrom(run, to)).Ok? ==> UserLevel(user, StateFrom(run, to)).value <= bound
  {
    if from < to {
      CeilingHolds(run, from, to - 1, bound, user);
      CeilingStep(run, to - 1, bound);
    }
    BoundedUsers(StateFrom(run, to), bound, user);
  }

  /** Only a sender above a user's level, or the user, can change their entry. */
  lemma EntryStep(run: seq<Event>, n: nat, user: UserId, level: int)
    requires LinearRun(run) && n < |run|
    requires Holds(StateFrom(run, n), user, level)
    requires SetsLevels(run[n]) ==> run[n].sender != user
    requires SetsLevels(run[n]) && UserLevel(run[n].sender, StateFrom(run, n)).Ok? ==>
               UserLevel(run[n].sender, StateFrom(run, n)).value <= level
    ensures Holds(StateFrom(run, n + 1), user, level)
  {
    if SetsLevels(run[n]) {
      ReplacementCompared(run, n, OfUser(user));
    }
  }

  /** A user at the highest level keeps it until they themselves replace the power levels. */
  lemma {:induction false} TopUserKeepsLevel(run: seq<Event>, from: nat, to: nat, user: UserId, top: int)
    requires LinearRun(run) && from <= to <= |run|
    requires top >= 0 && Bounded(StateFrom(run, from), top)
    requires Holds(StateFrom(run, from), user, top)
    requires forall n | from <= n < to && SetsLevels(run[n]) :: run[n].sender != user
    ensures Holds(StateFrom(run, to), user, top)
    ensures UserLevel(user, StateFrom(run, to)) == Ok(top)
  {
    if from < to {
      TopUserKeepsLevel(run, from, to - 1, user, top);
      CeilingHolds(run, from, to - 1, top, run[to - 1].sender);
      EntryStep(run, to - 1, user, top);
    }
  }
}
