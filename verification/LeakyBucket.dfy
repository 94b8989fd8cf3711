/** The ideal, continuously leaking bucket that the rate limiter stands for. */
module LeakyBucket {
  import opened Ratelimiting

  /** The level of a bucket at one moment. */
  datatype Mark = Mark(level: real, at: real)

  function Leaked(level: real, rate: real, seconds: real): real {
    if level - Leak(seconds, rate) > 0.0 then level - Leak(seconds, rate) else 0.0
  }

  /** The level of a key's bucket; a key without a mark has an empty bucket. */
  function Level<K>(marks: map<K, Mark>, key: K, rate: real, now: real): real {
    if key in marks then Leaked(marks[key].level, rate, now - marks[key].at) else 0.0
  }

  /** Whether there is room for all the actions of a call. */
  predicate Fits<K>(marks: map<K, Mark>, call: Call<K>) {
    Level(marks, call.key, call.rate, call.now) + call.n as real <= call.burst as real
  }

  /** The level after a call: the actions go in if there is room for all of them. */
  function Filled<K>(marks: map<K, Mark>, call: Call<K>): real {
    Level(marks, call.key, call.rate, call.now) + if Fits(marks, call) then call.n as real else 0.0
  }

  /** Allowed if there is room; and the time from which there is room for one action more. */
  function IdealRespond<K>(marks: map<K, Mark>, call: Call<K>): Answer {
    Answer(Fits(marks, call),
           FreeTime(Filled(marks, call), call.now, call.rate, call.burst, call.now))
  }

  function IdealStep<K>(marks: map<K, Mark>, call: Call<K>): map<K, Mark> {
    if call.update then marks[call.key := Mark(Filled(marks, call), call.now)] else marks
  }

  // ---------------------------------------------------------------- runs

  /** Calls in order of time, those on one key with one leak rate; other keys may use any rates. */
  ghost predicate Schedule<K(!new)>(calls: seq<Call<K>>, key: K, rate: real) {
    && rate >= 0.0
    && (forall i | 0 <= i < |calls| && calls[i].key == key :: calls[i].rate == rate)
    && (forall i, j | 0 <= i <= j < |calls| :: calls[i].now <= calls[j].now)
  }

  /** The ideal buckets before call `n`. */
  function MarksAt<K>(calls: seq<Call<K>>, n: nat): map<K, Mark>
    requires n <= |calls|
  {
    if n == 0 then map[] else IdealStep(MarksAt(calls, n - 1), calls[n - 1])
  }

  /** The limiter's buckets before call `n`, where `prunes` says which calls prune. */
  function ActionsAt<K>(calls: seq<Call<K>>, prunes: seq<bool>, n: nat): map<K, Bucket>
    requires n <= |calls| == |prunes|
  {
    if n == 0 then map[] else Step(ActionsAt(calls, prunes, n - 1), calls[n - 1], prunes[n - 1])
  }

  function AnswerAt<K(==)>(calls: seq<Call<K>>, prunes: seq<bool>, n: nat): Answer
    requires n < |calls| == |prunes|
  {
    Respond(ActionsAt(calls, prunes, n), calls[n], prunes[n])
  }

  // ---------------------------------------------------------------- refinement

  /** The level a stored bucket stands for. */
  function StoredLevel<K>(actions: map<K, Bucket>, key: K, rate: real, now: real): real {
    if key in actions then Leaked(actions[key].count, rate, now - actions[key].start) else 0.0
  }

  /** At a given time, the stored bucket of a key stands for the ideal one. */
  ghost predicate Represents<K>(actions: map<K, Bucket>, marks: map<K, Mark>, key: K, rate: real, now: real) {
    && rate >= 0.0
    && (key in actions ==> actions[key].rate == rate && actions[key].start <= now)
    && (key in marks ==> marks[key].at <= now)
    && StoredLevel(actions, key, rate, now) == Level(marks, key, rate, now)
  }

  // The only facts about products and quotients that are needed.

  lemma Distributes(a: real, b: real, rate: real)
    ensures Leak(a + b, rate) == Leak(a, rate) + Leak(b, rate)
  {
  }

  lemma NonNegative(a: real, rate: real)
    requires a >= 0.0 && rate >= 0.0
    ensures Leak(a, rate) >= 0.0
  {
  }

  lemma DividedBound(seconds: real, surplus: real, rate: real)
    requires rate > 0.0
    ensures Leak(seconds, rate) >= surplus <==> seconds >= surplus / rate
  {
    var ratio := surplus / rate;
    assert Leak(ratio, rate) == surplus;
    if seconds >= ratio {
      NonNegative(seconds - ratio, rate);
      Distributes(seconds - ratio, ratio, rate);
    } else {
      Positive(ratio - seconds, rate);
      Distributes(ratio - seconds, seconds, rate);
    }
  }

  lemma Positive(a: real, rate: real)
    requires a > 0.0 && rate > 0.0
    ensures Leak(a, rate) > 0.0
  {
  }

  lemma DividedDifference(a: real, b: real, rate: real)
    requires rate > 0.0
    ensures (a - Leak(b, rate)) / rate == a / rate - b
  {
  }

  lemma EmptyStaysEmpty(rate: real, now: real)
    ensures Remaining(0.0, now, rate, now) == 0.0 && Leaked(0.0, rate, now - now) == 0.0
  {
    NothingRemains(rate, now);
  }

  lemma LeakTwice(level: real, rate: real, first: real, second: real)
    requires rate >= 0.0 && first >= 0.0 && second >= 0.0
    ensures Leaked(Leaked(level, rate, first), rate, second) == Leaked(level, rate, first + second)
  {
    Distributes(first, second, rate);
    NonNegative(first, rate);
    NonNegative(second, rate);
  }

  /** A level falls no faster than it leaks. */
  lemma LeaksSlowly(level: real, rate: real, first: real, second: real)
    requires rate >= 0.0 && first >= 0.0 && second >= 0.0
    ensures Leaked(level, rate, first) <= Leaked(level, rate, first + second) + Leak(second, rate)
  {
    Distributes(first, second, rate);
    NonNegative(second, rate);
  }

  /** The representation is kept while time passes. */
  lemma RepresentsLater<K>(actions: map<K, Bucket>, marks: map<K, Mark>, key: K, rate: real, now: real, later: real)
    requires Represents(actions, marks, key, rate, now) && now <= later
    ensures Represents(actions, marks, key, rate, later)
  {
    if key in actions {
      LeakTwice(actions[key].count, rate, now - actions[key].start, later - now);
    }
    if key in marks {
      LeakTwice(marks[key].level, rate, now - marks[key].at, later - now);
    }
  }

  /** A bucket that pruning removes is empty. */
  lemma ExpiredIsEmpty(bucket: Bucket, now: real)
    requires Expired(bucket, now)
    ensures Leaked(bucket.count, bucket.rate, now - bucket.start) == 0.0
  {
  }

  /** So pruning keeps every level. */
  lemma PruningKeepsLevels<K>(actions: map<K, Bucket>, marks: map<K, Mark>, key: K, rate: real, now: real)
    requires Represents(actions, marks, key, rate, now)
    ensures Represents(Pruned(actions, now), marks, key, rate, now)
  {
    if key in actions && Expired(actions[key], now) {
      ExpiredIsEmpty(actions[key], now);
      assert StoredLevel(actions, key, actions[key].rate, now) == 0.0;
    }
  }

  /** The time at which the surplus has leaked is the same, counted from the bucket's start or from now. */
  lemma SameFreeTime(count: real, start: real, rate: real, burst: int, now: real)
    ensures FreeTime(count, start, rate, burst, now) == FreeTime(Remaining(count, start, rate, now), now, rate, burst, now)
  {
    if rate > 0.0 {
      var surplus := count - burst as real + 1.0;
      DividedDifference(surplus, now - start, rate);
      assert Remaining(count, start, rate, now) - burst as real + 1.0 == surplus - Leak(now - start, rate);
    }
  }

  /** The bucket a call continues with stands for the ideal level. */
  lemma CurrentIsLevel<K>(actions: map<K, Bucket>, marks: map<K, Mark>, call: Call<K>)
    requires Represents(actions, marks, call.key, call.rate, call.now)
    ensures var (count, start) := Current(actions, call);
            start <= call.now && Remaining(count, start, call.rate, call.now) == Level(marks, call.key, call.rate, call.now)
  {
    EmptyStaysEmpty(call.rate, call.now);
  }

  /** A call is allowed as the ideal bucket allows it, and the bucket it counts in stands for the ideal one. */
  lemma CountedIsFilled<K>(actions: map<K, Bucket>, marks: map<K, Mark>, call: Call<K>)
    requires Represents(actions, marks, call.key, call.rate, call.now)
    ensures Allows(actions, call) == Fits(marks, call)
    ensures Counted(actions, call).rate == call.rate && Counted(actions, call).start <= call.now
    ensures Remaining(Counted(actions, call).count, Counted(actions, call).start, call.rate, call.now) == Filled(marks, call)
  {
    CurrentIsLevel(actions, marks, call);
    var (count, start) := Current(actions, call);
    RemainingAdds(count, call.n as real, start, call.rate, call.now);
  }

  lemma RemainingAdds(count: real, more: real, start: real, rate: real, now: real)
    ensures Remaining(count + more, start, rate, now) == Remaining(count, start, rate, now) + more
  {
  }

  lemma LevelAtMark<K>(marks: map<K, Mark>, key: K, rate: real)
    requires key in marks && marks[key].level >= 0.0
    ensures Level(marks, key, rate, marks[key].at) == marks[key].level
  {
    EmptyStaysEmpty(rate, marks[key].at);
    assert Leaked(marks[key].level, rate, 0.0) == marks[key].level;
  }

  /** One call: the limiter answers as the ideal bucket does, whether or not it prunes. */
  lemma AnswerRefinesIdeal<K>(actions: map<K, Bucket>, marks: map<K, Mark>, call: Call<K>, prune: bool)
    requires Represents(actions, marks, call.key, call.rate, call.now)
    ensures Respond(actions, call, prune) == IdealRespond(marks, call)
  {
    PruningKeepsLevels(actions, marks, call.key, call.rate, call.now);
    var kept := Kept(actions, call.now, prune);
    CountedIsFilled(kept, marks, call);
    SameFreeTime(Counted(kept, call).count, Counted(kept, call).start, call.rate, call.burst, call.now);
  }

  /** And after any call, on this key or another, the stored bucket of a key stands for the ideal one again. */
  lemma StepRefinesIdeal<K>(actions: map<K, Bucket>, marks: map<K, Mark>, key: K, rate: real, call: Call<K>, prune: bool)
    requires Represents(actions, marks, key, rate, call.now)
    requires call.key == key ==> call.rate == rate
    ensures Represents(Step(actions, call, prune), IdealStep(marks, call), key, rate, call.now)
  {
    PruningKeepsLevels(actions, marks, key, rate, call.now);
    var kept := Kept(actions, call.now, prune);
    if call.update && call.key == key {
      CountedIsFilled(kept, marks, call);
      UpdateRepresents(kept, marks, key, Counted(kept, call), Filled(marks, call), call.now);
    }
  }

  lemma UpdateRepresents<K>(actions: map<K, Bucket>, marks: map<K, Mark>, key: K, bucket: Bucket, level: real, now: real)
    requires bucket.rate >= 0.0 && bucket.start <= now
    requires Remaining(bucket.count, bucket.start, bucket.rate, now) == level >= 0.0
    ensures Represents(actions[key := bucket], marks[key := Mark(level, now)], key, bucket.rate, now)
  {
    LevelAtMark(marks[key := Mark(level, now)], key, bucket.rate);
  }

  /** Over any schedule, and whenever the limiter prunes, a key is answered as its ideal bucket answers. */
  lemma {:induction false} LimiterRefinesIdeal<K(!new)>(calls: seq<Call<K>>, prunes: seq<bool>, key: K, rate: real, n: nat)
    requires n < |calls| == |prunes|
    requires Schedule(calls, key, rate)
    ensures Represents(ActionsAt(calls, prunes, n), MarksAt(calls, n), key, rate, calls[n].now)
    ensures calls[n].key == key ==> AnswerAt(calls, prunes, n) == IdealRespond(MarksAt(calls, n), calls[n])
  {
    if n > 0 {
      LimiterRefinesIdeal(calls, prunes, key, rate, n - 1);
      StepRefinesIdeal(ActionsAt(calls, prunes, n - 1), MarksAt(calls, n - 1), key, rate, calls[n - 1], prunes[n - 1]);
      RepresentsLater(ActionsAt(calls, prunes, n), MarksAt(calls, n), key, rate, calls[n - 1].now, calls[n].now);
    }
    if calls[n].key == key {
      AnswerRefinesIdeal(ActionsAt(calls, prunes, n), MarksAt(calls, n), calls[n], prunes[n]);
    }
  }

  /** So pruning never changes an answer. */
  lemma PruningIsNeutral<K(!new)>(calls: seq<Call<K>>, some: seq<bool>, other: seq<bool>, n: nat)
    requires n < |calls| == |some| == |other|
    requires Schedule(calls, calls[n].key, calls[n].rate)
    ensures AnswerAt(calls, some, n) == AnswerAt(calls, other, n)
  {
    LimiterRefinesIdeal(calls, some, calls[n].key, calls[n].rate, n);
    LimiterRefinesIdeal(calls, other, calls[n].key, calls[n].rate, n);
  }

  // ---------------------------------------------------------------- keys are isolated

  /** The calls on one key among the first `n`. */
  function OnKey<K(==)>(calls: seq<Call<K>>, n: nat, key: K): seq<Call<K>>
    requires n <= |calls|
  {
    if n == 0 then []
    else OnKey(calls, n - 1, key) + (if calls[n - 1].key == key then [calls[n - 1]] else [])
  }

  lemma {:induction false} OnKeyGrows<K>(calls: seq<Call<K>>, n: nat, m: nat, key: K)
    requires n <= m <= |calls|
    ensures OnKey(calls, n, key) <= OnKey(calls, m, key)
  {
    if n < m {
      OnKeyGrows(calls, n, m - 1, key);
    }
  }

  lemma {:induction false} OnKeyIsSchedule<K(!new)>(calls: seq<Call<K>>, n: nat, key: K, rate: real)
    requires n <= |calls| && Schedule(calls, key, rate)
    ensures Schedule(OnKey(calls, n, key), key, rate)
    ensures forall i | 0 <= i < |OnKey(calls, n, key)| :: n > 0 && OnKey(calls, n, key)[i].now <= calls[n - 1].now
  {
    if n > 0 {
      OnKeyIsSchedule(calls, n - 1, key, rate);
    }
  }

  lemma {:induction false} MarksOfPrefix<K>(short: seq<Call<K>>, long: seq<Call<K>>, n: nat)
    requires n <= |short| && short <= long
    ensures MarksAt(short, n) == MarksAt(long, n)
  {
    if n > 0 {
      MarksOfPrefix(short, long, n - 1);
    }
  }

  /** A key's ideal bucket depends on the calls on that key alone. */
  lemma {:induction false} MarkDependsOnKeyOnly<K>(calls: seq<Call<K>>, n: nat, key: K)
    requires n <= |calls|
    ensures var own := MarksAt(OnKey(calls, n, key), |OnKey(calls, n, key)|);
            SameMark(MarksAt(calls, n), own, key)
  {
    if n > 0 {
      MarkDependsOnKeyOnly(calls, n - 1, key);
      var before := OnKey(calls, n - 1, key);
      MarksOfPrefix(before, OnKey(calls, n, key), |before|);
    }
  }

  /** The answer to a call is its answer in the run that holds only the calls on its key. */
  lemma KeysAreIsolated<K(!new)>(calls: seq<Call<K>>, prunes: seq<bool>, own: seq<bool>, n: nat)
    requires n < |calls| == |prunes|
    requires Schedule(calls, calls[n].key, calls[n].rate)
    requires |own| == |OnKey(calls, |calls|, calls[n].key)|
    ensures |OnKey(calls, n, calls[n].key)| < |own|
    ensures AnswerAt(calls, prunes, n)
         == AnswerAt(OnKey(calls, |calls|, calls[n].key), own, |OnKey(calls, n, calls[n].key)|)
  {
    var key, rate := calls[n].key, calls[n].rate;
    var all, before := OnKey(calls, |calls|, key), OnKey(calls, n, key);
    OwnPosition(calls, n);
    OnKeyIsSchedule(calls, |calls|, key, rate);
    LimiterRefinesIdeal(calls, prunes, key, rate, n);
    LimiterRefinesIdeal(all, own, key, rate, |before|);
    IdealIsIsolated(calls, n);
  }

  /** Where a call stands among the calls on its key. */
  lemma OwnPosition<K>(calls: seq<Call<K>>, n: nat)
    requires n < |calls|
    ensures var all, before := OnKey(calls, |calls|, calls[n].key), OnKey(calls, n, calls[n].key);
            |before| < |all| && before <= all && all[|before|] == calls[n]
  {
    var before := OnKey(calls, n, calls[n].key);
    OnKeyGrows(calls, n + 1, |calls|, calls[n].key);
    assert OnKey(calls, n + 1, calls[n].key) == before + [calls[n]];
  }

  lemma IdealIsIsolated<K>(calls: seq<Call<K>>, n: nat)
    requires n < |calls| && |OnKey(calls, n, calls[n].key)| <= |OnKey(calls, |calls|, calls[n].key)|
    ensures IdealRespond(MarksAt(calls, n), calls[n])
         == IdealRespond(MarksAt(OnKey(calls, |calls|, calls[n].key), |OnKey(calls, n, calls[n].key)|), calls[n])
  {
    var all, before := OnKey(calls, |calls|, calls[n].key), OnKey(calls, n, calls[n].key);
    OwnMark(calls, n);
    OwnMarkIsRead(MarksAt(calls, n), MarksAt(all, |before|), calls[n]);
  }

  /** Two states of the ideal buckets agree on a key. */
  predicate SameMark<K>(one: map<K, Mark>, other: map<K, Mark>, key: K) {
    (key in one <==> key in other) && (key in one ==> one[key] == other[key])
  }

  lemma OwnMark<K>(calls: seq<Call<K>>, n: nat)
    requires n < |calls| && |OnKey(calls, n, calls[n].key)| <= |OnKey(calls, |calls|, calls[n].key)|
    ensures SameMark(MarksAt(calls, n), MarksAt(OnKey(calls, |calls|, calls[n].key), |OnKey(calls, n, calls[n].key)|), calls[n].key)
  {
    var key := calls[n].key;
    OwnPosition(calls, n);
    MarkDependsOnKeyOnly(calls, n, key);
    MarksOfPrefix(OnKey(calls, n, key), OnKey(calls, |calls|, key), |OnKey(calls, n, key)|);
  }

  /** An ideal bucket answers from the mark of its own key. */
  lemma OwnMarkIsRead<K>(one: map<K, Mark>, other: map<K, Mark>, call: Call<K>)
    requires SameMark(one, other, call.key)
    ensures IdealRespond(one, call) == IdealRespond(other, call)
  {
    assert Level(one, call.key, call.rate, call.now) == Level(other, call.key, call.rate, call.now);
    assert Filled(one, call) == Filled(other, call);
  }

  // ---------------------------------------------------------------- the rate is enforced

  predicate AllowedAt<K(==)>(calls: seq<Call<K>>, prunes: seq<bool>, n: nat)
    requires n < |calls| == |prunes|
    ensures AllowedAt(calls, prunes, n) == AnswerAt(calls, prunes, n).allowed
  {
    Allows(Kept(ActionsAt(calls, prunes, n), calls[n].now, prunes[n]), calls[n])
  }

  /** The actions that updating calls on a key were allowed within a window of time. */
  function Permitted<K(==)>(calls: seq<Call<K>>, prunes: seq<bool>, n: nat, key: K, from: real, to: real): nat
    requires n <= |calls| == |prunes|
  {
    if n == 0 then 0
    else
      var call := calls[n - 1];
      var counts := call.key == key && call.update && from <= call.now <= to && AllowedAt(calls, prunes, n - 1);
      Permitted(calls, prunes, n - 1, key, from, to) + if counts then call.n else 0
  }

  /** A bucket around one call, on the clock that counts what leaks: its level before, what the call pours in, its level after. */
  datatype Drop = Drop(clock: real, before: real, poured: real, after: real)

  /** What call `n` puts into the ideal bucket of a key during a window. */
  function Poured<K(==)>(calls: seq<Call<K>>, n: nat, key: K, from: real, to: real): real
    requires n < |calls|
  {
    if calls[n].key == key && calls[n].update && from <= calls[n].now <= to && Fits(MarksAt(calls, n), calls[n])
    then calls[n].n as real else 0.0
  }

  function DropAt<K(==)>(calls: seq<Call<K>>, n: nat, key: K, rate: real, from: real, to: real): Drop
    requires n < |calls|
  {
    var now := calls[n].now;
    Drop(Leak(now, rate), Level(MarksAt(calls, n), key, rate, now), Poured(calls, n, key, from, to),
         Level(MarksAt(calls, n + 1), key, rate, now))
  }

  function SumPoured(drops: seq<Drop>, n: nat): real
    requires n <= |drops|
  {
    if n == 0 then 0.0 else SumPoured(drops, n - 1) + drops[n - 1].poured
  }

  /** One call pours nothing, or pours during the window and up to the burst. */
  predicate PoursWithin(drop: Drop, burst: real, open: real, close: real) {
    && 0.0 <= drop.before
    && 0.0 <= drop.poured
    && drop.before + drop.poured <= drop.after
    && (drop.poured > 0.0 ==> open <= drop.clock <= close && drop.after <= burst)
  }

  /** Between two calls the clock runs on, and the level falls by no more than the clock says. */
  predicate LeaksBetween(drop: Drop, next: Drop) {
    drop.clock <= next.clock && drop.after <= next.before + (next.clock - drop.clock)
  }

  ghost predicate LeakyTrace(drops: seq<Drop>, burst: real, open: real, close: real) {
    && (forall i | 0 <= i < |drops| :: PoursWithin(drops[i], burst, open, close))
    && (forall i | 0 < i < |drops| :: LeaksBetween(drops[i - 1], drops[i]))
  }

  /** What was poured in is still in the bucket, or has leaked out of it since the window opened. */
  lemma {:induction false} TraceIsLimited(drops: seq<Drop>, n: nat, burst: real, open: real, close: real)
    requires n <= |drops| && LeakyTrace(drops, burst, open, close)
    requires burst >= 0.0 && open <= close
    ensures n == 0 || SumPoured(drops, n) == 0.0
         || (open <= drops[n - 1].clock && SumPoured(drops, n) <= drops[n - 1].after + (drops[n - 1].clock - open))
    ensures SumPoured(drops, n) <= burst + (close - open)
  {
    if n > 0 {
      TraceIsLimited(drops, n - 1, burst, open, close);
      assert PoursWithin(drops[n - 1], burst, open, close);
      if n > 1 {
        assert LeaksBetween(drops[n - 2], drops[n - 1]);
      }
    }
  }

  lemma ClockRuns(rate: real, now: real, later: real)
    requires rate >= 0.0 && now <= later
    ensures Leak(now, rate) <= Leak(later, rate)
    ensures Leak(later - now, rate) == Leak(later, rate) - Leak(now, rate)
  {
    Distributes(later - now, now, rate);
    NonNegative(later - now, rate);
  }

  lemma {:induction false} MarksInThePast<K(!new)>(calls: seq<Call<K>>, n: nat, key: K, now: real)
    requires n <= |calls|
    requires forall i | 0 <= i < n :: calls[i].now <= now
    ensures key in MarksAt(calls, n) ==> MarksAt(calls, n)[key].at <= now
  {
    if n > 0 {
      MarksInThePast(calls, n - 1, key, now);
    }
  }

  /** A level can fall no faster than it leaks. */
  lemma LevelFallsSlowly<K>(marks: map<K, Mark>, key: K, rate: real, now: real, later: real)
    requires rate >= 0.0 && now <= later
    requires key in marks ==> marks[key].at <= now
    ensures Level(marks, key, rate, now) <= Level(marks, key, rate, later) + (Leak(later, rate) - Leak(now, rate))
  {
    ClockRuns(rate, now, later);
    if key in marks {
      var at := marks[key].at;
      LeaksSlowly(marks[key].level, rate, now - at, later - now);
      assert (now - at) + (later - now) == later - at;
    }
  }

  /** A schedule in which every call on the key has the same burst, too. */
  ghost predicate Metered<K(!new)>(calls: seq<Call<K>>, key: K, rate: real, burst: int) {
    && Schedule(calls, key, rate)
    && burst >= 0
    && (forall i | 0 <= i < |calls| && calls[i].key == key :: calls[i].burst == burst)
  }

  lemma CallPoursWithin<K(!new)>(calls: seq<Call<K>>, n: nat, key: K, rate: real, burst: int, from: real, to: real)
    requires Metered(calls, key, rate, burst) && n < |calls|
    ensures PoursWithin(DropAt(calls, n, key, rate, from, to), burst as real, Leak(from, rate), Leak(to, rate))
  {
    var marks, call, next := MarksAt(calls, n), calls[n], MarksAt(calls, n + 1);
    if call.key == key && call.update {
      assert next[key] == Mark(Filled(marks, call), call.now);
      LevelAtMark(next, key, rate);
      if from <= call.now <= to {
        ClockRuns(rate, from, call.now);
        ClockRuns(rate, call.now, to);
      }
    } else {
      assert Level(next, key, rate, call.now) == Level(marks, key, rate, call.now);
    }
  }

  lemma CallsLeakBetween<K(!new)>(calls: seq<Call<K>>, n: nat, key: K, rate: real, from: real, to: real)
    requires n + 1 < |calls| && rate >= 0.0 && calls[n].now <= calls[n + 1].now
    requires key in MarksAt(calls, n + 1) ==> MarksAt(calls, n + 1)[key].at <= calls[n].now
    ensures LeaksBetween(DropAt(calls, n, key, rate, from, to), DropAt(calls, n + 1, key, rate, from, to))
  {
    MarkLeaks(MarksAt(calls, n + 1), key, rate, DropAt(calls, n, key, rate, from, to), calls[n].now,
              DropAt(calls, n + 1, key, rate, from, to), calls[n + 1].now);
  }

  lemma MarkLeaks<K>(marks: map<K, Mark>, key: K, rate: real, drop: Drop, now: real, next: Drop, later: real)
    requires rate >= 0.0 && now <= later
    requires key in marks ==> marks[key].at <= now
    requires drop.clock == Leak(now, rate) && drop.after == Level(marks, key, rate, now)
    requires next.clock == Leak(later, rate) && next.before == Level(marks, key, rate, later)
    ensures LeaksBetween(drop, next)
  {
    LevelFallsSlowly(marks, key, rate, now, later);
    ClockRuns(rate, now, later);
  }

  /** The calls of a run make up a trace, which pours what the limiter permits; `open` and `close` are the window on its clock. */
  lemma TraceOfCalls<K(!new)>(calls: seq<Call<K>>, key: K, rate: real, burst: int, from: real, to: real)
      returns (drops: seq<Drop>, open: real, close: real)
    requires Metered(calls, key, rate, burst) && from <= to
    ensures |drops| == |calls|
    ensures forall i | 0 <= i < |drops| :: drops[i].poured == Poured(calls, i, key, from, to)
    ensures LeakyTrace(drops, burst as real, open, close)
    ensures open <= close && close - open == rate * (to - from)
  {
    drops := seq(|calls|, i requires 0 <= i < |calls| => DropAt(calls, i, key, rate, from, to));
    open, close := Leak(from, rate), Leak(to, rate);
    ClockRuns(rate, from, to);
    forall i | 0 <= i < |drops|
      ensures PoursWithin(drops[i], burst as real, open, close)
    {
      CallPoursWithin(calls, i, key, rate, burst, from, to);
    }
    forall i | 0 < i < |drops|
      ensures LeaksBetween(drops[i - 1], drops[i])
    {
      MarksInThePast(calls, i, key, calls[i - 1].now);
      CallsLeakBetween(calls, i - 1, key, rate, from, to);
    }
  }

  /** What the limiter permits is what the ideal calls pour in. */
  lemma {:induction false} PermittedIsPoured<K(!new)>(
      calls: seq<Call<K>>, prunes: seq<bool>, n: nat, key: K, rate: real, from: real, to: real, drops: seq<Drop>)
    requires n <= |calls| == |prunes| == |drops| && Schedule(calls, key, rate)
    requires forall i | 0 <= i < |drops| :: drops[i].poured == Poured(calls, i, key, from, to)
    ensures Permitted(calls, prunes, n, key, from, to) as real == SumPoured(drops, n)
  {
    if n > 0 {
      PermittedIsPoured(calls, prunes, n - 1, key, rate, from, to, drops);
      LimiterRefinesIdeal(calls, prunes, key, rate, n - 1);
    }
  }

  /** In any window of time a key is permitted at most its burst, plus what leaks during the window. */
  lemma RateIsEnforced<K(!new)>(calls: seq<Call<K>>, prunes: seq<bool>, key: K, rate: real, burst: int, from: real, to: real)
    requires |calls| == |prunes| && Metered(calls, key, rate, burst) && from <= to
    ensures Permitted(calls, prunes, |calls|, key, from, to) as real <= burst as real + rate * (to - from)
  {
    ghost var drops := PouredWithinRate(calls, key, rate, burst, from, to);
    PermittedIsPoured(calls, prunes, |calls|, key, rate, from, to, drops);
  }

  lemma PouredWithinRate<K(!new)>(calls: seq<Call<K>>, key: K, rate: real, burst: int, from: real, to: real) returns (drops: seq<Drop>)
    requires Metered(calls, key, rate, burst) && from <= to
    ensures |drops| == |calls|
    ensures forall i | 0 <= i < |drops| :: drops[i].poured == Poured(calls, i, key, from, to)
    ensures SumPoured(drops, |calls|) <= burst as real + rate * (to - from)
  {
    var open, close;
    drops, open, close := TraceOfCalls(calls, key, rate, burst, from, to);
    TraceIsLimited(drops, |drops|, burst as real, open, close);
  }

  // ---------------------------------------------------------------- the returned time is exact

  /** An ideal bucket without updates in between keeps its mark. */
  lemma {:induction false} MarkKept<K>(calls: seq<Call<K>>, i: nat, j: nat, key: K)
    requires i < j <= |calls| && calls[i].key == key && calls[i].update
    requires forall m | i < m < j && calls[m].key == key :: !calls[m].update
    ensures key in MarksAt(calls, j) && MarksAt(calls, j)[key] == Mark(Filled(MarksAt(calls, i), calls[i]), calls[i].now)
  {
    if i + 1 < j {
      MarkKept(calls, i, j - 1, key);
    }
  }

  /** There is room for one action from exactly the time at which the surplus has leaked. */
  lemma RoomFromFreeTime(level: real, at: real, rate: real, burst: int, now: real)
    requires rate > 0.0 && burst >= 1 && at <= now
    ensures Leaked(level, rate, now - at) + 1.0 <= burst as real <==> now >= FreeTime(level, at, rate, burst, at)
  {
    var surplus := level - burst as real + 1.0;
    DividedBound(now - at, surplus, rate);
    assert FreeTime(level, at, rate, burst, at) == if surplus / rate < 0.0 then at else at + surplus / rate;
    assert Leaked(level, rate, now - at) + 1.0 <= burst as real <==> Leak(now - at, rate) >= surplus;
  }

  /** After an updating call, one more action is allowed from the returned time on, and not before. */
  lemma ReturnedTimeIsExact<K(!new)>(calls: seq<Call<K>>, prunes: seq<bool>, i: nat, j: nat)
    requires i < j < |calls| == |prunes| && Schedule(calls, calls[i].key, calls[i].rate)
    requires calls[i].update && calls[i].rate > 0.0 && calls[i].burst >= 1
    requires forall m | i < m < j && calls[m].key == calls[i].key :: !calls[m].update
    requires calls[j].key == calls[i].key && calls[j].burst == calls[i].burst && calls[j].n == 1
    ensures AnswerAt(calls, prunes, j).allowed <==> calls[j].now >= AnswerAt(calls, prunes, i).timeAllowed
  {
    LimiterRefinesIdeal(calls, prunes, calls[i].key, calls[i].rate, i);
    LimiterRefinesIdeal(calls, prunes, calls[i].key, calls[i].rate, j);
    MarkKept(calls, i, j, calls[i].key);
    RoomFromFreeTime(Filled(MarksAt(calls, i), calls[i]), calls[i].now, calls[i].rate, calls[i].burst, calls[j].now);
  }

  // ---------------------------------------------------------------- recording without asking

  /** Recording raises a bucket's level by the recorded actions exactly when the bucket has not over-drained. */
  lemma RecordingIsExactUnlessDrained<K>(actions: map<K, Bucket>, key: K, n: nat, rate: real, now: real)
    requires n > 0
    ensures StoredLevel(actions[key := Recorded(actions, key, n, now)], key, rate, now)
              == StoredLevel(actions, key, rate, now) + n as real
       <==> (key in actions ==> Remaining(actions[key].count, actions[key].start, rate, now) >= 0.0)
  {
    var stored := Recorded(actions, key, n, now);
    if key in actions {
      var remaining := Remaining(actions[key].count, actions[key].start, rate, now);
      assert StoredLevel(actions, key, rate, now) == if remaining > 0.0 then remaining else 0.0;
      assert Leaked(stored.count, rate, now - stored.start) == if remaining + n as real > 0.0 then remaining + n as real else 0.0;
    } else {
      assert Leak(now - stored.start, rate) == 0.0;
    }
  }

  /** One action at time 0, leaking one a second. */
  const ONE_ACTION: map<string, Bucket> := map["key" := Bucket(1.0, 0.0, 1.0)]

  /** It got there by a call. */
  lemma OneActionIsCounted()
    ensures Step(map[], Call("key", 0.0, 1.0, 5, true, 1), true) == ONE_ACTION
  {
    FirstCall(Call("key", 0.0, 1.0, 5, true, 1));
  }

  lemma FirstCall<K>(call: Call<K>)
    requires call.update && call.n <= call.burst
    ensures Step(map[], call, true) == map[call.key := Bucket(call.n as real, call.now, call.rate)]
  {
    var none: map<K, Bucket> := map[];
    assert Kept(none, call.now, true) == none;
    assert Current(none, call) == (0.0, call.now);
    NothingRemains(call.rate, call.now);
  }

  /** By time 2 it has drained: an action recorded then leaves the bucket empty. */
  lemma RecordingForgotten()
    ensures StoredLevel(ONE_ACTION, "key", 1.0, 2.0) == 0.0
    ensures StoredLevel(ONE_ACTION["key" := Recorded(ONE_ACTION, "key", 1, 2.0)], "key", 1.0, 2.0) == 0.0
  {
    assert Leak(2.0 - 0.0, 1.0) == 2.0;
  }
}
