/** The lazily leaking rate limiter. */
module Ratelimiting {
  import opened Results

  /** Actions counted since `start`, when the bucket was last empty; it leaks at `rate` per second. */
  datatype Bucket = Bucket(count: real, start: real, rate: real)

  /** A request to perform `n` actions at time `now`; only an updating one is counted. */
  datatype Call<K> = Call(key: K, now: real, rate: real, burst: int, update: bool, n: nat)

  datatype Answer = Answer(allowed: bool, timeAllowed: real)

  /** What leaks in some time. */
  function Leak(seconds: real, rate: real): real {
    seconds * rate
  }

  /** What is left of a count after leaking since its start; negative once the bucket has drained. */
  function Remaining(count: real, start: real, rate: real, now: real): real {
    count - Leak(now - start, rate)
  }

  lemma NothingRemains(rate: real, now: real)
    ensures Remaining(0.0, now, rate, now) == 0.0
  {
  }

  predicate Expired(bucket: Bucket, now: real) {
    Remaining(bucket.count, bucket.start, bucket.rate, now) <= 0.0
  }

  function Pruned<K>(actions: map<K, Bucket>, now: real): map<K, Bucket> {
    map key | key in actions && !Expired(actions[key], now) :: actions[key]
  }

  /** The count and start time to continue with: a drained bucket starts afresh. */
  function Current<K>(actions: map<K, Bucket>, call: Call<K>): (real, real) {
    if call.key in actions
       && Remaining(actions[call.key].count, actions[call.key].start, call.rate, call.now) >= 0.0
    then (actions[call.key].count, actions[call.key].start)
    else (0.0, call.now)
  }

  /** When a count has leaked far enough for one action more; never a time in the past. */
  function FreeTime(count: real, start: real, rate: real, burst: int, now: real): real {
    if rate > 0.0 then
      var free := start + (count - burst as real + 1.0) / rate;
      if free < now then now else free
    else -1.0
  }

  predicate Allows<K>(actions: map<K, Bucket>, call: Call<K>) {
    var (count, start) := Current(actions, call);
    Remaining(count, start, call.rate, call.now) <= call.burst as real - call.n as real
  }

  /** The bucket to store for the key of a call. */
  function Counted<K>(actions: map<K, Bucket>, call: Call<K>): Bucket {
    var (count, start) := Current(actions, call);
    Bucket(if Allows(actions, call) then count + call.n as real else count, start, call.rate)
  }

  /** The buckets that a call consults: one that prunes removes the expired ones first. */
  function Kept<K>(actions: map<K, Bucket>, now: real, prune: bool): map<K, Bucket> {
    if prune then Pruned(actions, now) else actions
  }

  /** The buckets after a call. */
  function Step<K>(actions: map<K, Bucket>, call: Call<K>, prune: bool): map<K, Bucket> {
    var kept := Kept(actions, call.now, prune);
    if call.update then kept[call.key := Counted(kept, call)] else kept
  }

  /** The answer to a call, with the time from which one more action would be allowed. */
  function Respond<K>(actions: map<K, Bucket>, call: Call<K>, prune: bool): Answer {
    var kept := Kept(actions, call.now, prune);
    var counted := Counted(kept, call);
    Answer(Allows(kept, call), FreeTime(counted.count, counted.start, call.rate, call.burst, call.now))
  }

  class Ratelimiter<K(==)> {
    const rateHz: real
    const burstCount: int
    var actions: map<K, Bucket>

    constructor (rateHz: real, burstCount: int)
      ensures this.rateHz == rateHz && this.burstCount == burstCount && actions == map[]
    {
      this.rateHz := rateHz;
      this.burstCount := burstCount;
      actions := map[];
    }

    /** Deletes the buckets that have drained. */
    method PruneMessageCounts(now: real)
      modifies this`actions
      ensures actions == Pruned(old(actions), now)
      ensures forall key :: key in actions <==>
                key in old(actions) && old(actions)[key].count > Leak(now - old(actions)[key].start, old(actions)[key].rate)
      ensures forall key | key in actions :: actions[key] == old(actions)[key]
    {
      var keys := actions.Keys;
      while keys != {}
        invariant keys <= actions.Keys
        invariant actions == map key | key in old(actions) && (key in keys || !Expired(old(actions)[key], now)) :: old(actions)[key]
      {
        var key :| key in keys;
        keys := keys - {key};
        if Expired(actions[key], now) {
          actions := actions - {key};
        }
      }
    }

    /** `exempt` says that the requester is not rate-limited at all. */
    method CanDoAction(exempt: bool, key: K, rate: Option<real>, burst: Option<int>, update: bool, n: nat, now: real)
        returns (allowed: bool, timeAllowed: real)
      modifies this`actions
      ensures exempt ==> allowed && timeAllowed == -1.0 && actions == old(actions)
      ensures !exempt ==>
        var r, b := (if rate == None then rateHz else rate.value), (if burst == None then burstCount else burst.value);
        var call := Call(key, now, r, b, update, n);
        && Answer(allowed, timeAllowed) == Respond(old(actions), call, true)
        && actions == Step(old(actions), call, true)
        && (key !in old(actions) ==> (allowed <==> n <= b))
        && (if r > 0.0 then timeAllowed >= now else timeAllowed == -1.0)
        && (if update then key in actions && actions[key].rate == r else actions == Pruned(old(actions), now))
    {
      if exempt {
        return true, -1.0;
      }
      var rateHz := if rate.Some? then rate.value else rateHz;
      var burstCount := if burst.Some? then burst.value else burstCount;
      PruneMessageCounts(now);
      var count, start := 0.0, now;
      if key in actions {
        count, start := actions[key].count, actions[key].start;
      }
      NothingRemains(rateHz, now);
      var performed := Remaining(count, start, rateHz, now);
      if performed < 0.0 {
        performed, count, start := 0.0, 0.0, now;
      }
      if performed > burstCount as real - n as real {
        allowed := false;
      } else {
        allowed := true;
        count := count + n as real;
      }
      if update {
        actions := actions[key := Bucket(count, start, rateHz)];
      }
      timeAllowed := FreeTime(count, start, rateHz, burstCount, now);
    }

    /** Counts actions that happened anyway; unlike a call, it neither prunes nor restarts the bucket. */
    method RecordAction(key: K, n: nat, now: real)
      modifies this`actions
      ensures actions == old(actions)[key := Recorded(old(actions), key, n, now)]
      ensures key in old(actions) ==> actions[key] == old(actions)[key].(count := old(actions)[key].count + n as real)
      ensures key !in old(actions) ==> actions[key] == Bucket(n as real, now, 0.0)
    {
      var count, start, rate := 0.0, now, 0.0;
      if key in actions {
        count, start, rate := actions[key].count, actions[key].start, actions[key].rate;
      }
      actions := actions[key := Bucket(count + n as real, start, rate)];
    }
  }

  function Recorded<K>(actions: map<K, Bucket>, key: K, n: nat, now: real): Bucket {
    if key in actions then actions[key].(count := actions[key].count + n as real) else Bucket(n as real, now, 0.0)
  }
}
