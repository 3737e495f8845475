/** The fixed-window request limiter: its bucket table, and what it promises over whole runs. */
module Limiter {
  datatype Bucket = Bucket(windowStart: int, count: nat)

  datatype Policy = Policy(maxRequests: nat, windowSeconds: nat)

  datatype Decision = Decision(permitted: bool, retryAfterSeconds: nat)

  /** Times are in milliseconds. */
  datatype Call = Call(key: string, policy: Policy, now: int)

  type Buckets = map<string, Bucket>

  function Window(policy: Policy): nat {
    policy.windowSeconds * 1000
  }

  /** Math.ceil of a number of milliseconds over a thousand, at least 1. */
  function Seconds(milliseconds: int): (r: nat)
    ensures r >= 1 && r * 1000 >= milliseconds
    ensures r > 1 ==> (r - 1) * 1000 < milliseconds
  {
    var ceiling := (milliseconds + 999) / 1000;
    if ceiling > 1 then ceiling else 1
  }

  function Active(buckets: Buckets, call: Call): Bucket {
    if call.key !in buckets || call.now >= buckets[call.key].windowStart + Window(call.policy) then Bucket(call.now, 0)
    else buckets[call.key]
  }

  function Decide(buckets: Buckets, call: Call): Decision {
    var active := Active(buckets, call);
    if active.count >= call.policy.maxRequests
    then Decision(false, Seconds(active.windowStart + Window(call.policy) - call.now))
    else Decision(true, 0)
  }

  function Consumed(buckets: Buckets, call: Call): Buckets {
    var active := Active(buckets, call);
    if active.count >= call.policy.maxRequests then buckets
    else buckets[call.key := active.(count := active.count + 1)]
  }

  class FixedWindowLimiter {
    var buckets: Buckets

    constructor ()
      ensures buckets == map[]
    {
      buckets := map[];
    }

    method Consume(key: string, policy: Policy, now: int) returns (decision: Decision)
      modifies this
      ensures buckets == Consumed(old(buckets), Call(key, policy, now))
      ensures decision == Decide(old(buckets), Call(key, policy, now))
    {
      var window := policy.windowSeconds * 1000;
      var active := Bucket(now, 0);
      if key in buckets && now < buckets[key].windowStart + window {
        active := buckets[key];
      }
      if active.count >= policy.maxRequests {
        var retryAfterSeconds := Seconds(active.windowStart + window - now);
        return Decision(false, retryAfterSeconds);
      }
      active := active.(count := active.count + 1);
      buckets := buckets[key := active];
      return Decision(true, 0);
    }
  }

  // ----- runs

  function After(buckets: Buckets, calls: seq<Call>): Buckets {
    if calls == [] then buckets else Consumed(After(buckets, calls[..|calls| - 1]), calls[|calls| - 1])
  }

  predicate Permitted(calls: seq<Call>, call: Call) {
    Decide(After(map[], calls), call).permitted
  }

  /** How many calls on the key were allowed at times from lo on, and no later than hi. */
  function Allowed(calls: seq<Call>, key: string, lo: int, hi: int): nat {
    if calls == [] then 0
    else
      var earlier, last := calls[..|calls| - 1], calls[|calls| - 1];
      Allowed(earlier, key, lo, hi)
        + if last.key == key && lo <= last.now <= hi && Permitted(earlier, last) then 1 else 0
  }

  function AllowedFrom(calls: seq<Call>, key: string, lo: int): nat {
    if calls == [] then 0
    else
      var earlier, last := calls[..|calls| - 1], calls[|calls| - 1];
      AllowedFrom(earlier, key, lo) + if last.key == key && lo <= last.now && Permitted(earlier, last) then 1 else 0
  }

  /** The clock never goes back. */
  predicate Ticking(calls: seq<Call>) {
    forall i: nat, j: nat :: i < j < |calls| ==> calls[i].now <= calls[j].now
  }

  /** The key is always used with this policy, which the configuration keeps positive. */
  predicate Governed(calls: seq<Call>, key: string, policy: Policy) {
    && policy.maxRequests >= 1 && policy.windowSeconds >= 1
    && forall i: nat :: i < |calls| && calls[i].key == key ==> calls[i].policy == policy
  }

  lemma Split(calls: seq<Call>, key: string, policy: Policy)
    requires calls != [] && Governed(calls, key, policy)
    ensures Governed(calls[..|calls| - 1], key, policy)
    ensures calls[|calls| - 1].key == key ==> calls[|calls| - 1].policy == policy
    ensures Ticking(calls) ==> Ticking(calls[..|calls| - 1])
  {
  }

  /** What the key's bucket says about all the calls it has let through since a given moment. */
  predicate Covers(bucket: Bucket, policy: Policy, lo: int, allowedFrom: nat) {
    var start, count := bucket.windowStart, bucket.count;
    && 1 <= count <= policy.maxRequests
    && (lo >= start + Window(policy) ==> allowedFrom == 0)
    && (lo > start ==> allowedFrom <= count - 1)
    && (lo == start ==> allowedFrom <= count)
    && (start - Window(policy) < lo < start ==> allowedFrom <= count + policy.maxRequests - 1)
    && (lo == start - Window(policy) ==> allowedFrom <= count + policy.maxRequests)
  }

  lemma {:induction false} BucketCovers(calls: seq<Call>, key: string, policy: Policy, lo: int)
    requires Governed(calls, key, policy)
    ensures key in After(map[], calls) ==> Covers(After(map[], calls)[key], policy, lo, AllowedFrom(calls, key, lo))
    ensures key !in After(map[], calls) ==> AllowedFrom(calls, key, lo) == 0
  {
    if calls != [] {
      Split(calls, key, policy);
      BucketCovers(calls[..|calls| - 1], key, policy, lo);
    }
  }

  /** No allowed call comes before its bucket's window, so the newest window reaches the last one. */
  lemma {:induction false} WindowsStart(calls: seq<Call>, key: string, policy: Policy)
    requires Governed(calls, key, policy) && Ticking(calls)
    ensures key in After(map[], calls) ==> calls != [] && After(map[], calls)[key].windowStart <= calls[|calls| - 1].now
  {
    if calls != [] {
      Split(calls, key, policy);
      WindowsStart(calls[..|calls| - 1], key, policy);
    }
  }

  lemma {:induction false} AllowedAtMost(calls: seq<Call>, key: string, lo: int, hi: int)
    ensures Allowed(calls, key, lo, hi) <= AllowedFrom(calls, key, lo)
  {
    if calls != [] {
      AllowedAtMost(calls[..|calls| - 1], key, lo, hi);
    }
  }

  /**
   The limit over whole runs: however calls on all keys interleave, a closed interval one window long
   holds at most twice the allowance of a key, and an interval without its end point at most one less.
   */
  lemma {:induction false} AtMostTwice(calls: seq<Call>, key: string, policy: Policy, lo: int)
    requires Governed(calls, key, policy) && Ticking(calls)
    ensures Allowed(calls, key, lo, lo + policy.windowSeconds * 1000) <= 2 * policy.maxRequests
    ensures Allowed(calls, key, lo, lo + policy.windowSeconds * 1000 - 1) <= 2 * policy.maxRequests - 1
  {
    if calls != [] {
      var last := calls[|calls| - 1];
      Split(calls, key, policy);
      AtMostTwice(calls[..|calls| - 1], key, policy, lo);
      BucketCovers(calls, key, policy, lo);
      WindowsStart(calls, key, policy);
      AllowedAtMost(calls, key, lo, lo + Window(policy));
      AllowedAtMost(calls, key, lo, lo + Window(policy) - 1);
    }
  }

  // ----- the bound is reached

  /** n calls on one key at one moment. */
  function Burst(key: string, policy: Policy, now: int, n: nat): (calls: seq<Call>)
    ensures |calls| == n && forall i: nat :: i < n ==> calls[i] == Call(key, policy, now)
  {
    seq(n, _ => Call(key, policy, now))
  }

  lemma BurstMore(before: seq<Call>, key: string, policy: Policy, now: int, n: nat)
    ensures before + Burst(key, policy, now, 0) == before
    ensures n > 0 ==>
            before + Burst(key, policy, now, n) == (before + Burst(key, policy, now, n - 1)) + [Call(key, policy, now)]
  {
  }

  /** The key's bucket is full of n calls made at one moment. */
  predicate Holds(calls: seq<Call>, key: string, now: int, n: nat) {
    key in After(map[], calls) && After(map[], calls)[key] == Bucket(now, n)
  }

  predicate Idle(calls: seq<Call>, key: string, policy: Policy, now: int) {
    key in After(map[], calls) ==> now >= After(map[], calls)[key].windowStart + Window(policy)
  }

  lemma {:induction false} OneMore(calls: seq<Call>, call: Call, n: nat, lo: int, hi: int)
    requires n < call.policy.maxRequests && call.policy.windowSeconds >= 1 && lo <= call.now <= hi
    requires if n == 0 then Idle(calls, call.key, call.policy, call.now) else Holds(calls, call.key, call.now, n)
    ensures Holds(calls + [call], call.key, call.now, n + 1)
    ensures Allowed(calls + [call], call.key, lo, hi) == Allowed(calls, call.key, lo, hi) + 1
  {
    assert (calls + [call])[..|calls|] == calls;
  }

  lemma {:induction false} BurstAllowed(before: seq<Call>, key: string, policy: Policy, now: int, n: nat, lo: int,
                                        hi: int)
    requires n <= policy.maxRequests && policy.windowSeconds >= 1 && lo <= now <= hi
    requires Idle(before, key, policy, now)
    ensures Allowed(before + Burst(key, policy, now, n), key, lo, hi) == Allowed(before, key, lo, hi) + n
    ensures n > 0 ==> Holds(before + Burst(key, policy, now, n), key, now, n)
  {
    BurstMore(before, key, policy, now, n);
    if n > 0 {
      BurstMore(before, key, policy, now, n - 1);
      BurstAllowed(before, key, policy, now, n - 1, lo, hi);
      OneMore(before + Burst(key, policy, now, n - 1), Call(key, policy, now), n - 1, lo, hi);
    }
  }

  /** A full window, and another one as soon as it is over. */
  function TwoBursts(key: string, policy: Policy): seq<Call> {
    [] + Burst(key, policy, 0, policy.maxRequests) + Burst(key, policy, policy.windowSeconds * 1000, policy.maxRequests)
  }

  /** Twice the allowance is reached, for every policy. */
  lemma {:induction false} TwiceIsReached(key: string, policy: Policy)
    requires policy.maxRequests >= 1 && policy.windowSeconds >= 1
    ensures Governed(TwoBursts(key, policy), key, policy) && Ticking(TwoBursts(key, policy))
    ensures Allowed(TwoBursts(key, policy), key, 0, policy.windowSeconds * 1000) == 2 * policy.maxRequests
  {
    var first := [] + Burst(key, policy, 0, policy.maxRequests);
    BurstAllowed([], key, policy, 0, policy.maxRequests, 0, Window(policy));
    BurstAllowed(first, key, policy, Window(policy), policy.maxRequests, 0, Window(policy));
  }

  // ----- retrying

  /** Calls on other keys leave a key's bucket alone. */
  lemma {:induction false} OthersApart(buckets: Buckets, others: seq<Call>, key: string)
    requires forall i: nat :: i < |others| ==> others[i].key != key
    ensures key in After(buckets, others) <==> key in buckets
    ensures key in buckets ==> After(buckets, others)[key] == buckets[key]
  {
    if others != [] {
      OthersApart(buckets, others[..|others| - 1], key);
    }
  }

  /**
   The advice is enough: from any table, a caller that is refused and waits the seconds it is told is
   let through, whatever other keys do meanwhile, exactly when the policy allows any call at all.
   */
  lemma {:induction false} WaitingIsEnough(buckets: Buckets, refused: Call, others: seq<Call>, again: Call)
    requires again.key == refused.key && again.policy == refused.policy
    requires forall i: nat :: i < |others| ==> others[i].key != refused.key
    requires !Decide(buckets, refused).permitted
    requires again.now >= refused.now + Decide(buckets, refused).retryAfterSeconds * 1000
    ensures Decide(After(Consumed(buckets, refused), others), again).permitted <==> refused.policy.maxRequests > 0
  {
    OthersApart(Consumed(buckets, refused), others, refused.key);
  }

  /** And it is never a whole second too long: one second less, and the caller is refused again. */
  lemma {:induction false} WaitingLessIsNot(buckets: Buckets, refused: Call, others: seq<Call>, again: Call)
    requires again.key == refused.key && again.policy == refused.policy
    requires forall i: nat :: i < |others| ==> others[i].key != refused.key
    requires !Decide(buckets, refused).permitted && Decide(buckets, refused).retryAfterSeconds > 1
    requires again.now <= refused.now + (Decide(buckets, refused).retryAfterSeconds - 1) * 1000
    ensures !Decide(After(Consumed(buckets, refused), others), again).permitted
  {
    OthersApart(Consumed(buckets, refused), others, refused.key);
  }
}
