// The token bucket of app/security/rate_limit.py: one bucket per key, refilled lazily when a call
// arrives. Time and tokens are reals.
module RateLimit {
  import opened Common

  // What a policy amounts to: max(burst, 1) tokens of room and max(rpm, 1) / 60 tokens a second.
  datatype AnyLimits = Limits(capacity: real, rate: real)
  type Limits = l: AnyLimits | l.capacity >= 1.0 && l.rate > 0.0 witness Limits(1.0, 1.0)

  datatype Policy = Policy(requestsPerMinute: int, burst: int) {
    function RefillPerSecond(): (rate: real)
      ensures rate > 0.0
    {
      (if requestsPerMinute > 1 then requestsPerMinute else 1) as real / 60.0
    }

    function Capacity(): (capacity: int)
      ensures capacity >= 1
    {
      if burst > 1 then burst else 1
    }

    function Limits(): Limits {
      AnyLimits.Limits(Capacity() as real, RefillPerSecond())
    }
  }

  datatype Bucket = Bucket(tokens: real, updatedAt: real)

  function Min(a: real, b: real): real { if a < b then a else b }

  function Max(a: real, b: real): real { if a < b then b else a }

  function Refill(p: Limits, seconds: real): real { seconds * p.rate }

  // The tokens a call at time now finds, after the lazy refill.
  function Level(p: Limits, b: Bucket, now: real): real {
    Min(p.capacity, b.tokens + Refill(p, Max(now - b.updatedAt, 0.0)))
  }

  function Answer(p: Limits, b: Option<Bucket>, now: real): bool {
    b.None? || Level(p, b.value, now) >= 1.0
  }

  function After(p: Limits, b: Option<Bucket>, now: real): Bucket {
    if b.None? then Bucket(p.capacity - 1.0, now)
    else if Level(p, b.value, now) < 1.0 then Bucket(Level(p, b.value, now), now)
    else Bucket(Level(p, b.value, now) - 1.0, now)
  }

  class RateLimiter {
    var buckets: map<string, Bucket>

    constructor ()
      ensures buckets == map[]
    {
      buckets := map[];
    }

    ghost function BucketOf(key: string): Option<Bucket>
      reads this
    {
      Lookup(buckets, key)
    }

    method Allow(key: string, policy: Policy, now: real) returns (allowed: bool)
      modifies this
      ensures allowed == Answer(policy.Limits(), old(BucketOf(key)), now)
      ensures buckets == old(buckets)[key := After(policy.Limits(), old(BucketOf(key)), now)]
    {
      var capacity := policy.Capacity();
      if key !in buckets {
        buckets := buckets[key := Bucket((capacity - 1) as real, now)];
        return true;
      }
      var bucket := buckets[key];
      var elapsed := Max(now - bucket.updatedAt, 0.0);
      bucket := bucket.(tokens := Min(capacity as real, bucket.tokens + elapsed * policy.RefillPerSecond()));
      bucket := bucket.(updatedAt := now);
      if bucket.tokens < 1.0 {
        buckets := buckets[key := bucket];
        return false;
      }
      bucket := bucket.(tokens := bucket.tokens - 1.0);
      buckets := buckets[key := bucket];
      return true;
    }
  }

  // ----- Traces of one key -----

  function Answers(p: Limits, b: Option<Bucket>, times: seq<real>): (answers: seq<bool>)
    ensures |answers| == |times|
    decreases times
  {
    if times == [] then []
    else [Answer(p, b, times[0])] + Answers(p, Some(After(p, b, times[0])), times[1..])
  }

  // The bucket left behind by a non-empty trace, or b itself.
  function Finally(p: Limits, b: Option<Bucket>, times: seq<real>): Option<Bucket>
    decreases times
  {
    if times == [] then b else Finally(p, Some(After(p, b, times[0])), times[1..])
  }

  ghost predicate NonDecreasing(times: seq<real>) {
    forall i, j | 0 <= i <= j < |times| :: times[i] <= times[j]
  }

  ghost predicate NotBefore(b: Option<Bucket>, times: seq<real>) {
    b.Some? ==> forall i | 0 <= i < |times| :: b.value.updatedAt <= times[i]
  }

  // Every bucket a limiter ever stores is of this kind.
  ghost predicate InRange(p: Limits, b: Option<Bucket>) {
    b.Some? ==> 0.0 <= b.value.tokens <= p.capacity
  }

  lemma {:induction false} TokensStayInRange(p: Limits, b: Option<Bucket>, times: seq<real>)
    requires InRange(p, b)
    ensures InRange(p, Finally(p, b, times))
    decreases times
  {
    if times != [] {
      AfterInRange(p, b, times[0]);
      TokensStayInRange(p, Some(After(p, b, times[0])), times[1..]);
    }
  }

  lemma RefillNonNegative(p: Limits, d: real)
    requires d >= 0.0
    ensures Refill(p, d) >= 0.0
  {}

  lemma AfterInRange(p: Limits, b: Option<Bucket>, now: real)
    requires InRange(p, b)
    ensures InRange(p, Some(After(p, b, now)))
  {
    if b.Some? {
      RefillNonNegative(p, Max(now - b.value.updatedAt, 0.0));
    }
  }

  // ----- Denied calls are invisible -----

  // Two buckets that no later call can tell apart.
  ghost predicate Alike(p: Limits, a: Option<Bucket>, b: Option<Bucket>, now: real) {
    if a.Some? && b.Some? then
      a.value.updatedAt <= now && b.value.updatedAt <= now && Level(p, a.value, now) == Level(p, b.value, now)
    else a == b
  }

  // Refilling twice, once at t and once at u, is the same as refilling once at u.
  lemma LevelSplits(p: Limits, b: Bucket, t: real, u: real)
    requires b.updatedAt <= t <= u
    ensures Level(p, b, u) == Level(p, Bucket(Level(p, b, t), t), u)
  {
    RefillAdds(p, t - b.updatedAt, u - t);
    RefillNonNegative(p, u - t);
  }

  lemma AlikeLater(p: Limits, a: Option<Bucket>, b: Option<Bucket>, t: real, u: real)
    requires t <= u && Alike(p, a, b, t)
    ensures Alike(p, a, b, u)
  {
    if a.Some? && b.Some? {
      LevelSplits(p, a.value, t, u);
      LevelSplits(p, b.value, t, u);
    }
  }

  function Erase<T>(xs: seq<T>, keep: seq<bool>): seq<T>
    requires |xs| == |keep|
  {
    if xs == [] then []
    else (if keep[0] then [xs[0]] else []) + Erase(xs[1..], keep[1..])
  }

  lemma {:induction false} ErasureSimulates(p: Limits, a: Option<Bucket>, b: Option<Bucket>, now: real,
                                            times: seq<real>, keep: seq<bool>)
    requires |times| == |keep| && NonDecreasing(times)
    requires forall i | 0 <= i < |times| :: now <= times[i]
    requires Alike(p, a, b, now)
    requires forall i | 0 <= i < |times| :: Answers(p, a, times)[i] ==> keep[i]
    ensures Answers(p, b, Erase(times, keep)) == Erase(Answers(p, a, times), keep)
    decreases times
  {
    if times != [] {
      var t := times[0];
      AlikeLater(p, a, b, now, t);
      var a' := Some(After(p, a, t));
      AnswersUnfold(p, a, times);
      assert forall i | 0 <= i < |times[1..]| :: Answers(p, a', times[1..])[i] ==> keep[1..][i] by {
        assert Answers(p, a', times[1..]) == Answers(p, a, times)[1..];
      }
      OneCallAlike(p, a, b, t);
      if keep[0] {
        AnswersUnfold(p, b, Erase(times, keep));
        ErasureSimulates(p, a', Some(After(p, b, t)), t, times[1..], keep[1..]);
        assert Erase(times, keep)[1..] == Erase(times[1..], keep[1..]);
      } else {
        ErasureSimulates(p, a', b, t, times[1..], keep[1..]);
        assert Erase(times, keep) == Erase(times[1..], keep[1..]);
      }
    }
  }

  lemma OneCallAlike(p: Limits, a: Option<Bucket>, b: Option<Bucket>, t: real)
    requires Alike(p, a, b, t)
    ensures Answer(p, a, t) == Answer(p, b, t)
    ensures Alike(p, Some(After(p, a, t)), Some(After(p, b, t)), t)
    ensures !Answer(p, a, t) ==> Alike(p, Some(After(p, a, t)), b, t)
  {
    RefillNonNegative(p, 0.0);
  }

  // Erasing any denied calls from a trace (keep marks what stays, and keeps every allowed call)
  // leaves every other answer as it was.
  lemma DeniedCallsAreInvisible(p: Limits, b: Option<Bucket>, times: seq<real>, keep: seq<bool>)
    requires |times| == |keep| && NonDecreasing(times) && NotBefore(b, times)
    requires forall i | 0 <= i < |times| :: Answers(p, b, times)[i] ==> keep[i]
    ensures Answers(p, b, Erase(times, keep)) == Erase(Answers(p, b, times), keep)
  {
    if times != [] {
      ErasureSimulates(p, b, b, times[0], times, keep);
    }
  }

  // ----- The window bound -----

  function CountTrue(answers: seq<bool>): nat {
    if answers == [] then 0 else (if answers[0] then 1 else 0) + CountTrue(answers[1..])
  }

  // How far the clock moved forward along a trace, ignoring every step back.
  function Advance(from: real, times: seq<real>): real
    decreases times
  {
    if times == [] then 0.0 else Max(times[0] - from, 0.0) + Advance(times[0], times[1..])
  }

  lemma RefillAdds(p: Limits, x: real, y: real)
    ensures Refill(p, x) + Refill(p, y) == Refill(p, x + y)
  {}

  // The accounts of one call: what it spends and what it leaves were there before or were refilled.
  lemma OneCall(p: Limits, b: Bucket, now: real)
    requires InRange(p, Some(b))
    ensures InRange(p, Some(After(p, Some(b), now))) && After(p, Some(b), now).updatedAt == now
    ensures (if Answer(p, Some(b), now) then 1.0 else 0.0) + After(p, Some(b), now).tokens
            <= b.tokens + Refill(p, Max(now - b.updatedAt, 0.0))
  {
    AfterInRange(p, Some(b), now);
  }

  lemma AnswersUnfold(p: Limits, b: Option<Bucket>, times: seq<real>)
    requires times != []
    ensures Answers(p, b, times)[0] == Answer(p, b, times[0])
    ensures Answers(p, b, times)[1..] == Answers(p, Some(After(p, b, times[0])), times[1..])
  {}

  lemma {:induction false} AllowedFromBucket(p: Limits, b: Bucket, times: seq<real>)
    requires InRange(p, Some(b))
    ensures CountTrue(Answers(p, Some(b), times)) as real
            <= b.tokens + Refill(p, Advance(b.updatedAt, times))
    decreases times
  {
    if times != [] {
      AnswersUnfold(p, Some(b), times);
      OneCall(p, b, times[0]);
      AllowedFromBucket(p, After(p, Some(b), times[0]), times[1..]);
      RefillAdds(p, Max(times[0] - b.updatedAt, 0.0), Advance(times[0], times[1..]));
    }
  }

  // Whatever order the clock readings reach the bucket in, a stretch of calls that starts with a
  // call at time times[0] allows at most the capacity plus what refills while the clock advances.
  lemma {:induction false} AllowedInAnyOrder(p: Limits, b: Option<Bucket>, times: seq<real>)
    requires InRange(p, b) && times != []
    ensures CountTrue(Answers(p, b, times)) as real
            <= p.capacity + Refill(p, Advance(times[0], times[1..]))
  {
    AnswersUnfold(p, b, times);
    AfterInRange(p, b, times[0]);
    AfterLeavesRoom(p, b, times[0]);
    AllowedFromBucket(p, After(p, b, times[0]), times[1..]);
  }

  lemma AfterLeavesRoom(p: Limits, b: Option<Bucket>, now: real)
    requires InRange(p, b)
    ensures (if Answer(p, b, now) then 1.0 else 0.0) + After(p, b, now).tokens <= p.capacity
    ensures After(p, b, now).updatedAt == now
  {}

  function AllowedBetween(times: seq<real>, answers: seq<bool>, lo: real, hi: real): nat
    requires |times| == |answers|
  {
    if times == [] then 0
    else (if answers[0] && lo <= times[0] <= hi then 1 else 0) + AllowedBetween(times[1..], answers[1..], lo, hi)
  }

  lemma {:induction false} AllowedUpTo(p: Limits, b: Bucket, times: seq<real>, lo: real, hi: real)
    requires InRange(p, Some(b)) && NonDecreasing(times) && NotBefore(Some(b), times)
    requires b.updatedAt <= hi
    ensures AllowedBetween(times, Answers(p, Some(b), times), lo, hi) as real
            <= b.tokens + Refill(p, hi - b.updatedAt)
    decreases times
  {
    RefillNonNegative(p, hi - b.updatedAt);
    if times != [] {
      var t := times[0];
      if t <= hi {
        AnswersUnfold(p, Some(b), times);
        OneCall(p, b, t);
        AllowedUpTo(p, After(p, Some(b), t), times[1..], lo, hi);
        RefillAdds(p, t - b.updatedAt, hi - t);
      } else {
        NoneAfter(times, Answers(p, Some(b), times), lo, hi);
      }
    }
  }

  lemma {:induction false} NoneAfter(times: seq<real>, answers: seq<bool>, lo: real, hi: real)
    requires |times| == |answers| && NonDecreasing(times)
    requires times != [] && hi < times[0]
    ensures AllowedBetween(times, answers, lo, hi) == 0
  {
    if |times| > 1 {
      assert times[0] <= times[1];
      NoneAfter(times[1..], answers[1..], lo, hi);
    }
  }

  // Any time window [lo, hi] allows at most max(burst, 1) + (hi - lo) * max(rpm, 1) / 60 calls.
  lemma {:induction false} WindowBound(p: Limits, b: Option<Bucket>, times: seq<real>, lo: real, hi: real)
    requires InRange(p, b) && NonDecreasing(times) && NotBefore(b, times) && lo <= hi
    ensures AllowedBetween(times, Answers(p, b, times), lo, hi) as real
            <= p.capacity + Refill(p, hi - lo)
    decreases times
  {
    RefillNonNegative(p, hi - lo);
    if times != [] {
      var t := times[0];
      AnswersUnfold(p, b, times);
      AfterInRange(p, b, t);
      AfterLeavesRoom(p, b, t);
      if t < lo {
        WindowBound(p, Some(After(p, b, t)), times[1..], lo, hi);
      } else if t <= hi {
        AllowedUpTo(p, After(p, b, t), times[1..], lo, hi);
        RefillAdds(p, hi - t, t - lo);
        RefillNonNegative(p, t - lo);
      } else {
        NoneAfter(times, Answers(p, b, times), lo, hi);
      }
    }
  }

  lemma {:induction false} AnswersOfStart(p: Limits, b: Option<Bucket>, times: seq<real>, j: nat)
    requires j <= |times|
    ensures Answers(p, b, times[..j]) == Answers(p, b, times)[..j]
    decreases j
  {
    if j > 0 {
      AnswersUnfold(p, b, times);
      AnswersUnfold(p, b, times[..j]);
      AnswersOfStart(p, Some(After(p, b, times[0])), times[1..], j - 1);
      assert times[..j][1..] == times[1..][..j - 1];
      assert Answers(p, b, times)[..j] == [Answers(p, b, times)[0]] + Answers(p, b, times)[1..][..j - 1];
    }
  }

  lemma SliceOfRest<T>(s: seq<T>, i: nat, j: nat)
    requires 0 < i <= j <= |s|
    ensures s[1..][i - 1..j - 1] == s[i..j]
  {}

  // The same for any stretch of calls within a trace.
  lemma {:induction false} AllowedInAnyStretch(p: Limits, b: Option<Bucket>, times: seq<real>, i: nat, j: nat)
    requires InRange(p, b) && i < j <= |times|
    ensures CountTrue(Answers(p, b, times)[i..j]) as real <= p.capacity + Refill(p, Advance(times[i], times[i + 1..j]))
    decreases i
  {
    if i == 0 {
      AnswersOfStart(p, b, times, j);
      AllowedInAnyOrder(p, b, times[..j]);
      assert times[..j][1..] == times[1..j];
    } else {
      var b' := Some(After(p, b, times[0]));
      AfterInRange(p, b, times[0]);
      AnswersUnfold(p, b, times);
      AllowedInAnyStretch(p, b', times[1..], i - 1, j - 1);
      SliceOfRest(times, i + 1, j);
      SliceOfRest(Answers(p, b, times), i, j);
    }
  }

  lemma {:induction false} StretchHoldsWindow(times: seq<real>, answers: seq<bool>, lo: real, hi: real, i: nat, j: nat)
    requires |times| == |answers| && i <= j <= |times|
    requires forall k | 0 <= k < |times| && lo <= times[k] <= hi :: i <= k < j
    ensures AllowedBetween(times, answers, lo, hi) <= CountTrue(answers[i..j])
  {
    if times != [] {
      var i', j' := if i > 0 then i - 1 else 0, if j > 0 then j - 1 else 0;
      forall k | 0 <= k < |times[1..]| && lo <= times[1..][k] <= hi
        ensures i' <= k < j'
      {
        assert times[1..][k] == times[k + 1];
      }
      StretchHoldsWindow(times[1..], answers[1..], lo, hi, i', j');
      if i == 0 && j > 0 {
        assert answers[..j][1..] == answers[1..][..j'];
      } else {
        assert answers[i..j] == answers[1..][i'..j'];
      }
    }
  }

  // Whatever the order, a time window allows at most the capacity plus what refills while the clock
  // advances over the stretch of calls from the first to the last one inside it.
  lemma WindowInAnyOrder(p: Limits, b: Option<Bucket>, times: seq<real>, lo: real, hi: real, i: nat, j: nat)
    requires InRange(p, b) && i < j <= |times|
    requires forall k | 0 <= k < |times| && lo <= times[k] <= hi :: i <= k < j
    ensures AllowedBetween(times, Answers(p, b, times), lo, hi) as real
            <= p.capacity + Refill(p, Advance(times[i], times[i + 1..j]))
  {
    StretchHoldsWindow(times, Answers(p, b, times), lo, hi, i, j);
    AllowedInAnyStretch(p, b, times, i, j);
  }

  // The bound is attained: a full bucket answers yes to a burst of exactly its capacity, and then no.
  lemma {:induction false} BurstIsServed(p: Limits, tokens: nat, now: real, n: nat)
    requires tokens as real <= p.capacity
    ensures CountTrue(Answers(p, Some(Bucket(tokens as real, now)), seq(n, _ => now)))
            == if n < tokens then n else tokens
    decreases n
  {
    if n > 0 {
      var times: seq<real> := seq(n, _ => now);
      var b := Bucket(tokens as real, now);
      assert times[1..] == seq(n - 1, _ => now);
      assert Level(p, b, now) == tokens as real;
      assert Answers(p, Some(b), times)[1..] == Answers(p, Some(After(p, Some(b), now)), times[1..]);
      BurstIsServed(p, if tokens > 0 then tokens - 1 else 0, now, n - 1);
    }
  }

  // The clock is read before the lock is taken, so readings can reach a bucket out of order; the
  // window bound can then fail. One token a second, one token of capacity: two calls at time 10 are
  // allowed because a call at time 9 came between them.
  lemma {:induction false} WindowBoundNeedsOrderedClock()
    ensures var p, times := Policy(60, 1).Limits(), [10.0, 9.0, 10.0];
            && Answers(p, None, times) == [true, false, true]
            && AllowedBetween(times, Answers(p, None, times), 10.0, 10.0) as real
               > p.capacity + Refill(p, 10.0 - 10.0)
  {
    var p, times := Policy(60, 1).Limits(), [10.0, 9.0, 10.0];
    assert p.rate == 1.0;
    var b1 := After(p, None, 10.0);
    assert b1 == Bucket(0.0, 10.0);
    var b2 := After(p, Some(b1), 9.0);
    assert b2 == Bucket(0.0, 9.0);
    assert times[1..] == [9.0, 10.0] && times[1..][1..] == [10.0];
    var answers := Answers(p, None, times);
    assert answers == [true] + ([false] + ([true] + []));
    assert answers[1..] == [false, true] && answers[1..][1..] == [true];
    assert AllowedBetween([10.0], [true], 10.0, 10.0) == 1;
    assert AllowedBetween([9.0, 10.0], [false, true], 10.0, 10.0) == 1;
  }

  // ----- No starvation -----

  // A call that comes when one token's worth of time has passed since the last allowed one is
  // allowed, however many were denied in between.
  lemma {:induction false} ServedAfterOneToken(p: Limits, b: Option<Bucket>, times: seq<real>, i: nat, j: nat)
    requires InRange(p, b) && NonDecreasing(times) && NotBefore(b, times)
    requires i < j < |times| && Answers(p, b, times)[i]
    requires forall k | i < k < j :: !Answers(p, b, times)[k]
    requires Refill(p, times[j] - times[i]) >= 1.0
    ensures Answers(p, b, times)[j]
    decreases j
  {
    var b' := After(p, b, times[0]);
    AfterInRange(p, b, times[0]);
    AnswersUnfold(p, b, times);
    DeniedTail(Answers(p, b, times), i, j);
    if i > 0 {
      ServedAfterOneToken(p, Some(b'), times[1..], i - 1, j - 1);
    } else {
      assert b'.updatedAt == times[0];
      LevelGrowsWhileDenied(p, b', times[1..], j - 1);
    }
  }

  lemma DeniedTail(answers: seq<bool>, i: int, j: int)
    requires -1 <= i < j < |answers| && 0 < j
    requires forall k | i < k < j :: !answers[k]
    ensures forall k | i - 1 < k < j - 1 && 0 <= k :: !answers[1..][k]
  {}

  lemma {:induction false} LevelGrowsWhileDenied(p: Limits, b: Bucket, times: seq<real>, j: nat)
    requires InRange(p, Some(b)) && NonDecreasing(times) && NotBefore(Some(b), times)
    requires j < |times| && forall k | 0 <= k < j :: !Answers(p, Some(b), times)[k]
    requires b.tokens + Refill(p, times[j] - b.updatedAt) >= 1.0
    ensures Answers(p, Some(b), times)[j]
    decreases j
  {
    AnswersUnfold(p, Some(b), times);
    if j > 0 {
      var t := times[0];
      AfterInRange(p, Some(b), t);
      DeniedTail(Answers(p, Some(b), times), -1, j);
      RefillAdds(p, t - b.updatedAt, times[j] - t);
      LevelGrowsWhileDenied(p, After(p, Some(b), t), times[1..], j - 1);
    }
  }

  function SecondsPerToken(policy: Policy): real {
    60.0 / (if policy.requestsPerMinute > 1 then policy.requestsPerMinute else 1) as real
  }

  // A call at least 60 / max(rpm, 1) seconds after the last allowed one is allowed.
  lemma {:induction false} NoStarvation(policy: Policy, b: Option<Bucket>, times: seq<real>, i: nat, j: nat)
    requires InRange(policy.Limits(), b) && NonDecreasing(times) && NotBefore(b, times)
    requires i < j < |times| && Answers(policy.Limits(), b, times)[i]
    requires forall k | i < k < j :: !Answers(policy.Limits(), b, times)[k]
    requires times[j] - times[i] >= SecondsPerToken(policy)
    ensures Answers(policy.Limits(), b, times)[j]
  {
    EarnsOneToken(policy, times[j] - times[i]);
    ServedAfterOneToken(policy.Limits(), b, times, i, j);
  }

  lemma EarnsOneToken(policy: Policy, seconds: real)
    requires seconds >= SecondsPerToken(policy)
    ensures Refill(policy.Limits(), seconds) >= 1.0
  {
    var perMinute := (if policy.requestsPerMinute > 1 then policy.requestsPerMinute else 1) as real;
    Quotient(perMinute, seconds);
    assert policy.Limits().rate == perMinute / 60.0;
  }

  lemma Quotient(perMinute: real, seconds: real)
    requires perMinute >= 1.0 && seconds >= 60.0 / perMinute
    ensures seconds * (perMinute / 60.0) >= 1.0
  {
    var q := 60.0 / perMinute;
    assert q * perMinute == 60.0;
    assert (seconds - q) * perMinute >= 0.0;
  }

  // ----- In the numbers of a policy -----

  lemma PolicyRate(policy: Policy, seconds: real)
    ensures policy.Limits().capacity == (if policy.burst > 1 then policy.burst else 1) as real
    ensures Refill(policy.Limits(), seconds)
            == seconds * (if policy.requestsPerMinute > 1 then policy.requestsPerMinute else 1) as real / 60.0
  {
    var perMinute := (if policy.requestsPerMinute > 1 then policy.requestsPerMinute else 1) as real;
    assert policy.Limits().rate == perMinute / 60.0;
    Scaled(seconds, perMinute);
  }

  lemma Scaled(x: real, y: real)
    ensures x * (y / 60.0) == x * y / 60.0
  {}

  lemma WindowWithin(p: Limits, b: Option<Bucket>, times: seq<real>, lo: real, hi: real, room: real, refill: real)
    requires InRange(p, b) && NonDecreasing(times) && NotBefore(b, times) && lo <= hi
    requires p.capacity == room && Refill(p, hi - lo) == refill
    ensures AllowedBetween(times, Answers(p, b, times), lo, hi) as real <= room + refill
  {
    WindowBound(p, b, times, lo, hi);
  }

  // Any time window [lo, hi] allows at most max(burst, 1) + (hi - lo) * max(rpm, 1) / 60 calls.
  lemma PolicyWindowBound(policy: Policy, b: Option<Bucket>, times: seq<real>, lo: real, hi: real)
    requires InRange(policy.Limits(), b) && NonDecreasing(times) && NotBefore(b, times) && lo <= hi
    ensures AllowedBetween(times, Answers(policy.Limits(), b, times), lo, hi) as real
            <= (if policy.burst > 1 then policy.burst else 1) as real
               + (hi - lo) * (if policy.requestsPerMinute > 1 then policy.requestsPerMinute else 1) as real / 60.0
  {
    PolicyRate(policy, hi - lo);
    WindowWithin(policy.Limits(), b, times, lo, hi, (if policy.burst > 1 then policy.burst else 1) as real,
                 (hi - lo) * (if policy.requestsPerMinute > 1 then policy.requestsPerMinute else 1) as real / 60.0);
  }

  // From a key without a bucket n calls at one instant allow exactly min(n, max(burst, 1)).
  lemma BurstOfFreshKey(policy: Policy, now: real, n: nat)
    ensures var room := if policy.burst > 1 then policy.burst else 1;
            CountTrue(Answers(policy.Limits(), None, seq(n, _ => now))) == if n < room then n else room
  {
    var p := policy.Limits();
    var room := if policy.burst > 1 then policy.burst else 1;
    PolicyRate(policy, 0.0);
    if n > 0 {
      var times: seq<real> := seq(n, _ => now);
      AnswersUnfold(p, None, times);
      assert times[1..] == seq(n - 1, _ => now);
      assert After(p, None, now) == Bucket((room - 1) as real, now);
      BurstIsServed(p, room - 1, now, n - 1);
    }
  }

  // Of two calls of a fresh key that has room for one, the second is allowed exactly when 60 / max(rpm, 1)
  // seconds have passed.
  lemma SecondCallExactlyWhen(policy: Policy, t: real, u: real)
    requires policy.burst <= 1 && t <= u
    ensures Answers(policy.Limits(), None, [t, u])
            == [true, (u - t) * (if policy.requestsPerMinute > 1 then policy.requestsPerMinute else 1) as real >= 60.0]
  {
    var p := policy.Limits();
    PolicyRate(policy, u - t);
    AnswersUnfold(p, None, [t, u]);
    var b := After(p, None, t);
    assert b == Bucket(0.0, t) && [t, u][1..] == [u];
    AnswersUnfold(p, Some(b), [u]);
  }

  // ----- Many keys -----

  datatype Call = Call(key: string, now: real)

  function AnswersOf(policies: string -> Limits, buckets: map<string, Bucket>, calls: seq<Call>): (answers: seq<bool>)
    ensures |answers| == |calls|
    decreases calls
  {
    if calls == [] then []
    else
      var c := calls[0];
      var b := Lookup(buckets, c.key);
      [Answer(policies(c.key), b, c.now)]
      + AnswersOf(policies, buckets[c.key := After(policies(c.key), b, c.now)], calls[1..])
  }

  function Lookup(buckets: map<string, Bucket>, key: string): Option<Bucket> {
    if key in buckets then Some(buckets[key]) else None
  }

  function TimesOf(calls: seq<Call>, key: string): seq<real> {
    if calls == [] then []
    else (if calls[0].key == key then [calls[0].now] else []) + TimesOf(calls[1..], key)
  }

  function AnswersFor(calls: seq<Call>, answers: seq<bool>, key: string): seq<bool>
    requires |calls| == |answers|
  {
    if calls == [] then []
    else (if calls[0].key == key then [answers[0]] else []) + AnswersFor(calls[1..], answers[1..], key)
  }

  // What a key is answered in a mixed trace is what it is answered when it is alone, so every
  // theorem about one key holds for each key of a shared limiter.
  lemma {:induction false} KeysAreIndependent(policies: string -> Limits, buckets: map<string, Bucket>,
                                              calls: seq<Call>, key: string)
    ensures AnswersFor(calls, AnswersOf(policies, buckets, calls), key)
            == Answers(policies(key), Lookup(buckets, key), TimesOf(calls, key))
    decreases calls
  {
    if calls != [] {
      var c := calls[0];
      var b := Lookup(buckets, c.key);
      var buckets' := buckets[c.key := After(policies(c.key), b, c.now)];
      KeysAreIndependent(policies, buckets', calls[1..], key);
      assert AnswersOf(policies, buckets, calls)[1..] == AnswersOf(policies, buckets', calls[1..]);
      if c.key == key {
        AnswersUnfold(policies(key), b, TimesOf(calls, key));
        assert TimesOf(calls, key)[1..] == TimesOf(calls[1..], key);
      } else {
        assert TimesOf(calls, key) == TimesOf(calls[1..], key);
      }
    }
  }
}
