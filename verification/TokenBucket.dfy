/** A clock-driven token bucket. Times are Unix nanoseconds. */
module TokenBucket {

  const NANOS_PER_SECOND := 1000000000.0

  datatype Bucket = Bucket(capacity: real, rate: real, tokens: real, last: int)

  function NewBucket(perMinute: real, now: int): Bucket {
    Bucket(perMinute, perMinute / 60.0, perMinute, now)
  }

  /** The tokens accrued over d nanoseconds. */
  function Gain(rate: real, d: int): real { (d as real / NANOS_PER_SECOND) * rate }

  function Refill(b: Bucket, now: int): Bucket {
    if now > b.last then
      var tokens := b.tokens + Gain(b.rate, now - b.last);
      b.(tokens := if tokens > b.capacity then b.capacity else tokens, last := now)
    else b
  }

  function Grants(b: Bucket, now: int): bool { Refill(b, now).tokens >= 1.0 }

  function AfterTake(b: Bucket, now: int): Bucket {
    var r := Refill(b, now);
    if Grants(b, now) then r.(tokens := r.tokens - 1.0) else r
  }

  class Limiter {
    const capacity: real
    const refillRate: real
    var tokens: real
    var lastRefill: int

    function State(): Bucket
      reads this
    {
      Bucket(capacity, refillRate, tokens, lastRefill)
    }

    constructor (perMinute: real, now: int)
      ensures State() == NewBucket(perMinute, now)
    {
      capacity := perMinute;
      refillRate := perMinute / 60.0;
      tokens := perMinute;
      lastRefill := now;
    }

    method Take(now: int) returns (granted: bool)
      modifies this
      ensures State() == AfterTake(old(State()), now)
      ensures granted == Grants(old(State()), now)
    {
      if now > lastRefill {
        var elapsedSec := (now - lastRefill) as real / NANOS_PER_SECOND;
        tokens := tokens + elapsedSec * refillRate;
        if tokens > capacity {
          tokens := capacity;
        }
        lastRefill := now;
      }
      if tokens >= 1.0 {
        tokens := tokens - 1.0;
        return true;
      }
      return false;
    }
  }

  // ---------- Gains ----------

  lemma GainAdds(rate: real, a: int, b: int)
    ensures Gain(rate, a) + Gain(rate, b) == Gain(rate, a + b)
  {
    var x, y := a as real / NANOS_PER_SECOND, b as real / NANOS_PER_SECOND;
    assert (a + b) as real / NANOS_PER_SECOND == x + y;
    assert (x + y) * rate == x * rate + y * rate;
  }

  lemma GainGrows(rate: real, a: int, b: int)
    requires rate >= 0.0 && a <= b
    ensures Gain(rate, a) <= Gain(rate, b)
  {
    var x, y := a as real / NANOS_PER_SECOND, b as real / NANOS_PER_SECOND;
    assert x <= y;
    assert 0.0 <= (y - x) * rate == y * rate - x * rate;
  }

  // ---------- The window bound ----------

  predicate Fits(b: Bucket) { 0.0 <= b.capacity && b.tokens <= b.capacity && 0.0 <= b.rate }

  function WindowBound(b: Bucket, start: int, end: int): real { b.capacity + Gain(b.rate, end - start) }

  /** The most the bucket can still grant to takes timed within [start, end]. */
  function Credit(b: Bucket, start: int, end: int): real {
    if b.last < start then WindowBound(b, start, end)
    else if b.last <= end then b.tokens + Gain(b.rate, end - b.last)
    else b.tokens
  }

  lemma CreditBounded(b: Bucket, start: int, end: int)
    requires Fits(b) && start <= end
    ensures Credit(b, start, end) <= WindowBound(b, start, end)
  {
    GainGrows(b.rate, 0, end - start);
    if start <= b.last <= end { GainGrows(b.rate, end - b.last, end - start); }
  }

  /** A take inside the window pays for its grant out of the credit. */
  lemma TakeSpendsCredit(b: Bucket, start: int, end: int, now: int)
    requires Fits(b) && start <= now <= end
    ensures Fits(AfterTake(b, now))
    ensures Credit(AfterTake(b, now), start, end) <= Credit(b, start, end) - (if Grants(b, now) then 1.0 else 0.0)
  {
    if now > b.last {
      if b.last < start {
        GainGrows(b.rate, end - now, end - start);
      } else {
        GainAdds(b.rate, now - b.last, end - now);
      }
    }
  }

  lemma CreditNotNegative(b: Bucket, start: int, end: int)
    requires Fits(b) && 0.0 <= b.tokens && start <= end
    ensures 0.0 <= Credit(b, start, end)
  {
    GainGrows(b.rate, 0, end - start);
    if start <= b.last <= end { GainGrows(b.rate, 0, end - b.last); }
  }

  lemma TakeKeepsTokens(b: Bucket, now: int)
    requires Fits(b) && 0.0 <= b.tokens
    ensures 0.0 <= AfterTake(b, now).tokens
  {
    if now > b.last { GainGrows(b.rate, 0, now - b.last); }
  }

  function AfterTakes(b: Bucket, times: seq<int>): Bucket
    decreases |times|
  {
    if times == [] then b else AfterTakes(AfterTake(b, times[0]), times[1..])
  }

  /** How many of the takes are granted. */
  function Granted(b: Bucket, times: seq<int>): nat
    decreases |times|
  {
    if times == [] then 0 else (if Grants(b, times[0]) then 1 else 0) + Granted(AfterTake(b, times[0]), times[1..])
  }

  lemma {:induction false} GrantedWithinCredit(b: Bucket, times: seq<int>, start: int, end: int)
    requires Fits(b) && 0.0 <= b.tokens && start <= end && forall k :: 0 <= k < |times| ==> start <= times[k] <= end
    ensures Granted(b, times) as real <= Credit(b, start, end)
    decreases |times|
  {
    CreditNotNegative(b, start, end);
    if times != [] {
      TakeSpendsCredit(b, start, end, times[0]);
      TakeKeepsTokens(b, times[0]);
      GrantedWithinCredit(AfterTake(b, times[0]), times[1..], start, end);
    }
  }

  /** Whatever came before, takes inside a window are granted at most the capacity plus what
      the window's length accrues, even when the clock steps back. */
  lemma WindowGrantsBounded(perMinute: real, made: int, earlier: seq<int>, times: seq<int>, start: int, end: int)
    requires perMinute >= 0.0 && start <= end && forall k :: 0 <= k < |times| ==> start <= times[k] <= end
    ensures var b := AfterTakes(NewBucket(perMinute, made), earlier);
            Granted(b, times) as real <= perMinute + Gain(perMinute / 60.0, end - start)
  {
    ReachedFits(NewBucket(perMinute, made), earlier);
    var b := AfterTakes(NewBucket(perMinute, made), earlier);
    CreditBounded(b, start, end);
    GrantedWithinCredit(b, times, start, end);
  }

  lemma {:induction false} ReachedFits(b: Bucket, times: seq<int>)
    requires Fits(b) && 0.0 <= b.tokens
    ensures var c := AfterTakes(b, times);
            Fits(c) && 0.0 <= c.tokens && c.capacity == b.capacity && c.rate == b.rate
    decreases |times|
  {
    if times != [] {
      TakeKeepsTokens(b, times[0]);
      ReachedFits(AfterTake(b, times[0]), times[1..]);
    }
  }

  // ---------- The bucket refuses only what the bound forbids ----------

  ghost predicate Ascending(made: int, times: seq<int>) {
    (forall k :: 0 <= k < |times| ==> made <= times[k]) &&
    forall j, k :: 0 <= j < k < |times| ==> times[j] <= times[k]
  }

  function BucketAt(perMinute: real, made: int, times: seq<int>, n: nat): Bucket
    requires n <= |times|
  {
    if n == 0 then NewBucket(perMinute, made) else AfterTake(BucketAt(perMinute, made, times, n - 1), times[n - 1])
  }

  function GrantedAt(perMinute: real, made: int, times: seq<int>, n: nat): bool
    requires n < |times|
  {
    Grants(BucketAt(perMinute, made, times, n), times[n])
  }

  /** Grants among takes i up to but not including j. */
  function GrantsBetween(perMinute: real, made: int, times: seq<int>, i: nat, j: nat): nat
    requires i <= j <= |times|
    decreases j
  {
    if i == j then 0
    else GrantsBetween(perMinute, made, times, i, j - 1) + if GrantedAt(perMinute, made, times, j - 1) then 1 else 0
  }

  /** What the window from take i to take j leaves for take j. */
  function Allowance(perMinute: real, made: int, times: seq<int>, i: nat, j: nat): real
    requires i <= j < |times|
  {
    perMinute + Gain(perMinute / 60.0, times[j] - times[i]) - GrantsBetween(perMinute, made, times, i, j) as real
  }

  function Level(perMinute: real, made: int, times: seq<int>, j: nat): real
    requires j < |times|
  {
    Refill(BucketAt(perMinute, made, times, j), times[j]).tokens
  }

  lemma {:induction false} BucketAtShape(perMinute: real, made: int, times: seq<int>, n: nat)
    requires Ascending(made, times) && n <= |times|
    ensures var b := BucketAt(perMinute, made, times, n);
            b.capacity == perMinute && b.rate == perMinute / 60.0 && b.last == if n == 0 then made else times[n - 1]
    decreases n
  {
    if n > 0 { BucketAtShape(perMinute, made, times, n - 1); }
  }

  lemma FirstLevel(perMinute: real, made: int, times: seq<int>)
    requires perMinute >= 0.0 && Ascending(made, times) && 0 < |times|
    ensures Level(perMinute, made, times, 0) == perMinute
  {
    if times[0] > made { GainGrows(perMinute / 60.0, 0, times[0] - made); }
  }

  lemma NextLevel(perMinute: real, made: int, times: seq<int>, j: nat)
    requires Ascending(made, times) && j + 1 < |times|
    requires Level(perMinute, made, times, j) <= perMinute
    ensures var next := Level(perMinute, made, times, j) + Gain(perMinute / 60.0, times[j + 1] - times[j])
                        - (if GrantedAt(perMinute, made, times, j) then 1.0 else 0.0);
            Level(perMinute, made, times, j + 1) == if next > perMinute then perMinute else next
  {
    BucketAtShape(perMinute, made, times, j);
    BucketAtShape(perMinute, made, times, j + 1);
    TakeThenRefill(BucketAt(perMinute, made, times, j), times[j], times[j + 1]);
  }

  lemma TakeThenRefill(b: Bucket, now: int, later: int)
    requires b.last <= now <= later && Refill(b, now).tokens <= b.capacity
    ensures var next := Refill(b, now).tokens + Gain(b.rate, later - now) - (if Grants(b, now) then 1.0 else 0.0);
            Refill(AfterTake(b, now), later).tokens == if next > b.capacity then b.capacity else next
  {
    var r, t := Refill(b, now), AfterTake(b, now);
    assert r.last == now && t.rate == b.rate && t.capacity == b.capacity && t.last == now;
    if later == now { assert Gain(b.rate, 0) == 0.0; }
  }

  lemma AllowanceStep(perMinute: real, made: int, times: seq<int>, i: nat, j: nat)
    requires i <= j && j + 1 < |times|
    ensures Allowance(perMinute, made, times, i, j + 1) ==
            Allowance(perMinute, made, times, i, j) + Gain(perMinute / 60.0, times[j + 1] - times[j])
            - (if GrantedAt(perMinute, made, times, j) then 1.0 else 0.0)
  {
    GainAdds(perMinute / 60.0, times[j] - times[i], times[j + 1] - times[j]);
  }

  lemma NoTime(perMinute: real, made: int, times: seq<int>, i: nat)
    requires i < |times|
    ensures Allowance(perMinute, made, times, i, i) == perMinute
  {
  }

  /** The level is the least allowance of all the windows ending now; tight is the window
      that attains it. */
  lemma {:induction false} LevelIsLeastAllowance(perMinute: real, made: int, times: seq<int>, j: nat)
      returns (tight: nat)
    requires perMinute >= 0.0 && Ascending(made, times) && j < |times|
    ensures tight <= j && Level(perMinute, made, times, j) == Allowance(perMinute, made, times, tight, j)
    ensures forall i: nat :: i <= j ==> Level(perMinute, made, times, j) <= Allowance(perMinute, made, times, i, j)
    decreases j
  {
    NoTime(perMinute, made, times, j);
    if j == 0 {
      FirstLevel(perMinute, made, times);
      tight := 0;
    } else {
      tight := LevelIsLeastAllowance(perMinute, made, times, j - 1);
      NoTime(perMinute, made, times, j - 1);
      NextLevel(perMinute, made, times, j - 1);
      forall i: nat | i < j
        ensures Level(perMinute, made, times, j) <= Allowance(perMinute, made, times, i, j)
      {
        AllowanceStep(perMinute, made, times, i, j - 1);
      }
      AllowanceStep(perMinute, made, times, tight, j - 1);
      if Level(perMinute, made, times, j) == perMinute { tight := j; }
    }
  }

  /** On a clock that never steps back a take is granted exactly when granting it keeps every
      window that ends with it within capacity plus accrual. */
  lemma GrantedExactlyWithinBound(perMinute: real, made: int, times: seq<int>, j: nat)
    requires perMinute >= 0.0 && Ascending(made, times) && j < |times|
    ensures GrantedAt(perMinute, made, times, j) <==>
            forall i: nat :: i <= j ==>
              (GrantsBetween(perMinute, made, times, i, j) + 1) as real
                <= perMinute + Gain(perMinute / 60.0, times[j] - times[i])
  {
    var tight := LevelIsLeastAllowance(perMinute, made, times, j);
    forall i: nat | i <= j
      ensures Allowance(perMinute, made, times, i, j) >= 1.0 <==>
              (GrantsBetween(perMinute, made, times, i, j) + 1) as real
                <= perMinute + Gain(perMinute / 60.0, times[j] - times[i])
    {
    }
    if !GrantedAt(perMinute, made, times, j) {
      assert Allowance(perMinute, made, times, tight, j) < 1.0;
    }
  }
}
