/** The rate, error and duration accumulator: one bucket per tenant, service, operation and
    ten-second window. */
module RedMetrics {

  const BUCKET_NANOS := 10_000_000_000
  const MAX_EXEMPLARS := 4

  datatype RedKey = RedKey(tenant: string, service: string, operation: string, bucketStart: int)

  /** One accumulated span. */
  datatype Sighting = Sighting(key: RedKey, isErr: bool, duration: nat, traceID: string)

  datatype RedSample = RedSample(calls: nat, errors: nat, durationSum: nat, exemplars: seq<string>)

  /** The start of the window holding now; the division rounds toward zero. */
  function BucketStart(now: int): int {
    if now >= 0 then now / BUCKET_NANOS * BUCKET_NANOS else -((-now) / BUCKET_NANOS * BUCKET_NANOS)
  }

  /** The window starts at a multiple of ten seconds and holds the moment, the one around zero from
      both sides. */
  lemma BucketHolds(now: int)
    ensures BucketStart(now) % BUCKET_NANOS == 0
    ensures now >= 0 ==> 0 <= now - BucketStart(now) < 10_000_000_000
    ensures now < 0 ==> 0 <= BucketStart(now) - now < 10_000_000_000
  {
  }

  const NoSample := RedSample(0, 0, 0, [])

  function Added(r: RedSample, s: Sighting): RedSample {
    RedSample(r.calls + 1, r.errors + (if s.isErr then 1 else 0), r.durationSum + s.duration,
              if |r.exemplars| < MAX_EXEMPLARS && s.traceID !in r.exemplars then r.exemplars + [s.traceID]
              else r.exemplars)
  }

  type Buckets = map<RedKey, RedSample>

  function SampleAt(b: Buckets, k: RedKey): RedSample { if k in b then b[k] else NoSample }

  function Accumulated(b: Buckets, s: Sighting): Buckets { b[s.key := Added(SampleAt(b, s.key), s)] }

  /** The sightings of one bucket. */
  function Of(seen: seq<Sighting>, k: RedKey): seq<Sighting> {
    if seen == [] then []
    else Of(seen[..|seen| - 1], k) + if seen[|seen| - 1].key == k then [seen[|seen| - 1]] else []
  }

  function Errors(seen: seq<Sighting>): nat {
    if seen == [] then 0 else Errors(seen[..|seen| - 1]) + if seen[|seen| - 1].isErr then 1 else 0
  }

  function Durations(seen: seq<Sighting>): nat {
    if seen == [] then 0 else Durations(seen[..|seen| - 1]) + seen[|seen| - 1].duration
  }

  /** Distinct trace ids in the order first seen. */
  function TraceIDs(seen: seq<Sighting>): seq<string> {
    if seen == [] then []
    else
      var ids, id := TraceIDs(seen[..|seen| - 1]), seen[|seen| - 1].traceID;
      if id in ids then ids else ids + [id]
  }

  function Prefix(ids: seq<string>, n: nat): seq<string> { if |ids| <= n then ids else ids[..n] }

  /** What a bucket should say of its own sightings. */
  function Summary(seen: seq<Sighting>): RedSample {
    RedSample(|seen|, Errors(seen), Durations(seen), Prefix(TraceIDs(seen), MAX_EXEMPLARS))
  }

  /** The buckets hold exactly the sightings: a bucket for each key seen and no other. */
  ghost predicate Summarizes(b: Buckets, seen: seq<Sighting>) {
    forall k :: (k in b <==> Of(seen, k) != []) && SampleAt(b, k) == Summary(Of(seen, k))
  }

  lemma AddedSummary(seen: seq<Sighting>, s: Sighting)
    ensures Added(Summary(seen), s) == Summary(seen + [s])
  {
    assert (seen + [s])[..|seen|] == seen;
  }

  lemma OfAppend(seen: seq<Sighting>, s: Sighting, k: RedKey)
    ensures Of(seen + [s], k) == if s.key == k then Of(seen, k) + [s] else Of(seen, k)
  {
    assert (seen + [s])[..|seen|] == seen;
  }

  lemma AccumulateSummarizes(b: Buckets, seen: seq<Sighting>, s: Sighting)
    requires Summarizes(b, seen)
    ensures Summarizes(Accumulated(b, s), seen + [s])
  {
    hide Summary, Added, Of;
    AddedSummary(Of(seen, s.key), s);
    var c := Accumulated(b, s);
    forall k
      ensures (k in c <==> Of(seen + [s], k) != []) && SampleAt(c, k) == Summary(Of(seen + [s], k))
    {
      OfAppend(seen, s, k);
      assert (k in b <==> Of(seen, k) != []) && SampleAt(b, k) == Summary(Of(seen, k));
    }
  }

  // ---------- The total over all buckets ----------

  ghost function TotalCalls(b: Buckets): nat
    decreases |b|
  {
    if b == map[] then 0
    else
      var k :| k in b;
      Smaller(b, k);
      b[k].calls + TotalCalls(b - {k})
  }

  lemma Smaller(b: Buckets, k: RedKey)
    requires k in b
    ensures |b - {k}| < |b|
  {
    assert (b - {k}).Keys == b.Keys - {k};
    assert |(b - {k}).Keys| == |b - {k}| && |b.Keys| == |b|;
  }

  lemma {:induction false} TotalWithout(b: Buckets, k: RedKey)
    requires k in b
    ensures TotalCalls(b) == b[k].calls + TotalCalls(b - {k})
    decreases |b|
  {
    var j :| j in b && TotalCalls(b) == b[j].calls + TotalCalls(b - {j});
    if j != k {
      Smaller(b, j);
      Smaller(b, k);
      TotalWithout(b - {j}, k);
      TotalWithout(b - {k}, j);
      assert b - {j} - {k} == b - {k} - {j};
    }
  }

  lemma TotalUpdate(b: Buckets, k: RedKey, r: RedSample)
    ensures TotalCalls(b[k := r]) == TotalCalls(b) - SampleAt(b, k).calls + r.calls
  {
    TotalWithout(b[k := r], k);
    if k in b {
      TotalWithout(b, k);
      assert b[k := r] - {k} == b - {k};
    } else {
      assert b[k := r] - {k} == b;
    }
  }

  class Accumulator {
    var buckets: Buckets
    /** Everything accumulated since the last flush. */
    ghost var seen: seq<Sighting>

    ghost predicate Valid()
      reads this
    {
      Summarizes(buckets, seen) && TotalCalls(buckets) == |seen|
    }

    constructor ()
      ensures Valid() && seen == [] && fresh(this)
    {
      buckets, seen := map[], [];
    }

    method Accumulate(now: int, tenant: string, service: string, operation: string, isErr: bool, duration: nat,
                      traceID: string)
      requires Valid()
      modifies this
      ensures Valid()
      ensures seen == old(seen) + [Sighting(RedKey(tenant, service, operation, BucketStart(now)), isErr, duration,
                                            traceID)]
    {
      hide Summarizes, TotalCalls;
      var key := RedKey(tenant, service, operation, BucketStart(now));
      ghost var s := Sighting(key, isErr, duration, traceID);
      AccumulateKeeps(buckets, seen, s);
      var sample := AddTo(if key in buckets then buckets[key] else NoSample, key, isErr, duration, traceID);
      buckets := buckets[key := sample];
      seen := seen + [s];
    }

    static lemma AccumulateKeeps(b: Buckets, seen: seq<Sighting>, s: Sighting)
      requires Summarizes(b, seen) && TotalCalls(b) == |seen|
      ensures Summarizes(Accumulated(b, s), seen + [s]) && TotalCalls(Accumulated(b, s)) == |seen + [s]|
    {
      hide Summarizes, TotalCalls;
      AccumulateSummarizes(b, seen, s);
      TotalUpdate(b, s.key, Added(SampleAt(b, s.key), s));
    }

    static method AddTo(sample: RedSample, ghost key: RedKey, isErr: bool, duration: nat, traceID: string)
        returns (r: RedSample)
      ensures r == Added(sample, Sighting(key, isErr, duration, traceID))
    {
      var exemplars := sample.exemplars;
      if |exemplars| < MAX_EXEMPLARS {
        var found := Contains(exemplars, traceID);
        if !found { exemplars := exemplars + [traceID]; }
      }
      r := RedSample(sample.calls + 1, sample.errors + (if isErr then 1 else 0), sample.durationSum + duration,
                     exemplars);
    }

    static method Contains(ids: seq<string>, id: string) returns (found: bool)
      ensures found <==> id in ids
    {
      for i := 0 to |ids|
        invariant id !in ids[..i]
      {
        if ids[i] == id { return true; }
      }
      return false;
    }

    /** Hands over every bucket once, in any order, and starts afresh. */
    method Flush() returns (out: seq<(RedKey, RedSample)>)
      requires Valid()
      modifies this
      ensures Valid() && seen == []
      ensures |out| == |old(buckets)| && forall e :: e in out <==> e.0 in old(buckets) && e.1 == old(buckets)[e.0]
    {
      out := Listed(buckets);
      buckets, seen := map[], [];
    }

    static method Listed(b: Buckets) returns (out: seq<(RedKey, RedSample)>)
      ensures |out| == |b| && forall e :: e in out <==> e.0 in b && e.1 == b[e.0]
    {
      out := [];
      var left := b;
      while left != map[]
        invariant forall e :: e in out <==> e.0 in b && e.0 !in left && e.1 == b[e.0]
        invariant forall k <- left :: k in b && left[k] == b[k]
        invariant |out| + |left| == |b|
        decreases |left|
      {
        assert |left.Keys| == |left|;
        var k :| k in left;
        RemoveKey(left, k);
        out := out + [(k, left[k])];
        left := left - {k};
      }
    }

    static lemma RemoveKey(b: Buckets, k: RedKey)
      requires k in b
      ensures |b - {k}| == |b| - 1
    {
      assert (b - {k}).Keys == b.Keys - {k};
      assert |(b - {k}).Keys| == |b - {k}| && |b.Keys| == |b|;
    }
  }
}
