/** What a live edge says of the calls counted on it: since it was last put into the table, over any
    sequence of calls and evictions. */
module EdgeHistory {
  import opened TopologyWalks
  import opened EdgeTable

  datatype Hit = Hit(ts: int, duration: nat, isErr: bool)

  /** The edge as it was put into the table, and the calls counted on it since. */
  datatype Past = Past(base: Edge, calls: seq<Hit>)

  function Errors(cs: seq<Hit>): nat { |set i | 0 <= i < |cs| && cs[i].isErr| }

  function Durations(cs: seq<Hit>): nat {
    if cs == [] then 0 else Durations(cs[..|cs| - 1]) + cs[|cs| - 1].duration
  }

  ghost function InBucket(cs: seq<Hit>, b: nat): nat { |set i | 0 <= i < |cs| && IsBucket(cs[i].duration, b)| }

  /** The edge is what it was plus its calls: their number, errors, total duration and histogram,
      last seen at the last of them, in the ten-second bucket of that moment. */
  ghost predicate SumsUp(e: Edge, p: Past) {
    |p.base.hist| == HIST_BUCKETS && |e.hist| == HIST_BUCKETS &&
    e.calls == p.base.calls + |p.calls| && e.errors == p.base.errors + Errors(p.calls) &&
    e.durationSum == p.base.durationSum + Durations(p.calls) && e.firstSeen == p.base.firstSeen &&
    (forall b: nat :: b < HIST_BUCKETS ==> e.hist[b] == p.base.hist[b] + InBucket(p.calls, b)) &&
    (p.calls != [] ==>
       var last := p.calls[|p.calls| - 1].ts;
       e.lastSeen == last && !e.isVanished && e.bucketStart <= last < e.bucketStart + EDGE_BUCKET &&
       e.bucketStart % EDGE_BUCKET == 0)
  }

  /** An edge nothing has been counted on. */
  ghost predicate Blank(e: Edge, ts: int) {
    e.calls == 0 && e.errors == 0 && e.durationSum == 0 && e.firstSeen == ts && |e.hist| == HIST_BUCKETS &&
    forall b :: 0 <= b < HIST_BUCKETS ==> e.hist[b] == 0
  }

  lemma ErrorsAppend(cs: seq<Hit>, c: Hit)
    ensures Errors(cs + [c]) == Errors(cs) + if c.isErr then 1 else 0
  {
    var more := cs + [c];
    assert (set i | 0 <= i < |more| && more[i].isErr) ==
           (set i | 0 <= i < |cs| && cs[i].isErr) + if c.isErr then {|cs|} else {};
  }

  lemma InBucketAppend(cs: seq<Hit>, c: Hit, b: nat)
    ensures InBucket(cs + [c], b) == InBucket(cs, b) + if IsBucket(c.duration, b) then 1 else 0
  {
    var more := cs + [c];
    assert (set i | 0 <= i < |more| && IsBucket(more[i].duration, b)) ==
           (set i | 0 <= i < |cs| && IsBucket(cs[i].duration, b)) + if IsBucket(c.duration, b) then {|cs|} else {};
  }

  lemma DurationsAppend(cs: seq<Hit>, c: Hit)
    ensures Durations(cs + [c]) == Durations(cs) + c.duration
  {
    assert (cs + [c])[..|cs|] == cs;
  }

  lemma OneMoreSumsUp(e: Edge, p: Past, c: Hit)
    requires SumsUp(e, p)
    ensures SumsUp(Counted(e, c.ts, c.duration, c.isErr), Past(p.base, p.calls + [c]))
  {
    ErrorsAppend(p.calls, c);
    DurationsAppend(p.calls, c);
    BucketExactly(c.duration, Bucket(c.duration));
    var next := Counted(e, c.ts, c.duration, c.isErr);
    forall b: nat | b < HIST_BUCKETS
      ensures next.hist[b] == p.base.hist[b] + InBucket(p.calls + [c], b)
    {
      InBucketAppend(p.calls, c, b);
      BucketExactly(c.duration, b);
    }
    hide Errors, Durations, InBucket, Bucket, IsBucket;
    TenSeconds(c.ts);
  }

  lemma TenSeconds(ts: int)
    ensures var start := ts - ts % EDGE_BUCKET;
            start <= ts < start + EDGE_BUCKET && start % EDGE_BUCKET == 0
  {
  }

  lemma NothingSumsUp(e: Edge)
    requires |e.hist| == HIST_BUCKETS
    ensures SumsUp(e, Past(e, []))
  {
    forall b: nat | b < HIST_BUCKETS ensures InBucket([], b) == 0 {
      var none: seq<Hit> := [];
      assert (set i | 0 <= i < |none| && IsBucket(none[i].duration, b)) == {};
    }
    assert Errors([]) == 0;
  }

  // ---------- The whole table ----------

  type Pasts = map<EdgeKey, Past>

  ghost predicate AllSumUp(t: Table, h: Pasts) {
    forall k <- t.edges :: k in h && SumsUp(t.edges[k], h[k])
  }

  /** The pasts after one call: a key that was not live starts over from a blank edge. */
  ghost predicate Lived(t: Table, h: Pasts, key: EdgeKey, c: Hit, next: Pasts) {
    key in next && (forall k <- h :: k != key ==> k in next && next[k] == h[k]) &&
    if key in t.edges && key in h then next[key] == Past(h[key].base, h[key].calls + [c])
    else next[key].calls == [c] && Blank(next[key].base, c.ts)
  }

  function Remembered(t: Table, h: Pasts, key: EdgeKey, c: Hit): Pasts {
    h[key := if key in t.edges && key in h then Past(h[key].base, h[key].calls + [c]) else Past(NewEdge(c.ts), [c])]
  }

  lemma RememberedLived(t: Table, h: Pasts, key: EdgeKey, c: Hit)
    ensures Lived(t, h, key, c, Remembered(t, h, key, c))
  {
  }

  /** Counting a call, with whatever it evicts, keeps every live edge the sum of its past. */
  lemma CallSumsUp(t: Table, h: Pasts, key: EdgeKey, c: Hit, max: int)
    requires Valid(t) && Shaped(t.edges) && AllSumUp(t, h)
    ensures AllSumUp(Upserted(t, key, c.ts, c.duration, c.isErr, max), Remembered(t, h, key, c))
  {
    if key in t.edges {
      OneMoreSumsUp(t.edges[key], h[key], c);
    } else {
      NothingSumsUp(NewEdge(c.ts));
      OneMoreSumsUp(NewEdge(c.ts), Past(NewEdge(c.ts), []), c);
      assert [] + [c] == [c];
    }
    TouchedValid(t, key, c.ts, c.duration, c.isErr);
    EvictedShaped(Touched(t, key, c.ts, c.duration, c.isErr), max);
    hide SumsUp, Counted, Evicted, Survivors, HeatOf, NewEdge;
    var u := AfterEviction(t, key, c.ts, c.duration, c.isErr, max);
    forall k | k in u.edges
      ensures k in Remembered(t, h, key, c) && SumsUp(u.edges[k], Remembered(t, h, key, c)[k])
    {
      assert u.edges[k] == Touched(t, key, c.ts, c.duration, c.isErr).edges[k];
    }
    MarkSumsUp(u, key, c.ts, Remembered(t, h, key, c));
  }

  lemma MarkSumsUp(t: Table, key: EdgeKey, ts: int, h: Pasts)
    requires AllSumUp(t, h)
    ensures AllSumUp(Marked(t, key, ts), h)
  {
    if key in t.edges { FlagSumsUp(t.edges[key], IsNew(t.lastNewEmit, key, ts), h[key]); }
    hide SumsUp;
  }

  lemma FlagSumsUp(e: Edge, isNew: bool, p: Past)
    requires SumsUp(e, p)
    ensures SumsUp(e.(isNew := isNew), p)
  {
  }

  datatype EdgeCall = EdgeCall(key: EdgeKey, ts: int, duration: nat, isErr: bool)

  function AfterCalls(t: Table, cs: seq<EdgeCall>, max: int): (r: Table)
    requires Valid(t) && Shaped(t.edges)
    ensures Valid(r) && Shaped(r.edges)
    decreases |cs|
  {
    if cs == [] then t
    else
      var u, c := AfterCalls(t, cs[..|cs| - 1], max), cs[|cs| - 1];
      UpsertKeepsCap(u, c.key, c.ts, c.duration, c.isErr, max);
      Upserted(u, c.key, c.ts, c.duration, c.isErr, max)
  }

  lemma OneMoreCall(t: Table, cs: seq<EdgeCall>, c: EdgeCall, max: int)
    requires Valid(t) && Shaped(t.edges)
    ensures AfterCalls(t, cs + [c], max) ==
            Upserted(AfterCalls(t, cs, max), c.key, c.ts, c.duration, c.isErr, max)
  {
    hide Valid, Shaped, Upserted;
    assert (cs + [c])[..|cs|] == cs;
  }

  /** The pasts after these calls, starting from a table taken as it is. */
  ghost predicate Leads(t: Table, cs: seq<EdgeCall>, max: int, h: Pasts)
    requires Valid(t) && Shaped(t.edges)
    decreases |cs|
  {
    if cs == [] then h == map k | k in t.edges :: Past(t.edges[k], [])
    else
      var front, c := cs[..|cs| - 1], cs[|cs| - 1];
      exists g :: Leads(t, front, max, g) &&
                  Lived(AfterCalls(t, front, max), g, c.key, Hit(c.ts, c.duration, c.isErr), h)
  }

  /** From any table, after any calls, each live edge sums up its past: what it was if it has been
      live throughout, or nothing, and the calls counted since. */
  lemma {:induction false} EdgesSumUp(t: Table, cs: seq<EdgeCall>, max: int) returns (h: Pasts)
    requires Valid(t) && Shaped(t.edges)
    ensures Leads(t, cs, max, h) && AllSumUp(AfterCalls(t, cs, max), h)
    decreases |cs|
  {
    hide SumsUp, Upserted, Valid, Blank, NewEdge;
    if cs == [] {
      h := map k | k in t.edges :: Past(t.edges[k], []);
      forall k | k in t.edges ensures SumsUp(t.edges[k], h[k]) {
        NothingSumsUp(t.edges[k]);
      }
    } else {
      var front, c := cs[..|cs| - 1], cs[|cs| - 1];
      var g := EdgesSumUp(t, front, max);
      var one := Hit(c.ts, c.duration, c.isErr);
      CallSumsUp(AfterCalls(t, front, max), g, c.key, one, max);
      RememberedLived(AfterCalls(t, front, max), g, c.key, one);
      h := Remembered(AfterCalls(t, front, max), g, c.key, one);
    }
  }

  /** A call announces a new edge exactly when the edge does not outlive the call, or its last call
      is not remembered or is more than a day old. */
  lemma AnnouncedExactly(t: Table, key: EdgeKey, ts: int, duration: nat, isErr: bool, max: int)
    requires Valid(t) && Shaped(t.edges)
    ensures var u := AfterEviction(t, key, ts, duration, isErr, max);
            IsNew(u.lastNewEmit, key, ts) <==>
            key !in u.edges || key !in t.lastNewEmit || ts - t.lastNewEmit[key] > 24 * 3600 * 1_000_000_000
    ensures Upserted(t, key, ts, duration, isErr, max).lastNewEmit[key] == ts
  {
    hide Survivors, HeatOf, Counted, Valid;
    var v := Touched(t, key, ts, duration, isErr);
    TouchedValid(t, key, ts, duration, isErr);
    assert key in v.edges;
  }
}
