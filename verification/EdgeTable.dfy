/** The capped edge table of the live topology graph: how one call updates it, which edges
    an eviction removes, and what warm start installs. */
module EdgeTable {
  import opened TopologyWalks

  const HIST_BUCKETS: nat := 16
  const NEW_EDGE_WINDOW := 24 * 3600 * 1_000_000_000
  const EDGE_BUCKET := 10 * 1_000_000_000

  datatype Edge = Edge(calls: nat, errors: nat, durationSum: nat, hist: seq<nat>, firstSeen: int, lastSeen: int,
                       bucketStart: int, isVanished: bool, isNew: bool)

  datatype Table = Table(edges: map<EdgeKey, Edge>, insertSeq: map<EdgeKey, nat>, nextSeq: nat, evicted: nat,
                         lastNewEmit: map<EdgeKey, int>)

  // ---------- Eviction order ----------

  /** What decides an eviction: fewer calls go first, then seen longer ago, then inserted earlier. */
  datatype Heat = Heat(calls: nat, lastSeen: int, seqNo: nat)

  predicate Colder(a: Heat, b: Heat) {
    if a.calls != b.calls then a.calls < b.calls
    else if a.lastSeen != b.lastSeen then a.lastSeen < b.lastSeen
    else a.seqNo < b.seqNo
  }

  type Heats = map<EdgeKey, Heat>

  ghost predicate Distinct(p: Heats) {
    forall j, k :: j in p && k in p && p[j] == p[k] ==> j == k
  }

  function ColderThan(p: Heats, k: EdgeKey): set<EdgeKey>
    requires k in p
  {
    set j | j in p && Colder(p[j], p[k])
  }

  /** How many live edges would be evicted before this one. */
  function Rank(p: Heats, k: EdgeKey): nat
    requires k in p
  {
    |ColderThan(p, k)|
  }

  function Excess(size: nat, max: int): nat { if max > 0 && size > max then size - max else 0 }

  /** The edges left when the excess coldest ones are gone. */
  function Survivors(p: Heats, max: int): set<EdgeKey> {
    set k | k in p && Rank(p, k) >= Excess(|p|, max)
  }

  ghost predicate IsColdest(p: Heats, v: EdgeKey) { v in p && forall k <- p :: k == v || Colder(p[v], p[k]) }

  lemma RankWithout(p: Heats, v: EdgeKey, k: EdgeKey)
    requires IsColdest(p, v) && k in p && k != v
    ensures Rank(p, k) == Rank(p - {v}, k) + 1
  {
    assert ColderThan(p, k) == ColderThan(p - {v}, k) + {v};
  }

  lemma SizeWithout(p: Heats, v: EdgeKey)
    requires v in p
    ensures |p - {v}| == |p| - 1
  {
    assert (p - {v}).Keys == p.Keys - {v};
    assert |p.Keys| == |p| && |(p - {v}).Keys| == |p - {v}|;
  }

  /** Removing the coldest edge first leaves the survivors unchanged. */
  lemma SurvivorsWithoutColdest(p: Heats, v: EdgeKey, max: int)
    requires IsColdest(p, v) && 0 < max < |p|
    ensures Survivors(p - {v}, max) == Survivors(p, max)
  {
    SizeWithout(p, v);
    assert ColderThan(p, v) == {};
    forall k | k in p && k != v ensures k in Survivors(p, max) <==> k in Survivors(p - {v}, max) {
      RankWithout(p, v, k);
    }
  }

  lemma AllFit(p: Heats, max: int)
    requires max <= 0 || |p| <= max
    ensures Survivors(p, max) == p.Keys
  {
  }

  lemma {:induction false} ColdestExists(p: Heats) returns (v: EdgeKey)
    requires Distinct(p) && p != map[]
    ensures IsColdest(p, v)
    decreases |p|
  {
    var u :| u in p;
    var q := p - {u};
    SizeWithout(p, u);
    v := u;
    if q != map[] {
      var w := ColdestExists(q);
      assert p[u] != p[w];
      if Colder(p[w], p[u]) { v := w; }
      forall k | k in p && k != v ensures Colder(p[v], p[k]) {
        if k != u { assert k in q && q[k] == p[k] && (k == w || Colder(q[w], q[k])); }
      }
    } else {
      assert q.Keys == {} && p.Keys - {u} == q.Keys;
    }
  }

  lemma {:induction false} SurvivorCount(p: Heats, max: int)
    requires Distinct(p)
    ensures |Survivors(p, max)| == |p| - Excess(|p|, max)
    decreases |p|
  {
    if max <= 0 || |p| <= max {
      AllFit(p, max);
      assert |p.Keys| == |p|;
    } else {
      var v := ColdestExists(p);
      SizeWithout(p, v);
      SurvivorsWithoutColdest(p, v, max);
      SurvivorCount(p - {v}, max);
    }
  }

  lemma SubsetSize(a: set<EdgeKey>, b: set<EdgeKey>)
    requires a < b
    ensures |a| < |b|
  {
    assert b == a + (b - a);
    assert b - a != {};
  }

  /** Every edge evicted is colder than every edge kept. */
  lemma EvictsTheColdest(p: Heats, max: int, gone: EdgeKey, kept: EdgeKey)
    requires Distinct(p) && gone in p && gone !in Survivors(p, max) && kept in Survivors(p, max)
    ensures Colder(p[gone], p[kept])
  {
    if Colder(p[kept], p[gone]) {
      assert kept in ColderThan(p, gone) && kept !in ColderThan(p, kept);
      SubsetSize(ColderThan(p, kept), ColderThan(p, gone));
    }
  }

  // ---------- The table ----------

  ghost predicate Numbered(insertSeq: map<EdgeKey, nat>, nextSeq: nat) {
    (forall k <- insertSeq :: insertSeq[k] <= nextSeq) &&
    forall j, k :: SameNumber(insertSeq, j, k) ==> j == k
  }

  predicate SameNumber(insertSeq: map<EdgeKey, nat>, j: EdgeKey, k: EdgeKey) {
    j in insertSeq && k in insertSeq && insertSeq[j] == insertSeq[k]
  }

  predicate SameKeys(t: Table) { t.insertSeq.Keys == t.edges.Keys }

  ghost predicate Valid(t: Table) { SameKeys(t) && Numbered(t.insertSeq, t.nextSeq) }

  function HeatOf(t: Table): Heats
    requires SameKeys(t)
  {
    map k | k in t.edges :: Heat(t.edges[k].calls, t.edges[k].lastSeen, t.insertSeq[k])
  }

  function Evicted(t: Table, max: int): Table
    requires SameKeys(t)
  {
    var gone := t.edges.Keys - Survivors(HeatOf(t), max);
    Table(t.edges - gone, t.insertSeq - gone, t.nextSeq, t.evicted + Excess(|t.edges|, max), t.lastNewEmit - gone)
  }

  function Without(t: Table, v: EdgeKey): Table {
    Table(t.edges - {v}, t.insertSeq - {v}, t.nextSeq, t.evicted + 1, t.lastNewEmit - {v})
  }

  lemma HeatsDistinct(t: Table)
    requires Valid(t)
    ensures Distinct(HeatOf(t)) && HeatOf(t).Keys == t.edges.Keys && |HeatOf(t)| == |t.edges|
  {
    var p := HeatOf(t);
    assert p.Keys == t.edges.Keys;
    assert |p.Keys| == |p| && |t.edges.Keys| == |t.edges|;
    forall j, k | j in p && k in p && p[j] == p[k] ensures j == k { assert SameNumber(t.insertSeq, j, k); }
  }

  lemma NumberedSubset(insertSeq: map<EdgeKey, nat>, nextSeq: nat, gone: set<EdgeKey>)
    requires Numbered(insertSeq, nextSeq)
    ensures Numbered(insertSeq - gone, nextSeq)
  {
    forall j, k | SameNumber(insertSeq - gone, j, k) ensures j == k { assert SameNumber(insertSeq, j, k); }
  }

  lemma WithoutHeat(t: Table, v: EdgeKey)
    requires SameKeys(t) && SameKeys(Without(t, v))
    ensures HeatOf(Without(t, v)) == HeatOf(t) - {v}
  {
  }

  lemma RemoveOne<T>(m: map<EdgeKey, T>, v: EdgeKey)
    requires v in m
    ensures (m - {v}).Keys == m.Keys - {v} && |m - {v}| == |m| - 1
  {
    assert (m - {v}).Keys == m.Keys - {v};
    assert |m.Keys| == |m| && |(m - {v}).Keys| == |m - {v}|;
  }

  lemma WithoutValid(t: Table, v: EdgeKey)
    requires Valid(t) && v in t.edges
    ensures Valid(Without(t, v)) && HeatOf(Without(t, v)) == HeatOf(t) - {v} && |Without(t, v).edges| == |t.edges| - 1
  {
    NumberedSubset(t.insertSeq, t.nextSeq, {v});
    RemoveOne(t.edges, v);
    RemoveOne(t.insertSeq, v);
    WithoutHeat(t, v);
  }

  /** Evicting the coldest edge and then the rest is evicting them all. */
  lemma EvictColdestFirst(t: Table, v: EdgeKey, max: int)
    requires Valid(t) && IsColdest(HeatOf(t), v) && 0 < max < |t.edges|
    ensures Valid(Without(t, v)) && Evicted(Without(t, v), max) == Evicted(t, max)
  {
    var p := HeatOf(t);
    HeatsDistinct(t);
    WithoutValid(t, v);
    SurvivorsWithoutColdest(p, v, max);
    assert v !in Survivors(p - {v}, max);
    SameRemoval(t, v, t.edges.Keys - Survivors(p, max));
  }

  lemma SameRemoval(t: Table, v: EdgeKey, gone: set<EdgeKey>)
    requires v in gone && v in t.edges
    ensures t.edges - gone == (t.edges - {v}) - (gone - {v})
    ensures t.insertSeq - gone == (t.insertSeq - {v}) - (gone - {v})
    ensures t.lastNewEmit - gone == (t.lastNewEmit - {v}) - (gone - {v})
    ensures forall keep: set<EdgeKey> :: gone == t.edges.Keys - keep ==> gone - {v} == (t.edges - {v}).Keys - keep
  {
  }

  lemma RemoveNone<T>(m: map<EdgeKey, T>)
    ensures m - {} == m
  {
  }

  lemma NothingToEvict(t: Table, max: int)
    requires Valid(t) && (max <= 0 || |t.edges| <= max)
    ensures Evicted(t, max) == t
  {
    HeatsDistinct(t);
    AllFit(HeatOf(t), max);
    assert t.edges.Keys - Survivors(HeatOf(t), max) == {};
    RemoveNone(t.edges);
    RemoveNone(t.insertSeq);
    RemoveNone(t.lastNewEmit);
  }

  /** An eviction leaves a valid table holding exactly the cap, or everything if it fits. */
  lemma EvictionFitsCap(t: Table, max: int)
    requires Valid(t)
    ensures Valid(Evicted(t, max)) && Evicted(t, max).edges.Keys == Survivors(HeatOf(t), max)
    ensures |Evicted(t, max).edges| == |t.edges| - Excess(|t.edges|, max)
  {
    HeatsDistinct(t);
    SurvivorCount(HeatOf(t), max);
    var u := Evicted(t, max);
    NumberedSubset(t.insertSeq, t.nextSeq, t.edges.Keys - Survivors(HeatOf(t), max));
    assert u.edges.Keys == Survivors(HeatOf(t), max);
    assert |u.edges.Keys| == |u.edges|;
  }

  // ---------- One call ----------

  function Pow2(n: nat): nat { if n == 0 then 1 else 2 * Pow2(n - 1) }

  /** The last of the sixteen doubling buckets whose lower bound, in whole milliseconds, the
      duration reaches. */
  ghost predicate IsBucket(durationNanos: nat, idx: nat) {
    var ms := durationNanos / 1_000_000;
    idx < HIST_BUCKETS && (idx == 0 || Pow2(idx) <= ms) && (idx == HIST_BUCKETS - 1 || ms < Pow2(idx + 1))
  }

  function BucketFrom(ms: nat, idx: nat): nat
    requires idx < HIST_BUCKETS
    decreases HIST_BUCKETS - idx
  {
    if idx < HIST_BUCKETS - 1 && ms >= Pow2(idx + 1) then BucketFrom(ms, idx + 1) else idx
  }

  function Bucket(durationNanos: nat): (idx: nat)
    ensures idx < HIST_BUCKETS
  {
    BucketBounds(durationNanos / 1_000_000, 0);
    BucketFrom(durationNanos / 1_000_000, 0)
  }

  lemma {:induction false} BucketBounds(ms: nat, idx: nat)
    requires idx < HIST_BUCKETS && (idx == 0 || Pow2(idx) <= ms)
    ensures var r := BucketFrom(ms, idx);
            idx <= r < HIST_BUCKETS && (r == 0 || Pow2(r) <= ms) && (r == HIST_BUCKETS - 1 || ms < Pow2(r + 1))
    decreases HIST_BUCKETS - idx
  {
    if idx < HIST_BUCKETS - 1 && ms >= Pow2(idx + 1) { BucketBounds(ms, idx + 1); }
  }

  lemma {:induction false} Pow2Grows(m: nat, n: nat)
    requires m <= n
    ensures Pow2(m) <= Pow2(n)
    decreases n
  {
    if m < n { Pow2Grows(m, n - 1); }
  }

  /** A duration has one bucket, the clamped binary logarithm of its milliseconds. */
  lemma BucketExactly(durationNanos: nat, idx: nat)
    ensures IsBucket(durationNanos, idx) <==> idx == Bucket(durationNanos)
  {
    var ms := durationNanos / 1_000_000;
    var r := Bucket(durationNanos);
    BucketBounds(ms, 0);
    if IsBucket(durationNanos, idx) {
      if idx < r { Pow2Grows(idx + 1, r); }
      if r < idx { Pow2Grows(r + 1, idx); }
    }
  }

  const NoCalls: seq<nat> := [0, 0, 0, 0, 0, 0, 0, 0, 0, 0, 0, 0, 0, 0, 0, 0]

  function NewEdge(ts: int): Edge { Edge(0, 0, 0, NoCalls, ts, 0, 0, false, false) }

  function Counted(e: Edge, ts: int, duration: nat, isErr: bool): Edge
    requires |e.hist| == HIST_BUCKETS
  {
    var b := Bucket(duration);
    e.(calls := e.calls + 1, errors := e.errors + (if isErr then 1 else 0), durationSum := e.durationSum + duration,
       hist := e.hist[b := e.hist[b] + 1], lastSeen := ts, bucketStart := ts - ts % EDGE_BUCKET, isVanished := false)
  }

  ghost predicate Shaped(edges: map<EdgeKey, Edge>) { forall k <- edges :: |edges[k].hist| == HIST_BUCKETS }

  function Latest(edges: map<EdgeKey, Edge>, key: EdgeKey, ts: int): Edge {
    if key in edges then edges[key] else NewEdge(ts)
  }

  /** The table with the call counted, before any eviction. */
  function Touched(t: Table, key: EdgeKey, ts: int, duration: nat, isErr: bool): Table
    requires Shaped(t.edges)
  {
    var known := key in t.edges;
    Table(t.edges[key := Counted(Latest(t.edges, key, ts), ts, duration, isErr)],
          if known then t.insertSeq else t.insertSeq[key := t.nextSeq + 1],
          if known then t.nextSeq else t.nextSeq + 1, t.evicted, t.lastNewEmit)
  }

  predicate IsNew(lastNewEmit: map<EdgeKey, int>, key: EdgeKey, ts: int) {
    key in lastNewEmit ==> ts - lastNewEmit[key] > NEW_EDGE_WINDOW
  }

  /** Marks whether the edge counts as new; the mark is lost on an edge that just evicted itself. */
  function Marked(t: Table, key: EdgeKey, ts: int): Table {
    Table(MarkedEdges(t.edges, key, IsNew(t.lastNewEmit, key, ts)), t.insertSeq, t.nextSeq, t.evicted,
          t.lastNewEmit[key := ts])
  }

  function MarkedEdges(edges: map<EdgeKey, Edge>, key: EdgeKey, isNew: bool): map<EdgeKey, Edge> {
    if key in edges then edges[key := edges[key].(isNew := isNew)] else edges
  }

  function AfterEviction(t: Table, key: EdgeKey, ts: int, duration: nat, isErr: bool, max: int): Table
    requires Valid(t) && Shaped(t.edges)
  {
    var u := Touched(t, key, ts, duration, isErr);
    if key in t.edges then u else Evicted(u, max)
  }

  function Upserted(t: Table, key: EdgeKey, ts: int, duration: nat, isErr: bool, max: int): Table
    requires Valid(t) && Shaped(t.edges)
  {
    Marked(AfterEviction(t, key, ts, duration, isErr, max), key, ts)
  }

  lemma AddKey<T>(m: map<EdgeKey, T>, key: EdgeKey, x: T)
    ensures m[key := x].Keys == m.Keys + {key}
    ensures |m[key := x]| == |m| + if key in m then 0 else 1
  {
    assert m[key := x].Keys == m.Keys + {key};
    assert |m[key := x].Keys| == |m[key := x]| && |m.Keys| == |m|;
    if key in m { assert m.Keys + {key} == m.Keys; }
  }

  lemma NumberedNext(insertSeq: map<EdgeKey, nat>, nextSeq: nat, key: EdgeKey)
    requires Numbered(insertSeq, nextSeq)
    ensures Numbered(insertSeq[key := nextSeq + 1], nextSeq + 1)
  {
    var m := insertSeq[key := nextSeq + 1];
    forall j, k | SameNumber(m, j, k) ensures j == k { assert j == key || k == key || SameNumber(insertSeq, j, k); }
  }

  lemma TouchedValid(t: Table, key: EdgeKey, ts: int, duration: nat, isErr: bool)
    requires Valid(t) && Shaped(t.edges)
    ensures var u := Touched(t, key, ts, duration, isErr);
            Valid(u) && Shaped(u.edges) && |u.edges| == |t.edges| + (if key in t.edges then 0 else 1)
  {
    AddKey(t.edges, key, Counted(Latest(t.edges, key, ts), ts, duration, isErr));
    AddKey(t.insertSeq, key, t.nextSeq + 1);
    NumberedNext(t.insertSeq, t.nextSeq, key);
  }

  lemma MarkedKeepsShape(t: Table, key: EdgeKey, ts: int)
    requires Valid(t) && Shaped(t.edges)
    ensures var u := Marked(t, key, ts);
            Valid(u) && Shaped(u.edges) && u.edges.Keys == t.edges.Keys && |u.edges| == |t.edges| &&
              u.evicted == t.evicted
  {
    if key in t.edges { AddKey(t.edges, key, t.edges[key].(isNew := IsNew(t.lastNewEmit, key, ts))); }
  }

  lemma EvictedShaped(t: Table, max: int)
    requires Valid(t) && Shaped(t.edges)
    ensures Shaped(Evicted(t, max).edges) && forall k <- Evicted(t, max).edges :: Evicted(t, max).edges[k] == t.edges[k]
  {
  }

  /** A call keeps the table valid, within the cap if it was, and loses count of no edge. */
  lemma UpsertKeepsCap(t: Table, key: EdgeKey, ts: int, duration: nat, isErr: bool, max: int)
    requires Valid(t) && Shaped(t.edges)
    ensures var u := Upserted(t, key, ts, duration, isErr, max);
            Valid(u) && Shaped(u.edges) && (max > 0 && |t.edges| <= max ==> |u.edges| <= max) &&
            |u.edges| + u.evicted == |t.edges| + t.evicted + (if key in t.edges then 0 else 1)
  {
    var u := Touched(t, key, ts, duration, isErr);
    TouchedValid(t, key, ts, duration, isErr);
    EvictionFitsCap(u, max);
    EvictedShaped(u, max);
    MarkedKeepsShape(AfterEviction(t, key, ts, duration, isErr, max), key, ts);
  }

  function Sum(h: seq<nat>): nat { if h == [] then 0 else h[0] + Sum(h[1..]) }

  /** The histogram accounts for every call. */
  ghost predicate Balanced(e: Edge) { |e.hist| == HIST_BUCKETS && Sum(e.hist) == e.calls }

  ghost predicate AllBalanced(edges: map<EdgeKey, Edge>) { forall k <- edges :: Balanced(edges[k]) }

  lemma {:induction false} SumBump(h: seq<nat>, i: nat)
    requires i < |h|
    ensures Sum(h[i := h[i] + 1]) == Sum(h) + 1
    decreases |h|
  {
    if i > 0 {
      SumBump(h[1..], i - 1);
      assert h[i := h[i] + 1][1..] == h[1..][i - 1 := h[1..][i - 1] + 1];
    } else {
      assert h[i := h[i] + 1][1..] == h[1..];
    }
  }

  lemma {:induction false} SumZero(h: seq<nat>)
    requires forall i :: 0 <= i < |h| ==> h[i] == 0
    ensures Sum(h) == 0
    decreases |h|
  {
    if h != [] { SumZero(h[1..]); }
  }

  lemma CountedBalanced(e: Edge, ts: int, duration: nat, isErr: bool)
    requires Balanced(e)
    ensures Balanced(Counted(e, ts, duration, isErr))
  {
    SumBump(e.hist, Bucket(duration));
  }

  lemma TouchedBalanced(t: Table, key: EdgeKey, ts: int, duration: nat, isErr: bool)
    requires Shaped(t.edges) && AllBalanced(t.edges)
    ensures AllBalanced(Touched(t, key, ts, duration, isErr).edges)
  {
    hide Balanced;
    LatestBalanced(t, key, ts);
    CountedBalanced(Latest(t.edges, key, ts), ts, duration, isErr);
    var next := Touched(t, key, ts, duration, isErr).edges;
    forall k | k in next ensures Balanced(next[k]) {
    }
  }

  lemma LatestBalanced(t: Table, key: EdgeKey, ts: int)
    requires AllBalanced(t.edges)
    ensures Balanced(Latest(t.edges, key, ts))
  {
    SumZero(NoCalls);
  }

  lemma EvictedBalanced(t: Table, max: int)
    requires Valid(t) && Shaped(t.edges) && AllBalanced(t.edges)
    ensures AllBalanced(Evicted(t, max).edges)
  {
    EvictedShaped(t, max);
  }

  lemma AfterEvictionBalanced(t: Table, key: EdgeKey, ts: int, duration: nat, isErr: bool, max: int)
    requires Valid(t) && Shaped(t.edges) && AllBalanced(t.edges)
    ensures AllBalanced(AfterEviction(t, key, ts, duration, isErr, max).edges)
  {
    TouchedBalanced(t, key, ts, duration, isErr);
    TouchedValid(t, key, ts, duration, isErr);
    EvictedBalanced(Touched(t, key, ts, duration, isErr), max);
  }

  lemma UpsertKeepsBalance(t: Table, key: EdgeKey, ts: int, duration: nat, isErr: bool, max: int)
    requires Valid(t) && Shaped(t.edges) && AllBalanced(t.edges)
    ensures AllBalanced(Upserted(t, key, ts, duration, isErr, max).edges)
  {
    AfterEvictionBalanced(t, key, ts, duration, isErr, max);
    BalanceMarked(AfterEviction(t, key, ts, duration, isErr, max).edges, key);
  }

  lemma BalanceMarked(edges: map<EdgeKey, Edge>, key: EdgeKey)
    requires AllBalanced(edges)
    ensures AllBalanced(MarkedEdges(edges, key, true)) && AllBalanced(MarkedEdges(edges, key, false))
  {
  }

  lemma OneOverCap(p: Heats, key: EdgeKey, max: int)
    requires key in p && 0 < max && |p| == max + 1
    ensures key in Survivors(p, max) <==> exists k <- p :: Colder(p[k], p[key])
  {
    if k :| k in p && Colder(p[k], p[key]) {
      assert k in ColderThan(p, key);
    } else {
      assert ColderThan(p, key) == {};
    }
  }

  /** At the cap a new edge gets in exactly when some edge has never been called, or only once
      and no later; otherwise it evicts itself. */
  lemma NewcomerSurvivesExactly(t: Table, key: EdgeKey, ts: int, duration: nat, isErr: bool, max: int)
    requires Valid(t) && Shaped(t.edges) && 0 < max == |t.edges| && key !in t.edges
    ensures key in Upserted(t, key, ts, duration, isErr, max).edges <==>
            exists k <- t.edges :: t.edges[k].calls == 0 || (t.edges[k].calls == 1 && t.edges[k].lastSeen <= ts)
  {
    var u := Touched(t, key, ts, duration, isErr);
    TouchedValid(t, key, ts, duration, isErr);
    EvictionFitsCap(u, max);
    EvictedShaped(u, max);
    MarkedKeepsShape(Evicted(u, max), key, ts);
    HeatsDistinct(u);
    OneOverCap(HeatOf(u), key, max);
    NewcomerHeat(t, key, ts, duration, isErr);
  }

  lemma NewcomerHeat(t: Table, key: EdgeKey, ts: int, duration: nat, isErr: bool)
    requires Valid(t) && Shaped(t.edges) && key !in t.edges && SameKeys(Touched(t, key, ts, duration, isErr))
    ensures var p := HeatOf(Touched(t, key, ts, duration, isErr));
            (exists k <- p :: Colder(p[k], p[key])) <==>
            exists k <- t.edges :: t.edges[k].calls == 0 || (t.edges[k].calls == 1 && t.edges[k].lastSeen <= ts)
  {
    var p := HeatOf(Touched(t, key, ts, duration, isErr));
    assert p[key] == Heat(1, ts, t.nextSeq + 1);
    forall k | k in t.edges
      ensures k in p && (Colder(p[k], p[key]) <==>
                         t.edges[k].calls == 0 || (t.edges[k].calls == 1 && t.edges[k].lastSeen <= ts))
    {
      assert p[k] == Heat(t.edges[k].calls, t.edges[k].lastSeen, t.insertSeq[k]);
    }
  }

  // ---------- Warm start ----------

  datatype Loaded = Loaded(key: EdgeKey, edge: Edge)

  function Installed(t: Table, l: Loaded): Table {
    var known := l.key in t.edges;
    Table(t.edges[l.key := l.edge], if known then t.insertSeq else t.insertSeq[l.key := t.nextSeq + 1],
          if known then t.nextSeq else t.nextSeq + 1, t.evicted, t.lastNewEmit)
  }

  function InstalledAll(t: Table, loaded: seq<Loaded>): Table {
    if loaded == [] then t else Installed(InstalledAll(t, loaded[..|loaded| - 1]), loaded[|loaded| - 1])
  }

  lemma InstalledOne(t: Table, l: Loaded)
    requires Valid(t)
    ensures Valid(Installed(t, l)) && Installed(t, l).edges.Keys == t.edges.Keys + {l.key}
  {
    AddKey(t.edges, l.key, l.edge);
    AddKey(t.insertSeq, l.key, t.nextSeq + 1);
    NumberedNext(t.insertSeq, t.nextSeq, l.key);
  }

  lemma {:induction false} InstalledValid(t: Table, loaded: seq<Loaded>)
    requires Valid(t)
    ensures Valid(InstalledAll(t, loaded))
    decreases |loaded|
  {
    if loaded != [] {
      InstalledValid(t, loaded[..|loaded| - 1]);
      InstalledOne(InstalledAll(t, loaded[..|loaded| - 1]), loaded[|loaded| - 1]);
    }
  }

  lemma {:induction false} InstalledBalanced(t: Table, loaded: seq<Loaded>)
    requires AllBalanced(t.edges) && forall i :: 0 <= i < |loaded| ==> Balanced(loaded[i].edge)
    ensures AllBalanced(InstalledAll(t, loaded).edges)
    decreases |loaded|
  {
    if loaded != [] { InstalledBalanced(t, loaded[..|loaded| - 1]); }
  }

  lemma {:induction false} InstalledShape(t: Table, loaded: seq<Loaded>)
    requires Shaped(t.edges) && forall l <- loaded :: |l.edge.hist| == HIST_BUCKETS
    ensures Shaped(InstalledAll(t, loaded).edges)
    decreases |loaded|
  {
    if loaded != [] { InstalledShape(t, loaded[..|loaded| - 1]); }
  }

  function WarmStarted(t: Table, loaded: seq<Loaded>, max: int): Table
    requires Valid(t)
  {
    InstalledValid(t, loaded);
    Evicted(InstalledAll(t, loaded), max)
  }

  /** However many edges the store returns, warm start leaves a valid table within the cap. */
  lemma WarmStartWithinCap(t: Table, loaded: seq<Loaded>, max: int)
    requires Valid(t)
    ensures Valid(WarmStarted(t, loaded, max)) && (max > 0 ==> |WarmStarted(t, loaded, max).edges| <= max)
  {
    InstalledValid(t, loaded);
    EvictionFitsCap(InstalledAll(t, loaded), max);
  }

  // ---------- Whole runs ----------

  datatype Change = Call(key: EdgeKey, ts: int, duration: nat, isErr: bool) | WarmStart(loaded: seq<Loaded>)

  /** What every change leaves true of the table. */
  ghost predicate Sound(t: Table, max: int) {
    Valid(t) && Shaped(t.edges) && AllBalanced(t.edges) && (max > 0 ==> |t.edges| <= max)
  }

  /** Stored edges come from earlier tables, so their histograms account for their calls. */
  ghost predicate Loadable(c: Change) {
    c.WarmStart? ==> forall i :: 0 <= i < |c.loaded| ==> Balanced(c.loaded[i].edge)
  }

  function Applied(t: Table, c: Change, max: int): Table
    requires Valid(t) && Shaped(t.edges)
  {
    match c
    case Call(key, ts, duration, isErr) => Upserted(t, key, ts, duration, isErr, max)
    case WarmStart(loaded) => WarmStarted(t, loaded, max)
  }

  lemma AppliedSound(t: Table, c: Change, max: int)
    requires Sound(t, max) && Loadable(c)
    ensures Sound(Applied(t, c, max), max)
  {
    match c
    case Call(key, ts, duration, isErr) =>
      UpsertKeepsCap(t, key, ts, duration, isErr, max);
      UpsertKeepsBalance(t, key, ts, duration, isErr, max);
    case WarmStart(loaded) =>
      InstalledValid(t, loaded);
      InstalledBalanced(t, loaded);
      WarmStartWithinCap(t, loaded, max);
      EvictedBalanced(InstalledAll(t, loaded), max);
  }

  const Empty := Table(map[], map[], 0, 0, map[])

  /** The table after a whole run from empty. After every call and warm start it is within its
      cap, numbers each live edge once and no others, and every histogram sums to its edge's
      calls. */
  ghost function RunTo(changes: seq<Change>, max: int): (t: Table)
    requires forall c <- changes :: Loadable(c)
    ensures Sound(t, max)
    decreases |changes|
  {
    if changes == [] then Empty
    else
      var u, c := RunTo(changes[..|changes| - 1], max), changes[|changes| - 1];
      AppliedSound(u, c, max);
      Applied(u, c, max)
  }

  // ---------- The sighting times outgrow the cap ----------

  /** Every remembered sighting is of a live edge. */
  ghost predicate Tracks(t: Table) { t.lastNewEmit.Keys <= t.edges.Keys }

  /** A call keeps it so exactly when its edge is live afterwards: the time is written after the
      eviction that may have removed the edge. */
  lemma TracksExactly(t: Table, key: EdgeKey, ts: int, duration: nat, isErr: bool, max: int)
    requires Valid(t) && Shaped(t.edges) && Tracks(t)
    ensures var u := Upserted(t, key, ts, duration, isErr, max);
            Tracks(u) <==> key in u.edges
  {
    hide Counted, Survivors, HeatOf, Valid;
    var v := AfterEviction(t, key, ts, duration, isErr, max);
    assert v.lastNewEmit.Keys <= v.edges.Keys + {key};
    MarkedKeys(v, key, ts);
  }

  lemma MarkedKeys(t: Table, key: EdgeKey, ts: int)
    ensures Marked(t, key, ts).edges.Keys == t.edges.Keys
    ensures Marked(t, key, ts).lastNewEmit.Keys == t.lastNewEmit.Keys + {key}
  {
  }

  /** No edge gives way to a newcomer seen at this time. */
  predicate Closed(edges: map<EdgeKey, Edge>, ts: int) {
    forall k <- edges :: edges[k].calls > 0 && (edges[k].calls == 1 ==> edges[k].lastSeen > ts)
  }

  /** At the cap a newcomer that evicts itself leaves nothing but its sighting time. */
  lemma RefusedLeavesTime(t: Table, key: EdgeKey, ts: int, duration: nat, isErr: bool, max: int)
    requires Valid(t) && Shaped(t.edges) && 0 < max == |t.edges| && key !in t.edges && key !in t.lastNewEmit
    requires key !in Upserted(t, key, ts, duration, isErr, max).edges
    ensures var u := Upserted(t, key, ts, duration, isErr, max);
            u.edges == t.edges && u.insertSeq == t.insertSeq && u.lastNewEmit == t.lastNewEmit[key := ts]
  {
    hide Survivors, HeatOf, Evicted, Touched;
    TouchedValid(t, key, ts, duration, isErr);
    NewcomerAside(t, key, ts, duration, isErr);
    var v := Touched(t, key, ts, duration, isErr);
    MarkedKeys(Evicted(v, max), key, ts);
    EvictsOnly(v, key, max);
  }

  lemma NewcomerAside(t: Table, key: EdgeKey, ts: int, duration: nat, isErr: bool)
    requires Valid(t) && Shaped(t.edges) && key !in t.edges && key !in t.lastNewEmit
    ensures var v := Touched(t, key, ts, duration, isErr);
            key in v.edges && v.edges - {key} == t.edges && v.insertSeq - {key} == t.insertSeq &&
            v.lastNewEmit - {key} == t.lastNewEmit
  {
    hide Counted, Numbered;
  }

  lemma ClosedRefuses(t: Table, key: EdgeKey, ts: int, duration: nat, isErr: bool, max: int)
    requires Valid(t) && Shaped(t.edges) && 0 < max == |t.edges| && key !in t.edges && Closed(t.edges, ts)
    ensures key !in Upserted(t, key, ts, duration, isErr, max).edges
  {
    hide Valid, Shaped, Upserted;
    NewcomerSurvivesExactly(t, key, ts, duration, isErr, max);
  }

  /** One over the cap, the edge that does not survive is the only one to go. */
  lemma EvictsOnly(v: Table, key: EdgeKey, max: int)
    requires Valid(v) && 0 < max && |v.edges| == max + 1 && key in v.edges && key !in Evicted(v, max).edges
    ensures var u := Evicted(v, max);
            u.edges == v.edges - {key} && u.insertSeq == v.insertSeq - {key} && u.lastNewEmit == v.lastNewEmit - {key}
  {
    EvictionFitsCap(v, max);
    var left, rest := Evicted(v, max).edges.Keys, v.edges.Keys - {key};
    assert |left| == |rest| && left <= rest;
    if left != rest { SubsetSize(left, rest); }
    hide Survivors, HeatOf, Valid;
    assert v.edges.Keys - left == {key};
  }

  function Offered(t: Table, keys: seq<EdgeKey>, ts: int, max: int): Table
    requires Valid(t) && Shaped(t.edges)
    decreases |keys|
  {
    if keys == [] then t
    else
      UpsertKeepsCap(t, keys[0], ts, 0, false, max);
      Offered(Upserted(t, keys[0], ts, 0, false, max), keys[1..], ts, max)
  }

  /** So the sighting times are not bounded by the cap: a table that gives way to no newcomer
      keeps its edges and remembers every one of them. */
  lemma {:induction false} TimesOutgrowCap(t: Table, keys: seq<EdgeKey>, ts: int, max: int)
    requires Valid(t) && Shaped(t.edges) && 0 < max == |t.edges| && Closed(t.edges, ts)
    requires forall i, j :: 0 <= i < j < |keys| ==> keys[i] != keys[j]
    requires forall k <- keys :: k !in t.edges && k !in t.lastNewEmit
    ensures var u := Offered(t, keys, ts, max);
            u.edges == t.edges && |u.lastNewEmit| == |t.lastNewEmit| + |keys|
    decreases |keys|
  {
    hide Valid, Shaped, Closed, Upserted;
    if keys != [] {
      ClosedRefuses(t, keys[0], ts, 0, false, max);
      RefusedLeavesTime(t, keys[0], ts, 0, false, max);
      UpsertKeepsCap(t, keys[0], ts, 0, false, max);
      AddKey(t.lastNewEmit, keys[0], ts);
      var u := Upserted(t, keys[0], ts, 0, false, max);
      forall k | k in keys[1..] ensures k !in u.edges && k !in u.lastNewEmit {
        var i :| 0 <= i < |keys[1..]| && keys[1..][i] == k;
        assert keys[i + 1] == k && keys[0] != k;
      }
      TimesOutgrowCap(u, keys[1..], ts, max);
    }
  }
}
