/** Sharded trace assembly: spans buffered per trace, deduplicated, journalled, and finalized.
    The ring is stable: one list of members, no longer than the list of shards. */
module TraceAssembly {
  import opened Sharding
  import RedMetrics

  datatype Span = Span(tenant: string, traceID: TraceID, spanID: string, service: string, name: string,
                       isErr: bool, start: nat, end: nat, sizeBytes: nat)

  datatype TraceKey = TraceKey(tenant: string, traceID: TraceID)

  datatype OpenTrace = OpenTrace(tenant: string, traceID: TraceID, spans: seq<Span>, firstSeen: int, lastSeen: int,
                                 byteSize: nat, seen: set<string>)

  type Shard = map<TraceKey, OpenTrace>
  type Segment = map<TraceKey, seq<Span>>
  type Journal = map<int, Segment>

  /** One trace given up to the policy, or shed by a flush. */
  datatype Finalized = Finalized(key: TraceKey, spans: seq<Span>, forced: bool)

  datatype Ring = Ring(score: Score, members: seq<Member>)

  /** accepted records every span buffered, finalized every trace given up, oldest first. */
  datatype State = State(shards: seq<Shard>, wal: Journal, duplicates: nat, accepted: seq<Span>,
                         finalized: seq<Finalized>)

  function Home(ring: Ring, id: TraceID): int { Owner(ring.score, ring.members, id) }

  function KeyOf(t: OpenTrace): TraceKey { TraceKey(t.tenant, t.traceID) }

  function SegmentAt(wal: Journal, i: int): Segment { if i in wal then wal[i] else map[] }

  function Journalled(wal: Journal, i: int, k: TraceKey, s: Span): Journal {
    var seg := SegmentAt(wal, i);
    wal[i := seg[k := (if k in seg then seg[k] else []) + [s]]]
  }

  function Truncated(wal: Journal, i: int, k: TraceKey): Journal {
    if i in wal then wal[i := wal[i] - {k}] else wal
  }

  function Duration(s: Span): nat { if s.end <= s.start then 0 else s.end - s.start }

  /** What a span contributes to the rate, error and duration metrics. */
  function SightingOf(s: Span, now: int): RedMetrics.Sighting {
    RedMetrics.Sighting(RedMetrics.RedKey(s.tenant, s.service, s.name, RedMetrics.BucketStart(now)), s.isErr,
                        Duration(s), s.traceID)
  }

  // ---------- What holds between calls ----------

  function Ids(spans: seq<Span>): set<string> { set s | s in spans :: s.spanID }

  ghost predicate DistinctIds(spans: seq<Span>) {
    forall i, j :: 0 <= i < j < |spans| ==> spans[i].spanID != spans[j].spanID
  }

  ghost predicate Belong(spans: seq<Span>, k: TraceKey) {
    forall s <- spans :: s.tenant == k.tenant && s.traceID == k.traceID
  }

  /** A buffer holds spans of its own key, each id once and remembered. */
  ghost predicate TraceOk(k: TraceKey, t: OpenTrace) {
    KeyOf(t) == k && t.spans != [] && t.seen == Ids(t.spans) && DistinctIds(t.spans) && Belong(t.spans, k)
  }

  ghost predicate ShardOk(ring: Ring, i: int, shard: Shard) {
    forall k <- shard :: TraceOk(k, shard[k]) && Home(ring, k.traceID) == i
  }

  ghost predicate ShardsOk(ring: Ring, shards: seq<Shard>) {
    forall i :: 0 <= i < |shards| ==> ShardOk(ring, i, shards[i])
  }

  function SpansIn(shard: Shard): Segment { map k | k in shard :: shard[k].spans }

  /** The journal holds the open buffers and nothing else, shard by shard and key by key. */
  ghost predicate WalAgrees(shards: seq<Shard>, wal: Journal) {
    forall i :: 0 <= i < |shards| ==> SegmentAt(wal, i) == SpansIn(shards[i])
  }

  function SpansOf(spans: seq<Span>, k: TraceKey): seq<Span> {
    if spans == [] then []
    else
      var s := spans[|spans| - 1];
      SpansOf(spans[..|spans| - 1], k) + if TraceKey(s.tenant, s.traceID) == k then [s] else []
  }

  function ClosedSpans(finalized: seq<Finalized>, k: TraceKey): seq<Span> {
    if finalized == [] then []
    else
      var f := finalized[|finalized| - 1];
      ClosedSpans(finalized[..|finalized| - 1], k) + if f.key == k then f.spans else []
  }

  function SpansAt(shard: Shard, k: TraceKey): seq<Span> { if k in shard then shard[k].spans else [] }

  function OpenSpans(ring: Ring, shards: seq<Shard>, k: TraceKey): seq<Span> {
    var i := Home(ring, k.traceID);
    if 0 <= i < |shards| then SpansAt(shards[i], k) else []
  }

  /** For every key the spans accepted are, in order, those finalized and then those open. */
  ghost predicate Conserved(ring: Ring, shards: seq<Shard>, accepted: seq<Span>, finalized: seq<Finalized>) {
    forall k :: SpansOf(accepted, k) == ClosedSpans(finalized, k) + OpenSpans(ring, shards, k)
  }

  ghost predicate FinalOk(f: Finalized) { f.spans != [] && DistinctIds(f.spans) && Belong(f.spans, f.key) }

  ghost predicate RingFits(ring: Ring, shards: seq<Shard>) { 0 < |ring.members| <= |shards| }

  ghost predicate Consistent(ring: Ring, st: State) {
    RingFits(ring, st.shards) && ShardsOk(ring, st.shards) && WalAgrees(st.shards, st.wal) &&
    Conserved(ring, st.shards, st.accepted, st.finalized) && forall f <- st.finalized :: FinalOk(f)
  }

  // ---------- Accepting a span ----------

  function Opened(shard: Shard, k: TraceKey, now: int): OpenTrace {
    if k in shard then shard[k] else OpenTrace(k.tenant, k.traceID, [], now, now, 0, {})
  }

  function Extended(t: OpenTrace, s: Span, now: int): OpenTrace {
    OpenTrace(t.tenant, t.traceID, t.spans + [s], t.firstSeen, now, t.byteSize + s.sizeBytes, t.seen + {s.spanID})
  }

  predicate IsDuplicate(shard: Shard, k: TraceKey, s: Span) { k in shard && s.spanID in shard[k].seen }

  function SpanKey(s: Span): TraceKey { TraceKey(s.tenant, s.traceID) }

  /** The state after one span, already stamped with its tenant. */
  function Consumed(ring: Ring, st: State, s: Span, now: int): State
    requires RingFits(ring, st.shards)
  {
    var i, k := Home(ring, s.traceID), SpanKey(s);
    if IsDuplicate(st.shards[i], k, s) then st.(duplicates := st.duplicates + 1)
    else
      State(st.shards[i := st.shards[i][k := Extended(Opened(st.shards[i], k, now), s, now)]],
            Journalled(st.wal, i, k, s), st.duplicates, st.accepted + [s], st.finalized)
  }

  lemma IdsAppend(spans: seq<Span>, s: Span)
    ensures Ids(spans + [s]) == Ids(spans) + {s.spanID}
  {
    assert forall x :: x in spans + [s] <==> x in spans || x == s;
  }

  lemma DistinctAppend(spans: seq<Span>, s: Span)
    requires DistinctIds(spans) && s.spanID !in Ids(spans)
    ensures DistinctIds(spans + [s])
  {
    forall i, j | 0 <= i < j < |spans| + 1 ensures (spans + [s])[i].spanID != (spans + [s])[j].spanID {
      if j == |spans| { assert spans[i] in spans; }
    }
  }

  lemma ExtendedOk(k: TraceKey, t: OpenTrace, s: Span, now: int)
    requires SpanKey(s) == k && KeyOf(t) == k && s.spanID !in t.seen
    requires (t.spans == [] && t.seen == {}) || TraceOk(k, t)
    ensures TraceOk(k, Extended(t, s, now))
  {
    hide Ids, DistinctIds;
    if t.spans == [] { NoSpans(); }
    IdsAppend(t.spans, s);
    DistinctAppend(t.spans, s);
  }

  lemma NoSpans()
    ensures Ids([]) == {} && DistinctIds([])
  {
  }

  lemma OpenedOk(ring: Ring, i: int, shard: Shard, k: TraceKey, now: int)
    requires ShardOk(ring, i, shard)
    ensures var t := Opened(shard, k, now); KeyOf(t) == k && ((t.spans == [] && t.seen == {}) || TraceOk(k, t))
  {
  }

  lemma AcceptAgrees(shards: seq<Shard>, wal: Journal, i: nat, k: TraceKey, s: Span, now: int)
    requires WalAgrees(shards, wal) && i < |shards|
    ensures WalAgrees(shards[i := shards[i][k := Extended(Opened(shards[i], k, now), s, now)]],
                      Journalled(wal, i, k, s))
  {
    hide WalAgrees;
    var next := shards[i := shards[i][k := Extended(Opened(shards[i], k, now), s, now)]];
    forall j | 0 <= j < |next| ensures SegmentAt(Journalled(wal, i, k, s), j) == SpansIn(next[j]) {
      AgreesAt(shards, wal, j);
      if j == i { assert k in SpansIn(shards[i]) <==> k in shards[i]; }
    }
    AgreesAll(next, Journalled(wal, i, k, s));
  }

  lemma AgreesAt(shards: seq<Shard>, wal: Journal, j: nat)
    requires WalAgrees(shards, wal) && j < |shards|
    ensures SegmentAt(wal, j) == SpansIn(shards[j])
  {
  }

  lemma AgreesAll(shards: seq<Shard>, wal: Journal)
    requires forall j :: 0 <= j < |shards| ==> SegmentAt(wal, j) == SpansIn(shards[j])
    ensures WalAgrees(shards, wal)
  {
  }

  lemma SpansOfAppend(spans: seq<Span>, s: Span, k: TraceKey)
    ensures SpansOf(spans + [s], k) == SpansOf(spans, k) + if SpanKey(s) == k then [s] else []
  {
    assert (spans + [s])[..|spans|] == spans;
  }

  lemma OpenSpansUpdate(ring: Ring, shards: seq<Shard>, i: nat, shard: Shard, k: TraceKey)
    requires i < |shards|
    ensures OpenSpans(ring, shards[i := shard], k) ==
            if Home(ring, k.traceID) == i then SpansAt(shard, k) else OpenSpans(ring, shards, k)
  {
  }

  lemma AcceptConserves(ring: Ring, shards: seq<Shard>, accepted: seq<Span>, finalized: seq<Finalized>, s: Span,
                        now: int)
    requires RingFits(ring, shards) && Conserved(ring, shards, accepted, finalized)
    ensures var i, k := Home(ring, s.traceID), SpanKey(s);
            Conserved(ring, shards[i := shards[i][k := Extended(Opened(shards[i], k, now), s, now)]], accepted + [s],
                      finalized)
  {
    hide SpansOf, ClosedSpans, OpenSpans;
    var i, k := Home(ring, s.traceID), SpanKey(s);
    var shard := shards[i][k := Extended(Opened(shards[i], k, now), s, now)];
    forall j
      ensures SpansOf(accepted + [s], j) == ClosedSpans(finalized, j) + OpenSpans(ring, shards[i := shard], j)
    {
      SpansOfAppend(accepted, s, j);
      OpenSpansUpdate(ring, shards, i, shard, j);
      OpenSpansUpdate(ring, shards, i, shards[i], j);
      assert shards[i := shards[i]] == shards;
      assert SpansAt(shard, j) == SpansAt(shards[i], j) + if j == k then [s] else [];
      assert SpansOf(accepted, j) == ClosedSpans(finalized, j) + OpenSpans(ring, shards, j);
    }
  }

  lemma AcceptShards(ring: Ring, shards: seq<Shard>, s: Span, now: int)
    requires RingFits(ring, shards) && ShardsOk(ring, shards)
    requires !IsDuplicate(shards[Home(ring, s.traceID)], SpanKey(s), s)
    ensures var i, k := Home(ring, s.traceID), SpanKey(s);
            ShardsOk(ring, shards[i := shards[i][k := Extended(Opened(shards[i], k, now), s, now)]])
  {
    hide TraceOk, Extended;
    var i, k := Home(ring, s.traceID), SpanKey(s);
    assert ShardOk(ring, i, shards[i]);
    OpenedOk(ring, i, shards[i], k, now);
    ExtendedOk(k, Opened(shards[i], k, now), s, now);
  }

  lemma ConsumeKeepsConsistent(ring: Ring, st: State, s: Span, now: int)
    requires Consistent(ring, st)
    ensures Consistent(ring, Consumed(ring, st, s, now))
    ensures var u := Consumed(ring, st, s, now);
            |u.accepted| + u.duplicates == |st.accepted| + st.duplicates + 1
  {
    hide ShardsOk, WalAgrees, Conserved, IsDuplicate;
    var i, k := Home(ring, s.traceID), SpanKey(s);
    if !IsDuplicate(st.shards[i], k, s) {
      AcceptShards(ring, st.shards, s, now);
      AcceptAgrees(st.shards, st.wal, i, k, s, now);
      AcceptConserves(ring, st.shards, st.accepted, st.finalized, s, now);
    }
  }

  // ---------- Giving up a trace ----------

  /** The state after a trace already taken out of shard i is finalized. */
  function Closed(st: State, i: int, t: OpenTrace, forced: bool): State {
    st.(wal := Truncated(st.wal, i, KeyOf(t)), finalized := st.finalized + [Finalized(KeyOf(t), t.spans, forced)])
  }

  /** The traces taken out of a shard and not yet finalized. */
  function Limbo(due: seq<OpenTrace>): Shard {
    if due == [] then map[] else Limbo(due[1..])[KeyOf(due[0]) := due[0]]
  }

  /** The state as it would be with those traces still in their shard. */
  function WithLimbo(st: State, i: nat, due: seq<OpenTrace>): State
    requires i < |st.shards|
  {
    st.(shards := st.shards[i := st.shards[i] + Limbo(due)])
  }

  ghost predicate DistinctKeys(due: seq<OpenTrace>) {
    forall i, j :: 0 <= i < j < |due| ==> KeyOf(due[i]) != KeyOf(due[j])
  }

  lemma {:induction false} LimboKeys(due: seq<OpenTrace>)
    ensures forall k :: k in Limbo(due) <==> exists i :: 0 <= i < |due| && KeyOf(due[i]) == k
    decreases |due|
  {
    if due != [] {
      LimboKeys(due[1..]);
      assert forall i :: 0 <= i < |due| - 1 ==> due[1..][i] == due[i + 1];
    }
  }

  lemma CloseAgrees(shards: seq<Shard>, wal: Journal, i: nat, shard: Shard, k: TraceKey)
    requires i < |shards| && WalAgrees(shards[i := shard], wal)
    ensures WalAgrees(shards[i := shard - {k}], Truncated(wal, i, k))
  {
    hide WalAgrees;
    var before, after := shards[i := shard], shards[i := shard - {k}];
    forall j | 0 <= j < |after| ensures SegmentAt(Truncated(wal, i, k), j) == SpansIn(after[j]) {
      AgreesAt(before, wal, j);
      if j == i { assert SpansIn(shard - {k}) == SpansIn(shard) - {k}; }
    }
    AgreesAll(after, Truncated(wal, i, k));
  }

  lemma ClosedSpansAppend(finalized: seq<Finalized>, f: Finalized, k: TraceKey)
    ensures ClosedSpans(finalized + [f], k) == ClosedSpans(finalized, k) + if f.key == k then f.spans else []
  {
    assert (finalized + [f])[..|finalized|] == finalized;
  }

  lemma CloseConserves(ring: Ring, shards: seq<Shard>, accepted: seq<Span>, finalized: seq<Finalized>,
                       i: nat, shard: Shard, k: TraceKey, forced: bool)
    requires i < |shards| && k in shard && Home(ring, k.traceID) == i
    requires Conserved(ring, shards[i := shard], accepted, finalized)
    ensures Conserved(ring, shards[i := shard - {k}], accepted, finalized + [Finalized(k, shard[k].spans, forced)])
  {
    hide SpansOf, ClosedSpans, OpenSpans;
    var f := Finalized(k, shard[k].spans, forced);
    forall j
      ensures SpansOf(accepted, j) == ClosedSpans(finalized + [f], j) + OpenSpans(ring, shards[i := shard - {k}], j)
    {
      ClosedSpansAppend(finalized, f, j);
      OpenSpansUpdate(ring, shards, i, shard, j);
      OpenSpansUpdate(ring, shards, i, shard - {k}, j);
      assert SpansOf(accepted, j) == ClosedSpans(finalized, j) + OpenSpans(ring, shards[i := shard], j);
    }
  }

  lemma CloseShards(ring: Ring, shards: seq<Shard>, i: nat, shard: Shard, k: TraceKey)
    requires i < |shards| && ShardsOk(ring, shards[i := shard])
    ensures ShardsOk(ring, shards[i := shard - {k}])
  {
    hide TraceOk;
    var before, after := shards[i := shard], shards[i := shard - {k}];
    forall j | 0 <= j < |after| ensures ShardOk(ring, j, after[j]) {
      assert ShardOk(ring, j, before[j]);
    }
  }

  lemma CloseKeepsConsistent(ring: Ring, st: State, i: nat, shard: Shard, k: TraceKey, forced: bool)
    requires i < |st.shards| && k in shard && Consistent(ring, st.(shards := st.shards[i := shard]))
    ensures KeyOf(shard[k]) == k
    ensures Consistent(ring, Closed(st.(shards := st.shards[i := shard - {k}]), i, shard[k], forced))
  {
    OwnShard(ring, st.shards[i := shard], i, k);
    hide ShardsOk, WalAgrees, Conserved;
    CloseShards(ring, st.shards, i, shard, k);
    CloseAgrees(st.shards, st.wal, i, shard, k);
    CloseConserves(ring, st.shards, st.accepted, st.finalized, i, shard, k, forced);
  }

  lemma OwnShard(ring: Ring, shards: seq<Shard>, i: nat, k: TraceKey)
    requires i < |shards| && ShardsOk(ring, shards) && k in shards[i]
    ensures TraceOk(k, shards[i][k]) && Home(ring, k.traceID) == i
  {
    assert ShardOk(ring, i, shards[i]);
  }

  /** Finalizing the next trace taken out keeps everything consistent, limbo included. */
  lemma CloseNext(ring: Ring, st: State, i: nat, due: seq<OpenTrace>, forced: bool)
    requires i < |st.shards| && due != [] && DistinctKeys(due) && Consistent(ring, WithLimbo(st, i, due))
    requires forall t <- due :: KeyOf(t) !in st.shards[i]
    ensures Consistent(ring, WithLimbo(Closed(st, i, due[0], forced), i, due[1..]))
  {
    var k, shard := KeyOf(due[0]), st.shards[i] + Limbo(due);
    LimboKeys(due[1..]);
    assert k !in Limbo(due[1..]) by {
      assert forall j :: 0 <= j < |due| - 1 ==> due[1..][j] == due[j + 1];
    }
    assert shard - {k} == st.shards[i] + Limbo(due[1..]);
    hide Consistent;
    CloseKeepsConsistent(ring, st, i, shard, k, forced);
    assert WithLimbo(Closed(st, i, due[0], forced), i, due[1..])
        == Closed(st.(shards := st.shards[i := shard - {k}]), i, shard[k], forced);
  }

  // ---------- The code ----------

  datatype Config = Config(idleTimeout: int, hardTimeout: int)

  predicate IsDue(cfg: Config, t: OpenTrace, now: int) {
    now - t.lastSeen >= cfg.idleTimeout || now - t.firstSeen >= cfg.hardTimeout
  }

  /** What a tick leaves in a shard. */
  function Remaining(cfg: Config, shard: Shard, now: int): Shard {
    map k | k in shard && !IsDue(cfg, shard[k], now) :: shard[k]
  }

  function ConsumedAll(ring: Ring, st: State, tenant: string, spans: seq<Span>, now: int): (r: State)
    requires RingFits(ring, st.shards)
    ensures |r.shards| == |st.shards|
  {
    if spans == [] then st
    else Consumed(ring, ConsumedAll(ring, st, tenant, spans[..|spans| - 1], now), spans[|spans| - 1].(tenant := tenant),
                  now)
  }

  function RecordOf(t: OpenTrace, forced: bool): Finalized { Finalized(KeyOf(t), t.spans, forced) }

  function Records(due: seq<OpenTrace>, forced: bool): seq<Finalized> {
    if due == [] then [] else [RecordOf(due[0], forced)] + Records(due[1..], forced)
  }

  ghost predicate OncePerKey(records: seq<Finalized>) {
    forall i, j :: 0 <= i < j < |records| ==> records[i].key != records[j].key
  }

  /** The record is of a trace that lay whole in its shard, between lo and hi, and was due. */
  ghost predicate RecordsWhole(cfg: Config, ring: Ring, shards: seq<Shard>, lo: nat, hi: nat, now: int, all: bool,
                               f: Finalized) {
    var i := Home(ring, f.key.traceID);
    lo <= i < hi <= |shards| && f.key in shards[i] && f.spans == shards[i][f.key].spans &&
    (all || IsDue(cfg, shards[i][f.key], now)) && f.forced == all
  }

  ghost predicate Recorded(records: seq<Finalized>, k: TraceKey) { exists f <- records :: f.key == k }

  /** Every trace due in the shards from lo to hi has exactly one record, which carries it whole,
      and there is no other record. */
  ghost predicate OneRecordEach(cfg: Config, ring: Ring, shards: seq<Shard>, lo: nat, hi: nat, now: int, all: bool,
                                records: seq<Finalized>) {
    hi <= |shards| && OncePerKey(records) &&
    (forall f <- records :: RecordsWhole(cfg, ring, shards, lo, hi, now, all, f)) &&
    forall i, k :: lo <= i < hi && k in shards[i] && (all || IsDue(cfg, shards[i][k], now)) ==> Recorded(records, k)
  }

  lemma NoRecords(cfg: Config, ring: Ring, shards: seq<Shard>, lo: nat, now: int, all: bool)
    requires lo <= |shards|
    ensures OneRecordEach(cfg, ring, shards, lo, lo, now, all, [])
  {
  }

  lemma RecordedJoin(a: seq<Finalized>, b: seq<Finalized>, k: TraceKey)
    requires Recorded(a, k) || Recorded(b, k)
    ensures Recorded(a + b, k)
  {
    var f :| (f in a || f in b) && f.key == k;
    assert f in a + b;
  }

  /** Sweeping on from shard mid leaves the records of the shards before it distinct. */
  lemma RecordsJoin(cfg: Config, ring: Ring, shards: seq<Shard>, lo: nat, mid: nat, hi: nat, now: int, all: bool,
                    a: seq<Finalized>, b: seq<Finalized>)
    requires lo <= mid <= hi
    requires OneRecordEach(cfg, ring, shards, lo, mid, now, all, a) &&
             OneRecordEach(cfg, ring, shards, mid, hi, now, all, b)
    ensures OneRecordEach(cfg, ring, shards, lo, hi, now, all, a + b)
  {
    hide IsDue, Home, Recorded;
    var both := a + b;
    forall i, j | 0 <= i < j < |both| ensures both[i].key != both[j].key {
      if i < |a| <= j {
        assert RecordsWhole(cfg, ring, shards, lo, mid, now, all, a[i]);
        assert RecordsWhole(cfg, ring, shards, mid, hi, now, all, b[j - |a|]);
      }
    }
    forall f | f in both ensures RecordsWhole(cfg, ring, shards, lo, hi, now, all, f) {
      assert f in a || f in b;
    }
    forall i, k | lo <= i < hi && k in shards[i] && (all || IsDue(cfg, shards[i][k], now)) ensures Recorded(both, k) {
      RecordedJoin(a, b, k);
    }
  }

  /** What the sweep of one shard hands over does not depend on the others. */
  lemma SameShardSameRecords(cfg: Config, ring: Ring, shards: seq<Shard>, others: seq<Shard>, i: nat, now: int,
                             all: bool,
                             records: seq<Finalized>)
    requires i < |shards| == |others| && shards[i] == others[i]
    requires OneRecordEach(cfg, ring, shards, i, i + 1, now, all, records)
    ensures OneRecordEach(cfg, ring, others, i, i + 1, now, all, records)
  {
    hide IsDue, Home, Recorded;
    forall f | f in records ensures RecordsWhole(cfg, ring, others, i, i + 1, now, all, f) {
      assert RecordsWhole(cfg, ring, shards, i, i + 1, now, all, f);
    }
  }

  lemma {:induction false} RecordsAt(due: seq<OpenTrace>, forced: bool)
    ensures |Records(due, forced)| == |due|
    ensures forall j :: 0 <= j < |due| ==> Records(due, forced)[j] == RecordOf(due[j], forced)
    decreases |due|
  {
    if due != [] { RecordsAt(due[1..], forced); }
  }

  /** What is left to finalize after the trace at j. */
  lemma NextDue(due: seq<OpenTrace>, j: nat, forced: bool)
    requires j < |due| && DistinctKeys(due)
    ensures due[j..] != [] && due[j..][0] == due[j] && due[j..][1..] == due[j + 1..] && DistinctKeys(due[j..])
    ensures forall t <- due[j..] :: t in due
    ensures Records(due[j..], forced) == [Finalized(KeyOf(due[j]), due[j].spans, forced)] +
            Records(due[j + 1..], forced)
  {
  }

  lemma FinalizeNext(ring: Ring, st: State, i: nat, due: seq<OpenTrace>, j: nat, forced: bool)
    requires i < |st.shards| && j < |due| && DistinctKeys(due) && forall t <- due :: KeyOf(t) !in st.shards[i]
    requires Consistent(ring, WithLimbo(st, i, due[j..]))
    ensures var next := Closed(st, i, due[j], forced);
            && next.shards == st.shards && Consistent(ring, WithLimbo(next, i, due[j + 1..]))
            && next.finalized + Records(due[j + 1..], forced) == st.finalized + Records(due[j..], forced)
  {
    hide Consistent, Records, DistinctKeys, WithLimbo;
    NextDue(due, j, forced);
    CloseNext(ring, st, i, due[j..], forced);
  }

  lemma NoneDue(forced: bool)
    ensures Records([], forced) == []
  {
  }

  lemma {:induction false} LimboAt(due: seq<OpenTrace>, j: nat)
    requires DistinctKeys(due) && j < |due|
    ensures KeyOf(due[j]) in Limbo(due) && Limbo(due)[KeyOf(due[j])] == due[j]
    decreases |due|
  {
    if j > 0 {
      assert due[1..][j - 1] == due[j];
      LimboAt(due[1..], j - 1);
    }
  }

  /** The traces taken out of shard i make one record each. */
  lemma TakenRecorded(cfg: Config, ring: Ring, shards: seq<Shard>, i: nat, now: int, all: bool, rest: Shard,
                      due: seq<OpenTrace>)
    requires i < |shards| && ShardOk(ring, i, shards[i])
    requires rest == (if all then map[] else Remaining(cfg, shards[i], now)) && rest + Limbo(due) == shards[i]
    requires DistinctKeys(due) && forall t <- due :: KeyOf(t) !in rest
    ensures OneRecordEach(cfg, ring, shards, i, i + 1, now, all, Records(due, all))
  {
    hide IsDue, Home, Limbo, Records, TraceOk;
    var records := Records(due, all);
    RecordsAt(due, all);
    forall f | f in records ensures RecordsWhole(cfg, ring, shards, i, i + 1, now, all, f) {
      var j :| 0 <= j < |records| && records[j] == f;
      LimboAt(due, j);
      assert due[j] in due;
    }
    LimboKeys(due);
    forall k | k in shards[i] && (all || IsDue(cfg, shards[i][k], now)) ensures Recorded(records, k) {
      assert k in rest || k in Limbo(due);
      var j :| 0 <= j < |due| && KeyOf(due[j]) == k;
      assert records[j] in records;
    }
  }

  ghost predicate TakenOut(shard: Shard, rest: Shard, due: seq<OpenTrace>) {
    rest + Limbo(due) == shard && rest.Keys !! Limbo(due).Keys && DistinctKeys(due) &&
    forall t <- due :: KeyOf(t) in Limbo(due)
  }

  lemma {:induction false} LimboAppend(due: seq<OpenTrace>, t: OpenTrace)
    requires KeyOf(t) !in Limbo(due)
    ensures Limbo(due + [t]) == Limbo(due)[KeyOf(t) := t]
    decreases |due|
  {
    if due == [] {
      assert due + [t] == [t];
    } else {
      assert (due + [t])[1..] == due[1..] + [t];
      LimboAppend(due[1..], t);
    }
  }

  lemma TakeOut(shard: Shard, rest: Shard, due: seq<OpenTrace>, k: TraceKey)
    requires TakenOut(shard, rest, due) && k in rest && k in shard && KeyOf(shard[k]) == k
    ensures TakenOut(shard, rest - {k}, due + [shard[k]])
  {
    var t, more := shard[k], due + [shard[k]];
    LimboAppend(due, t);
    assert forall j :: 0 <= j < |due| ==> due[j] in due;
    forall i, j | 0 <= i < j < |more| ensures KeyOf(more[i]) != KeyOf(more[j]) {
      if j == |due| { assert due[i] in due; }
    }
  }

  /** The keys already looked at are gone from the rest exactly when due. */
  ghost predicate Looked(cfg: Config, shard: Shard, rest: Shard, todo: set<TraceKey>, now: int, all: bool) {
    todo <= shard.Keys && rest.Keys <= shard.Keys &&
    forall k <- shard :: k in rest <==> k in todo || !(all || IsDue(cfg, shard[k], now))
  }

  lemma NoneTaken(cfg: Config, shard: Shard, now: int, all: bool)
    ensures TakenOut(shard, shard, []) && Looked(cfg, shard, shard, shard.Keys, now, all)
  {
    assert shard + map[] == shard;
  }

  lemma LookAt(cfg: Config, shard: Shard, rest: Shard, todo: set<TraceKey>, now: int, all: bool, k: TraceKey)
    requires Looked(cfg, shard, rest, todo, now, all) && k in todo
    ensures k in shard && k in rest
    ensures var out := all || IsDue(cfg, shard[k], now);
            Looked(cfg, shard, if out then rest - {k} else rest, todo - {k}, now, all)
  {
  }

  lemma AllTaken(cfg: Config, shard: Shard, rest: Shard, due: seq<OpenTrace>, now: int, all: bool)
    requires TakenOut(shard, rest, due) && Looked(cfg, shard, rest, {}, now, all)
    ensures rest == (if all then map[] else Remaining(cfg, shard, now)) && rest + Limbo(due) == shard
    ensures DistinctKeys(due) && forall t <- due :: KeyOf(t) !in rest
  {
    forall k | k in rest ensures k in shard && rest[k] == shard[k] {
      assert (rest + Limbo(due))[k] == rest[k];
    }
  }

  lemma NoLimbo(st: State, i: nat, due: seq<OpenTrace>)
    requires i < |st.shards| && due == []
    ensures WithLimbo(st, i, due) == st
  {
    assert st.shards[i] + map[] == st.shards[i];
    assert st.shards[i := st.shards[i]] == st.shards;
  }

  lemma OwnKeys(ring: Ring, st: State, i: nat)
    requires Consistent(ring, st) && i < |st.shards|
    ensures ShardOk(ring, i, st.shards[i]) && forall k <- st.shards[i] :: KeyOf(st.shards[i][k]) == k
  {
    assert ShardOk(ring, i, st.shards[i]);
  }

  // ---------- Replay ----------

  /** The spans not seen before, added in order; their sizes are not counted. */
  function Replayed(t: OpenTrace, spans: seq<Span>): OpenTrace {
    if spans == [] then t
    else
      var r, s := Replayed(t, spans[..|spans| - 1]), spans[|spans| - 1];
      if s.spanID in r.seen then r else r.(seen := r.seen + {s.spanID}, spans := r.spans + [s])
  }

  function Merged(shard: Shard, segment: Segment, now: int): Shard {
    map k | k in shard.Keys + segment.Keys ::
      if k in segment then Replayed(Opened(shard, k, now), segment[k]).(lastSeen := now) else shard[k]
  }

  lemma DistinctFront(spans: seq<Span>, s: Span)
    requires DistinctIds(spans + [s])
    ensures DistinctIds(spans) && s.spanID !in Ids(spans)
  {
    var all := spans + [s];
    forall x | x in spans ensures x.spanID != s.spanID {
      var i :| 0 <= i < |spans| && spans[i] == x;
      assert all[i] == x && all[|spans|] == s;
    }
    forall i, j | 0 <= i < j < |spans| ensures spans[i].spanID != spans[j].spanID {
      assert all[i] == spans[i] && all[j] == spans[j];
    }
  }

  lemma {:induction false} ReplayFresh(t: OpenTrace, spans: seq<Span>)
    requires t.spans == [] && t.seen == {} && DistinctIds(spans)
    ensures var r := Replayed(t, spans);
            r.spans == spans && r.seen == Ids(spans) && KeyOf(r) == KeyOf(t) && r.byteSize == t.byteSize
    decreases |spans|
  {
    hide Ids, DistinctIds;
    if spans == [] {
      NoSpans();
    } else {
      var front, s := spans[..|spans| - 1], spans[|spans| - 1];
      assert spans == front + [s];
      DistinctFront(front, s);
      ReplayFresh(t, front);
      IdsAppend(front, s);
    }
  }

  lemma {:induction false} ReplayKnown(t: OpenTrace, spans: seq<Span>)
    requires forall s <- spans :: s.spanID in t.seen
    ensures Replayed(t, spans) == t
    decreases |spans|
  {
    if spans != [] { ReplayKnown(t, spans[..|spans| - 1]); }
  }

  ghost predicate PartlyMerged(shard: Shard, segment: Segment, now: int, todo: set<TraceKey>, next: Shard) {
    next.Keys == shard.Keys + (segment.Keys - todo) &&
    forall k <- next :: next[k] == if k in segment && k !in todo then Merged(shard, segment, now)[k] else shard[k]
  }

  lemma MergeStarts(shard: Shard, segment: Segment, now: int)
    ensures PartlyMerged(shard, segment, now, segment.Keys, shard)
  {
  }

  lemma MergeStep(shard: Shard, segment: Segment, now: int, todo: set<TraceKey>, next: Shard, k: TraceKey, t: OpenTrace)
    requires PartlyMerged(shard, segment, now, todo, next) && todo <= segment.Keys && k in todo
    requires t == Replayed(if k in next then next[k] else OpenTrace(k.tenant, k.traceID, [], now, now, 0, {}),
                           segment[k])
    ensures PartlyMerged(shard, segment, now, todo - {k}, next[k := t.(lastSeen := now)])
  {
    hide Replayed;
    assert k in next <==> k in shard;
  }

  lemma MergeEnds(shard: Shard, segment: Segment, now: int, next: Shard)
    requires PartlyMerged(shard, segment, now, {}, next)
    ensures next == Merged(shard, segment, now)
  {
    hide Replayed;
  }

  lemma MergedNothing(shard: Shard, now: int)
    ensures Merged(shard, map[], now) == shard
  {
  }

  /** Replaying a consistent manager's journal into empty shards rebuilds the same keys, the
      same tenants and trace ids, and the same spans in order; the byte sizes stay zero. */
  lemma ReplayRebuilds(ring: Ring, st: State, now: int, i: nat, k: TraceKey)
    requires Consistent(ring, st) && i < |st.shards|
    ensures var rebuilt := Merged(map[], SegmentAt(st.wal, i), now);
            (k in rebuilt <==> k in st.shards[i]) &&
            (k in rebuilt ==> TraceOk(k, rebuilt[k]) && rebuilt[k].spans == st.shards[i][k].spans &&
                              rebuilt[k].seen == st.shards[i][k].seen && rebuilt[k].byteSize == 0)
  {
    var seg := SegmentAt(st.wal, i);
    AgreesAt(st.shards, st.wal, i);
    if k in st.shards[i] {
      OwnShard(ring, st.shards, i, k);
      hide Consistent;
      ReplayFresh(Opened(map[], k, now), seg[k]);
    }
  }

  /** Replaying a manager's own journal into it adds no span. */
  lemma ReplayIdempotent(ring: Ring, st: State, now: int, i: nat, k: TraceKey)
    requires Consistent(ring, st) && i < |st.shards| && k in st.shards[i]
    ensures var again := Merged(st.shards[i], SegmentAt(st.wal, i), now);
            again.Keys == st.shards[i].Keys && again[k] == st.shards[i][k].(lastSeen := now)
  {
    AgreesAt(st.shards, st.wal, i);
    OwnShard(ring, st.shards, i, k);
    hide Consistent;
    var t := st.shards[i][k];
    assert forall s <- t.spans :: s.spanID in Ids(t.spans);
    ReplayKnown(t, t.spans);
  }

  /** The shard the code indexes: the remainder truncated toward zero. An empty ring owns
      everything at -1, so with more than one shard the index is out of range. */
  function ShardIndex(owner: int, shards: nat): int
    requires shards > 0 && owner >= -1
  {
    if owner >= 0 then owner % shards else if shards == 1 then 0 else -1
  }

  /** Under any ring at all, accepting a span has a shard to go to except when an empty ring
      meets several shards; and it keeps buffer and journal in agreement exactly when the owner
      the ring names is one of the shards. Otherwise the span is journalled where no sweep of
      the shards will find it. */
  lemma AcceptAgreesExactly(ring: Ring, shards: seq<Shard>, wal: Journal, s: Span, now: int)
    requires shards != [] && WalAgrees(shards, wal)
    ensures var owner, k := Home(ring, s.traceID), SpanKey(s);
            var i := ShardIndex(owner, |shards|);
            && (i < 0 <==> ring.members == [] && |shards| > 1)
            && (i >= 0 && !IsDuplicate(shards[i], k, s) ==>
                  (WalAgrees(shards[i := shards[i][k := Extended(Opened(shards[i], k, now), s, now)]],
                             Journalled(wal, owner, k, s)) <==>
                   0 <= owner < |shards|))
  {
    hide WalAgrees, Extended, Opened, Journalled, IsDuplicate;
    var owner, k := Home(ring, s.traceID), SpanKey(s);
    var i := ShardIndex(owner, |shards|);
    if 0 <= owner < |shards| {
      SmallMod(owner, |shards|);
      AcceptAgrees(shards, wal, i, k, s, now);
    } else if i >= 0 {
      AcceptElsewhere(shards, wal, owner, i, k, s, now);
    }
  }

  lemma AcceptElsewhere(shards: seq<Shard>, wal: Journal, owner: int, i: nat, k: TraceKey, s: Span, now: int)
    requires i < |shards| && owner != i && WalAgrees(shards, wal)
    ensures !WalAgrees(shards[i := shards[i][k := Extended(Opened(shards[i], k, now), s, now)]],
                       Journalled(wal, owner, k, s))
  {
    var shard := shards[i][k := Extended(Opened(shards[i], k, now), s, now)];
    AgreesAt(shards, wal, i);
    Outgrown(shards[i], k, Opened(shards[i], k, now), s, now);
    Disagree(shards[i := shard], Journalled(wal, owner, k, s), i);
  }

  lemma Outgrown(shard: Shard, k: TraceKey, t: OpenTrace, s: Span, now: int)
    requires t.spans == SpansAt(shard, k)
    ensures SpansIn(shard[k := Extended(t, s, now)]) != SpansIn(shard)
  {
    var a, b := SpansIn(shard[k := Extended(t, s, now)]), SpansIn(shard);
    assert a[k] == t.spans + [s];
    assert k in b ==> |b[k]| < |a[k]|;
  }

  lemma Disagree(shards: seq<Shard>, wal: Journal, j: nat)
    requires j < |shards| && SegmentAt(wal, j) != SpansIn(shards[j])
    ensures !WalAgrees(shards, wal)
  {
  }

  class MemWAL {
    var shard: Journal

    constructor ()
      ensures shard == map[] && fresh(this)
    {
      shard := map[];
    }

    method Append(i: int, key: TraceKey, span: Span)
      modifies this
      ensures shard == Journalled(old(shard), i, key, span)
    {
      var byTrace := if i in shard then shard[i] else map[];
      byTrace := byTrace[key := (if key in byTrace then byTrace[key] else []) + [span]];
      shard := shard[i := byTrace];
    }

    method Truncate(i: int, key: TraceKey)
      modifies this
      ensures shard == Truncated(old(shard), i, key)
    {
      if i in shard {
        shard := shard[i := shard[i] - {key}];
      }
    }

    method Replay(i: int) returns (out: Segment)
      ensures out == SegmentAt(shard, i)
    {
      out := if i in shard then shard[i] else map[];
    }
  }

  class Manager {
    const cfg: Config
    const ring: Ring
    const wal: MemWAL
    const red: RedMetrics.Accumulator
    var shards: seq<Shard>
    var duplicates: nat
    var finalized: seq<Finalized>
    ghost var accepted: seq<Span>

    ghost function Current(): State
      reads this, wal
    {
      State(shards, wal.shard, duplicates, accepted, finalized)
    }

    ghost predicate Valid()
      reads this, wal, red
    {
      Consistent(ring, Current()) && red.Valid()
    }

    constructor (cfg: Config, score: Score, members: seq<Member>)
      requires members != []
      ensures Valid() && fresh(wal) && fresh(red) && this.cfg == cfg && ring == Ring(score, members)
      ensures shards == seq(|members|, _ => map[]) && accepted == [] && finalized == [] && duplicates == 0 &&
              red.seen == []
    {
      this.cfg := cfg;
      ring := Ring(score, members);
      wal := new MemWAL();
      red := new RedMetrics.Accumulator();
      shards := seq(|members|, _ => map[]);
      duplicates, finalized, accepted := 0, [], [];
    }

    method ConsumeSpan(tenant: string, span: Span, now: int)
      requires Valid()
      modifies this`shards, this`duplicates, this`accepted, wal, red
      ensures Valid()
      ensures Current() == Consumed(ring, old(Current()), span.(tenant := tenant), now)
      ensures |accepted| + duplicates == old(|accepted| + duplicates) + 1
      ensures |accepted| + |old(red.seen)| == |old(accepted)| + |red.seen|
      ensures red.seen == if duplicates == old(duplicates)
              then old(red.seen) + [SightingOf(span.(tenant := tenant), now)] else old(red.seen)
    {
      hide Consistent, IsOwner, Owner, Journalled, Extended, Opened, IsDuplicate, Duration;
      var s := span.(tenant := tenant);
      ghost var was := Current();
      ConsumeKeepsConsistent(ring, Current(), s, now);
      FitsOf(ring, Current());
      var shardIdx := ShardFor(ring.score, ring.members, s.traceID);
      SmallMod(shardIdx, |shards|);
      var at := shardIdx % |shards|;
      assert at == shardIdx;
      var key := TraceKey(tenant, s.traceID);
      var dup, shard := Buffer(shards[at], key, s, now);
      if dup {
        duplicates := duplicates + 1;
        return;
      }
      shards := shards[at := shard];
      accepted := accepted + [s];
      red.Accumulate(now, tenant, s.service, s.name, s.isErr, Duration(s), s.traceID);
      wal.Append(shardIdx, key, s);
      assert Current() == Consumed(ring, was, s, now);
    }

    /** Buffers the span with its trace, opening one if need be, unless it was seen before. */
    static method Buffer(shard: Shard, key: TraceKey, s: Span, now: int) returns (dup: bool, next: Shard)
      ensures dup == IsDuplicate(shard, key, s)
      ensures !dup ==> next == shard[key := Extended(Opened(shard, key, now), s, now)]
    {
      var tr := if key in shard then shard[key] else OpenTrace(key.tenant, key.traceID, [], now, now, 0, {});
      if s.spanID in tr.seen { return true, shard; }
      tr := OpenTrace(tr.tenant, tr.traceID, tr.spans + [s], tr.firstSeen, now, tr.byteSize + s.sizeBytes,
                      tr.seen + {s.spanID});
      return false, shard[key := tr];
    }

    method Consume(tenant: string, spans: seq<Span>, now: int)
      requires Valid()
      modifies this`shards, this`duplicates, this`accepted, wal, red
      ensures Valid()
      ensures Current() == ConsumedAll(ring, old(Current()), tenant, spans, now)
      ensures |accepted| + duplicates == old(|accepted| + duplicates) + |spans|
      ensures |accepted| + |old(red.seen)| == |old(accepted)| + |red.seen|
    {
      hide Consistent, Consumed;
      FitsOf(ring, Current());
      ghost var was := Current();
      for i := 0 to |spans|
        invariant Valid() && Current() == ConsumedAll(ring, was, tenant, spans[..i], now)
        invariant |accepted| + duplicates == old(|accepted| + duplicates) + i
        invariant |accepted| + |old(red.seen)| == |old(accepted)| + |red.seen|
      {
        assert spans[..i + 1][..i] == spans[..i];
        ConsumeSpan(tenant, spans[i], now);
      }
      assert spans[..|spans|] == spans;
    }

    /** Takes the due traces out of a shard, in any order. */
    static method CollectDue(cfg: Config, shard: Shard, now: int, all: bool) returns (rest: Shard, due: seq<OpenTrace>)
      requires forall k <- shard :: KeyOf(shard[k]) == k
      ensures rest == (if all then map[] else Remaining(cfg, shard, now)) && rest + Limbo(due) == shard
      ensures DistinctKeys(due) && forall t <- due :: KeyOf(t) !in rest
    {
      hide TakenOut, Limbo, DistinctKeys, Looked;
      rest, due := shard, [];
      var todo := shard.Keys;
      NoneTaken(cfg, shard, now, all);
      while todo != {}
        invariant TakenOut(shard, rest, due) && Looked(cfg, shard, rest, todo, now, all)
        decreases |todo|
      {
        var k :| k in todo;
        LookAt(cfg, shard, rest, todo, now, all, k);
        todo := todo - {k};
        if all || IsDue(cfg, shard[k], now) {
          TakeOut(shard, rest, due, k);
          rest := rest - {k};
          due := due + [shard[k]];
        }
      }
      AllTaken(cfg, shard, rest, due, now, all);
    }

    method Finalize(i: int, t: OpenTrace, forced: bool)
      modifies this`finalized, wal
      ensures Current() == Closed(old(Current()), i, t, forced)
    {
      wal.Truncate(i, TraceKey(t.tenant, t.traceID));
      finalized := finalized + [Finalized(TraceKey(t.tenant, t.traceID), t.spans, forced)];
    }

    method FinalizeAll(i: nat, due: seq<OpenTrace>, forced: bool)
      requires i < |shards| && DistinctKeys(due) && forall t <- due :: KeyOf(t) !in shards[i]
      requires Consistent(ring, WithLimbo(Current(), i, due)) && red.Valid()
      modifies this`finalized, wal
      ensures Valid() && finalized == old(finalized) + Records(due, forced)
    {
      hide Consistent, Records, DistinctKeys, WithLimbo, RecordOf, Closed;
      var j := 0;
      assert due[0..] == due;
      while j < |due|
        invariant j <= |due| && Consistent(ring, WithLimbo(Current(), i, due[j..])) && red.Valid()
        invariant finalized + Records(due[j..], forced) == old(finalized) + Records(due, forced)
      {
        FinalizeNext(ring, Current(), i, due, j, forced);
        Finalize(i, due[j], forced);
        j := j + 1;
      }
      NoLimbo(Current(), i, due[j..]);
      NoneDue(forced);
    }

    method SweepShard(i: nat, now: int, all: bool)
      requires Valid() && i < |shards|
      modifies this`shards, this`finalized, wal
      ensures Valid() && old(finalized) <= finalized
      ensures OneRecordEach(cfg, ring, old(shards), i, i + 1, now, all, finalized[|old(finalized)|..])
      ensures shards == old(shards)[i := if all then map[] else Remaining(cfg, old(shards)[i], now)]
    {
      OwnKeys(ring, Current(), i);
      hide Consistent, OneRecordEach, ShardOk, Remaining, Limbo, Records, DistinctKeys;
      ghost var was := Current();
      var rest, due := CollectDue(cfg, shards[i], now, all);
      TakenRecorded(cfg, ring, shards, i, now, all, rest, due);
      shards := shards[i := rest];
      assert WithLimbo(Current(), i, due) == was by { assert was.shards[i := rest][i := was.shards[i]] == was.shards; }
      FinalizeAll(i, due, all);
      assert finalized[|was.finalized|..] == Records(due, all);
    }

    /** Finalizes exactly the traces that are idle or too old, each once and whole. */
    method Tick(now: int)
      requires Valid()
      modifies this`shards, this`finalized, wal
      ensures Valid() && old(finalized) <= finalized && |shards| == |old(shards)|
      ensures OneRecordEach(cfg, ring, old(shards), 0, |shards|, now, false, finalized[|old(finalized)|..])
      ensures forall i :: 0 <= i < |shards| ==> shards[i] == Remaining(cfg, old(shards)[i], now)
    {
      hide Consistent, OneRecordEach;
      NoRecords(cfg, ring, shards, 0, now, false);
      assert finalized[|finalized|..] == [];
      for i := 0 to |shards|
        invariant Valid() && old(finalized) <= finalized && |shards| == |old(shards)|
        invariant OneRecordEach(cfg, ring, old(shards), 0, i, now, false, finalized[|old(finalized)|..])
        invariant forall j :: 0 <= j < |shards| ==>
                    shards[j] == if j < i then Remaining(cfg, old(shards)[j], now) else old(shards)[j]
      {
        ghost var was, had := shards, finalized;
        SweepShard(i, now, false);
        SameShardSameRecords(cfg, ring, was, old(shards), i, now, false, finalized[|had|..]);
        RecordsJoin(cfg, ring, old(shards), 0, i, i + 1, now, false, had[|old(finalized)|..], finalized[|had|..]);
        assert finalized[|old(finalized)|..] == had[|old(finalized)|..] + finalized[|had|..];
      }
    }

    /** Sheds everything still open, each trace once and whole; the journal is then empty. */
    method FlushAll()
      requires Valid()
      modifies this`shards, this`finalized, wal
      ensures Valid() && old(finalized) <= finalized && |shards| == |old(shards)|
      ensures OneRecordEach(cfg, ring, old(shards), 0, |shards|, 0, true, finalized[|old(finalized)|..])
      ensures forall i :: 0 <= i < |shards| ==> shards[i] == map[]
    {
      hide Consistent, OneRecordEach;
      NoRecords(cfg, ring, shards, 0, 0, true);
      assert finalized[|finalized|..] == [];
      for i := 0 to |shards|
        invariant Valid() && old(finalized) <= finalized && |shards| == |old(shards)|
        invariant OneRecordEach(cfg, ring, old(shards), 0, i, 0, true, finalized[|old(finalized)|..])
        invariant forall j :: 0 <= j < |shards| ==> shards[j] == if j < i then map[] else old(shards)[j]
      {
        ghost var was, had := shards, finalized;
        SweepShard(i, 0, true);
        SameShardSameRecords(cfg, ring, was, old(shards), i, 0, true, finalized[|had|..]);
        RecordsJoin(cfg, ring, old(shards), 0, i, i + 1, 0, true, had[|old(finalized)|..], finalized[|had|..]);
        assert finalized[|old(finalized)|..] == had[|old(finalized)|..] + finalized[|had|..];
      }
    }

    /** Adds a shard's journalled spans to its buffers, in any order of keys. */
    static method MergeSegment(shard: Shard, segment: Segment, now: int) returns (next: Shard)
      ensures next == Merged(shard, segment, now)
    {
      hide PartlyMerged, Merged, Replayed;
      next := shard;
      var todo := segment.Keys;
      MergeStarts(shard, segment, now);
      while todo != {}
        invariant todo <= segment.Keys && PartlyMerged(shard, segment, now, todo, next)
        decreases |todo|
      {
        var k :| k in todo;
        var tr := if k in next then next[k] else OpenTrace(k.tenant, k.traceID, [], now, now, 0, {});
        tr := MergeSpans(tr, segment[k]);
        MergeStep(shard, segment, now, todo, next, k, tr);
        todo := todo - {k};
        next := next[k := tr.(lastSeen := now)];
      }
      MergeEnds(shard, segment, now, next);
    }

    static method MergeSpans(t: OpenTrace, spans: seq<Span>) returns (r: OpenTrace)
      ensures r == Replayed(t, spans)
    {
      r := t;
      for i := 0 to |spans|
        invariant r == Replayed(t, spans[..i])
      {
        assert spans[..i + 1][..i] == spans[..i];
        if spans[i].spanID !in r.seen {
          r := r.(seen := r.seen + {spans[i].spanID}, spans := r.spans + [spans[i]]);
        }
      }
      assert spans[..|spans|] == spans;
    }

    /** Reassembles what the journal holds; on a fresh manager sharing the journal of a
        consistent one this rebuilds its buffers. */
    method ReplayWAL(now: int)
      modifies this`shards
      ensures |shards| == |old(shards)|
      ensures forall i :: 0 <= i < |shards| ==> shards[i] == Merged(old(shards)[i], SegmentAt(wal.shard, i), now)
    {
      hide Merged;
      for i := 0 to |shards|
        invariant |shards| == |old(shards)|
        invariant forall j :: 0 <= j < |shards| ==>
          shards[j] == if j < i then Merged(old(shards)[j], SegmentAt(wal.shard, j), now) else old(shards)[j]
      {
        var segment := wal.Replay(i);
        if |segment| == 0 {
          assert segment == map[];
          MergedNothing(shards[i], now);
          continue;
        }
        var shard := MergeSegment(shards[i], segment, now);
        shards := shards[i := shard];
      }
    }
  }

  lemma SmallMod(i: int, n: nat)
    requires 0 <= i < n
    ensures i % n == i
  {
  }

  lemma FitsOf(ring: Ring, st: State)
    requires Consistent(ring, st)
    ensures RingFits(ring, st.shards)
  {
  }
}
