/** When a trace is given up, told from the times its spans were accepted: runs of Consume, Tick
    and FlushAll on one manager. */
module TraceTimes {
  import opened TraceAssembly

  datatype Op = Consume(span: Span, now: int) | Tick(now: int) | Flush

  /** One accepted span with the clock reading of its Consume. */
  datatype Acceptance = Acceptance(span: Span, at: int)

  /** What the manager's methods promise of the state after an operation. */
  ghost predicate Steps(ring: Ring, cfg: Config, st: State, op: Op, next: State) {
    RingFits(ring, st.shards) && |next.shards| == |st.shards| &&
    match op
    case Consume(s, now) => next == Consumed(ring, st, s, now)
    case Tick(now) =>
      next.accepted == st.accepted &&
      forall i :: 0 <= i < |st.shards| ==> next.shards[i] == Remaining(cfg, st.shards[i], now)
    case Flush => next.accepted == st.accepted && forall i :: 0 <= i < |st.shards| ==> next.shards[i] == map[]
  }

  ghost predicate IsRun(ring: Ring, cfg: Config, ops: seq<Op>, states: seq<State>) {
    |states| == |ops| + 1 && RingFits(ring, states[0].shards) && states[0].accepted == [] &&
    (forall i :: 0 <= i < |states[0].shards| ==> states[0].shards[i] == map[]) &&
    forall n: nat {:trigger Follows(ring, cfg, ops, states, n)} :: n < |ops| ==> Follows(ring, cfg, ops, states, n)
  }

  ghost predicate Follows(ring: Ring, cfg: Config, ops: seq<Op>, states: seq<State>, n: nat)
    requires n < |ops| && |states| == |ops| + 1
  {
    Steps(ring, cfg, states[n], ops[n], states[n + 1])
  }

  /** The acceptances of the first n operations, oldest first. */
  function Log(ops: seq<Op>, states: seq<State>, n: nat): seq<Acceptance>
    requires n <= |ops| && |states| == |ops| + 1
  {
    if n == 0 then []
    else if ops[n - 1].Consume? && |states[n].accepted| > |states[n - 1].accepted| then
      Log(ops, states, n - 1) + [Acceptance(ops[n - 1].span, ops[n - 1].now)]
    else Log(ops, states, n - 1)
  }

  /** The times at which spans of the key were accepted, oldest first. */
  function TimesOf(log: seq<Acceptance>, k: TraceKey): seq<int> {
    if log == [] then []
    else
      var a := log[|log| - 1];
      TimesOf(log[..|log| - 1], k) + if a.span.tenant == k.tenant && a.span.traceID == k.traceID then [a.at] else []
  }

  function SizeOf(spans: seq<Span>): nat {
    if spans == [] then 0 else SizeOf(spans[..|spans| - 1]) + spans[|spans| - 1].sizeBytes
  }

  /** An open trace was first and last seen when the first and the last of its spans were accepted,
      and is as large as they are together. */
  ghost predicate Timed(shard: Shard, k: TraceKey, times: seq<int>) {
    k in shard ==>
      var t, n := shard[k], |times|;
      0 < |t.spans| <= n && t.firstSeen == times[n - |t.spans|] && t.lastSeen == times[n - 1] &&
      t.byteSize == SizeOf(t.spans)
  }

  lemma SizeAppend(spans: seq<Span>, s: Span)
    ensures SizeOf(spans + [s]) == SizeOf(spans) + s.sizeBytes
  {
    assert (spans + [s])[..|spans|] == spans;
  }

  lemma AcceptTimed(shard: Shard, s: Span, now: int, k: TraceKey, times: seq<int>)
    requires Timed(shard, k, times)
    ensures var j := SpanKey(s);
            Timed(shard[j := Extended(Opened(shard, j, now), s, now)], k, times + if j == k then [now] else [])
  {
    SizeAppend(Opened(shard, SpanKey(s), now).spans, s);
    if k != SpanKey(s) { assert times + [] == times; }
  }

  lemma StepTimed(ring: Ring, cfg: Config, st: State, op: Op, next: State, k: TraceKey, log: seq<Acceptance>)
    requires Steps(ring, cfg, st, op, next)
    requires var i := Home(ring, k.traceID); Timed(st.shards[i], k, TimesOf(log, k))
    ensures var i := Home(ring, k.traceID);
            var after := if op.Consume? && |next.accepted| > |st.accepted| then log + [Acceptance(op.span, op.now)]
                         else log;
            Timed(next.shards[i], k, TimesOf(after, k))
  {
    HomeInRing(ring, k);
    hide Timed, Extended, Opened, IsDuplicate, Home;
    if op.Consume? && |next.accepted| > |st.accepted| {
      var more := log + [Acceptance(op.span, op.now)];
      assert more[..|log|] == log;
      AcceptedAt(ring, st, op.span, op.now, k, TimesOf(log, k));
    } else if !op.Consume? {
      DroppedTimed(cfg, st.shards[Home(ring, k.traceID)], op, k, TimesOf(log, k));
    }
  }

  lemma AcceptedAt(ring: Ring, st: State, s: Span, now: int, k: TraceKey, times: seq<int>)
    requires RingFits(ring, st.shards) && Timed(st.shards[Home(ring, k.traceID)], k, times)
    requires !IsDuplicate(st.shards[Home(ring, s.traceID)], SpanKey(s), s)
    ensures Timed(Consumed(ring, st, s, now).shards[Home(ring, k.traceID)], k,
                  times + if SpanKey(s) == k then [now] else [])
  {
    hide Timed, Extended, Opened, IsDuplicate;
    if Home(ring, s.traceID) == Home(ring, k.traceID) {
      AcceptTimed(st.shards[Home(ring, k.traceID)], s, now, k, times);
    } else {
      assert times + [] == times;
    }
  }

  lemma DroppedTimed(cfg: Config, shard: Shard, op: Op, k: TraceKey, times: seq<int>)
    requires Timed(shard, k, times)
    ensures op.Tick? ==> Timed(Remaining(cfg, shard, op.now), k, times)
    ensures Timed(map[], k, times)
  {
  }

  lemma {:induction false} AlwaysTimed(ring: Ring, cfg: Config, ops: seq<Op>, states: seq<State>, n: nat, k: TraceKey)
    requires IsRun(ring, cfg, ops, states) && n <= |ops|
    ensures RingFits(ring, states[n].shards)
    ensures Timed(states[n].shards[Home(ring, k.traceID)], k, TimesOf(Log(ops, states, n), k))
    decreases n
  {
    hide Timed, Steps, Home;
    HomeInRing(ring, k);
    if n == 0 {
      DroppedTimed(cfg, map[], Flush, k, []);
      NothingTimed(k, []);
    } else {
      AlwaysTimed(ring, cfg, ops, states, n - 1, k);
      assert Follows(ring, cfg, ops, states, n - 1);
      StepFits(ring, cfg, states[n - 1], ops[n - 1], states[n]);
      StepTimed(ring, cfg, states[n - 1], ops[n - 1], states[n], k, Log(ops, states, n - 1));
    }
  }

  lemma HomeInRing(ring: Ring, k: TraceKey)
    requires ring.members != []
    ensures 0 <= Home(ring, k.traceID) < |ring.members|
  {
  }

  lemma NothingTimed(k: TraceKey, times: seq<int>)
    ensures Timed(map[], k, times)
  {
  }

  lemma StepFits(ring: Ring, cfg: Config, st: State, op: Op, next: State)
    requires Steps(ring, cfg, st, op, next)
    ensures RingFits(ring, next.shards)
  {
  }

  /** A tick gives up an open trace exactly when the last of its spans was accepted at least the
      idle timeout ago, or the first of them at least the hard timeout ago. */
  lemma GivenUpExactly(ring: Ring, cfg: Config, ops: seq<Op>, states: seq<State>, n: nat, k: TraceKey)
    requires IsRun(ring, cfg, ops, states) && n < |ops| && ops[n].Tick?
    requires RingFits(ring, states[n].shards) && k in states[n].shards[Home(ring, k.traceID)]
    requires |states[n + 1].shards| == |states[n].shards|
    ensures var i, now := Home(ring, k.traceID), ops[n].now;
            var times := TimesOf(Log(ops, states, n), k);
            var size := |states[n].shards[i][k].spans|;
            && 0 < size <= |times|
            && (k !in states[n + 1].shards[i] <==>
                now - times[|times| - 1] >= cfg.idleTimeout || now - times[|times| - size] >= cfg.hardTimeout)
            && (k in states[n + 1].shards[i] ==> states[n + 1].shards[i][k] == states[n].shards[i][k])
  {
    AlwaysTimed(ring, cfg, ops, states, n, k);
    assert Follows(ring, cfg, ops, states, n);
    hide Home;
  }

  /** An accepted span is sighted under its own tenant, service, operation, error and trace, for the
      time from its start to its end, or none if it ends earlier. */
  lemma SightedExactly(s: Span, now: int)
    ensures var x := SightingOf(s, now);
            && x.key.tenant == s.tenant && x.key.service == s.service && x.key.operation == s.name
            && x.isErr == s.isErr && x.traceID == s.traceID
            && s.start + x.duration == if s.start < s.end then s.end else s.start
  {
  }
}
