/** A Consume and a Tick that overlap on one shard. Consume buffers a span under the shard's lock
    and journals it after releasing the lock; Tick takes due traces out under the lock and
    truncates their journals later, one by one. Sweeps visit one shard after another and the one
    drainer consumes one span after another, so the steps on each shard are a run of this machine. */
module OverlappedAssembly {
  import opened TraceAssembly

  /** The span the drainer has buffered and not yet journalled. */
  datatype Pending = Nothing | Holding(span: Span)

  /** limbo holds the traces taken out and not yet truncated, in the order they will be. */
  datatype Machine = Machine(shard: Shard, wal: Segment, pending: Pending, limbo: seq<Finalized>, duplicates: nat,
                             accepted: seq<Span>, finalized: seq<Finalized>)

  datatype Action = Buffer(span: Span, now: int) | Append | TakeOut(due: seq<OpenTrace>, forced: bool) | Truncate

  const Start := Machine(map[], map[], Nothing, [], 0, [], [])

  ghost predicate Enabled(m: Machine, a: Action) {
    match a
    case Buffer(_, _) => m.pending == Nothing
    case Append => m.pending.Holding?
    case TakeOut(due, _) =>
      m.limbo == [] && DistinctKeys(due) && forall t <- due :: KeyOf(t) in m.shard && m.shard[KeyOf(t)] == t
    case Truncate => m.limbo != []
  }

  function Entry(wal: Segment, k: TraceKey): seq<Span> { if k in wal then wal[k] else [] }

  function KeysOf(due: seq<OpenTrace>): set<TraceKey> { set t | t in due :: KeyOf(t) }

  function Buffered(m: Machine, s: Span, now: int): Machine {
    var k := SpanKey(s);
    if IsDuplicate(m.shard, k, s) then m.(duplicates := m.duplicates + 1)
    else
      m.(shard := m.shard[k := Extended(Opened(m.shard, k, now), s, now)], pending := Holding(s),
         accepted := m.accepted + [s])
  }

  ghost function Next(m: Machine, a: Action): Machine
    requires Enabled(m, a)
  {
    match a
    case Buffer(s, now) => Buffered(m, s, now)
    case Append =>
      var k := SpanKey(m.pending.span);
      m.(wal := m.wal[k := Entry(m.wal, k) + [m.pending.span]], pending := Nothing)
    case TakeOut(due, forced) => m.(shard := m.shard - KeysOf(due), limbo := Records(due, forced))
    case Truncate =>
      m.(wal := m.wal - {m.limbo[0].key}, limbo := m.limbo[1..], finalized := m.finalized + [m.limbo[0]])
  }

  ghost predicate IsRun(schedule: seq<Action>, states: seq<Machine>) {
    |states| == |schedule| + 1 && states[0] == Start &&
    forall i: nat {:trigger Follows(schedule, states, i)} :: i < |schedule| ==> Follows(schedule, states, i)
  }

  ghost predicate Follows(schedule: seq<Action>, states: seq<Machine>, i: nat)
    requires i < |schedule| && |states| == |schedule| + 1
  {
    Enabled(states[i], schedule[i]) && states[i + 1] == Next(states[i], schedule[i])
  }

  // ---------- Nothing accepted is lost or doubled ----------

  ghost predicate InLimbo(m: Machine, k: TraceKey) { exists f <- m.limbo :: f.key == k }

  /** For every key the spans accepted are, in order, those finalized, those in limbo and those open. */
  ghost predicate Balanced(m: Machine) {
    forall k :: SpansOf(m.accepted, k) == ClosedSpans(m.finalized, k) + ClosedSpans(m.limbo, k) + SpansAt(m.shard, k)
  }

  ghost predicate Sound(m: Machine) {
    (forall k <- m.shard :: TraceOk(k, m.shard[k])) && OncePerKey(m.limbo) &&
    (forall f <- m.limbo :: FinalOk(f)) && (forall f <- m.finalized :: FinalOk(f)) &&
    (forall k <- m.wal :: m.wal[k] != [])
  }

  lemma BufferKeeps(m: Machine, s: Span, now: int)
    requires Sound(m) && Balanced(m) && !IsDuplicate(m.shard, SpanKey(s), s)
    ensures Sound(Buffered(m, s, now)) && Balanced(Buffered(m, s, now))
  {
    hide TraceOk, SpansOf, ClosedSpans, Extended, Opened;
    var k, next := SpanKey(s), Buffered(m, s, now);
    FreshOk(m.shard, k, s, now);
    forall j ensures SpansOf(next.accepted, j) ==
                     ClosedSpans(next.finalized, j) + ClosedSpans(next.limbo, j) + SpansAt(next.shard, j) {
      SpansOfAppend(m.accepted, s, j);
      ExtendedSpans(m.shard, k, s, now);
      assert SpansAt(next.shard, j) == SpansAt(m.shard, j) + if j == k then [s] else [];
      assert SpansOf(m.accepted, j) == ClosedSpans(m.finalized, j) + ClosedSpans(m.limbo, j) + SpansAt(m.shard, j);
    }
  }

  lemma ExtendedSpans(shard: Shard, k: TraceKey, s: Span, now: int)
    ensures Extended(Opened(shard, k, now), s, now).spans == SpansAt(shard, k) + [s]
  {
  }

  lemma FreshOk(shard: Shard, k: TraceKey, s: Span, now: int)
    requires SpanKey(s) == k && (forall j <- shard :: TraceOk(j, shard[j])) && !IsDuplicate(shard, k, s)
    ensures TraceOk(k, Extended(Opened(shard, k, now), s, now))
  {
    hide TraceOk;
    if k in shard { TraceKeyed(k, shard[k]); }
    ExtendedOk(k, Opened(shard, k, now), s, now);
  }

  lemma TraceKeyed(k: TraceKey, t: OpenTrace)
    requires TraceOk(k, t)
    ensures KeyOf(t) == k
  {
  }

  lemma {:induction false} RecordsSpans(due: seq<OpenTrace>, forced: bool, shard: Shard, k: TraceKey)
    requires DistinctKeys(due) && forall t <- due :: KeyOf(t) in shard && shard[KeyOf(t)] == t
    ensures ClosedSpans(Records(due, forced), k) == if k in KeysOf(due) then SpansAt(shard, k) else []
    decreases |due|
  {
    hide ClosedSpans;
    if due == [] {
      NoClosed(k);
    } else {
      var n := |due| - 1;
      RecordsSpans(due[..n], forced, shard, k);
      RecordsLast(due, forced);
      ClosedSpansAppend(Records(due[..n], forced), RecordOf(due[n], forced), k);
      assert due == due[..n] + [due[n]];
      assert k in KeysOf(due) <==> k in KeysOf(due[..n]) || k == KeyOf(due[n]);
      assert due[n] in due && forall j :: 0 <= j < n ==> KeyOf(due[..n][j]) != KeyOf(due[n]);
    }
  }

  lemma NoClosed(k: TraceKey)
    ensures ClosedSpans([], k) == []
  {
  }

  lemma RecordsLast(due: seq<OpenTrace>, forced: bool)
    requires due != []
    ensures var n := |due| - 1;
            Records(due, forced) == Records(due[..n], forced) + [RecordOf(due[n], forced)]
  {
    RecordsAt(due, forced);
    RecordsAt(due[..|due| - 1], forced);
  }

  lemma TakeOutKeeps(m: Machine, due: seq<OpenTrace>, forced: bool)
    requires Sound(m) && Balanced(m) && Enabled(m, TakeOut(due, forced))
    ensures Sound(Next(m, TakeOut(due, forced))) && Balanced(Next(m, TakeOut(due, forced)))
  {
    hide SpansOf, ClosedSpans, Records, TraceOk, FinalOk, KeysOf;
    var next := Next(m, TakeOut(due, forced));
    RecordsFinal(m.shard, due, forced);
    forall j ensures SpansOf(next.accepted, j) ==
                     ClosedSpans(next.finalized, j) + ClosedSpans(next.limbo, j) + SpansAt(next.shard, j) {
      RecordsSpans(due, forced, m.shard, j);
      NoClosed(j);
      assert SpansOf(m.accepted, j) == ClosedSpans(m.finalized, j) + ClosedSpans(m.limbo, j) + SpansAt(m.shard, j);
    }
  }

  lemma RecordsFinal(shard: Shard, due: seq<OpenTrace>, forced: bool)
    requires DistinctKeys(due) && forall t <- due :: KeyOf(t) in shard && shard[KeyOf(t)] == t
    requires forall k <- shard :: TraceOk(k, shard[k])
    ensures OncePerKey(Records(due, forced)) && forall f <- Records(due, forced) :: FinalOk(f)
  {
    RecordsAt(due, forced);
    hide Records, TraceOk, FinalOk;
    var records := Records(due, forced);
    forall f | f in records ensures FinalOk(f) {
      var j :| 0 <= j < |due| && records[j] == f;
      assert due[j] in due;
      TraceFinal(shard, due[j], forced);
    }
  }

  lemma TraceFinal(shard: Shard, t: OpenTrace, forced: bool)
    requires KeyOf(t) in shard && shard[KeyOf(t)] == t && TraceOk(KeyOf(t), t)
    ensures FinalOk(RecordOf(t, forced))
  {
  }

  lemma {:induction false} ClosedSpansHead(fs: seq<Finalized>, k: TraceKey)
    requires fs != []
    ensures ClosedSpans(fs, k) == (if fs[0].key == k then fs[0].spans else []) + ClosedSpans(fs[1..], k)
    decreases |fs|
  {
    if |fs| > 1 {
      ClosedSpansHead(fs[..|fs| - 1], k);
      assert fs[..|fs| - 1][1..] == fs[1..][..|fs| - 2];
    } else {
      assert fs[..0] == [] && fs[1..] == [];
    }
  }

  lemma TruncateKeeps(m: Machine)
    requires Sound(m) && Balanced(m) && Enabled(m, Truncate)
    ensures Sound(Next(m, Truncate)) && Balanced(Next(m, Truncate))
  {
    hide SpansOf, ClosedSpans, TraceOk, FinalOk;
    var next := Next(m, Truncate);
    forall j ensures SpansOf(next.accepted, j) ==
                     ClosedSpans(next.finalized, j) + ClosedSpans(next.limbo, j) + SpansAt(next.shard, j) {
      ClosedSpansAppend(m.finalized, m.limbo[0], j);
      ClosedSpansHead(m.limbo, j);
      assert SpansOf(m.accepted, j) == ClosedSpans(m.finalized, j) + ClosedSpans(m.limbo, j) + SpansAt(m.shard, j);
    }
  }

  lemma StepKeeps(m: Machine, a: Action)
    requires Sound(m) && Balanced(m) && Enabled(m, a)
    ensures Sound(Next(m, a)) && Balanced(Next(m, a))
    ensures |Next(m, a).accepted| + Next(m, a).duplicates ==
            |m.accepted| + m.duplicates + if a.Buffer? then 1 else 0
  {
    hide Balanced, TraceOk, FinalOk, IsDuplicate, Records, SpansOf, ClosedSpans, Extended, Opened;
    match a
    case Buffer(s, now) =>
      if IsDuplicate(m.shard, SpanKey(s), s) {
        SameBalance(m, Next(m, a));
      } else {
        hide Sound;
        BufferKeeps(m, s, now);
      }
    case Append => SameBalance(m, Next(m, a));
    case TakeOut(due, forced) => hide Sound; TakeOutKeeps(m, due, forced);
    case Truncate => hide Sound; TruncateKeeps(m);
  }

  lemma SameBalance(m: Machine, next: Machine)
    requires Balanced(m) && next.accepted == m.accepted && next.finalized == m.finalized
    requires next.limbo == m.limbo && next.shard == m.shard
    ensures Balanced(next)
  {
  }

  /** However Consume and Tick overlap, every span consumed is counted once, and per key the spans
      accepted are those finalized, then those in limbo, then those open, in order. */
  lemma {:induction false} AlwaysBalanced(schedule: seq<Action>, states: seq<Machine>, n: nat)
    requires IsRun(schedule, states) && n <= |schedule|
    ensures Sound(states[n]) && Balanced(states[n])
    decreases n
  {
    hide Sound, Balanced, Next, Enabled;
    if n == 0 {
      StartBalanced();
    } else {
      AlwaysBalanced(schedule, states, n - 1);
      assert Follows(schedule, states, n - 1);
      StepKeeps(states[n - 1], schedule[n - 1]);
    }
  }

  lemma StartBalanced()
    ensures Sound(Start) && Balanced(Start)
  {
  }

  // ---------- What the journal holds ----------

  /** For one key: the spans journalled after their trace was truncated, and how many spans of the
      open trace were journalled before the trace preceding it was truncated. */
  datatype Ledger = Ledger(strays: seq<Span>, lost: nat)

  ghost predicate Appends(m: Machine, a: Action, k: TraceKey) {
    a.Append? && m.pending.Holding? && SpanKey(m.pending.span) == k
  }

  /** The span's trace has been taken out and truncated since the span was buffered. */
  ghost predicate Late(m: Machine, a: Action, k: TraceKey) { Appends(m, a, k) && k !in m.shard && !InLimbo(m, k) }

  /** The span's trace is open, and the trace of that key before it still waits to be truncated. */
  ghost predicate Early(m: Machine, a: Action, k: TraceKey) { Appends(m, a, k) && k in m.shard && InLimbo(m, k) }

  ghost predicate Truncates(m: Machine, a: Action, k: TraceKey) { a.Truncate? && m.limbo != [] && m.limbo[0].key == k }
  ghost predicate TakesOut(a: Action, k: TraceKey) { a.TakeOut? && k in KeysOf(a.due) }

  ghost function Tally(l: Ledger, m: Machine, a: Action, k: TraceKey): Ledger {
    if Truncates(m, a, k) then l.(strays := [])
    else if TakesOut(a, k) then l.(lost := 0)
    else if Late(m, a, k) then l.(strays := l.strays + [m.pending.span])
    else if Early(m, a, k) then l.(lost := l.lost + 1)
    else l
  }

  ghost function PendingAt(m: Machine, k: TraceKey): seq<Span> {
    if m.pending.Holding? && SpanKey(m.pending.span) == k && k in m.shard then [m.pending.span] else []
  }

  /** With no trace of the key in limbo the journal lacks the lost spans and the pending one, and
      has the strays in front; while one is, all of the key's open spans but the pending are lost. */
  ghost predicate Holds(m: Machine, k: TraceKey, l: Ledger) {
    var open := SpansAt(m.shard, k);
    l.lost <= |open| &&
    if InLimbo(m, k) then open[l.lost..] == PendingAt(m, k)
    else Entry(m.wal, k) + PendingAt(m, k) == l.strays + open[l.lost..] && (l.strays == [] || l.lost == 0)
  }

  lemma BufferHolds(m: Machine, s: Span, now: int, k: TraceKey, l: Ledger)
    requires Holds(m, k, l) && m.pending == Nothing
    ensures Holds(Buffered(m, s, now), k, l)
  {
    hide Extended, Opened, IsDuplicate;
    if !IsDuplicate(m.shard, SpanKey(s), s) {
      var next := Buffered(m, s, now);
      ExtendedSpans(m.shard, SpanKey(s), s, now);
      if k == SpanKey(s) {
        OneMoreOpen(m, next, s, k, l);
      } else {
        assert PendingAt(next, k) == [] == PendingAt(m, k) && InLimbo(next, k) == InLimbo(m, k);
      }
    }
  }

  lemma OneMoreOpen(m: Machine, next: Machine, s: Span, k: TraceKey, l: Ledger)
    requires Holds(m, k, l) && PendingAt(m, k) == [] && PendingAt(next, k) == [s]
    requires SpansAt(next.shard, k) == SpansAt(m.shard, k) + [s] && next.wal == m.wal && next.limbo == m.limbo
    ensures Holds(next, k, l)
  {
    hide PendingAt, SpansAt;
    var open := SpansAt(m.shard, k);
    assert InLimbo(next, k) == InLimbo(m, k);
    assert (open + [s])[l.lost..] == open[l.lost..] + [s];
    assert Entry(m.wal, k) + [] == Entry(m.wal, k);
    assert (l.strays + open[l.lost..]) + [s] == l.strays + (open[l.lost..] + [s]);
  }

  lemma AppendHolds(m: Machine, k: TraceKey, l: Ledger)
    requires Holds(m, k, l) && m.pending.Holding?
    ensures Holds(Next(m, Append), k, Tally(l, m, Append, k))
  {
    var next, s := Next(m, Append), m.pending.span;
    assert InLimbo(next, k) == InLimbo(m, k) && PendingAt(next, k) == [];
    if k == SpanKey(s) {
      var open := SpansAt(m.shard, k);
      assert Entry(next.wal, k) == Entry(m.wal, k) + [s];
      if Early(m, Append, k) {
        assert |open[l.lost..]| == 1;
        assert open[l.lost + 1..] == [];
      } else if Late(m, Append, k) {
        assert open == [] && l.lost == 0;
        assert Entry(m.wal, k) + [] == Entry(m.wal, k) == l.strays;
        assert Entry(next.wal, k) + [] == (l.strays + [s]) + [];
      }
    }
  }

  lemma TakeOutHolds(m: Machine, due: seq<OpenTrace>, forced: bool, k: TraceKey, l: Ledger)
    requires Holds(m, k, l) && Enabled(m, TakeOut(due, forced))
    ensures Holds(Next(m, TakeOut(due, forced)), k, Tally(l, m, TakeOut(due, forced), k))
  {
    hide Records, DistinctKeys, KeysOf;
    var next := Next(m, TakeOut(due, forced));
    TakenInLimbo(next, due, forced, k);
    assert !InLimbo(m, k);
  }

  lemma TakenInLimbo(m: Machine, due: seq<OpenTrace>, forced: bool, k: TraceKey)
    requires m.limbo == Records(due, forced)
    ensures InLimbo(m, k) <==> k in KeysOf(due)
  {
    RecordsAt(due, forced);
    hide Records;
    if k in KeysOf(due) {
      var t :| t in due && KeyOf(t) == k;
      var j :| 0 <= j < |due| && due[j] == t;
      assert m.limbo[j] in m.limbo && m.limbo[j].key == k;
    }
    forall f | f in m.limbo ensures f.key in KeysOf(due) {
      var j :| 0 <= j < |due| && m.limbo[j] == f;
      assert due[j] in due;
    }
  }

  lemma TruncateHolds(m: Machine, k: TraceKey, l: Ledger)
    requires Holds(m, k, l) && m.limbo != [] && OncePerKey(m.limbo)
    ensures Holds(Next(m, Truncate), k, Tally(l, m, Truncate, k))
  {
    var next := Next(m, Truncate);
    assert PendingAt(next, k) == PendingAt(m, k);
    if k == m.limbo[0].key {
      forall f | f in next.limbo ensures f.key != k {
        var j :| 0 <= j < |next.limbo| && next.limbo[j] == f;
        assert m.limbo[j + 1] == f;
      }
      assert InLimbo(m, k) && !InLimbo(next, k);
    } else {
      assert InLimbo(next, k) == InLimbo(m, k) by {
        assert m.limbo == [m.limbo[0]] + next.limbo;
      }
    }
  }

  lemma StepHolds(m: Machine, a: Action, k: TraceKey, l: Ledger)
    requires Sound(m) && Enabled(m, a) && Holds(m, k, l)
    ensures Holds(Next(m, a), k, Tally(l, m, a, k))
  {
    hide Holds, TraceOk, FinalOk;
    match a
    case Buffer(s, now) => BufferHolds(m, s, now, k, l);
    case Append => AppendHolds(m, k, l);
    case TakeOut(due, forced) => TakeOutHolds(m, due, forced, k, l);
    case Truncate => TruncateHolds(m, k, l);
  }

  ghost function LedgerAt(schedule: seq<Action>, states: seq<Machine>, n: nat, k: TraceKey): Ledger
    requires n <= |schedule| < |states|
  {
    if n == 0 then Ledger([], 0) else Tally(LedgerAt(schedule, states, n - 1, k), states[n - 1], schedule[n - 1], k)
  }

  lemma {:induction false} AlwaysHolds(schedule: seq<Action>, states: seq<Machine>, n: nat, k: TraceKey)
    requires IsRun(schedule, states) && n <= |schedule|
    ensures Holds(states[n], k, LedgerAt(schedule, states, n, k))
    decreases n
  {
    hide Holds, Sound, Balanced, Next, Enabled, Tally;
    if n == 0 {
      StartHolds(k);
    } else {
      AlwaysHolds(schedule, states, n - 1, k);
      AlwaysBalanced(schedule, states, n - 1);
      assert Follows(schedule, states, n - 1);
      StepHolds(states[n - 1], schedule[n - 1], k, LedgerAt(schedule, states, n - 1, k));
    }
  }

  lemma StartHolds(k: TraceKey)
    ensures Holds(Start, k, Ledger([], 0))
  {
  }

  // ---------- When journal and buffers agree ----------

  /** No span between its buffering and its append, and no trace between take-out and truncate. */
  predicate AtRest(m: Machine) { m.pending == Nothing && m.limbo == [] }

  /** A late append at step i whose key has not been truncated again by step n. */
  ghost predicate Orphaned(schedule: seq<Action>, states: seq<Machine>, i: nat, n: nat, k: TraceKey)
    requires i < n <= |schedule| < |states|
  {
    Late(states[i], schedule[i], k) && forall j :: i < j < n ==> !Truncates(states[j], schedule[j], k)
  }

  /** An early append at step i whose trace is still open at step n. */
  ghost predicate Forgotten(schedule: seq<Action>, states: seq<Machine>, i: nat, n: nat, k: TraceKey)
    requires i < n <= |schedule| < |states|
  {
    Early(states[i], schedule[i], k) && forall j :: i < j < n ==> !TakesOut(schedule[j], k)
  }

  /** Every mishap of the key has been made good by step n. */
  ghost predicate MadeGood(schedule: seq<Action>, states: seq<Machine>, n: nat, k: TraceKey)
    requires n <= |schedule| < |states|
  {
    forall i: nat :: i < n ==> !Orphaned(schedule, states, i, n, k) && !Forgotten(schedule, states, i, n, k)
  }

  lemma {:induction false} StraysExactly(schedule: seq<Action>, states: seq<Machine>, n: nat, k: TraceKey)
    requires n <= |schedule| < |states|
    ensures LedgerAt(schedule, states, n, k).strays != [] <==>
            exists i: nat :: i < n && Orphaned(schedule, states, i, n, k)
    decreases n
  {
    hide Late, Early, Truncates, TakesOut;
    if n > 0 {
      StraysExactly(schedule, states, n - 1, k);
      var m, a, l := states[n - 1], schedule[n - 1], LedgerAt(schedule, states, n - 1, k);
      KindsApart(m, a, k);
      if Late(m, a, k) {
        assert Orphaned(schedule, states, n - 1, n, k);
      } else {
        var front := n - 1;
        if i: nat :| i < front && Orphaned(schedule, states, i, front, k) && !Truncates(m, a, k) {
          assert Orphaned(schedule, states, i, n, k);
        }
        if i: nat :| i < n && Orphaned(schedule, states, i, n, k) {
          assert i < front && Orphaned(schedule, states, i, front, k);
        }
      }
    }
  }

  lemma {:induction false} LostExactly(schedule: seq<Action>, states: seq<Machine>, n: nat, k: TraceKey)
    requires n <= |schedule| < |states|
    ensures LedgerAt(schedule, states, n, k).lost > 0 <==>
            exists i: nat :: i < n && Forgotten(schedule, states, i, n, k)
    decreases n
  {
    hide Late, Early, Truncates, TakesOut;
    if n > 0 {
      LostExactly(schedule, states, n - 1, k);
      var m, a, l := states[n - 1], schedule[n - 1], LedgerAt(schedule, states, n - 1, k);
      KindsApart(m, a, k);
      if Early(m, a, k) {
        assert Forgotten(schedule, states, n - 1, n, k);
      } else {
        var front := n - 1;
        if i: nat :| i < front && Forgotten(schedule, states, i, front, k) && !TakesOut(a, k) {
          assert Forgotten(schedule, states, i, n, k);
        }
        if i: nat :| i < n && Forgotten(schedule, states, i, n, k) {
          assert i < front && Forgotten(schedule, states, i, front, k);
        }
      }
    }
  }

  lemma KindsApart(m: Machine, a: Action, k: TraceKey)
    ensures Truncates(m, a, k) ==> !TakesOut(a, k) && !Late(m, a, k) && !Early(m, a, k)
    ensures TakesOut(a, k) ==> !Late(m, a, k) && !Early(m, a, k)
    ensures Late(m, a, k) ==> !Early(m, a, k)
  {
  }

  ghost predicate Agrees(m: Machine, k: TraceKey) { Entry(m.wal, k) == SpansAt(m.shard, k) }

  lemma AgreesByEntry(m: Machine)
    requires Sound(m)
    ensures m.wal == SpansIn(m.shard) <==> forall k :: Agrees(m, k)
  {
    if forall k :: Agrees(m, k) {
      forall k ensures k in m.wal <==> k in m.shard {
        assert Agrees(m, k);
        if k in m.shard { assert TraceOk(k, m.shard[k]); }
      }
      forall k | k in m.wal ensures m.wal[k] == m.shard[k].spans {
        assert Agrees(m, k);
      }
    }
    if m.wal == SpansIn(m.shard) {
      forall k ensures Agrees(m, k) {
        assert k in SpansIn(m.shard) <==> k in m.shard;
      }
    }
  }

  lemma EntryExactly(m: Machine, k: TraceKey, l: Ledger)
    requires AtRest(m) && Holds(m, k, l)
    ensures Entry(m.wal, k) == l.strays + SpansAt(m.shard, k)[l.lost..]
    ensures Agrees(m, k) <==> l.strays == [] && l.lost == 0
  {
    var open := SpansAt(m.shard, k);
    assert Entry(m.wal, k) + [] == Entry(m.wal, k);
    assert |l.strays + open[l.lost..]| == |l.strays| + |open| - l.lost;
  }

  /** At rest the journal holds exactly the open buffers if and only if no append came after its
      own trace was truncated, unless that key has been truncated since, and none came while the
      trace of its key before it was still to be truncated, unless its own has been taken out. */
  lemma AgreesExactly(schedule: seq<Action>, states: seq<Machine>, n: nat)
    requires IsRun(schedule, states) && n <= |schedule| && AtRest(states[n])
    ensures states[n].wal == SpansIn(states[n].shard) <==> forall k :: MadeGood(schedule, states, n, k)
  {
    hide Holds, MadeGood, Agrees, Sound, Balanced;
    AlwaysBalanced(schedule, states, n);
    AgreesByEntry(states[n]);
    forall k ensures Agrees(states[n], k) <==> MadeGood(schedule, states, n, k) {
      AlwaysHolds(schedule, states, n, k);
      EntryExactly(states[n], k, LedgerAt(schedule, states, n, k));
      MadeGoodExactly(schedule, states, n, k);
    }
  }

  lemma MadeGoodExactly(schedule: seq<Action>, states: seq<Machine>, n: nat, k: TraceKey)
    requires n <= |schedule| < |states|
    ensures MadeGood(schedule, states, n, k) <==> LedgerAt(schedule, states, n, k) == Ledger([], 0)
  {
    hide Orphaned, Forgotten;
    StraysExactly(schedule, states, n, k);
    LostExactly(schedule, states, n, k);
  }

  /** What a replay of the journal would then do to a key: it comes back exactly if it has strays
      or open spans not lost, and without strays it comes back as its open spans but the lost. */
  lemma ReplayAfterOverlap(schedule: seq<Action>, states: seq<Machine>, n: nat, k: TraceKey, now: int)
    requires IsRun(schedule, states) && n <= |schedule| && AtRest(states[n])
    ensures var m, l, rebuilt := states[n], LedgerAt(schedule, states, n, k), Merged(map[], states[n].wal, now);
            && l.lost <= |SpansAt(m.shard, k)|
            && (k in rebuilt <==> l.strays != [] || l.lost < |SpansAt(m.shard, k)|)
            && (k in rebuilt && l.strays == [] ==> rebuilt[k].spans == SpansAt(m.shard, k)[l.lost..])
  {
    AlwaysBalanced(schedule, states, n);
    AlwaysHolds(schedule, states, n, k);
    var m, l := states[n], LedgerAt(schedule, states, n, k);
    EntryExactly(m, k, l);
    assert |Entry(m.wal, k)| == |l.strays| + |SpansAt(m.shard, k)| - l.lost;
    if k in m.wal && l.strays == [] {
      assert TraceOk(k, m.shard[k]);
      hide Holds, Sound, Balanced, Replayed;
      ReplayFresh(Opened(map[], k, now), m.wal[k]);
    }
  }

  /** The drainer and the sweeper are never at work on the shard at once. */
  ghost predicate Apart(m: Machine) {
    m.pending.Holding? ==> m.limbo == [] && SpanKey(m.pending.span) in m.shard
  }

  /** It is enough that neither call begins on a shard before the other is done with it. */
  lemma ApartAgrees(schedule: seq<Action>, states: seq<Machine>, n: nat)
    requires IsRun(schedule, states) && n <= |schedule| && AtRest(states[n])
    requires forall i: nat :: i < |schedule| && schedule[i].Buffer? ==> states[i].limbo == []
    requires forall i: nat :: i < |schedule| && schedule[i].TakeOut? ==> states[i].pending == Nothing
    ensures states[n].wal == SpansIn(states[n].shard)
  {
    hide Orphaned, Forgotten;
    AgreesExactly(schedule, states, n);
    forall k ensures MadeGood(schedule, states, n, k) {
      forall i: nat | i < n ensures !Orphaned(schedule, states, i, n, k) && !Forgotten(schedule, states, i, n, k) {
        AlwaysApart(schedule, states, i);
        NoMishap(schedule, states, i, n, k);
      }
    }
  }

  lemma NoMishap(schedule: seq<Action>, states: seq<Machine>, i: nat, n: nat, k: TraceKey)
    requires i < n <= |schedule| < |states| && Apart(states[i])
    ensures !Orphaned(schedule, states, i, n, k) && !Forgotten(schedule, states, i, n, k)
  {
  }

  lemma {:induction false} AlwaysApart(schedule: seq<Action>, states: seq<Machine>, n: nat)
    requires IsRun(schedule, states) && n <= |schedule|
    requires forall i: nat :: i < |schedule| && schedule[i].Buffer? ==> states[i].limbo == []
    requires forall i: nat :: i < |schedule| && schedule[i].TakeOut? ==> states[i].pending == Nothing
    ensures Apart(states[n])
    decreases n
  {
    hide Records, KeysOf, Extended, Opened, IsDuplicate;
    if n > 0 {
      AlwaysApart(schedule, states, n - 1);
      assert Follows(schedule, states, n - 1);
    }
  }

  // ---------- The two mishaps ----------

  ghost predicate Reachable(m: Machine) {
    exists schedule, states :: IsRun(schedule, states) && states[|schedule|] == m
  }

  lemma ReachNext(m: Machine, a: Action)
    requires Reachable(m) && Enabled(m, a)
    ensures Reachable(Next(m, a))
  {
    hide Next, Enabled;
    var schedule, states :| IsRun(schedule, states) && states[|schedule|] == m;
    var more, all := schedule + [a], states + [Next(m, a)];
    forall i: nat | i < |more| ensures Follows(more, all, i) {
      if i < |schedule| { assert Follows(schedule, states, i); }
    }
    assert IsRun(more, all) && all[|more|] == Next(m, a);
  }

  lemma StartReachable()
    ensures Reachable(Start)
  {
    var schedule: seq<Action> := [];
    assert IsRun(schedule, [Start]) && [Start][|schedule|] == Start;
  }

  /** A trace taken out and truncated between its span's buffering and the append leaves the span
      in the journal with nothing open: a replay would bring a finalized trace back. */
  lemma LateAppendOrphans(s: Span, now: int) returns (m: Machine)
    ensures Reachable(m) && AtRest(m) && m.shard == map[] && m.wal == map[SpanKey(s) := [s]]
    ensures m.finalized == [Finalized(SpanKey(s), [s], false)]
  {
    hide Reachable;
    var k := SpanKey(s);
    StartReachable();
    var a := Next(Start, Buffer(s, now));
    ReachNext(Start, Buffer(s, now));
    var b := TakenAlone(a, k, now);
    var c := Next(b, Truncate);
    ReachNext(b, Truncate);
    ReachNext(c, Append);
    m := Next(c, Append);
    assert m.shard == map[] && Entry(map[], k) + [s] == [s];
  }

  /** The one open trace is taken out. */
  lemma TakenAlone(a: Machine, k: TraceKey, now: int) returns (b: Machine)
    requires Reachable(a) && a.limbo == [] && a.shard.Keys == {k} && KeyOf(a.shard[k]) == k
    ensures Reachable(b) && b == a.(shard := map[], limbo := [Finalized(k, a.shard[k].spans, false)])
  {
    hide Reachable;
    var due := [a.shard[k]];
    ReachNext(a, TakeOut(due, false));
    b := Next(a, TakeOut(due, false));
    assert KeysOf(due) == {k} && Records(due, false) == [RecordOf(a.shard[k], false)] + Records([], false);
    assert b.shard == map[];
  }

  /** A span that opens its key again before the truncate of the trace taken out loses its place in
      the journal: a replay would not have it, though it is accepted and open. */
  lemma EarlyAppendForgets(s: Span, next: Span, now: int) returns (m: Machine)
    requires SpanKey(next) == SpanKey(s)
    ensures Reachable(m) && AtRest(m) && m.wal == map[]
    ensures m.shard.Keys == {SpanKey(s)} && m.shard[SpanKey(s)].spans == [next] && m.accepted == [s, next]
  {
    hide Reachable;
    var k := SpanKey(s);
    StartReachable();
    var a := Next(Start, Buffer(s, now));
    ReachNext(Start, Buffer(s, now));
    var b := Next(a, Append);
    ReachNext(a, Append);
    var c := TakenAlone(b, k, now);
    var d := Next(c, Buffer(next, now));
    ReachNext(c, Buffer(next, now));
    var e := Next(d, Append);
    ReachNext(d, Append);
    ReachNext(e, Truncate);
    m := Next(e, Truncate);
    assert m.wal == map[];
  }

  // ---------- One call after the other ----------

  /** A span buffered and journalled with nothing in between is one step of the manager. */
  lemma ConsumeIsTwoSteps(ring: Ring, st: State, m: Machine, s: Span, now: int)
    requires RingFits(ring, st.shards) && m.pending == Nothing
    requires var i := Home(ring, s.traceID); m.shard == st.shards[i] && m.wal == SegmentAt(st.wal, i)
    ensures var i, next, held := Home(ring, s.traceID), Consumed(ring, st, s, now), Next(m, Buffer(s, now));
            var done := if held.pending.Holding? then Next(held, Append) else held;
            done.shard == next.shards[i] && done.wal == SegmentAt(next.wal, i)
  {
    hide Extended, Opened, IsDuplicate;
  }

  /** A trace taken out and truncated with nothing in between is one finalization. */
  lemma FinalizeIsTwoSteps(st: State, i: nat, m: Machine, t: OpenTrace, forced: bool)
    requires i < |st.shards| && m.limbo == [] && m.shard == st.shards[i] && m.wal == SegmentAt(st.wal, i)
    requires KeyOf(t) in m.shard && m.shard[KeyOf(t)] == t
    ensures Enabled(m, TakeOut([t], forced)) && Enabled(Next(m, TakeOut([t], forced)), Truncate)
    ensures var done := Next(Next(m, TakeOut([t], forced)), Truncate);
            var next := Closed(st.(shards := st.shards[i := st.shards[i] - {KeyOf(t)}]), i, t, forced);
            && done.shard == next.shards[i] && done.wal == SegmentAt(next.wal, i)
            && done.finalized == m.finalized + next.finalized[|st.finalized|..]
  {
    assert KeysOf([t]) == {KeyOf(t)} && Records([t], forced) == [RecordOf(t, forced)] + Records([], forced);
  }
}
