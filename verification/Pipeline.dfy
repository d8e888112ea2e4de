/** From span to store: the shards with their overlapping Consume and Tick, the keep policy that
    judges each trace taken out, and the bridge that stores the kept ones, all in one run. */
module Pipeline {
  import opened TraceAssembly
  import Shards = OverlappedAssembly
  import Policy = KeepPolicy
  import Runs = KeepPolicyRuns
  import Bridge = StoreBridge

  datatype Setup = Setup(ring: Ring, cfg: Policy.PolicyConfig, cap: Bridge.Capacity)

  /** What judging a trace depends on beside its key and spans. */
  datatype Facts = Facts(idHash: nat, truncated: bool, signature: Policy.Signature, rootService: string,
                         baseline: Policy.Baseline, interest: Policy.Match, now: int)

  datatype Judged = Judged(record: Finalized, decision: Policy.Decision)

  /** judged records every trace finalized with its decision, and moves every evaluation of the
      policy; both are oldest first. */
  datatype System = System(shards: seq<Shards.Machine>, policy: Policy.Policy, bridge: Bridge.State,
                           judged: seq<Judged>, moves: seq<Runs.Move>)

  datatype Action = Consume(i: nat, span: Span, now: int) | Journal(i: nat)
                  | TakeOut(i: nat, due: seq<OpenTrace>, forced: bool) | Judge(i: nat, x: Facts)
                  | SetFloor(tenant: Policy.Tenant, floor: real) | Move(b: Bridge.Action)

  function SpanFactsOf(spans: seq<Span>): seq<Policy.SpanFacts> {
    seq(|spans|, i requires 0 <= i < |spans| => Policy.SpanFacts(spans[i].isErr, spans[i].start, spans[i].end))
  }

  function CandidateFor(f: Finalized, x: Facts): Policy.Candidate {
    Policy.Candidate(f.key.tenant, f.key.traceID, x.idHash, SpanFactsOf(f.spans), x.truncated, x.signature,
                     x.rootService, x.baseline, x.interest, x.now)
  }

  function TraceFor(f: Finalized): Bridge.Trace { Bridge.Trace(f.key.tenant, f.key.traceID, f.spans) }

  /** A trace shed by a flush is not put to the policy. */
  function DecisionFor(su: Setup, p: Policy.Policy, f: Finalized, x: Facts): Policy.Decision {
    if f.forced then Policy.Decision(f.key.tenant, f.key.traceID, false, Policy.KeepShed, "", {}, x.now)
    else Policy.DecisionOn(su.cfg, p, CandidateFor(f, x))
  }

  function JobOf(j: Judged): Bridge.Job { Bridge.Job(j.decision, TraceFor(j.record)) }

  /** The sweeper has no trace in hand. */
  ghost predicate Idle(st: System) {
    st.bridge.producer == Bridge.Ready && forall i :: 0 <= i < |st.shards| ==> st.shards[i].limbo == []
  }

  /** A tick runs until the ticker is joined, a flush after that; each judges the traces it takes
      out one by one, sending each decision before the next. */
  ghost predicate Enabled(su: Setup, st: System, a: Action) {
    match a
    case Consume(i, s, now) =>
      i < |st.shards| && Home(su.ring, s.traceID) == i && Shards.Enabled(st.shards[i], Shards.Buffer(s, now))
    case Journal(i) => i < |st.shards| && Shards.Enabled(st.shards[i], Shards.Append)
    case TakeOut(i, due, forced) =>
      i < |st.shards| && Idle(st) && Shards.Enabled(st.shards[i], Shards.TakeOut(due, forced)) &&
      SweptIn(forced, st.bridge.phase)
    case Judge(i, x) => i < |st.shards| && st.shards[i].limbo != [] && st.bridge.producer == Bridge.Ready
    case SetFloor(_, _) => true
    case Move(b) =>
      !b.Finalize? && Bridge.Enabled(su.cap, st.bridge, b) && (b.JoinTicker? || b.EndFlush? ==> Idle(st))
  }

  ghost function ShardStep(st: System, i: nat, a: Shards.Action): System
    requires i < |st.shards| && Shards.Enabled(st.shards[i], a)
  {
    st.(shards := st.shards[i := Shards.Next(st.shards[i], a)])
  }

  /** The first trace in limbo is evaluated, truncated, and handed to the producer. */
  ghost function JudgeStep(su: Setup, st: System, i: nat, x: Facts): System
    requires i < |st.shards| && st.shards[i].limbo != []
  {
    var f := st.shards[i].limbo[0];
    var d := DecisionFor(su, st.policy, f, x);
    var next := ShardStep(st, i, Shards.Truncate).
                  (bridge := st.bridge.(producer := Bridge.HasDecision(Bridge.Job(d, TraceFor(f)))),
                   judged := st.judged + [Judged(f, d)]);
    if f.forced then next
    else
      var c := CandidateFor(f, x);
      var q := Policy.After(su.cfg, st.policy, c);
      next.(policy := q, moves := st.moves + [Runs.Move(st.policy, c, q, Policy.Reason(su.cfg, st.policy, c))])
  }

  ghost function Next(su: Setup, st: System, a: Action): System
    requires Enabled(su, st, a)
  {
    match a
    case Consume(i, s, now) => ShardStep(st, i, Shards.Buffer(s, now))
    case Journal(i) => ShardStep(st, i, Shards.Append)
    case TakeOut(i, due, forced) => ShardStep(st, i, Shards.TakeOut(due, forced))
    case Judge(i, x) => JudgeStep(su, st, i, x)
    case SetFloor(t, floor) => st.(policy := st.policy.(floors := st.policy.floors[t := floor]))
    case Move(b) => st.(bridge := Bridge.Next(su.cap, st.bridge, b))
  }

  function Start(su: Setup): System {
    System(seq(|su.ring.members|, _ => Shards.Start), Policy.Fresh, Bridge.Init, [], [])
  }

  // ---------- The shards ----------

  ghost predicate ShardSound(ring: Ring, i: int, m: Shards.Machine) {
    Shards.Sound(m) && Shards.Balanced(m) && (forall k <- m.shard :: Home(ring, k.traceID) == i) &&
    forall f <- m.limbo :: Home(ring, f.key.traceID) == i
  }

  ghost predicate AllSound(ring: Ring, shards: seq<Shards.Machine>) {
    |shards| == |ring.members| && forall i :: 0 <= i < |shards| ==> ShardSound(ring, i, shards[i])
  }

  lemma HomeKept(ring: Ring, i: nat, m: Shards.Machine, a: Shards.Action)
    requires ShardSound(ring, i, m) && Shards.Enabled(m, a) && (a.Buffer? ==> Home(ring, a.span.traceID) == i)
    ensures ShardSound(ring, i, Shards.Next(m, a))
  {
    hide Shards.Balanced, Home, Extended, Opened, IsDuplicate;
    Shards.StepKeeps(m, a);
    var next := Shards.Next(m, a);
    match a
    case TakeOut(due, forced) =>
      RecordsAt(due, forced);
      forall f | f in next.limbo ensures Home(ring, f.key.traceID) == i {
        var j :| 0 <= j < |due| && next.limbo[j] == f;
        assert due[j] in due;
      }
    case _ =>
  }

  lemma ShardStepSound(su: Setup, st: System, i: nat, a: Shards.Action)
    requires AllSound(su.ring, st.shards) && i < |st.shards| && Shards.Enabled(st.shards[i], a)
    requires a.Buffer? ==> Home(su.ring, a.span.traceID) == i
    ensures AllSound(su.ring, ShardStep(st, i, a).shards)
  {
    hide ShardSound, Shards.Next, Shards.Enabled;
    HomeKept(su.ring, i, st.shards[i], a);
  }

  // ---------- Records and jobs ----------

  function RecordsOf(js: seq<Judged>): seq<Finalized> {
    if js == [] then [] else RecordsOf(js[..|js| - 1]) + [js[|js| - 1].record]
  }

  function KeptRecords(js: seq<Judged>): seq<Finalized> {
    if js == [] then []
    else KeptRecords(js[..|js| - 1]) + if js[|js| - 1].decision.keep then [js[|js| - 1].record] else []
  }

  function JobsOf(js: seq<Judged>): seq<Bridge.Job> {
    if js == [] then [] else JobsOf(js[..|js| - 1]) + [JobOf(js[|js| - 1])]
  }

  lemma JudgedAppend(js: seq<Judged>, j: Judged)
    ensures RecordsOf(js + [j]) == RecordsOf(js) + [j.record]
    ensures JobsOf(js + [j]) == JobsOf(js) + [JobOf(j)]
  {
    assert (js + [j])[..|js|] == js;
  }

  /** For each key the traces judged are those its shard has given up, in order. */
  ghost predicate Gathered(ring: Ring, shards: seq<Shards.Machine>, judged: seq<Judged>) {
    forall k: TraceKey {:trigger ClosedSpans(RecordsOf(judged), k)} ::
      var i := Home(ring, k.traceID);
      0 <= i < |shards| ==> ClosedSpans(RecordsOf(judged), k) == ClosedSpans(shards[i].finalized, k)
  }

  lemma GatheredStep(ring: Ring, shards: seq<Shards.Machine>, judged: seq<Judged>, i: nat, next: Shards.Machine)
    requires Gathered(ring, shards, judged) && i < |shards| && next.finalized == shards[i].finalized
    ensures Gathered(ring, shards[i := next], judged)
  {
    hide RecordsOf, ClosedSpans, Home;
  }

  lemma GatheredJudge(ring: Ring, shards: seq<Shards.Machine>, judged: seq<Judged>, i: nat, next: Shards.Machine,
                      j: Judged)
    requires Gathered(ring, shards, judged) && i < |shards| && Home(ring, j.record.key.traceID) == i
    requires next.finalized == shards[i].finalized + [j.record]
    ensures Gathered(ring, shards[i := next], judged + [j])
  {
    hide RecordsOf, ClosedSpans, Home;
    JudgedAppend(judged, j);
    forall k: TraceKey | 0 <= Home(ring, k.traceID) < |shards|
      ensures ClosedSpans(RecordsOf(judged + [j]), k) ==
              ClosedSpans(shards[i := next][Home(ring, k.traceID)].finalized, k)
    {
      ClosedSpansAppend(RecordsOf(judged), j.record, k);
      ClosedSpansAppend(shards[i].finalized, j.record, k);
      assert ClosedSpans(RecordsOf(judged), k) == ClosedSpans(shards[Home(ring, k.traceID)].finalized, k);
    }
  }

  // ---------- The bridge and the policy ----------

  /** The jobs sent, and the one still to be sent, are those judged, in order. */
  ghost predicate Handed(b: Bridge.State, judged: seq<Judged>) {
    b.sent + (if b.producer.HasDecision? then [b.producer.j] else []) == JobsOf(judged)
  }

  predicate SweptIn(forced: bool, phase: Bridge.Phase) {
    if forced then phase == Bridge.Flushing else phase in {Bridge.Ticking, Bridge.Stopping}
  }

  /** A tick has unforced traces in hand, a flush forced ones, and afterwards there are none. */
  ghost predicate InPhase(shards: seq<Shards.Machine>, phase: Bridge.Phase) {
    forall i, f :: 0 <= i < |shards| && f in shards[i].limbo ==> SweptIn(f.forced, phase)
  }

  /** Each decision is the policy's, on the policy as all the earlier ones left it, or that of a flush. */
  ghost predicate Decided(su: Setup, judged: seq<Judged>, moves: seq<Runs.Move>)
    decreases |judged|
  {
    if judged == [] then moves == []
    else
      var j := judged[|judged| - 1];
      if j.record.forced then
        !j.decision.keep && j.decision.reason == Policy.KeepShed && Decided(su, judged[..|judged| - 1], moves)
      else
        moves != [] && DecidedBy(su, j, moves[|moves| - 1]) &&
        Decided(su, judged[..|judged| - 1], moves[..|moves| - 1])
  }

  ghost predicate DecidedBy(su: Setup, j: Judged, m: Runs.Move) {
    j.decision == Policy.DecisionOn(su.cfg, m.before, m.c) && exists x :: m.c == CandidateFor(j.record, x)
  }

  ghost predicate PolicyRight(su: Setup, policy: Policy.Policy, judged: seq<Judged>, moves: seq<Runs.Move>) {
    Runs.IsRun(su.cfg, moves) && Decided(su, judged, moves) &&
    policy == Runs.PolicyBefore(moves, |moves|).(floors := policy.floors)
  }

  ghost predicate PolicyKept(su: Setup, st: System) { PolicyRight(su, st.policy, st.judged, st.moves) }

  ghost predicate BridgeKept(b: Bridge.State) { Bridge.InStep(b) && Bridge.Phased(b) }

  /** What every step of the whole keeps. */
  ghost predicate Kept(su: Setup, st: System) {
    AllSound(su.ring, st.shards) && Gathered(su.ring, st.shards, st.judged) && Handed(st.bridge, st.judged) &&
    InPhase(st.shards, st.bridge.phase) && BridgeKept(st.bridge) && PolicyKept(su, st) &&
    forall j <- st.judged :: FinalOk(j.record)
  }

  lemma RunGrows(cfg: Policy.PolicyConfig, run: seq<Runs.Move>, m: Runs.Move)
    requires Runs.IsRun(cfg, run) && Runs.Evaluates(cfg, m)
    requires m.before == Runs.PolicyBefore(run, |run|).(floors := m.before.floors)
    ensures Runs.IsRun(cfg, run + [m])
  {
    hide Runs.Evaluates;
    var more := run + [m];
    forall k: nat | k < |more| ensures more[k].before == Runs.PolicyBefore(more, k).(floors := more[k].before.floors) {
      assert Runs.PolicyBefore(more, k) == Runs.PolicyBefore(run, k);
    }
    forall k | 0 <= k < |more| ensures Runs.Evaluates(cfg, more[k]) {
      if k < |run| { assert Runs.Evaluates(cfg, run[k]); }
    }
  }

  lemma ShedKeepsPolicy(su: Setup, p: Policy.Policy, judged: seq<Judged>, moves: seq<Runs.Move>, j: Judged)
    requires PolicyRight(su, p, judged, moves)
    requires j.record.forced && !j.decision.keep && j.decision.reason == Policy.KeepShed
    ensures PolicyRight(su, p, judged + [j], moves)
  {
    hide Runs.IsRun;
    assert (judged + [j])[..|judged|] == judged;
  }

  lemma EvaluationKeepsPolicy(su: Setup, p: Policy.Policy, judged: seq<Judged>, moves: seq<Runs.Move>, f: Finalized,
                              x: Facts, m: Runs.Move)
    requires PolicyRight(su, p, judged, moves) && !f.forced
    requires m.before == p && m.c == CandidateFor(f, x) && Runs.Evaluates(su.cfg, m)
    ensures PolicyRight(su, m.after, judged + [Judged(f, Policy.DecisionOn(su.cfg, p, m.c))], moves + [m])
  {
    hide Policy.DecisionOn, Runs.Evaluates, CandidateFor, Decided, Runs.IsRun;
    RunGrows(su.cfg, moves, m);
    var j := Judged(f, Policy.DecisionOn(su.cfg, p, m.c));
    DecidedGrows(su, judged, moves, j, m);
    assert Runs.PolicyBefore(moves + [m], |moves| + 1) == m.after;
  }

  lemma DecidedGrows(su: Setup, judged: seq<Judged>, moves: seq<Runs.Move>, j: Judged, m: Runs.Move)
    requires Decided(su, judged, moves) && !j.record.forced && DecidedBy(su, j, m)
    ensures Decided(su, judged + [j], moves + [m])
  {
    hide DecidedBy;
    assert (judged + [j])[..|judged|] == judged && (moves + [m])[..|moves|] == moves;
  }

  lemma JudgeKeepsPolicy(su: Setup, st: System, i: nat, x: Facts)
    requires PolicyKept(su, st) && i < |st.shards| && st.shards[i].limbo != []
    ensures PolicyKept(su, JudgeStep(su, st, i, x))
  {
    hide Policy.DecisionOn, Policy.After, Policy.Reason, CandidateFor, PolicyRight, Shards.Next;
    var f := st.shards[i].limbo[0];
    if f.forced {
      ShedKeepsPolicy(su, st.policy, st.judged, st.moves, Judged(f, DecisionFor(su, st.policy, f, x)));
    } else {
      var c := CandidateFor(f, x);
      var m := Runs.Move(st.policy, c, Policy.After(su.cfg, st.policy, c), Policy.Reason(su.cfg, st.policy, c));
      EvaluationKeepsPolicy(su, st.policy, st.judged, st.moves, f, x, m);
    }
  }

  lemma DecisionNames(su: Setup, p: Policy.Policy, f: Finalized, x: Facts)
    ensures Bridge.Paired(Bridge.Job(DecisionFor(su, p, f, x), TraceFor(f)))
    ensures f.forced ==> !DecisionFor(su, p, f, x).keep
  {
    hide Policy.Reason, Policy.Fired, Policy.Classify, Policy.Earned;
  }

  /** In the phase it is in, the producer is always ready for the trace judged. */
  lemma JudgeIsFinalize(su: Setup, st: System, i: nat, x: Facts)
    requires InPhase(st.shards, st.bridge.phase) && Enabled(su, st, Judge(i, x))
    ensures var f := st.shards[i].limbo[0];
            var a := Bridge.Finalize(Bridge.Job(DecisionFor(su, st.policy, f, x), TraceFor(f)));
            Bridge.Enabled(su.cap, st.bridge, a) &&
            JudgeStep(su, st, i, x).bridge == Bridge.Next(su.cap, st.bridge, a)
  {
    hide DecisionFor, Shards.Next, Policy.After, Policy.Reason, CandidateFor;
    var f := st.shards[i].limbo[0];
    DecisionNames(su, st.policy, f, x);
    assert f in st.shards[i].limbo;
  }

  lemma BridgeStepKept(cap: Bridge.Capacity, b: Bridge.State, a: Bridge.Action)
    requires BridgeKept(b) && Bridge.Enabled(cap, b, a)
    ensures BridgeKept(Bridge.Next(cap, b, a))
  {
    hide Bridge.InStep, Bridge.Phased, Bridge.Next, Bridge.Enabled;
    Bridge.StepInStep(cap, b, a);
    Bridge.StepPhased(cap, b, a);
  }

  lemma HandedMove(cap: Bridge.Capacity, b: Bridge.State, a: Bridge.Action, judged: seq<Judged>)
    requires Handed(b, judged) && Bridge.Enabled(cap, b, a) && !a.Finalize?
    ensures Handed(Bridge.Next(cap, b, a), judged)
  {
    hide JobsOf;
    if a.SendDecision? { assert b.sent + [b.producer.j] + [] == b.sent + [b.producer.j]; }
  }

  lemma MoveKeeps(su: Setup, st: System, b: Bridge.Action)
    requires Kept(su, st) && Enabled(su, st, Move(b))
    ensures Kept(su, Next(su, st, Move(b)))
  {
    hide AllSound, Gathered, Handed, BridgeKept, PolicyKept, FinalOk, InPhase, Bridge.Next, Bridge.Enabled;
    HandedMove(su.cap, st.bridge, b, st.judged);
    BridgeStepKept(su.cap, st.bridge, b);
    PhaseMove(su, st, b);
    PolicySame(su, st, Next(su, st, Move(b)));
  }

  /** The phase moves on only when the sweeper has nothing in hand. */
  lemma PhaseMove(su: Setup, st: System, b: Bridge.Action)
    requires InPhase(st.shards, st.bridge.phase) && Enabled(su, st, Move(b))
    ensures InPhase(st.shards, Bridge.Next(su.cap, st.bridge, b).phase)
  {
    if Bridge.Next(su.cap, st.bridge, b).phase != st.bridge.phase && b != Bridge.CancelTicker {
      assert b != Bridge.CancelBridge ==> Idle(st);
    }
  }

  lemma PolicySame(su: Setup, st: System, next: System)
    requires PolicyKept(su, st) && next.judged == st.judged && next.moves == st.moves
    requires next.policy == st.policy.(floors := next.policy.floors)
    ensures PolicyKept(su, next)
  {
    hide Runs.IsRun, Decided;
  }

  lemma ShardStepKeeps(su: Setup, st: System, i: nat, a: Shards.Action)
    requires Kept(su, st) && i < |st.shards| && Shards.Enabled(st.shards[i], a) && !a.Truncate?
    requires a.Buffer? ==> Home(su.ring, a.span.traceID) == i
    requires a.TakeOut? ==> SweptIn(a.forced, st.bridge.phase)
    ensures Kept(su, ShardStep(st, i, a))
  {
    ShardStepSound(su, st, i, a);
    PhaseStep(st.shards, st.bridge.phase, i, a);
    SameFinalized(st.shards[i], a);
    hide AllSound, Gathered, Handed, BridgeKept, PolicyKept, InPhase, Shards.Next, Shards.Enabled;
    GatheredStep(su.ring, st.shards, st.judged, i, Shards.Next(st.shards[i], a));
    PolicySame(su, st, ShardStep(st, i, a));
  }

  lemma SameFinalized(m: Shards.Machine, a: Shards.Action)
    requires Shards.Enabled(m, a)
    ensures Shards.Next(m, a).finalized == m.finalized + if a.Truncate? then [m.limbo[0]] else []
  {
  }

  lemma PhaseStep(shards: seq<Shards.Machine>, phase: Bridge.Phase, i: nat, a: Shards.Action)
    requires InPhase(shards, phase) && i < |shards| && Shards.Enabled(shards[i], a)
    requires a.TakeOut? ==> SweptIn(a.forced, phase)
    ensures InPhase(shards[i := Shards.Next(shards[i], a)], phase)
  {
    var next := Shards.Next(shards[i], a);
    forall f | f in next.limbo ensures SweptIn(f.forced, phase) {
      if a.TakeOut? {
        RecordsAt(a.due, a.forced);
      } else {
        assert f in shards[i].limbo;
      }
    }
  }

  lemma JudgeKeepsShards(su: Setup, st: System, i: nat, x: Facts)
    requires i < |st.shards| && st.shards[i].limbo != []
    requires AllSound(su.ring, st.shards) && InPhase(st.shards, st.bridge.phase)
    ensures var next := JudgeStep(su, st, i, x);
            AllSound(su.ring, next.shards) && InPhase(next.shards, st.bridge.phase) && FinalOk(st.shards[i].limbo[0])
  {
    assert ShardSound(su.ring, i, st.shards[i]) && st.shards[i].limbo[0] in st.shards[i].limbo;
    hide AllSound, ShardSound, InPhase, DecisionFor, CandidateFor, Policy.After, Policy.Reason, Shards.Next, FinalOk;
    ShardStepSound(su, st, i, Shards.Truncate);
    PhaseStep(st.shards, st.bridge.phase, i, Shards.Truncate);
  }

  lemma JudgeGathers(su: Setup, st: System, i: nat, x: Facts)
    requires i < |st.shards| && st.shards[i].limbo != [] && st.bridge.producer == Bridge.Ready
    requires AllSound(su.ring, st.shards) && Gathered(su.ring, st.shards, st.judged) && Handed(st.bridge, st.judged)
    ensures var next := JudgeStep(su, st, i, x);
            Gathered(su.ring, next.shards, next.judged) && Handed(next.bridge, next.judged)
  {
    hide Gathered, JobsOf, DecisionFor, CandidateFor, Policy.After, Policy.Reason, AllSound;
    var m, f := st.shards[i], st.shards[i].limbo[0];
    var j := Judged(f, DecisionFor(su, st.policy, f, x));
    SameFinalized(m, Shards.Truncate);
    LimboHome(su.ring, st.shards, i);
    GatheredJudge(su.ring, st.shards, st.judged, i, Shards.Next(m, Shards.Truncate), j);
    JudgedAppend(st.judged, j);
    assert st.bridge.sent + [] == st.bridge.sent;
    hide Shards.Next;
  }

  lemma JudgeKeeps(su: Setup, st: System, i: nat, x: Facts)
    requires Kept(su, st) && Enabled(su, st, Judge(i, x))
    ensures Kept(su, JudgeStep(su, st, i, x))
  {
    var f := st.shards[i].limbo[0];
    var d := DecisionFor(su, st.policy, f, x);
    hide Policy.After, Policy.Reason, DecisionFor, CandidateFor, FinalOk, AllSound, InPhase, Gathered, Handed;
    JudgedAre(su, st, i, x);
    JudgeKeepsShards(su, st, i, x);
    JudgeGathers(su, st, i, x);
    JudgeKeepsPolicy(su, st, i, x);
    JudgeIsFinalize(su, st, i, x);
    BridgeStepKept(su.cap, st.bridge, Bridge.Finalize(Bridge.Job(d, TraceFor(f))));
    hide BridgeKept, PolicyKept, JudgeStep;
  }

  lemma JudgedAre(su: Setup, st: System, i: nat, x: Facts)
    requires i < |st.shards| && st.shards[i].limbo != []
    ensures var f, next := st.shards[i].limbo[0], JudgeStep(su, st, i, x);
            next.judged == st.judged + [Judged(f, DecisionFor(su, st.policy, f, x))] &&
            next.bridge.phase == st.bridge.phase
  {
    hide DecisionFor, CandidateFor, Policy.After, Policy.Reason, Shards.Next;
  }

  lemma LimboHome(ring: Ring, shards: seq<Shards.Machine>, i: nat)
    requires AllSound(ring, shards) && i < |shards| && shards[i].limbo != []
    ensures Home(ring, shards[i].limbo[0].key.traceID) == i
  {
    assert ShardSound(ring, i, shards[i]) && shards[i].limbo[0] in shards[i].limbo;
  }

  lemma StepKeeps(su: Setup, st: System, a: Action)
    requires Kept(su, st) && Enabled(su, st, a)
    ensures Kept(su, Next(su, st, a))
  {
    hide Kept, Shards.Enabled, ShardStep, JudgeStep;
    match a
    case Consume(i, s, now) => ShardStepKeeps(su, st, i, Shards.Buffer(s, now));
    case Journal(i) => ShardStepKeeps(su, st, i, Shards.Append);
    case TakeOut(i, due, forced) => ShardStepKeeps(su, st, i, Shards.TakeOut(due, forced));
    case Judge(i, x) => JudgeKeeps(su, st, i, x);
    case SetFloor(t, floor) => FloorKeeps(su, st, t, floor);
    case Move(b) => MoveKeeps(su, st, b);
  }

  lemma FloorKeeps(su: Setup, st: System, t: Policy.Tenant, floor: real)
    requires Kept(su, st)
    ensures Kept(su, Next(su, st, SetFloor(t, floor)))
  {
    hide AllSound, Gathered, Handed, BridgeKept, PolicyKept, InPhase;
    PolicySame(su, st, Next(su, st, SetFloor(t, floor)));
  }

  // ---------- Every run ----------

  ghost predicate IsRun(su: Setup, schedule: seq<Action>, states: seq<System>) {
    |states| == |schedule| + 1 && states[0] == Start(su) &&
    forall i: nat {:trigger Follows(su, schedule, states, i)} :: i < |schedule| ==> Follows(su, schedule, states, i)
  }

  ghost predicate Follows(su: Setup, schedule: seq<Action>, states: seq<System>, i: nat)
    requires i < |schedule| && |states| == |schedule| + 1
  {
    Enabled(su, states[i], schedule[i]) && states[i + 1] == Next(su, states[i], schedule[i])
  }

  lemma StartKept(su: Setup)
    ensures Kept(su, Start(su))
  {
    Shards.StartBalanced();
    Bridge.StartsInStep();
    hide Shards.Sound, Shards.Balanced, Bridge.InStep, Bridge.Phased;
    assert AllSound(su.ring, Start(su).shards);
  }

  lemma {:induction false} AlwaysKept(su: Setup, schedule: seq<Action>, states: seq<System>, n: nat)
    requires IsRun(su, schedule, states) && n <= |schedule|
    ensures Kept(su, states[n])
    decreases n
  {
    hide Kept, Next, Enabled, Start;
    if n == 0 {
      StartKept(su);
    } else {
      AlwaysKept(su, schedule, states, n - 1);
      assert Follows(su, schedule, states, n - 1);
      StepKeeps(su, states[n - 1], schedule[n - 1]);
    }
  }

  // ---------- What reaches the store ----------

  /** The spans of a key in the store, in the order stored. */
  function StoredSpans(stored: seq<Bridge.StoreEntry>, k: TraceKey): seq<Span> {
    if stored == [] then []
    else
      var e := stored[|stored| - 1];
      StoredSpans(stored[..|stored| - 1], k) +
      if TraceKey(e.trace.tenant, e.trace.traceID) == k then e.trace.spans else []
  }

  lemma EntriesAppend(js: seq<Bridge.Job>, j: Bridge.Job)
    ensures Bridge.Entries(js + [j]) == Bridge.Entries(js) + [Bridge.EntryFor(j.decision, j.trace)]
  {
    hide Bridge.Entries;
  }

  lemma StoredSpansAppend(stored: seq<Bridge.StoreEntry>, e: Bridge.StoreEntry, k: TraceKey)
    ensures StoredSpans(stored + [e], k) ==
            StoredSpans(stored, k) + if TraceKey(e.trace.tenant, e.trace.traceID) == k then e.trace.spans else []
  {
    assert (stored + [e])[..|stored|] == stored;
  }

  lemma {:induction false} KeptAreStored(js: seq<Judged>, k: TraceKey)
    ensures StoredSpans(Bridge.Entries(Bridge.KeptJobs(JobsOf(js))), k) == ClosedSpans(KeptRecords(js), k)
    decreases |js|
  {
    hide StoredSpans, ClosedSpans, Bridge.Entries, Bridge.KeptJobs;
    if js == [] {
      NothingStored(k);
    } else {
      var front, j := js[..|js| - 1], js[|js| - 1];
      KeptAreStored(front, k);
      var kept := Bridge.KeptJobs(JobsOf(front));
      Bridge.KeptAppend(JobsOf(front), JobOf(j));
      if j.decision.keep {
        EntriesAppend(kept, JobOf(j));
        StoredSpansAppend(Bridge.Entries(kept), Bridge.EntryFor(j.decision, TraceFor(j.record)), k);
        ClosedSpansAppend(KeptRecords(front), j.record, k);
      } else {
        assert kept + [] == kept && KeptRecords(front) + [] == KeptRecords(front);
      }
    }
  }

  lemma NothingStored(k: TraceKey)
    ensures StoredSpans(Bridge.Entries(Bridge.KeptJobs([])), k) == [] == ClosedSpans([], k)
  {
  }

  ghost predicate AllKept(js: seq<Judged>, k: TraceKey) { forall j <- js :: j.record.key == k ==> j.decision.keep }

  lemma {:induction false} KeptShorter(js: seq<Judged>, k: TraceKey)
    requires forall j <- js :: j.record.spans != []
    ensures |ClosedSpans(KeptRecords(js), k)| <= |ClosedSpans(RecordsOf(js), k)|
    ensures AllKept(js, k) ==> ClosedSpans(KeptRecords(js), k) == ClosedSpans(RecordsOf(js), k)
    ensures !AllKept(js, k) ==> |ClosedSpans(KeptRecords(js), k)| < |ClosedSpans(RecordsOf(js), k)|
    decreases |js|
  {
    hide ClosedSpans;
    if js == [] {
      NothingStored(k);
    } else {
      var front, j := js[..|js| - 1], js[|js| - 1];
      assert js == front + [j] && j in js;
      KeptShorter(front, k);
      ClosedSpansAppend(RecordsOf(front), j.record, k);
      if j.decision.keep {
        ClosedSpansAppend(KeptRecords(front), j.record, k);
      } else {
        assert KeptRecords(front) + [] == KeptRecords(front);
      }
    }
  }

  /** When the bridge has exited, every trace given up has been judged once, by the policy as the
      earlier judgements left it or shed by the flush; exactly the kept ones are in the store, in
      order, each once and whole; and for every key the spans accepted are those judged, in order,
      then those still open. */
  lemma EndToEnd(su: Setup, schedule: seq<Action>, states: seq<System>, n: nat, k: TraceKey)
    requires IsRun(su, schedule, states) && n <= |schedule| && states[n].bridge.reader == Bridge.Exited
    requires su.ring.members != []
    ensures var st, i := states[n], Home(su.ring, k.traceID);
            && st.bridge.stored == Bridge.Entries(Bridge.KeptJobs(JobsOf(st.judged)))
            && Runs.IsRun(su.cfg, st.moves) && Decided(su, st.judged, st.moves)
            && 0 <= i < |st.shards|
            && SpansOf(st.shards[i].accepted, k) ==
               ClosedSpans(RecordsOf(st.judged), k) + SpansAt(st.shards[i].shard, k)
  {
    hide Decided, Runs.IsRun, Bridge.InStep, Bridge.Phased, Home;
    AlwaysKept(su, schedule, states, n);
    var st, i := states[n], Home(su.ring, k.traceID);
    Bridge.ExitedInStep(st.bridge);
    assert Handed(st.bridge, st.judged);
    assert st.bridge.sent + [] == st.bridge.sent;
    HomeFits(su.ring, k);
    NoneInHand(st, i);
    assert ShardSound(su.ring, i, st.shards[i]);
    ShardBalance(st.shards[i], k);
    assert ClosedSpans(RecordsOf(st.judged), k) == ClosedSpans(st.shards[i].finalized, k);
  }

  lemma HomeFits(ring: Ring, k: TraceKey)
    requires ring.members != []
    ensures 0 <= Home(ring, k.traceID) < |ring.members|
  {
  }

  lemma NoneInHand(st: System, i: nat)
    requires InPhase(st.shards, st.bridge.phase) && st.bridge.phase == Bridge.Cancelled && i < |st.shards|
    ensures st.shards[i].limbo == []
  {
    var limbo := st.shards[i].limbo;
    assert limbo == [] || limbo[0] in limbo;
    assert forall f <- limbo :: SweptIn(f.forced, st.bridge.phase);
  }

  lemma ShardBalance(m: Shards.Machine, k: TraceKey)
    requires Shards.Balanced(m) && m.limbo == []
    ensures SpansOf(m.accepted, k) == ClosedSpans(m.finalized, k) + SpansAt(m.shard, k)
  {
    hide SpansOf, SpansAt;
    assert SpansOf(m.accepted, k) == ClosedSpans(m.finalized, k) + ClosedSpans(m.limbo, k) + SpansAt(m.shard, k);
  }

  /** So exactly when every trace of the key was kept and none is still open, the store has every
      span of the key that was accepted, once and in order. */
  lemma StoredExactly(su: Setup, schedule: seq<Action>, states: seq<System>, n: nat, k: TraceKey)
    requires IsRun(su, schedule, states) && n <= |schedule| && states[n].bridge.reader == Bridge.Exited
    requires su.ring.members != []
    ensures var st, i := states[n], Home(su.ring, k.traceID);
            && 0 <= i < |st.shards|
            && (StoredSpans(st.bridge.stored, k) == SpansOf(st.shards[i].accepted, k) <==>
                AllKept(st.judged, k) && k !in st.shards[i].shard)
  {
    EndToEnd(su, schedule, states, n, k);
    AlwaysKept(su, schedule, states, n);
    var st, i := states[n], Home(su.ring, k.traceID);
    KeptAreStored(st.judged, k);
    KeptShorter(st.judged, k);
    assert ShardSound(su.ring, i, st.shards[i]);
    OpenHasSpans(st.shards[i], k);
  }

  lemma OpenHasSpans(m: Shards.Machine, k: TraceKey)
    requires Shards.Sound(m)
    ensures k in m.shard <==> SpansAt(m.shard, k) != []
  {
    if k in m.shard { assert TraceOk(k, m.shard[k]); }
  }
}
