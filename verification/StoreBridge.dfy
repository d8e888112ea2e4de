/** The hand-off of finalized traces to the store: finalize sends a decision and, for a keep,
    its trace on two bounded channels; the bridge reads them back in pairs and appends. */
module StoreBridge {

  import KeepPolicy
  import TraceAssembly

  type KeepReason = KeepPolicy.KeepReason
  type Decision = KeepPolicy.Decision

  datatype Trace = Trace(tenant: string, traceID: string, spans: seq<TraceAssembly.Span>)
  datatype Tier = ColdSampled | ColdAnomalous
  datatype StoreEntry = StoreEntry(tenant: string, trace: Trace, tier: Tier, reason: KeepReason)

  /** One trace being finalized, with the decision made on it. */
  datatype Job = Job(decision: Decision, trace: Trace)

  predicate Paired(j: Job) { j.decision.tenant == j.trace.tenant && j.decision.traceID == j.trace.traceID }

  function TierFor(reason: KeepReason): Tier {
    if reason.KeepError? || reason.KeepSlow? || reason.KeepRare? || reason.KeepInterest? then ColdAnomalous
    else ColdSampled
  }

  function EntryFor(d: Decision, t: Trace): StoreEntry { StoreEntry(d.tenant, t, TierFor(d.reason), d.reason) }

  function Keeps(ds: seq<Decision>): seq<Decision> {
    if ds == [] then []
    else if ds[0].keep then [ds[0]] + Keeps(ds[1..])
    else Keeps(ds[1..])
  }

  function KeptJobs(js: seq<Job>): seq<Job> {
    if js == [] then []
    else KeptJobs(js[..|js| - 1]) + if js[|js| - 1].decision.keep then [js[|js| - 1]] else []
  }

  function Decisions(js: seq<Job>): (ds: seq<Decision>)
    ensures |ds| == |js| && forall i :: 0 <= i < |js| ==> ds[i] == js[i].decision
  {
    if js == [] then [] else [js[0].decision] + Decisions(js[1..])
  }

  function Traces(js: seq<Job>): (ts: seq<Trace>)
    ensures |ts| == |js| && forall i :: 0 <= i < |js| ==> ts[i] == js[i].trace
  {
    if js == [] then [] else [js[0].trace] + Traces(js[1..])
  }

  function Entries(js: seq<Job>): (es: seq<StoreEntry>)
    ensures |es| == |js| && forall i :: 0 <= i < |js| ==> es[i] == EntryFor(js[i].decision, js[i].trace)
  {
    if js == [] then [] else [EntryFor(js[0].decision, js[0].trace)] + Entries(js[1..])
  }

  // ---------- The bridge's own code ----------

  /** Two channels that hold the same keeps, in the same order. */
  ghost predicate Matched(decisions: seq<Decision>, traces: seq<Trace>, kept: seq<Job>) {
    Keeps(decisions) == Decisions(kept) && traces == Traces(kept)
  }

  /** The first decision read, if a keep, is paired with the first trace. */
  lemma TakePair(decisions: seq<Decision>, traces: seq<Trace>, kept: seq<Job>)
    requires decisions != [] && Matched(decisions, traces, kept)
    ensures if decisions[0].keep then
              kept != [] && traces != [] && kept[0] == Job(decisions[0], traces[0]) &&
              Matched(decisions[1..], traces[1..], kept[1..]) &&
              Entries(kept) == [EntryFor(decisions[0], traces[0])] + Entries(kept[1..])
            else Matched(decisions[1..], traces, kept)
  {
    if decisions[0].keep {
      hide Decisions, Traces;
      assert Decisions(kept)[0] == decisions[0] && Decisions(kept)[1..] == Decisions(kept[1..]);
      assert Traces(kept)[1..] == Traces(kept[1..]);
    }
  }

  lemma NothingLeft(traces: seq<Trace>, kept: seq<Job>)
    requires Matched([], traces, kept)
    ensures kept == [] && traces == [] && Entries(kept) == []
  {
  }

  class Bridge {
    var decisions: seq<Decision>
    var traces: seq<Trace>
    /** What the tiered store has been handed, oldest first. */
    var stored: seq<StoreEntry>

    method ApplyDecision(dec: Decision)
      requires dec.keep ==> traces != []
      modifies this`traces, this`stored
      ensures traces == if dec.keep then old(traces)[1..] else old(traces)
      ensures stored == if dec.keep then old(stored) + [EntryFor(dec, old(traces)[0])] else old(stored)
    {
      if !dec.keep { return; }
      var tr := traces[0];
      traces := traces[1..];
      var tier := ColdSampled;
      if dec.reason.KeepError? || dec.reason.KeepSlow? || dec.reason.KeepRare? || dec.reason.KeepInterest? {
        tier := ColdAnomalous;
      }
      stored := stored + [StoreEntry(dec.tenant, tr, tier, dec.reason)];
    }

    /** Empties channels that no one writes any more, storing every keep with its own trace. */
    method DrainStoreBridge(ghost kept: seq<Job>)
      requires Matched(decisions, traces, kept)
      modifies this
      ensures decisions == [] && traces == [] && stored == old(stored) + Entries(kept)
    {
      hide Matched, Entries, Keeps, Decisions, Traces;
      ghost var left := kept;
      while decisions != []
        invariant Matched(decisions, traces, left)
        invariant stored + Entries(left) == old(stored) + Entries(kept)
        decreases |decisions|
      {
        var dec := decisions[0];
        TakePair(decisions, traces, left);
        decisions := decisions[1..];
        if dec.keep { left := left[1..]; }
        ApplyDecision(dec);
      }
      NothingLeft(traces, left);
    }
  }

  // ---------- Producer and bridge interleaved ----------

  datatype Producer = Ready | HasDecision(j: Job) | HasTrace(j: Job)
  datatype Phase = Ticking | Stopping | Flushing | Flushed | Cancelled
  datatype Reader = Polling | AwaitTrace(d: Decision) | Appending(d: Decision, t: Trace) | Exited

  /** sent records every decision sent, with its trace; draining is set once the bridge has
      seen the cancellation. */
  datatype State = State(decisions: seq<Decision>, traces: seq<Trace>, producer: Producer, phase: Phase,
                         reader: Reader, draining: bool, sent: seq<Job>, stored: seq<StoreEntry>)

  datatype Action = Finalize(j: Job) | SendDecision | SendTrace
                  | CancelTicker | JoinTicker | EndFlush | CancelBridge
                  | ReceiveDecision | ReceiveTrace | Append | NoticeCancel | Exit

  datatype Capacity = Capacity(decisions: nat, traces: nat)

  const Init := State([], [], Ready, Ticking, Polling, false, [], [])

  /** Shutdown stops and joins the ticker, sheds what is open, and only then cancels the bridge. */
  predicate Enabled(cap: Capacity, s: State, a: Action) {
    match a
    case Finalize(j) =>
      s.producer == Ready && Paired(j) && (s.phase in {Ticking, Stopping} || (s.phase == Flushing && !j.decision.keep))
    case SendDecision => s.producer.HasDecision? && |s.decisions| < cap.decisions
    case SendTrace => s.producer.HasTrace? && |s.traces| < cap.traces
    case CancelTicker => s.phase == Ticking
    case JoinTicker => s.phase == Stopping && s.producer == Ready
    case EndFlush => s.phase == Flushing && s.producer == Ready
    case CancelBridge => s.phase == Flushed
    case ReceiveDecision => s.reader == Polling && s.decisions != []
    case ReceiveTrace => s.reader.AwaitTrace? && s.traces != []
    case Append => s.reader.Appending?
    case NoticeCancel => s.reader == Polling && s.phase == Cancelled && !s.draining
    case Exit => s.reader == Polling && s.draining && s.decisions == []
  }

  function Next(cap: Capacity, s: State, a: Action): State
    requires Enabled(cap, s, a)
  {
    match a
    case Finalize(j) => s.(producer := HasDecision(j))
    case SendDecision =>
      var j := s.producer.j;
      s.(decisions := s.decisions + [j.decision], sent := s.sent + [j],
         producer := if j.decision.keep then HasTrace(j) else Ready)
    case SendTrace => s.(traces := s.traces + [s.producer.j.trace], producer := Ready)
    case CancelTicker => s.(phase := Stopping)
    case JoinTicker => s.(phase := Flushing)
    case EndFlush => s.(phase := Flushed)
    case CancelBridge => s.(phase := Cancelled)
    case ReceiveDecision =>
      s.(decisions := s.decisions[1..], reader := if s.decisions[0].keep then AwaitTrace(s.decisions[0]) else Polling)
    case ReceiveTrace => s.(traces := s.traces[1..], reader := Appending(s.reader.d, s.traces[0]))
    case Append => s.(reader := Polling, stored := s.stored + [EntryFor(s.reader.d, s.reader.t)])
    case NoticeCancel => s.(draining := true)
    case Exit => s.(reader := Exited)
  }

  /** The keep decisions sent whose trace the bridge has not yet taken. */
  function OwedDecisions(s: State): seq<Decision> {
    (if s.reader.AwaitTrace? then [s.reader.d] else []) + Keeps(s.decisions)
  }

  /** The traces of those decisions, the last of which may still be with the producer. */
  function OwedTraces(s: State): seq<Trace> {
    s.traces + if s.producer.HasTrace? then [s.producer.j.trace] else []
  }

  function Done(s: State): seq<StoreEntry> {
    s.stored + if s.reader.Appending? then [EntryFor(s.reader.d, s.reader.t)] else []
  }

  /** The keeps sent are those done, each stored with its own trace, and those owed, whose
      decisions and traces stand in the same order on the two channels. */
  ghost predicate InStep(s: State) {
    exists n: nat :: SplitAt(s, n)
  }

  ghost predicate SplitAt(s: State, n: nat) {
    var kept := KeptJobs(s.sent);
    n <= |kept| && Done(s) == Entries(kept[..n]) &&
    OwedDecisions(s) == Decisions(kept[n..]) && OwedTraces(s) == Traces(kept[n..])
  }

  ghost predicate Phased(s: State) {
    (s.producer.HasTrace? ==> s.producer.j.decision.keep && s.phase in {Ticking, Stopping}) &&
    (s.producer.HasDecision? ==> Paired(s.producer.j) && s.phase in {Ticking, Stopping, Flushing} &&
                                 (s.phase == Flushing ==> !s.producer.j.decision.keep)) &&
    (s.draining ==> s.phase == Cancelled) && (s.reader == Exited ==> s.draining && s.decisions == []) &&
    (forall j <- s.sent :: Paired(j)) && (s.reader.AwaitTrace? ==> s.reader.d.keep)
  }

  // ---------- Every step keeps the two channels in step ----------

  lemma {:induction false} KeepsAppend(ds: seq<Decision>, d: Decision)
    ensures Keeps(ds + [d]) == Keeps(ds) + if d.keep then [d] else []
    decreases |ds|
  {
    if ds == [] {
      assert ds + [d] == [d];
    } else {
      assert (ds + [d])[1..] == ds[1..] + [d];
      KeepsAppend(ds[1..], d);
    }
  }

  lemma KeptAppend(js: seq<Job>, j: Job)
    ensures KeptJobs(js + [j]) == KeptJobs(js) + if j.decision.keep then [j] else []
  {
    assert (js + [j])[..|js|] == js;
  }

  lemma SendDecisionInStep(cap: Capacity, s: State, n: nat)
    requires SplitAt(s, n) && Phased(s) && Enabled(cap, s, SendDecision)
    ensures SplitAt(Next(cap, s, SendDecision), n)
  {
    hide Keeps, KeptJobs, Decisions, Traces, Entries;
    var j, t := s.producer.j, Next(cap, s, SendDecision);
    KeepsAppend(s.decisions, j.decision);
    KeptAppend(s.sent, j);
    var kept, more := KeptJobs(s.sent), KeptJobs(t.sent);
    assert more[..n] == kept[..n];
    if j.decision.keep {
      assert more[n..] == kept[n..] + [j];
      assert Decisions(more[n..]) == Decisions(kept[n..]) + [j.decision];
      assert Traces(more[n..]) == Traces(kept[n..]) + [j.trace];
    } else {
      assert more == kept;
    }
  }

  lemma ReceiveDecisionInStep(cap: Capacity, s: State, n: nat)
    requires SplitAt(s, n) && Enabled(cap, s, ReceiveDecision)
    ensures SplitAt(Next(cap, s, ReceiveDecision), n)
  {
    KeepsHead(s.decisions);
    hide Keeps, KeptJobs, Decisions, Traces, Entries;
    var t := Next(cap, s, ReceiveDecision);
    assert OwedDecisions(s) == Keeps(s.decisions) == OwedDecisions(t);
    assert OwedTraces(t) == OwedTraces(s) && Done(t) == Done(s);
  }

  lemma KeepsHead(ds: seq<Decision>)
    requires ds != []
    ensures Keeps(ds) == (if ds[0].keep then [ds[0]] else []) + Keeps(ds[1..])
  {
  }

  lemma ReceiveTraceInStep(cap: Capacity, s: State, n: nat)
    requires SplitAt(s, n) && Enabled(cap, s, ReceiveTrace)
    ensures SplitAt(Next(cap, s, ReceiveTrace), n + 1)
  {
    hide Keeps, KeptJobs, Decisions, Traces, Entries;
    var t, kept := Next(cap, s, ReceiveTrace), KeptJobs(s.sent);
    assert OwedDecisions(s)[0] == kept[n].decision == s.reader.d && OwedTraces(s)[0] == kept[n].trace == s.traces[0];
    assert kept[..n + 1] == kept[..n] + [kept[n]];
    assert Entries(kept[..n + 1]) == Entries(kept[..n]) + [EntryFor(kept[n].decision, kept[n].trace)];
    assert kept[n + 1..] == kept[n..][1..];
    assert OwedDecisions(t) == OwedDecisions(s)[1..] == Decisions(kept[n + 1..]);
    assert OwedTraces(t) == OwedTraces(s)[1..] == Traces(kept[n + 1..]);
  }

  lemma OtherInStep(cap: Capacity, s: State, a: Action, n: nat)
    requires SplitAt(s, n) && Enabled(cap, s, a) && !a.SendDecision? && !a.ReceiveDecision? && !a.ReceiveTrace?
    ensures SplitAt(Next(cap, s, a), n)
  {
    hide Keeps, KeptJobs, Decisions, Traces, Entries;
    var t := Next(cap, s, a);
    assert t.sent == s.sent && OwedTraces(t) == OwedTraces(s) && OwedDecisions(t) == OwedDecisions(s) &&
      Done(t) == Done(s);
  }

  lemma StepInStep(cap: Capacity, s: State, a: Action)
    requires InStep(s) && Phased(s) && Enabled(cap, s, a)
    ensures InStep(Next(cap, s, a))
  {
    hide SplitAt, Enabled, Next, Phased;
    var n: nat :| SplitAt(s, n);
    if a.SendDecision? {
      SendDecisionInStep(cap, s, n);
    } else if a.ReceiveDecision? {
      ReceiveDecisionInStep(cap, s, n);
    } else if a.ReceiveTrace? {
      ReceiveTraceInStep(cap, s, n);
      assert SplitAt(Next(cap, s, a), n + 1);
    } else {
      OtherInStep(cap, s, a, n);
    }
  }

  lemma StepPhased(cap: Capacity, s: State, a: Action)
    requires Phased(s) && Enabled(cap, s, a)
    ensures Phased(Next(cap, s, a))
  {
  }

  // ---------- Every run ----------

  ghost predicate IsRun(cap: Capacity, schedule: seq<Action>, states: seq<State>) {
    |states| == |schedule| + 1 && states[0] == Init &&
    forall i: nat {:trigger Follows(cap, schedule, states, i)} :: i < |schedule| ==> Follows(cap, schedule, states, i)
  }

  ghost predicate Follows(cap: Capacity, schedule: seq<Action>, states: seq<State>, i: nat)
    requires i < |schedule| && |states| == |schedule| + 1
  {
    Enabled(cap, states[i], schedule[i]) && states[i + 1] == Next(cap, states[i], schedule[i])
  }

  lemma StartsInStep()
    ensures InStep(Init) && Phased(Init)
  {
    assert SplitAt(Init, 0);
  }

  lemma {:induction false} AlwaysInStep(cap: Capacity, schedule: seq<Action>, states: seq<State>, n: nat)
    requires IsRun(cap, schedule, states) && n <= |schedule|
    ensures InStep(states[n]) && Phased(states[n])
  {
    hide InStep, Phased;
    if n == 0 {
      StartsInStep();
    } else {
      AlwaysInStep(cap, schedule, states, n - 1);
      assert Follows(cap, schedule, states, n - 1);
      StepInStep(cap, states[n - 1], schedule[n - 1]);
      StepPhased(cap, states[n - 1], schedule[n - 1]);
    }
  }

  lemma {:induction false} KeptArePaired(js: seq<Job>)
    requires forall j <- js :: Paired(j)
    ensures forall j <- KeptJobs(js) :: Paired(j) && j.decision.keep
    decreases |js|
  {
    if js != [] { KeptArePaired(js[..|js| - 1]); }
  }

  /** In every interleaving the store holds the keeps in the order they were sent, each once
      and each with the trace of its own tenant and trace id, the errors, the slow, the rare and the
      interesting ones in the tier of anomalous traces and the others in that of sampled ones. */
  lemma StoredInPairs(cap: Capacity, schedule: seq<Action>, states: seq<State>, n: nat)
    requires IsRun(cap, schedule, states) && n <= |schedule|
    ensures var s, kept := states[n], KeptJobs(states[n].sent);
            |s.stored| <= |kept| && s.stored == Entries(kept[..|s.stored|]) &&
            forall e <- s.stored ::
              && e.trace.tenant == e.tenant
              && (e.tier == ColdAnomalous <==> e.reason in {KeepPolicy.KeepError, KeepPolicy.KeepSlow,
                                                            KeepPolicy.KeepRare, KeepPolicy.KeepInterest})
  {
    AlwaysInStep(cap, schedule, states, n);
    var s, kept := states[n], KeptJobs(states[n].sent);
    var k: nat :| SplitAt(s, k);
    assert Done(s)[..|s.stored|] == s.stored;
    assert Entries(kept[..k])[..|s.stored|] == Entries(kept[..|s.stored|]);
    KeptArePaired(s.sent);
    hide KeptJobs, Decisions, Traces, Keeps;
    forall e | e in s.stored
      ensures e.trace.tenant == e.tenant
      ensures e.tier == ColdAnomalous <==> e.reason in {KeepPolicy.KeepError, KeepPolicy.KeepSlow,
                                                        KeepPolicy.KeepRare, KeepPolicy.KeepInterest}
    {
      var i :| 0 <= i < |s.stored| && s.stored[i] == e;
      assert kept[i] in kept && e == EntryFor(kept[i].decision, kept[i].trace);
    }
  }

  lemma ExitedInStep(s: State)
    requires InStep(s) && Phased(s) && s.reader == Exited
    ensures s.stored == Entries(KeptJobs(s.sent)) && s.traces == []
    ensures s.decisions == [] && s.producer == Ready && s.phase == Cancelled
  {
    var kept := KeptJobs(s.sent);
    var k: nat :| SplitAt(s, k);
    assert OwedDecisions(s) == [];
    assert kept[k..] == [] && kept[..k] == kept;
  }

  /** When the bridge has exited every keep decision ever sent has been stored exactly once,
      with its own trace, in the order sent. */
  lemma NothingLostAtExit(cap: Capacity, schedule: seq<Action>, states: seq<State>, n: nat)
    requires IsRun(cap, schedule, states) && n <= |schedule| && states[n].reader == Exited
    ensures states[n].stored == Entries(KeptJobs(states[n].sent))
    ensures states[n].decisions == [] && states[n].traces == [] && states[n].producer == Ready
  {
    AlwaysInStep(cap, schedule, states, n);
    ExitedInStep(states[n]);
  }

  function Work(s: State): nat {
    (match s.producer case Ready => 0 case HasDecision(_) => 6 case HasTrace(_) => 2)
    + 3 * |s.decisions| + |s.traces|
    + (match s.reader case AwaitTrace(_) => 2 case Appending(_, _) => 1 case Polling => 0 case Exited => 0)
    + (match s.phase case Ticking => 4 case Stopping => 3 case Flushing => 2 case Flushed => 1 case Cancelled => 0)
    + (if s.draining then 0 else 1) + (if s.reader == Exited then 0 else 1)
  }

  /** Some send, receive, append or exit that is waiting to happen can happen. */
  ghost predicate CanMove(cap: Capacity, s: State) {
    exists a :: Enabled(cap, s, a) && !a.Finalize? && !a.CancelTicker? && !a.JoinTicker? && !a.EndFlush? &&
      !a.CancelBridge?
  }

  /** With any capacities of at least one the two sides never block each other: while the
      producer has something to send, the bridge something in hand, or either channel
      something in it, one of them can move. */
  lemma NeverDeadlocked(cap: Capacity, schedule: seq<Action>, states: seq<State>, n: nat)
    requires IsRun(cap, schedule, states) && n <= |schedule| && cap.decisions > 0 && cap.traces > 0
    requires var s := states[n];
             s.producer != Ready || s.reader.AwaitTrace? || s.reader.Appending? || s.decisions != [] || s.traces != []
    ensures CanMove(cap, states[n])
  {
    AlwaysInStep(cap, schedule, states, n);
    MovesInStep(cap, states[n]);
  }

  lemma OwedAlike(s: State)
    requires InStep(s)
    ensures |OwedDecisions(s)| == |OwedTraces(s)|
  {
    var k: nat :| SplitAt(s, k);
  }

  lemma MovesInStep(cap: Capacity, s: State)
    requires InStep(s) && Phased(s) && cap.decisions > 0 && cap.traces > 0
    requires s.producer != Ready || s.reader.AwaitTrace? || s.reader.Appending? || s.decisions != [] || s.traces != []
    ensures CanMove(cap, s)
  {
    OwedAlike(s);
    if s.reader.Appending? {
      assert Enabled(cap, s, Append);
    } else if s.reader.AwaitTrace? {
      assert Enabled(cap, s, if s.traces != [] then ReceiveTrace else SendTrace);
    } else if s.reader == Polling && s.decisions != [] {
      assert Enabled(cap, s, ReceiveDecision);
    } else {
      assert Keeps(s.decisions) == [];
      assert Enabled(cap, s, SendDecision);
    }
  }

  lemma LessWork(cap: Capacity, s: State, a: Action)
    requires Enabled(cap, s, a) && !a.Finalize?
    ensures Work(Next(cap, s, a)) < Work(s)
  {
  }

  /** Every action but starting another finalize brings the end nearer, and until the bridge
      has exited one of them is enabled: shutdown finishes once finalizing does. */
  lemma ShutdownFinishes(cap: Capacity, schedule: seq<Action>, states: seq<State>, n: nat, a: Action)
    requires IsRun(cap, schedule, states) && n <= |schedule| && cap.decisions > 0 && cap.traces > 0
    ensures Enabled(cap, states[n], a) && !a.Finalize? ==> Work(Next(cap, states[n], a)) < Work(states[n])
    ensures states[n].reader != Exited ==> exists c: Action :: Enabled(cap, states[n], c) && !c.Finalize?
  {
    hide InStep, Phased;
    AlwaysInStep(cap, schedule, states, n);
    var s := states[n];
    if Enabled(cap, s, a) && !a.Finalize? { LessWork(cap, s, a); }
    if s.producer != Ready || s.reader.AwaitTrace? || s.reader.Appending? || s.decisions != [] || s.traces != [] {
      MovesInStep(cap, s);
    } else if s.reader == Polling {
      hide Work, Next;
      var c := match s.phase
        case Ticking => CancelTicker
        case Stopping => JoinTicker
        case Flushing => EndFlush
        case Flushed => CancelBridge
        case Cancelled => if s.draining then Exit else NoticeCancel;
      assert Enabled(cap, s, c);
    }
  }
}
