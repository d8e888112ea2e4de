/** The root-cause investigation loop: budgets, the mid-run change of reasoner, the recorded
    steps with their evidence, and the terminal status. The reasoner, the tools, the clock and
    the stores are arbitrary: each iteration meets an arbitrary event. */
module InvestigationLoop {

  const CONFIDENCE_THRESHOLD := 0.75
  const SWAPPED_CAP := 0.74

  datatype Kind = RulesReasoner | LLMReasoner
  datatype Termination = TermAborted | TermWallClock | TermSteps | TermToolCalls | TermTokens | TermCachedTokens
                       | TermCost | TermConcluded | TermFailed
  datatype Status = Concluded | Inconclusive | BudgetExhausted | Aborted | FailedStatus

  datatype Budget = Budget(wallClock: int, maxSteps: nat, maxToolCalls: nat, maxTokensIn: int, maxCachedTokensIn: int,
                           maxCost: int)

  datatype Usage = Usage(tokensIn: nat, cachedTokensIn: nat, tokensOut: nat, cost: nat)

  datatype HypothesisStatus = Testing | Supported | Refuted
  datatype Hypothesis = Hypothesis(id: string, statement: string, status: HypothesisStatus, postScore: real)

  datatype Tool = TraceQuery | LogQuery | MetricQuery | TopologyQuery | MemoryQuery | OtherTool
  /** A tool with the argument payloads that are set. */
  datatype ToolArgs = ToolArgs(tool: Tool, payloads: set<Tool>, body: string)
  datatype Option<T> = None | Some(value: T)

  datatype Proposal = Proposal(hypotheses: seq<Hypothesis>, usage: Usage, done: bool, call: Option<ToolArgs>)
  datatype StepError = NoMoreRules | FallbackTrigger | OtherError
  datatype Reply = Fails(error: StepError) | Proposes(proposal: Proposal)

  datatype DispatchError = ToolUnavailable | DispatchFailed
  datatype Dispatch = Dispatch(rows: string, error: Option<DispatchError>)

  /** What one iteration meets: the clock, the reasoner's reply, whether the journal and the
      object store take what they are given, and what the tool returns. */
  datatype Event = Event(aborted: bool, elapsed: int, reply: Reply, journalOk: bool, outputPut: Option<string>,
                         dispatch: Dispatch, evidencePutOk: bool)

  datatype Ref = EvidenceRef(seqNo: nat) | OutputRef(seqNo: nat)
  datatype Verdict = VerdictOK | VerdictInvalidArgs | VerdictUnavailable
  datatype Step = Step(seqNo: nat, call: Option<ToolArgs>, verdict: Verdict, resultHash: string, resultRef: Option<Ref>)

  /** The investigation in progress, with the journal, this investigation's part of the object
      store, what the reasoner is owed, and the hypothesis tested by each dispatch. */
  datatype Inv = Inv(steps: seq<Step>, journal: seq<Step>, store: map<Ref, string>, spendSteps: nat, toolCalls: nat,
                     usage: Usage, hypotheses: seq<Hypothesis>, kind: Kind, swaps: nat,
                     lastCall: Option<ToolArgs>, lastResult: Option<string>, lastHypothesis: string,
                     tested: seq<string>)

  datatype Progress = Going(inv: Inv) | Over(inv: Inv, reason: Termination)

  type Digest = string -> string

  // ---------- Pieces ----------

  function Position(hyps: seq<Hypothesis>, id: string): nat {
    if hyps == [] then 0 else if hyps[0].id == id then 0 else 1 + Position(hyps[1..], id)
  }

  function HypothesisIds(hyps: seq<Hypothesis>): set<string> { set h | h in hyps :: h.id }

  /** Updated where its id is already present, appended otherwise. */
  function MergeOne(hyps: seq<Hypothesis>, u: Hypothesis): seq<Hypothesis> {
    if hyps == [] then [u]
    else if hyps[0].id == u.id then [u] + hyps[1..]
    else [hyps[0]] + MergeOne(hyps[1..], u)
  }

  function Merge(hyps: seq<Hypothesis>, updates: seq<Hypothesis>): seq<Hypothesis> {
    if updates == [] then hyps else MergeOne(Merge(hyps, updates[..|updates| - 1]), updates[|updates| - 1])
  }

  function Plus(a: Usage, b: Usage): Usage {
    Usage(a.tokensIn + b.tokensIn, a.cachedTokensIn + b.cachedTokensIn, a.tokensOut + b.tokensOut, a.cost + b.cost)
  }

  predicate ValidArgs(a: ToolArgs) { |a.payloads| == 1 && a.tool in a.payloads && a.tool != OtherTool }

  /** Why the loop stops before asking the reasoner, if it does. */
  function Gate(b: Budget, inv: Inv, ev: Event): Option<Termination> {
    if ev.aborted then Some(TermAborted)
    else if ev.elapsed > b.wallClock then Some(TermWallClock)
    else if inv.spendSteps >= b.maxSteps then Some(TermSteps)
    else if inv.toolCalls >= b.maxToolCalls then Some(TermToolCalls)
    else if inv.kind == LLMReasoner && inv.usage.tokensIn >= b.maxTokensIn then Some(TermTokens)
    else if inv.kind == LLMReasoner && inv.usage.cachedTokensIn >= b.maxCachedTokensIn then Some(TermCachedTokens)
    else if inv.usage.cost >= b.maxCost then Some(TermCost)
    else None
  }

  function Cleared(inv: Inv): Inv { inv.(lastCall := None, lastResult := None, lastHypothesis := "") }

  function AfterError(inv: Inv, fallback: Option<Kind>, error: StepError): Progress {
    if error == NoMoreRules then Over(inv, TermConcluded)
    else if inv.kind == LLMReasoner && fallback.Some? && error == FallbackTrigger then
      Going(inv.(kind := fallback.value, swaps := inv.swaps + 1))
    else Over(inv, TermFailed)
  }

  function OutputStored(store: map<Ref, string>, seqNo: nat, body: Option<string>): map<Ref, string> {
    if body.Some? then store[OutputRef(seqNo) := body.value] else store
  }

  function AfterPure(inv: Inv, ev: Event): Inv {
    var step := Step(|inv.steps|, None, VerdictOK, "", None);
    inv.(steps := if ev.journalOk then inv.steps + [step] else inv.steps,
         journal := if ev.journalOk then inv.journal + [step] else inv.journal,
         store := OutputStored(inv.store, |inv.steps|, ev.outputPut), spendSteps := inv.spendSteps + 1)
  }

  function Recorded(inv: Inv, step: Step, journalOk: bool): Inv {
    inv.(steps := inv.steps + [step], journal := if journalOk then inv.journal + [step] else inv.journal,
         spendSteps := inv.spendSteps + 1, toolCalls := inv.toolCalls + 1)
  }

  function VerdictOf(d: Dispatch): Verdict {
    if d.error.None? then VerdictOK else if d.error.value == ToolUnavailable then VerdictUnavailable
    else VerdictInvalidArgs
  }

  function ToolStep(hash: Digest, seqNo: nat, call: ToolArgs, ev: Event): Step {
    var rows := ev.dispatch.rows;
    Step(seqNo, Some(call), VerdictOf(ev.dispatch), if rows != "" then hash(rows) else "",
         if rows != "" && ev.evidencePutOk then Some(EvidenceRef(seqNo)) else None)
  }

  function EvidenceStored(store: map<Ref, string>, seqNo: nat, ev: Event): map<Ref, string> {
    if ev.dispatch.rows != "" && ev.evidencePutOk then store[EvidenceRef(seqNo) := ev.dispatch.rows] else store
  }

  function HypothesisUnder(p: Proposal): string { if p.hypotheses == [] then "" else p.hypotheses[0].id }

  function AfterCall(hash: Digest, inv: Inv, p: Proposal, call: ToolArgs, ev: Event): Inv {
    var seqNo := |inv.steps|;
    if !ValidArgs(call) then
      Recorded(inv, Step(seqNo, Some(call), VerdictInvalidArgs, "", None),
               ev.journalOk).(tested := inv.tested + [HypothesisUnder(p)])
    else
      var stored := OutputStored(EvidenceStored(inv.store, seqNo, ev), seqNo, ev.outputPut);
      Recorded(inv, ToolStep(hash, seqNo, call, ev), ev.journalOk).
        (store := stored, lastCall := Some(call), lastHypothesis := HypothesisUnder(p),
         lastResult := if ev.dispatch.error.None? then Some(ev.dispatch.rows) else None,
         tested := inv.tested + [HypothesisUnder(p)])
  }

  function AfterProposal(hash: Digest, inv: Inv, p: Proposal, ev: Event): Progress {
    var merged := inv.(hypotheses := Merge(inv.hypotheses, p.hypotheses), usage := Plus(inv.usage, p.usage));
    if p.done then Over(merged, TermConcluded)
    else if p.call.None? then Going(AfterPure(merged, ev))
    else Going(AfterCall(hash, merged, p, p.call.value, ev))
  }

  /** One iteration of the loop. */
  function Iterate(b: Budget, fallback: Option<Kind>, hash: Digest, inv: Inv, ev: Event): Progress {
    var stop := Gate(b, inv, ev);
    if stop.Some? then Over(inv, stop.value)
    else if ev.reply.Fails? then AfterError(Cleared(inv), fallback, ev.reply.error)
    else AfterProposal(hash, Cleared(inv), ev.reply.proposal, ev)
  }

  /** The first step records what the investigation starts with. */
  function Opening(kind: Kind, journalOk: bool): Inv {
    var step := Step(0, None, VerdictOK, "", None);
    Inv(if journalOk then [step] else [], if journalOk then [step] else [], map[], if journalOk then 1 else 0, 0,
        Usage(0, 0, 0, 0), [], kind, 0, None, None, "", [])
  }

  // ---------- What an iteration does, told from what it meets ----------

  /** Nothing the budget limits is used up, and no one has called it off. */
  predicate MayGoOn(b: Budget, inv: Inv, ev: Event) {
    !ev.aborted && ev.elapsed <= b.wallClock && inv.spendSteps < b.maxSteps && inv.toolCalls < b.maxToolCalls &&
    (inv.kind == LLMReasoner ==>
       inv.usage.tokensIn < b.maxTokensIn && inv.usage.cachedTokensIn < b.maxCachedTokensIn) &&
    inv.usage.cost < b.maxCost
  }

  /** Tokens are looked at only while an LLM reasons. */
  predicate TokensLeft(b: Budget, inv: Inv) { inv.kind == LLMReasoner ==> inv.usage.tokensIn < b.maxTokensIn }

  predicate CachedTokensLeft(b: Budget, inv: Inv) {
    inv.kind == LLMReasoner ==> inv.usage.cachedTokensIn < b.maxCachedTokensIn
  }

  /** A run goes on exactly when it may and the reasoner proposes something not final or an LLM fails
      over to the fallback; otherwise it is over for the first of the reasons in this order: called
      off, wall clock, steps, tool calls, tokens, cached tokens, cost, and then concluded if the
      reasoner is done or has no more rules, and failed if it failed in any other way. */
  lemma StopsExactly(b: Budget, fallback: Option<Kind>, hash: Digest, inv: Inv, ev: Event)
    ensures var p := Iterate(b, fallback, hash, inv, ev);
            var swaps := ev.reply == Fails(FallbackTrigger) && inv.kind == LLMReasoner && fallback.Some?;
            var final := ev.reply == Fails(NoMoreRules) || (ev.reply.Proposes? && ev.reply.proposal.done);
            && (p.Going? <==> MayGoOn(b, inv, ev) && (swaps || (ev.reply.Proposes? && !final)))
            && (p.Over? ==>
                  && (p.reason == TermAborted <==> ev.aborted)
                  && (p.reason == TermWallClock <==> !ev.aborted && ev.elapsed > b.wallClock)
                  && (p.reason in {TermAborted, TermWallClock} || (
                      && (p.reason == TermSteps <==> inv.spendSteps >= b.maxSteps)
                      && (p.reason == TermToolCalls <==> inv.spendSteps < b.maxSteps && inv.toolCalls >= b.maxToolCalls)
                      && (p.reason in {TermSteps, TermToolCalls} || (
                          && (p.reason == TermTokens <==> !TokensLeft(b, inv))
                          && (p.reason == TermCachedTokens <==> TokensLeft(b, inv) && !CachedTokensLeft(b, inv))
                          && (p.reason == TermCost <==>
                                TokensLeft(b, inv) && CachedTokensLeft(b, inv) && inv.usage.cost >= b.maxCost)))))
                  && (p.reason == TermConcluded <==> MayGoOn(b, inv, ev) && final)
                  && (p.reason == TermFailed <==> MayGoOn(b, inv, ev) && ev.reply.Fails? && !final && !swaps))
  {
    hide Merge, AfterCall, AfterPure, Plus;
  }

  function Proposals(env: nat -> Event, n: nat): nat {
    if n == 0 then 0 else Proposals(env, n - 1) + if env(n - 1).reply.Proposes? then 1 else 0
  }

  function Calls(env: nat -> Event, n: nat): nat {
    if n == 0 then 0
    else
      var r := env(n - 1).reply;
      Calls(env, n - 1) + if r.Proposes? && r.proposal.call.Some? then 1 else 0
  }

  /** What the reasoner has reported using in the first n iterations. */
  function Reported(env: nat -> Event, n: nat): Usage {
    if n == 0 then Usage(0, 0, 0, 0)
    else
      var u, r := Reported(env, n - 1), env(n - 1).reply;
      if r.Fails? then u
      else
        Usage(u.tokensIn + r.proposal.usage.tokensIn, u.cachedTokensIn + r.proposal.usage.cachedTokensIn,
              u.tokensOut + r.proposal.usage.tokensOut, u.cost + r.proposal.usage.cost)
  }

  lemma IterationSpends(b: Budget, fallback: Option<Kind>, hash: Digest, inv: Inv, ev: Event)
    requires Iterate(b, fallback, hash, inv, ev).Going?
    ensures var next, r := Iterate(b, fallback, hash, inv, ev).inv, ev.reply;
            && next.spendSteps == inv.spendSteps + (if r.Proposes? then 1 else 0)
            && next.toolCalls == inv.toolCalls + (if r.Proposes? && r.proposal.call.Some? then 1 else 0)
            && next.swaps == inv.swaps + (if r.Fails? then 1 else 0)
            && next.usage == if r.Fails? then inv.usage
                             else Usage(inv.usage.tokensIn + r.proposal.usage.tokensIn,
                                        inv.usage.cachedTokensIn + r.proposal.usage.cachedTokensIn,
                                        inv.usage.tokensOut + r.proposal.usage.tokensOut,
                                        inv.usage.cost + r.proposal.usage.cost)
  {
    hide Merge, OutputStored, EvidenceStored, ToolStep, ValidArgs, HypothesisUnder, Gate;
  }

  /** While a run goes on, what it has spent is what the reasoner asked for: a step for each proposal
      and for the opening, a tool call for each proposal with one, its reported usage, and a change
      of reasoner for each failure. */
  lemma {:induction false} SpendsAsAsked(b: Budget, fallback: Option<Kind>, hash: Digest, env: nat -> Event, n: nat,
                                         kind: Kind, journalOk: bool)
    requires Iterated(b, fallback, hash, env, n, Opening(kind, journalOk)).Going?
    ensures var inv := Iterated(b, fallback, hash, env, n, Opening(kind, journalOk)).inv;
            && inv.spendSteps == (if journalOk then 1 else 0) + Proposals(env, n)
            && inv.toolCalls == Calls(env, n) && inv.usage == Reported(env, n)
            && inv.swaps == n - Proposals(env, n)
    decreases n
  {
    hide Iterate;
    if n > 0 {
      SpendsAsAsked(b, fallback, hash, env, n - 1, kind, journalOk);
      IterationSpends(b, fallback, hash, Iterated(b, fallback, hash, env, n - 1, Opening(kind, journalOk)).inv,
                      env(n - 1));
    }
  }

  /** A tool step records its call and what came of it: refused arguments unless exactly the payload
      of a known tool is set, and then the tool's answer; rows are hashed, and kept as evidence of the
      step where the object store takes them. */
  lemma ToolStepExactly(hash: Digest, inv: Inv, p: Proposal, call: ToolArgs, ev: Event)
    ensures var next := AfterCall(hash, inv, p, call, ev);
            && |next.steps| == |inv.steps| + 1 && next.steps[..|inv.steps|] == inv.steps
            && var st, n, rows := next.steps[|inv.steps|], |inv.steps|, ev.dispatch.rows;
            && st.seqNo == n && st.call == Some(call)
            && if call.tool in {TraceQuery, LogQuery, MetricQuery, TopologyQuery, MemoryQuery} &&
                  call.payloads == {call.tool}
               then
                 && (st.verdict == VerdictOK <==> ev.dispatch.error == None)
                 && (st.verdict == VerdictUnavailable <==> ev.dispatch.error == Some(ToolUnavailable))
                 && st.resultHash == (if rows == "" then "" else hash(rows))
                 && st.resultRef == (if rows != "" && ev.evidencePutOk then Some(EvidenceRef(n)) else None)
                 && (var kept := if rows != "" && ev.evidencePutOk then inv.store[EvidenceRef(n) := rows]
                                 else inv.store;
                     next.store == if ev.outputPut == None then kept
                                   else kept[OutputRef(n) := ev.outputPut.value])
                 && next.lastResult == if ev.dispatch.error == None then Some(rows) else None
               else st.verdict == VerdictInvalidArgs && st.resultRef == None && st.resultHash == "" &&
                    next.store == inv.store && next.lastResult == inv.lastResult
  {
    if call.payloads == {call.tool} {
      assert |call.payloads| == 1;
    } else if |call.payloads| == 1 && call.tool in call.payloads {
      OnlyOne(call.payloads, call.tool);
    }
  }

  lemma OnlyOne<T>(s: set<T>, x: T)
    requires |s| == 1 && x in s
    ensures s == {x}
  {
    assert |s - {x}| == 0;
  }

  /** The first hypothesis with the id. */
  function Held(hyps: seq<Hypothesis>, id: string): Option<Hypothesis> {
    if hyps == [] then None else if hyps[0].id == id then Some(hyps[0]) else Held(hyps[1..], id)
  }

  function LastWith(updates: seq<Hypothesis>, id: string): Option<Hypothesis> {
    if updates == [] then None
    else if updates[|updates| - 1].id == id then Some(updates[|updates| - 1])
    else LastWith(updates[..|updates| - 1], id)
  }

  lemma {:induction false} MergeOneHolds(hyps: seq<Hypothesis>, u: Hypothesis, id: string)
    ensures Held(MergeOne(hyps, u), id) == if id == u.id then Some(u) else Held(hyps, id)
    ensures |MergeOne(hyps, u)| == |hyps| + if Held(hyps, u.id).None? then 1 else 0
    ensures forall i :: 0 <= i < |hyps| ==> MergeOne(hyps, u)[i].id == hyps[i].id
    decreases |hyps|
  {
    if hyps != [] { MergeOneHolds(hyps[1..], u, id); }
  }

  /** Of several updates to a hypothesis the last stands; one without updates stays; and the
      hypotheses already there keep their places. */
  lemma {:induction false} LastUpdateStands(hyps: seq<Hypothesis>, updates: seq<Hypothesis>, id: string)
    ensures Held(Merge(hyps, updates), id) ==
            if LastWith(updates, id).Some? then LastWith(updates, id) else Held(hyps, id)
    ensures |hyps| <= |Merge(hyps, updates)|
    ensures forall i :: 0 <= i < |hyps| ==> Merge(hyps, updates)[i].id == hyps[i].id
    decreases |updates|
  {
    if updates != [] {
      var front := updates[..|updates| - 1];
      LastUpdateStands(hyps, front, id);
      MergeOneHolds(Merge(hyps, front), updates[|updates| - 1], id);
    }
  }

  // ---------- Termination ----------

  function Remaining(b: Budget, inv: Inv): nat {
    if inv.spendSteps < b.maxSteps then b.maxSteps - inv.spendSteps else 0
  }
  function Unswapped(inv: Inv): nat { if inv.kind == LLMReasoner then 1 else 0 }

  /** An LLM that fails is not replaced by another: rules never swap, and a fallback to rules is the last. */
  predicate NoLLMAfterLLM(kind: Kind, fallback: Option<Kind>) { kind == RulesReasoner || fallback != Some(LLMReasoner) }

  /** Every iteration that goes on spends a step, or gives up the LLM for good. */
  lemma IterationProgresses(b: Budget, fallback: Option<Kind>, hash: Digest, inv: Inv, ev: Event)
    requires NoLLMAfterLLM(inv.kind, fallback)
    ensures var p := Iterate(b, fallback, hash, inv, ev);
            p.Going? ==>
              NoLLMAfterLLM(p.inv.kind, fallback) &&
              (Remaining(b, p.inv) < Remaining(b, inv) ||
               (Remaining(b, p.inv) == Remaining(b, inv) && Unswapped(p.inv) < Unswapped(inv)))
  {
    hide Merge;
  }

  /** The whole loop against an environment that says what each iteration meets. */
  function Loop(b: Budget, fallback: Option<Kind>, hash: Digest, env: nat -> Event, k: nat, inv: Inv): (r: Progress)
    requires NoLLMAfterLLM(inv.kind, fallback)
    ensures r.Over?
    decreases Remaining(b, inv), Unswapped(inv)
  {
    IterationProgresses(b, fallback, hash, inv, env(k));
    var p := Iterate(b, fallback, hash, inv, env(k));
    if p.Going? then Loop(b, fallback, hash, env, k + 1, p.inv) else p
  }

  function Iterated(b: Budget, fallback: Option<Kind>, hash: Digest, env: nat -> Event, n: nat, inv: Inv): Progress {
    if n == 0 then Going(inv)
    else
      var p := Iterated(b, fallback, hash, env, n - 1, inv);
      if p.Going? then Iterate(b, fallback, hash, p.inv, env(n - 1)) else p
  }

  /** The reasoner fails in a way that calls for the fallback, within the time allowed. */
  function Trouble(b: Budget): Event {
    Event(false, b.wallClock, Fails(FallbackTrigger), true, None, Dispatch("", None), true)
  }

  function Stuck(b: Budget): nat -> Event { (_: nat) => Trouble(b) }

  /** A fallback that is itself an LLM loses the measure: while both keep failing, the loop swaps
      for ever and spends nothing, so only the wall clock or an abort can stop it. */
  lemma {:induction false} LLMFallbackSpins(b: Budget, hash: Digest, journalOk: bool, n: nat)
    requires Gate(b, Opening(LLMReasoner, journalOk), Trouble(b)).None?
    ensures Iterated(b, Some(LLMReasoner), hash, Stuck(b), n, Opening(LLMReasoner, journalOk))
            == Going(Opening(LLMReasoner, journalOk).(swaps := n))
  {
    if n > 0 { LLMFallbackSpins(b, hash, journalOk, n - 1); }
  }

  ghost predicate Stops(b: Budget, fallback: Option<Kind>, hash: Digest, env: nat -> Event, start: Inv) {
    exists n: nat :: Iterated(b, fallback, hash, env, n, start).Over?
  }

  lemma {:induction false} MeasureStops(b: Budget, fallback: Option<Kind>, hash: Digest, env: nat -> Event, start: Inv,
                                        k: nat, inv: Inv)
    requires NoLLMAfterLLM(inv.kind, fallback) && Iterated(b, fallback, hash, env, k, start) == Going(inv)
    ensures Stops(b, fallback, hash, env, start)
    decreases Remaining(b, inv), Unswapped(inv)
  {
    hide Iterate, Remaining, Unswapped;
    var p := Iterate(b, fallback, hash, inv, env(k));
    IterationProgresses(b, fallback, hash, inv, env(k));
    assert Iterated(b, fallback, hash, env, k + 1, start) == p;
    if p.Going? { MeasureStops(b, fallback, hash, env, start, k + 1, p.inv); }
  }

  /** An engine's investigations end in every environment exactly when no LLM can be followed by
      an LLM, or its budget admits no first iteration. */
  lemma EndsExactly(b: Budget, fallback: Option<Kind>, hash: Digest, kind: Kind, journalOk: bool)
    ensures (forall env: nat -> Event :: Stops(b, fallback, hash, env, Opening(kind, journalOk))) <==>
            NoLLMAfterLLM(kind, fallback) || Gate(b, Opening(kind, journalOk), Trouble(b)).Some?
  {
    var start := Opening(kind, journalOk);
    hide Opening, Gate;
    forall env: nat -> Event | NoLLMAfterLLM(kind, fallback) || Gate(b, start, Trouble(b)).Some?
      ensures Stops(b, fallback, hash, env, start)
    {
      if NoLLMAfterLLM(kind, fallback) {
        OpeningKind(kind, journalOk);
        assert Iterated(b, fallback, hash, env, 0, start) == Going(start);
        MeasureStops(b, fallback, hash, env, start, 0, start);
      } else {
        ShutGate(b, start, env(0));
        assert Iterated(b, fallback, hash, env, 0, start) == Going(start);
        assert Iterated(b, fallback, hash, env, 1, start).Over?;
      }
    }
    if !NoLLMAfterLLM(kind, fallback) && Gate(b, start, Trouble(b)).None? {
      var env := Stuck(b);
      forall n: nat ensures Iterated(b, fallback, hash, env, n, start).Going? {
        LLMFallbackSpins(b, hash, journalOk, n);
      }
      assert !Stops(b, fallback, hash, env, start);
    }
  }

  lemma OpeningKind(kind: Kind, journalOk: bool)
    ensures Opening(kind, journalOk).kind == kind
  {
  }

  /** A budget that stops trouble in time stops everything. */
  lemma ShutGate(b: Budget, inv: Inv, ev: Event)
    requires Gate(b, inv, Trouble(b)).Some?
    ensures Gate(b, inv, ev).Some?
  {
  }

  // ---------- What every iteration keeps ----------

  /** Budgets, step numbers, the record of swaps, and the journal. */
  ghost predicate Kept(b: Budget, inv: Inv) {
    |inv.steps| <= inv.spendSteps && inv.spendSteps <= b.maxSteps && inv.toolCalls <= b.maxToolCalls &&
    inv.toolCalls <= inv.spendSteps && inv.toolCalls == |inv.tested| &&
    (forall i :: 0 <= i < |inv.steps| ==> inv.steps[i].seqNo == i) && Within(inv.journal, inv.steps)
  }

  /** The journal is the steps with some left out, in order. */
  predicate Within(part: seq<Step>, whole: seq<Step>) {
    part == [] || (whole != [] && (if part[|part| - 1] == whole[|whole| - 1]
                                   then Within(part[..|part| - 1], whole[..|whole| - 1])
                                   else Within(part, whole[..|whole| - 1])))
  }

  /** Every recorded piece of evidence is in the store under its own step, as it was hashed. */
  ghost predicate EvidenceKept(hash: Digest, inv: Inv) {
    forall i {:trigger inv.steps[i]} :: 0 <= i < |inv.steps| && inv.steps[i].resultRef.Some? ==>
      inv.steps[i].resultRef == Some(EvidenceRef(i)) && EvidenceRef(i) in inv.store &&
      hash(inv.store[EvidenceRef(i)]) == inv.steps[i].resultHash
  }

  lemma WithinExtends(part: seq<Step>, whole: seq<Step>, s: Step)
    requires Within(part, whole)
    ensures Within(part + [s], whole + [s])
  {
    assert (part + [s])[..|part|] == part && (whole + [s])[..|whole|] == whole;
  }

  lemma {:induction false} WithinDrop(part: seq<Step>, whole: seq<Step>)
    requires Within(part, whole) && part != []
    ensures Within(part[..|part| - 1], whole)
    decreases |whole|
  {
    var p, w := part[..|part| - 1], whole[..|whole| - 1];
    if part[|part| - 1] == whole[|whole| - 1] {
      if p != [] {
        if p[|p| - 1] == whole[|whole| - 1] { WithinDrop(p, w); }
      }
    } else {
      WithinDrop(part, w);
      if p != [] && p[|p| - 1] == whole[|whole| - 1] { WithinDrop(p, w); }
    }
  }

  lemma WithinSkips(part: seq<Step>, whole: seq<Step>, s: Step)
    requires Within(part, whole)
    ensures Within(part, whole + [s])
  {
    assert (whole + [s])[..|whole|] == whole;
    if part != [] && part[|part| - 1] == s { WithinDrop(part, whole); }
  }

  lemma RecordKeeps(b: Budget, inv: Inv, next: Inv, step: Step, journalOk: bool)
    requires Kept(b, inv) && inv.spendSteps < b.maxSteps && inv.toolCalls < b.maxToolCalls && step.seqNo == |inv.steps|
    requires next.steps == inv.steps + [step] &&
             next.journal == (if journalOk then inv.journal + [step] else inv.journal)
    requires next.spendSteps == inv.spendSteps + 1 && next.toolCalls == inv.toolCalls + 1 &&
             |next.tested| == |inv.tested| + 1
    ensures Kept(b, next)
  {
    hide Within;
    if journalOk { WithinExtends(inv.journal, inv.steps, step); } else { WithinSkips(inv.journal, inv.steps, step); }
  }

  lemma PureKeeps(b: Budget, inv: Inv, ev: Event)
    requires Kept(b, inv) && inv.spendSteps < b.maxSteps
    ensures Kept(b, AfterPure(inv, ev))
  {
    hide Within, OutputStored;
    if ev.journalOk {
      WithinExtends(inv.journal, inv.steps, Step(|inv.steps|, None, VerdictOK, "", None));
    }
  }

  /** No iteration overruns the step or tool-call budget, misnumbers a step, or journals out of order. */
  lemma IterationKeeps(b: Budget, fallback: Option<Kind>, hash: Digest, inv: Inv, ev: Event)
    requires Kept(b, inv)
    ensures Kept(b, Iterate(b, fallback, hash, inv, ev).inv)
  {
    hide Merge, Within, OutputStored, EvidenceStored, ValidArgs, HypothesisUnder;
    if Gate(b, inv, ev).None? && ev.reply.Proposes? {
      var p := ev.reply.proposal;
      var merged := Cleared(inv).(hypotheses := Merge(inv.hypotheses, p.hypotheses), usage := Plus(inv.usage, p.usage));
      if !p.done && p.call.None? {
        PureKeeps(b, merged, ev);
      } else if !p.done {
        var next := AfterCall(hash, merged, p, p.call.value, ev);
        RecordKeeps(b, merged, next, next.steps[|inv.steps|], ev.journalOk);
      }
    }
  }

  lemma StepKeepsEvidence(hash: Digest, inv: Inv, next: Inv, step: Step, ev: Event)
    requires EvidenceKept(hash, inv) && next.steps == inv.steps + [step]
    requires next.store == OutputStored(EvidenceStored(inv.store, |inv.steps|, ev), |inv.steps|, ev.outputPut) ||
             (next.store == inv.store && step.resultRef.None?)
    requires step.resultRef.Some? ==>
               step.resultRef == Some(EvidenceRef(|inv.steps|)) && ev.dispatch.rows != "" && ev.evidencePutOk &&
               step.resultHash == hash(ev.dispatch.rows)
    ensures EvidenceKept(hash, next)
  {
    forall i | 0 <= i < |next.steps| && next.steps[i].resultRef.Some?
      ensures next.steps[i].resultRef == Some(EvidenceRef(i)) && EvidenceRef(i) in next.store &&
              hash(next.store[EvidenceRef(i)]) == next.steps[i].resultHash
    {
      if i < |inv.steps| { assert next.steps[i] == inv.steps[i]; }
    }
  }

  lemma IterationKeepsEvidence(b: Budget, fallback: Option<Kind>, hash: Digest, inv: Inv, ev: Event)
    requires EvidenceKept(hash, inv)
    ensures EvidenceKept(hash, Iterate(b, fallback, hash, inv, ev).inv)
  {
    hide Merge, EvidenceKept;
    if Gate(b, inv, ev).None? && ev.reply.Proposes? {
      var p := ev.reply.proposal;
      var merged := Cleared(inv).(hypotheses := Merge(inv.hypotheses, p.hypotheses), usage := Plus(inv.usage, p.usage));
      EvidenceOnly(hash, inv, merged);
      if !p.done && p.call.None? {
        PureKeepsEvidence(hash, merged, ev);
      } else if !p.done {
        var next := AfterCall(hash, merged, p, p.call.value, ev);
        StepKeepsEvidence(hash, merged, next, next.steps[|inv.steps|], ev);
      }
    } else if Gate(b, inv, ev).None? {
      EvidenceOnly(hash, inv, Iterate(b, fallback, hash, inv, ev).inv);
    }
  }

  lemma EvidenceOnly(hash: Digest, inv: Inv, next: Inv)
    requires EvidenceKept(hash, inv) && next.steps == inv.steps && next.store == inv.store
    ensures EvidenceKept(hash, next)
  {
  }

  lemma PureKeepsEvidence(hash: Digest, inv: Inv, ev: Event)
    requires EvidenceKept(hash, inv)
    ensures EvidenceKept(hash, AfterPure(inv, ev))
  {
    var next := AfterPure(inv, ev);
    forall i | 0 <= i < |next.steps| && next.steps[i].resultRef.Some?
      ensures next.steps[i].resultRef == Some(EvidenceRef(i)) && EvidenceRef(i) in next.store &&
              hash(next.store[EvidenceRef(i)]) == next.steps[i].resultHash
    {
      assert i < |inv.steps| && next.steps[i] == inv.steps[i];
    }
  }

  /** Once a run has swapped it has left the LLM, and it was the only swap. */
  ghost predicate SwappedOnce(inv: Inv) { inv.swaps <= 1 && (inv.swaps == 1 ==> inv.kind == RulesReasoner) }

  lemma IterationSwapsOnce(b: Budget, fallback: Option<Kind>, hash: Digest, inv: Inv, ev: Event)
    requires SwappedOnce(inv) && NoLLMAfterLLM(inv.kind, fallback)
    ensures SwappedOnce(Iterate(b, fallback, hash, inv, ev).inv)
  {
    hide Merge;
  }

  lemma {:induction false} LoopKeeps(b: Budget, fallback: Option<Kind>, hash: Digest, env: nat -> Event, k: nat,
                                     inv: Inv)
    requires NoLLMAfterLLM(inv.kind, fallback) && Kept(b, inv) && EvidenceKept(hash, inv) && SwappedOnce(inv)
    ensures var r := Loop(b, fallback, hash, env, k, inv).inv; Kept(b, r) && EvidenceKept(hash, r) && SwappedOnce(r)
    decreases Remaining(b, inv), Unswapped(inv)
  {
    hide Kept, EvidenceKept, SwappedOnce, Iterate, Remaining, Unswapped;
    var p := Iterate(b, fallback, hash, inv, env(k));
    IterationKeeps(b, fallback, hash, inv, env(k));
    IterationKeepsEvidence(b, fallback, hash, inv, env(k));
    IterationSwapsOnce(b, fallback, hash, inv, env(k));
    IterationProgresses(b, fallback, hash, inv, env(k));
    if p.Going? { LoopKeeps(b, fallback, hash, env, k + 1, p.inv); }
  }

  lemma OpeningKept(b: Budget, hash: Digest, kind: Kind, journalOk: bool)
    requires b.maxSteps > 0
    ensures var o := Opening(kind, journalOk); Kept(b, o) && EvidenceKept(hash, o) && SwappedOnce(o)
  {
    WithinExtends([], [], Step(0, None, VerdictOK, "", None));
    assert [] + [Step(0, None, VerdictOK, "", None)] == [Step(0, None, VerdictOK, "", None)];
  }

  // ---------- The end ----------

  function TerminalStatus(reason: Termination, confidence: real): Status {
    match reason
    case TermConcluded => if confidence >= CONFIDENCE_THRESHOLD then Concluded else Inconclusive
    case TermAborted => Aborted
    case TermFailed => FailedStatus
    case _ => BudgetExhausted
  }

  function Capped(swaps: nat, confidence: real): real {
    if swaps > 0 && confidence > SWAPPED_CAP then SWAPPED_CAP else confidence
  }

  datatype Report = Report(inv: Inv, reason: Termination, confidence: real, status: Status)

  function Finished(p: Progress, confidence: real): Report
    requires p.Over?
  {
    var c := Capped(p.inv.swaps, confidence);
    Report(p.inv, p.reason, c, TerminalStatus(p.reason, c))
  }

  /** A run is reported concluded exactly when the reasoner concluded with a confidence of at least
      0.75 and never changed; a run that changed reasoner reports 0.74 at most. */
  lemma ReportsExactly(p: Progress, confidence: real)
    requires p.Over?
    ensures var r := Finished(p, confidence);
            && r.inv == p.inv && r.reason == p.reason
            && (r.status == Concluded <==> p.reason == TermConcluded && confidence >= 0.75 && p.inv.swaps == 0)
            && (r.status == Inconclusive <==>
                  p.reason == TermConcluded && (confidence < 0.75 || p.inv.swaps > 0))
            && (r.status == Aborted <==> p.reason == TermAborted)
            && (r.status == FailedStatus <==> p.reason == TermFailed)
            && r.confidence == if p.inv.swaps > 0 && confidence >= 0.74 then 0.74 else confidence
  {
  }

  class Engine {
    const budget: Budget
    const fallback: Option<Kind>
    const hash: Digest

    constructor (budget: Budget, fallback: Option<Kind>, hash: Digest)
      ensures this.budget == budget && this.fallback == fallback && this.hash == hash
    {
      this.budget, this.fallback, this.hash := budget, fallback, hash;
    }

    static method MergeHypotheses(hyps: seq<Hypothesis>, updates: seq<Hypothesis>) returns (merged: seq<Hypothesis>)
      ensures merged == Merge(hyps, updates)
    {
      merged := hyps;
      for k := 0 to |updates|
        invariant merged == Merge(hyps, updates[..k])
      {
        assert updates[..k + 1][..k] == updates[..k];
        var u := updates[k];
        var at := Find(merged, u.id);
        MergeOneAt(merged, u);
        merged := if at < |merged| then merged[at := u] else merged + [u];
      }
      assert updates[..|updates|] == updates;
    }

    static method Find(hyps: seq<Hypothesis>, id: string) returns (at: nat)
      ensures at == Position(hyps, id)
    {
      at := 0;
      while at < |hyps| && hyps[at].id != id
        invariant at <= |hyps| && Position(hyps, id) == at + Position(hyps[at..], id)
      {
        at := at + 1;
      }
    }

    static lemma {:induction false} MergeOneAt(hyps: seq<Hypothesis>, u: Hypothesis)
      ensures Position(hyps, u.id) <= |hyps|
      ensures MergeOne(hyps, u) == if Position(hyps, u.id) < |hyps| then hyps[Position(hyps, u.id) := u] else hyps + [u]
      decreases |hyps|
    {
      if hyps != [] && hyps[0].id != u.id {
        MergeOneAt(hyps[1..], u);
      }
    }

    /** Runs an investigation to its end; it has one unless an LLM can be followed by an LLM. */
    method Investigate(kind: Kind, openingJournalled: bool, env: nat -> Event, conclude: Inv -> real)
        returns (r: Report)
      requires NoLLMAfterLLM(kind, fallback) && budget.maxSteps > 0
      ensures var end := Loop(budget, fallback, hash, env, 0, Opening(kind, openingJournalled));
              r == Finished(end, conclude(end.inv))
    {
      hide Iterate, Remaining, Unswapped, Opening;
      var inv := Opening(kind, openingJournalled);
      OpeningKind(kind, openingJournalled);
      ghost var end := Loop(budget, fallback, hash, env, 0, inv);
      var k := 0;
      var p := Going(inv);
      while p.Going?
        invariant p.Going? ==> NoLLMAfterLLM(p.inv.kind, fallback)
        invariant end == if p.Going? then Loop(budget, fallback, hash, env, k, p.inv) else p
        decreases p.Going?, Remaining(budget, p.inv), Unswapped(p.inv)
      {
        IterationProgresses(budget, fallback, hash, p.inv, env(k));
        p := Iteration(p.inv, env(k));
        k := k + 1;
      }
      var confidence := conclude(p.inv);
      if p.inv.swaps > 0 && confidence > SWAPPED_CAP { confidence := SWAPPED_CAP; }
      r := Report(p.inv, p.reason, confidence, TerminalStatus(p.reason, confidence));
    }

    method Iteration(inv: Inv, ev: Event) returns (p: Progress)
      ensures p == Iterate(budget, fallback, hash, inv, ev)
    {
      if ev.aborted { return Over(inv, TermAborted); }
      if ev.elapsed > budget.wallClock { return Over(inv, TermWallClock); }
      if inv.spendSteps >= budget.maxSteps { return Over(inv, TermSteps); }
      if inv.toolCalls >= budget.maxToolCalls { return Over(inv, TermToolCalls); }
      if inv.kind == LLMReasoner {
        if inv.usage.tokensIn >= budget.maxTokensIn { return Over(inv, TermTokens); }
        if inv.usage.cachedTokensIn >= budget.maxCachedTokensIn { return Over(inv, TermCachedTokens); }
      }
      if inv.usage.cost >= budget.maxCost { return Over(inv, TermCost); }
      var cur := Cleared(inv);
      if ev.reply.Fails? {
        var err := ev.reply.error;
        if err == NoMoreRules { return Over(cur, TermConcluded); }
        if cur.kind == LLMReasoner && fallback.Some? && err == FallbackTrigger {
          return Going(cur.(kind := fallback.value, swaps := cur.swaps + 1));
        }
        return Over(cur, TermFailed);
      }
      var proposal := ev.reply.proposal;
      var hypotheses := MergeHypotheses(cur.hypotheses, proposal.hypotheses);
      cur := cur.(hypotheses := hypotheses, usage := Plus(cur.usage, proposal.usage));
      if proposal.done { return Over(cur, TermConcluded); }
      if proposal.call.None? { return Going(AfterPure(cur, ev)); }
      return Going(AfterCall(hash, cur, proposal, proposal.call.value, ev));
    }

    /** Checks the journalled steps against the object store and returns them renumbered to no
        investigation yet, or fails on the first piece of evidence missing or altered. */
    method ReplayRecorded(journal: seq<Step>, objects: map<Ref, string>) returns (steps: Option<seq<Step>>)
      ensures steps == if Intact(hash, journal, objects) then Some(journal) else None
      ensures steps.Some? <==> forall st <- journal :: st.resultRef.Some? ==>
                st.resultRef.value in objects && hash(objects[st.resultRef.value]) == st.resultHash
    {
      var copied: seq<Step> := [];
      for i := 0 to |journal|
        invariant copied == journal[..i] && forall j :: 0 <= j < i ==> StepIntact(hash, journal[j], objects)
      {
        var st := journal[i];
        if st.resultRef.Some? {
          if st.resultRef.value !in objects { return None; }
          if hash(objects[st.resultRef.value]) != st.resultHash { return None; }
        }
        copied := copied + [st];
      }
      assert journal[..|journal|] == journal;
      return Some(copied);
    }
  }

  predicate StepIntact(hash: Digest, st: Step, objects: map<Ref, string>) {
    st.resultRef.Some? ==> st.resultRef.value in objects && hash(objects[st.resultRef.value]) == st.resultHash
  }

  predicate Intact(hash: Digest, journal: seq<Step>, objects: map<Ref, string>) {
    forall i :: 0 <= i < |journal| ==> StepIntact(hash, journal[i], objects)
  }

  // ---------- Every investigation ----------

  /** Whatever it meets, an investigation ends within its step and tool-call budgets with its
      steps numbered in order, and one that changed reasoner never ends concluded. */
  lemma InvestigationEnds(b: Budget, fallback: Option<Kind>, hash: Digest, kind: Kind, journalOk: bool,
                          env: nat -> Event, confidence: real)
    requires NoLLMAfterLLM(kind, fallback) && b.maxSteps > 0
    ensures var r := Finished(Loop(b, fallback, hash, env, 0, Opening(kind, journalOk)), confidence);
            |r.inv.steps| <= b.maxSteps && r.inv.spendSteps <= b.maxSteps && r.inv.toolCalls <= b.maxToolCalls &&
            (forall i :: 0 <= i < |r.inv.steps| ==> r.inv.steps[i].seqNo == i) &&
            r.inv.swaps <= 1 && (r.inv.swaps > 0 ==> r.status != Concluded)
  {
    OpeningKept(b, hash, kind, journalOk);
    LoopKeeps(b, fallback, hash, env, 0, Opening(kind, journalOk));
  }

  /** A tool-call budget at least as large as the step budget never stops an investigation. */
  lemma ToolBudgetIdle(b: Budget, fallback: Option<Kind>, hash: Digest, inv: Inv, ev: Event)
    requires Kept(b, inv) && b.maxSteps <= b.maxToolCalls
    ensures Gate(b, inv, ev) != Some(TermToolCalls)
  {
  }

  lemma {:induction false} WithinMembers(part: seq<Step>, whole: seq<Step>)
    requires Within(part, whole)
    ensures |part| <= |whole| && forall s <- part :: s in whole
    decreases |whole|
  {
    if part != [] {
      var w := whole[..|whole| - 1];
      if part[|part| - 1] == whole[|whole| - 1] {
        WithinMembers(part[..|part| - 1], w);
        assert part == part[..|part| - 1] + [part[|part| - 1]];
      } else {
        WithinMembers(part, w);
      }
    }
  }

  /** Replaying a finished investigation over the store it left always succeeds, and yields the
      journalled steps: a subsequence of the investigation's own, all of them if the journal
      never failed. */
  lemma RecordedReplaySucceeds(b: Budget, fallback: Option<Kind>, hash: Digest, kind: Kind, journalOk: bool,
                               env: nat -> Event)
    requires NoLLMAfterLLM(kind, fallback) && b.maxSteps > 0
    ensures var inv := Loop(b, fallback, hash, env, 0, Opening(kind, journalOk)).inv;
            Intact(hash, inv.journal, inv.store) && Within(inv.journal, inv.steps)
  {
    OpeningKept(b, hash, kind, journalOk);
    LoopKeeps(b, fallback, hash, env, 0, Opening(kind, journalOk));
    var inv := Loop(b, fallback, hash, env, 0, Opening(kind, journalOk)).inv;
    WithinMembers(inv.journal, inv.steps);
    forall i | 0 <= i < |inv.journal| ensures StepIntact(hash, inv.journal[i], inv.store) {
      assert inv.journal[i] in inv.steps;
      var j :| 0 <= j < |inv.steps| && inv.steps[j] == inv.journal[i];
    }
  }

  /** The iteration takes a tool step, which it records whether or not the journal accepts it. */
  predicate TakesCall(b: Budget, inv: Inv, ev: Event) {
    Gate(b, inv, ev).None? && ev.reply.Proposes? && !ev.reply.proposal.done && ev.reply.proposal.call.Some?
  }

  /** If the run from start gets to iteration k and takes a tool step there, it is journalled. */
  ghost predicate CallJournalled(b: Budget, fallback: Option<Kind>, hash: Digest, env: nat -> Event, start: Inv,
                                 k: nat) {
    var p := Iterated(b, fallback, hash, env, k, start);
    p.Going? && TakesCall(b, p.inv, env(k)) ==> env(k).journalOk
  }

  /** An iteration adds the same steps to the journal, unless it takes a tool step the journal refuses. */
  lemma IterationJournals(b: Budget, fallback: Option<Kind>, hash: Digest, inv: Inv, ev: Event)
    ensures var next, lost := Iterate(b, fallback, hash, inv, ev).inv, TakesCall(b, inv, ev) && !ev.journalOk;
            && |next.steps| - |next.journal| == |inv.steps| - |inv.journal| + (if lost then 1 else 0)
            && (inv.journal == inv.steps && !lost ==> next.journal == next.steps)
  {
    hide Merge, ToolStep, Plus, OutputStored, EvidenceStored, ValidArgs, HypothesisUnder;
  }

  /** Steps the journal has missed stay missing. */
  lemma {:induction false} LagStays(b: Budget, fallback: Option<Kind>, hash: Digest, env: nat -> Event, k: nat,
                                    inv: Inv)
    requires NoLLMAfterLLM(inv.kind, fallback) && |inv.journal| < |inv.steps|
    ensures var r := Loop(b, fallback, hash, env, k, inv).inv; |r.journal| < |r.steps|
    decreases Remaining(b, inv), Unswapped(inv)
  {
    hide Iterate, TakesCall, Remaining, Unswapped;
    var p := Iterate(b, fallback, hash, inv, env(k));
    IterationJournals(b, fallback, hash, inv, env(k));
    IterationProgresses(b, fallback, hash, inv, env(k));
    if p.Going? { LagStays(b, fallback, hash, env, k + 1, p.inv); }
  }

  lemma {:induction false} OverStays(b: Budget, fallback: Option<Kind>, hash: Digest, env: nat -> Event, start: Inv,
                                     k: nat, j: nat)
    requires k <= j && Iterated(b, fallback, hash, env, k, start).Over?
    ensures Iterated(b, fallback, hash, env, j, start).Over?
    decreases j
  {
    if k < j { OverStays(b, fallback, hash, env, start, k, j - 1); }
  }

  lemma {:induction false} SameStepsFrom(b: Budget, fallback: Option<Kind>, hash: Digest, env: nat -> Event, start: Inv,
                                         k: nat, inv: Inv)
    requires NoLLMAfterLLM(inv.kind, fallback) && inv.journal == inv.steps
    requires Iterated(b, fallback, hash, env, k, start) == Going(inv)
    ensures var r := Loop(b, fallback, hash, env, k, inv).inv;
            r.journal == r.steps <==> forall j: nat :: k <= j ==> CallJournalled(b, fallback, hash, env, start, j)
    decreases Remaining(b, inv), Unswapped(inv)
  {
    hide Iterate, TakesCall, Remaining, Unswapped;
    var p := Iterate(b, fallback, hash, inv, env(k));
    IterationJournals(b, fallback, hash, inv, env(k));
    IterationProgresses(b, fallback, hash, inv, env(k));
    assert Iterated(b, fallback, hash, env, k + 1, start) == p;
    if !CallJournalled(b, fallback, hash, env, start, k) {
      if p.Going? { LagStays(b, fallback, hash, env, k + 1, p.inv); }
    } else if p.Going? {
      SameStepsFrom(b, fallback, hash, env, start, k + 1, p.inv);
    } else {
      forall j: nat | k < j ensures CallJournalled(b, fallback, hash, env, start, j) {
        OverStays(b, fallback, hash, env, start, k + 1, j);
      }
    }
  }

  /** The replay has the same steps exactly when every tool step the run took was journalled; a
      step without a tool call that the journal refuses is missing from both. */
  lemma ReplaySameSteps(b: Budget, fallback: Option<Kind>, hash: Digest, kind: Kind, journalOk: bool, env: nat -> Event)
    requires NoLLMAfterLLM(kind, fallback)
    ensures var start := Opening(kind, journalOk);
            var r := Loop(b, fallback, hash, env, 0, start).inv;
            r.journal == r.steps <==> forall k: nat :: CallJournalled(b, fallback, hash, env, start, k)
  {
    SameStepsFrom(b, fallback, hash, env, Opening(kind, journalOk), 0, Opening(kind, journalOk));
  }
}
