/** The deterministic reasoner over an arbitrary catalog of rules, and what it makes of an
    investigation. */
module RuleReasoner {
  import opened InvestigationLoop

  /** What a rule makes of a tool result. */
  datatype Confirmation = Confirmation(confirmed: bool, confidence: real, finding: string)

  /** A rule, with the call it builds for the incident at hand. */
  datatype Rule = Rule(id: string, statement: string, call: ToolArgs, confirm: string -> Confirmation)

  const NoUsage := Usage(0, 0, 0, 0)

  predicate InCatalog(catalog: seq<Rule>, id: string) { exists i :: 0 <= i < |catalog| && catalog[i].id == id }

  function RuleByID(catalog: seq<Rule>, id: string): Option<Rule> {
    if catalog == [] then None
    else if catalog[0].id == id then Some(catalog[0])
    else RuleByID(catalog[1..], id)
  }

  function FirstUntried(catalog: seq<Rule>, tried: set<string>): Option<Rule> {
    if catalog == [] then None
    else if catalog[0].id !in tried then Some(catalog[0])
    else FirstUntried(catalog[1..], tried)
  }

  lemma {:induction false} RuleByIDFinds(catalog: seq<Rule>, id: string)
    ensures var r := RuleByID(catalog, id);
            (r.Some? <==> InCatalog(catalog, id)) && (r.Some? ==> r.value in catalog && r.value.id == id)
    decreases |catalog|
  {
    if catalog != [] {
      RuleByIDFinds(catalog[1..], id);
      if catalog[0].id != id {
        if i :| 0 <= i < |catalog| && catalog[i].id == id { assert catalog[1..][i - 1].id == id; }
        if i :| 0 <= i < |catalog| - 1 && catalog[1..][i].id == id { assert catalog[i + 1].id == id; }
      }
    }
  }

  lemma {:induction false} FirstUntriedFinds(catalog: seq<Rule>, tried: set<string>)
    ensures var r := FirstUntried(catalog, tried);
            if r.Some? then r.value in catalog && r.value.id !in tried else forall rule <- catalog :: rule.id in tried
    decreases |catalog|
  {
    if catalog != [] { FirstUntriedFinds(catalog[1..], tried); }
  }

  /** Whether a result is waiting to be folded in. */
  predicate Owed(catalog: seq<Rule>, inv: Inv) {
    inv.lastResult.Some? && inv.lastHypothesis != "" && RuleByID(catalog, inv.lastHypothesis).Some?
  }

  function FoldIn(rule: Rule, result: string): Proposal {
    var c := rule.confirm(result);
    Proposal([Hypothesis(rule.id, c.finding, if c.confirmed then Supported else Refuted, c.confidence)], NoUsage,
             c.confirmed && c.confidence >= CONFIDENCE_THRESHOLD, None)
  }

  function TestOf(rule: Rule): Proposal {
    Proposal([Hypothesis(rule.id, rule.statement, Testing, 0.0)], NoUsage, false, Some(rule.call))
  }

  function NextStep(catalog: seq<Rule>, inv: Inv): Reply {
    if Owed(catalog, inv) then
      Proposes(FoldIn(RuleByID(catalog, inv.lastHypothesis).value, inv.lastResult.value))
    else
      var rule := FirstUntried(catalog, HypothesisIds(inv.hypotheses));
      if rule.Some? then Proposes(TestOf(rule.value)) else Fails(NoMoreRules)
  }

  /** A result waits for the rule that asked for it, the first of its name. */
  ghost predicate WaitsFor(catalog: seq<Rule>, inv: Inv, i: int) {
    inv.lastResult.Some? && inv.lastHypothesis != "" && 0 <= i < |catalog| && catalog[i].id == inv.lastHypothesis &&
    forall j :: 0 <= j < i ==> catalog[j].id != inv.lastHypothesis
  }

  /** The first rule without a hypothesis. */
  ghost predicate NextUntried(catalog: seq<Rule>, inv: Inv, i: int) {
    0 <= i < |catalog| && (forall h <- inv.hypotheses :: h.id != catalog[i].id) &&
    forall j :: 0 <= j < i ==> exists h <- inv.hypotheses :: h.id == catalog[j].id
  }

  lemma {:induction false} RuleByIDIsFirst(catalog: seq<Rule>, id: string, i: int)
    requires 0 <= i < |catalog| && catalog[i].id == id && forall j :: 0 <= j < i ==> catalog[j].id != id
    ensures RuleByID(catalog, id) == Some(catalog[i])
    decreases i
  {
    if i > 0 { RuleByIDIsFirst(catalog[1..], id, i - 1); }
  }

  lemma {:induction false} FirstUntriedIsFirst(catalog: seq<Rule>, tried: set<string>, i: int)
    requires 0 <= i < |catalog| && catalog[i].id !in tried && forall j :: 0 <= j < i ==> catalog[j].id in tried
    ensures FirstUntried(catalog, tried) == Some(catalog[i])
    decreases i
  {
    if i > 0 { FirstUntriedIsFirst(catalog[1..], tried, i - 1); }
  }

  /** The reasoner settles the hypothesis whose result waits, by what its rule makes of the result,
      and is done when that confirms it with a confidence of 0.75; with nothing waiting it tests the
      first rule that has no hypothesis yet; and with every rule tried it has no more. */
  lemma NextExactly(catalog: seq<Rule>, inv: Inv, i: int)
    ensures var r := NextStep(catalog, inv);
            && (WaitsFor(catalog, inv, i) ==>
                  var c := catalog[i].confirm(inv.lastResult.value);
                  && r.Proposes? && r.proposal.call == None && r.proposal.usage == Usage(0, 0, 0, 0)
                  && r.proposal.hypotheses == [Hypothesis(catalog[i].id, c.finding,
                                                          if c.confirmed then Supported else Refuted, c.confidence)]
                  && (r.proposal.done <==> c.confirmed && c.confidence >= 0.75))
            && ((forall j :: !WaitsFor(catalog, inv, j)) ==>
                  && (NextUntried(catalog, inv, i) ==>
                        && r.Proposes? && r.proposal.call == Some(catalog[i].call) && !r.proposal.done
                        && r.proposal.hypotheses == [Hypothesis(catalog[i].id, catalog[i].statement, Testing, 0.0)])
                  && ((forall j :: !NextUntried(catalog, inv, j)) ==> r == Fails(NoMoreRules)))
  {
    var tried := HypothesisIds(inv.hypotheses);
    if WaitsFor(catalog, inv, i) { RuleByIDIsFirst(catalog, inv.lastHypothesis, i); }
    if Owed(catalog, inv) {
      RuleByIDFinds(catalog, inv.lastHypothesis);
      var j := LeastNamed(catalog, inv.lastHypothesis);
      assert WaitsFor(catalog, inv, j);
    } else if NextUntried(catalog, inv, i) {
      FirstUntriedIsFirst(catalog, tried, i);
    } else if FirstUntried(catalog, tried).Some? {
      var j := LeastUntried(catalog, tried);
      assert NextUntried(catalog, inv, j);
    }
  }

  lemma {:induction false} LeastNamed(catalog: seq<Rule>, id: string) returns (i: int)
    requires InCatalog(catalog, id)
    ensures 0 <= i < |catalog| && catalog[i].id == id && forall j :: 0 <= j < i ==> catalog[j].id != id
    decreases |catalog|
  {
    if catalog[0].id == id {
      i := 0;
    } else {
      var k :| 0 <= k < |catalog| && catalog[k].id == id;
      assert catalog[1..][k - 1].id == id;
      i := LeastNamed(catalog[1..], id);
      i := i + 1;
    }
  }

  lemma {:induction false} LeastUntried(catalog: seq<Rule>, tried: set<string>) returns (i: int)
    requires FirstUntried(catalog, tried).Some?
    ensures 0 <= i < |catalog| && catalog[i].id !in tried && forall j :: 0 <= j < i ==> catalog[j].id in tried
    decreases |catalog|
  {
    if catalog[0].id !in tried {
      i := 0;
    } else {
      i := LeastUntried(catalog[1..], tried);
      i := i + 1;
    }
  }

  /** The strongest supported hypothesis, the earliest of equals. */
  ghost predicate IsBest(hyps: seq<Hypothesis>, i: int) {
    0 <= i < |hyps| && hyps[i].status == Supported &&
    (forall j :: 0 <= j < |hyps| && hyps[j].status == Supported ==> hyps[j].postScore <= hyps[i].postScore) &&
    forall j :: 0 <= j < i && hyps[j].status == Supported ==> hyps[j].postScore < hyps[i].postScore
  }

  method Conclude(hyps: seq<Hypothesis>) returns (rootCause: string, confidence: real)
    ensures if exists i :: 0 <= i < |hyps| && hyps[i].status == Supported
            then exists i :: IsBest(hyps, i) && rootCause == hyps[i].statement && confidence == hyps[i].postScore
            else rootCause == "" && confidence == 0.0
  {
    var best := -1;
    for i := 0 to |hyps|
      invariant -1 <= best < i
      invariant best == -1 ==> forall j :: 0 <= j < i ==> hyps[j].status != Supported
      invariant best != -1 ==> hyps[best].status == Supported
      invariant best != -1 ==> forall j :: 0 <= j < i && hyps[j].status == Supported ==>
                hyps[j].postScore <= hyps[best].postScore
      invariant best != -1 ==> forall j :: 0 <= j < best && hyps[j].status == Supported ==>
                hyps[j].postScore < hyps[best].postScore
    {
      if hyps[i].status == Supported && (best == -1 || hyps[i].postScore > hyps[best].postScore) {
        best := i;
      }
    }
    if best == -1 { return "", 0.0; }
    assert IsBest(hyps, best);
    return hyps[best].statement, hyps[best].postScore;
  }

  method NextProposal(catalog: seq<Rule>, inv: Inv) returns (reply: Reply)
    ensures reply == NextStep(catalog, inv)
  {
    if inv.lastResult.Some? && inv.lastHypothesis != "" {
      var rule := RuleByID(catalog, inv.lastHypothesis);
      if rule.Some? {
        var c := rule.value.confirm(inv.lastResult.value);
        var done := c.confirmed && c.confidence >= CONFIDENCE_THRESHOLD;
        return Proposes(Proposal([Hypothesis(rule.value.id, c.finding, if c.confirmed then Supported else Refuted,
                                             c.confidence)],
                                 NoUsage, done, None));
      }
    }
    var tried := HypothesisIds(inv.hypotheses);
    for i := 0 to |catalog|
      invariant FirstUntried(catalog, tried) == FirstUntried(catalog[i..], tried)
    {
      if catalog[i].id !in tried { return Proposes(TestOf(catalog[i])); }
    }
    return Fails(NoMoreRules);
  }

  // ---------- An investigation by rules ----------

  function IterateByRules(b: Budget, catalog: seq<Rule>, hash: Digest, inv: Inv, ev: Event): Progress {
    Iterate(b, None, hash, inv, ev.(reply := NextStep(catalog, inv)))
  }

  function LoopByRules(b: Budget, catalog: seq<Rule>, hash: Digest, env: nat -> Event, k: nat, inv: Inv): (r: Progress)
    ensures r.Over?
    decreases Remaining(b, inv), Unswapped(inv)
  {
    IterationProgresses(b, None, hash, inv, env(k).(reply := NextStep(catalog, inv)));
    var p := IterateByRules(b, catalog, hash, inv, env(k));
    if p.Going? then LoopByRules(b, catalog, hash, env, k + 1, p.inv) else p
  }

  ghost predicate NoRepeats(ids: seq<string>) { forall i, j :: 0 <= i < j < |ids| ==> ids[i] != ids[j] }

  function Pending(catalog: seq<Rule>, inv: Inv): nat { if Owed(catalog, inv) then 1 else 0 }

  /** Each tested rule is a new one, remembered among the hypotheses, and has cost at most two steps. */
  ghost predicate Sparing(catalog: seq<Rule>, inv: Inv) {
    NoRepeats(inv.tested) &&
    (forall id <- inv.tested :: InCatalog(catalog, id) && id in HypothesisIds(inv.hypotheses)) &&
    inv.spendSteps + Pending(catalog, inv) <= 1 + 2 * |inv.tested| && inv.usage.cost == 0
  }

  lemma IdsCons(h: Hypothesis, rest: seq<Hypothesis>)
    ensures HypothesisIds([h] + rest) == {h.id} + HypothesisIds(rest)
  {
    assert forall x :: x in [h] + rest <==> x == h || x in rest;
  }

  lemma {:induction false} MergeOneIds(hyps: seq<Hypothesis>, u: Hypothesis)
    ensures HypothesisIds(MergeOne(hyps, u)) == HypothesisIds(hyps) + {u.id} && u in MergeOne(hyps, u)
    decreases |hyps|
  {
    if hyps == [] {
      assert [u] == [u] + [];
      IdsCons(u, []);
    } else {
      hide HypothesisIds;
      var h, rest := hyps[0], hyps[1..];
      assert hyps == [h] + rest;
      IdsCons(h, rest);
      if h.id == u.id {
        IdsCons(u, rest);
      } else {
        MergeOneIds(rest, u);
        IdsCons(h, MergeOne(rest, u));
      }
    }
  }

  lemma MergeSingle(hyps: seq<Hypothesis>, u: Hypothesis)
    ensures Merge(hyps, [u]) == MergeOne(hyps, u)
    ensures HypothesisIds(Merge(hyps, [u])) == HypothesisIds(hyps) + {u.id} && u in Merge(hyps, [u])
  {
    assert [u][..0] == [];
    MergeOneIds(hyps, u);
  }

  lemma NoneTested(catalog: seq<Rule>, inv: Inv, next: Inv)
    requires Sparing(catalog, inv) && next.tested == inv.tested &&
             HypothesisIds(inv.hypotheses) <= HypothesisIds(next.hypotheses)
    requires next.spendSteps + Pending(catalog, next) <= inv.spendSteps + Pending(catalog, inv) && next.usage.cost == 0
    ensures Sparing(catalog, next)
  {
  }

  lemma OneTested(catalog: seq<Rule>, inv: Inv, next: Inv, id: string)
    requires Sparing(catalog, inv) && next.tested == inv.tested + [id] && InCatalog(catalog, id)
    requires id !in HypothesisIds(inv.hypotheses) &&
             HypothesisIds(next.hypotheses) == HypothesisIds(inv.hypotheses) + {id}
    requires next.spendSteps == inv.spendSteps + 1 && next.usage.cost == 0
    ensures Sparing(catalog, next)
  {
    hide HypothesisIds, InCatalog, Owed;
    forall i, j | 0 <= i < j < |next.tested| ensures next.tested[i] != next.tested[j] {
      if j == |inv.tested| { assert inv.tested[i] in inv.tested; }
    }
  }

  /** What a proposal with one hypothesis does to the counts. */
  lemma ProposalShape(hash: Digest, inv: Inv, p: Proposal, ev: Event)
    requires |p.hypotheses| == 1 && p.usage.cost == 0 && inv.usage.cost == 0
    ensures var next := AfterProposal(hash, inv, p, ev).inv;
            HypothesisIds(next.hypotheses) == HypothesisIds(inv.hypotheses) + {p.hypotheses[0].id} &&
            next.usage.cost == 0 &&
            next.spendSteps == (if p.done then inv.spendSteps else inv.spendSteps + 1) &&
            next.tested == (if p.done || p.call.None? then inv.tested else inv.tested + [p.hypotheses[0].id]) &&
            (p.done || p.call.None? ==> next.lastResult == inv.lastResult)
  {
    hide Merge, MergeOne, HypothesisIds, AfterCall, AfterPure;
    var u := p.hypotheses[0];
    var merged := inv.(hypotheses := Merge(inv.hypotheses, p.hypotheses), usage := Plus(inv.usage, p.usage));
    assert p.hypotheses == [u];
    MergeSingle(inv.hypotheses, u);
    if p.done {
      assert AfterProposal(hash, inv, p, ev) == Over(merged, TermConcluded);
    } else if p.call.None? {
      PureShape(merged, ev);
      assert AfterProposal(hash, inv, p, ev) == Going(AfterPure(merged, ev));
    } else {
      CallShape(hash, merged, p, p.call.value, ev);
      assert AfterProposal(hash, inv, p, ev) == Going(AfterCall(hash, merged, p, p.call.value, ev));
    }
  }

  lemma PureShape(inv: Inv, ev: Event)
    ensures var next := AfterPure(inv, ev);
            next.hypotheses == inv.hypotheses && next.usage == inv.usage && next.spendSteps == inv.spendSteps + 1 &&
            next.tested == inv.tested && next.lastResult == inv.lastResult
  {
  }

  lemma CallShape(hash: Digest, inv: Inv, p: Proposal, call: ToolArgs, ev: Event)
    ensures var next := AfterCall(hash, inv, p, call, ev);
            next.hypotheses == inv.hypotheses && next.usage == inv.usage && next.spendSteps == inv.spendSteps + 1 &&
            next.tested == inv.tested + [HypothesisUnder(p)]
  {
    hide ValidArgs, ToolStep, OutputStored, EvidenceStored;
  }

  lemma AsksNext(b: Budget, catalog: seq<Rule>, hash: Digest, inv: Inv, ev: Event)
    ensures var e := ev.(reply := NextStep(catalog, inv));
            IterateByRules(b, catalog, hash, inv, ev) ==
            if Gate(b, inv, e).Some? then Over(inv, Gate(b, inv, e).value)
            else if e.reply.Fails? then AfterError(Cleared(inv), None, e.reply.error)
            else AfterProposal(hash, Cleared(inv), e.reply.proposal, e)
  {
    hide NextStep, AfterProposal, Gate;
  }

  /** What folding a result in does to the counts. */
  lemma FoldInShape(b: Budget, catalog: seq<Rule>, hash: Digest, inv: Inv, ev: Event)
    requires Owed(catalog, inv) && inv.usage.cost == 0
    ensures var next := IterateByRules(b, catalog, hash, inv, ev).inv;
            next.tested == inv.tested && HypothesisIds(inv.hypotheses) <= HypothesisIds(next.hypotheses) &&
            next.spendSteps + Pending(catalog, next) <= inv.spendSteps + Pending(catalog, inv) && next.usage.cost == 0
  {
    hide IterateByRules, HypothesisIds, Gate, AfterProposal;
    AsksNext(b, catalog, hash, inv, ev);
    ProposalShape(hash, Cleared(inv), FoldIn(RuleByID(catalog, inv.lastHypothesis).value, inv.lastResult.value),
                  ev.(reply := NextStep(catalog, inv)));
  }

  lemma FoldInSparing(b: Budget, catalog: seq<Rule>, hash: Digest, inv: Inv, ev: Event)
    requires Sparing(catalog, inv) && Owed(catalog, inv)
    ensures Sparing(catalog, IterateByRules(b, catalog, hash, inv, ev).inv)
  {
    FoldInShape(b, catalog, hash, inv, ev);
    hide IterateByRules;
    NoneTested(catalog, inv, IterateByRules(b, catalog, hash, inv, ev).inv);
  }

  /** What asking for the next test does: stop, or test the first rule not yet tried. */
  lemma TestShape(b: Budget, catalog: seq<Rule>, hash: Digest, inv: Inv, ev: Event)
    requires !Owed(catalog, inv) && inv.usage.cost == 0
    ensures var p := IterateByRules(b, catalog, hash, inv, ev); var next := p.inv;
            if p.Over? then
              next.tested == inv.tested && next.hypotheses == inv.hypotheses && next.spendSteps == inv.spendSteps &&
              !Owed(catalog, next) && next.usage.cost == 0
            else
              var r := FirstUntried(catalog, HypothesisIds(inv.hypotheses));
              r.Some? && next.tested == inv.tested + [r.value.id] && next.usage.cost == 0 &&
              next.spendSteps == inv.spendSteps + 1 &&
              HypothesisIds(next.hypotheses) == HypothesisIds(inv.hypotheses) + {r.value.id}
  {
    hide IterateByRules, HypothesisIds, Gate, AfterProposal, FirstUntried, RuleByID;
    AsksNext(b, catalog, hash, inv, ev);
    var rule := FirstUntried(catalog, HypothesisIds(inv.hypotheses));
    if rule.Some? {
      ProposalShape(hash, Cleared(inv), TestOf(rule.value), ev.(reply := NextStep(catalog, inv)));
      GoesOn(hash, Cleared(inv), TestOf(rule.value), ev.(reply := NextStep(catalog, inv)));
    }
  }

  lemma GoesOn(hash: Digest, inv: Inv, p: Proposal, ev: Event)
    ensures AfterProposal(hash, inv, p, ev).Over? <==> p.done
  {
    hide Merge, AfterCall, AfterPure;
  }

  lemma TestSparing(b: Budget, catalog: seq<Rule>, hash: Digest, inv: Inv, ev: Event)
    requires Sparing(catalog, inv) && !Owed(catalog, inv)
    ensures Sparing(catalog, IterateByRules(b, catalog, hash, inv, ev).inv)
  {
    TestShape(b, catalog, hash, inv, ev);
    hide IterateByRules, HypothesisIds;
    var p := IterateByRules(b, catalog, hash, inv, ev);
    if p.Over? {
      NoneTested(catalog, inv, p.inv);
    } else {
      FirstUntriedFinds(catalog, HypothesisIds(inv.hypotheses));
      var id := FirstUntried(catalog, HypothesisIds(inv.hypotheses)).value.id;
      OneTested(catalog, inv, p.inv, id);
    }
  }

  lemma {:induction false} LoopSparing(b: Budget, catalog: seq<Rule>, hash: Digest, env: nat -> Event, k: nat, inv: Inv)
    requires Sparing(catalog, inv)
    ensures Sparing(catalog, LoopByRules(b, catalog, hash, env, k, inv).inv)
    decreases Remaining(b, inv), Unswapped(inv)
  {
    hide Sparing, IterateByRules, Remaining, Unswapped, Owed;
    if Owed(catalog, inv) { FoldInSparing(b, catalog, hash, inv, env(k)); }
    else { TestSparing(b, catalog, hash, inv, env(k)); }
    var p := IterateByRules(b, catalog, hash, inv, env(k));
    ByRulesProgresses(b, catalog, hash, inv, env(k));
    if p.Going? { LoopSparing(b, catalog, hash, env, k + 1, p.inv); }
  }

  lemma ByRulesProgresses(b: Budget, catalog: seq<Rule>, hash: Digest, inv: Inv, ev: Event)
    ensures var p := IterateByRules(b, catalog, hash, inv, ev);
            p.Going? ==> Remaining(b, p.inv) < Remaining(b, inv) ||
                         (Remaining(b, p.inv) == Remaining(b, inv) && Unswapped(p.inv) < Unswapped(inv))
  {
    IterationProgresses(b, None, hash, inv, ev.(reply := NextStep(catalog, inv)));
  }

  ghost function CatalogIds(catalog: seq<Rule>): set<string> { set r | r in catalog :: r.id }

  lemma {:induction false} IdsAtMost(catalog: seq<Rule>)
    ensures |CatalogIds(catalog)| <= |catalog|
    decreases |catalog|
  {
    if catalog != [] {
      IdsAtMost(catalog[1..]);
      assert CatalogIds(catalog) == CatalogIds(catalog[1..]) + {catalog[0].id} by {
        assert forall r :: r in catalog <==> r == catalog[0] || r in catalog[1..];
      }
    }
  }

  lemma {:induction false} DistinctAtMost(ids: seq<string>, all: set<string>)
    requires NoRepeats(ids) && forall id <- ids :: id in all
    ensures |ids| <= |all|
    decreases |ids|
  {
    if ids != [] {
      var front, last := ids[..|ids| - 1], ids[|ids| - 1];
      assert last in ids;
      forall id | id in front ensures id in all - {last} {
        var i :| 0 <= i < |front| && front[i] == id;
        assert ids[i] == id && ids[i] in ids;
      }
      DistinctAtMost(front, all - {last});
    }
  }

  /** Whatever the tools answer, the rules reasoner tests each rule of its catalog at most once,
      and no other, and an investigation by rules takes at most one step and two for each rule. */
  lemma EachRuleAtMostOnce(b: Budget, catalog: seq<Rule>, hash: Digest, journalOk: bool, env: nat -> Event)
    ensures var inv := LoopByRules(b, catalog, hash, env, 0, Opening(RulesReasoner, journalOk)).inv;
            NoRepeats(inv.tested) && (forall id <- inv.tested :: InCatalog(catalog, id)) &&
            |inv.tested| <= |catalog| && inv.spendSteps <= 1 + 2 * |catalog|
  {
    var o := Opening(RulesReasoner, journalOk);
    assert Sparing(catalog, o);
    LoopSparing(b, catalog, hash, env, 0, o);
    var inv := LoopByRules(b, catalog, hash, env, 0, o).inv;
    forall id | id in inv.tested ensures id in CatalogIds(catalog) {
      var i :| 0 <= i < |catalog| && catalog[i].id == id;
      assert catalog[i] in catalog;
    }
    DistinctAtMost(inv.tested, CatalogIds(catalog));
    IdsAtMost(catalog);
  }

  // ---------- How an investigation by rules ends ----------

  /** The last word: a rule confirmed at the threshold, or nothing left to try. */
  ghost predicate Settled(catalog: seq<Rule>, inv: Inv) {
    (exists h <- inv.hypotheses :: h.status == Supported && h.postScore >= CONFIDENCE_THRESHOLD) ||
    forall r <- catalog :: r.id in HypothesisIds(inv.hypotheses)
  }

  lemma ConcludesSettled(b: Budget, catalog: seq<Rule>, hash: Digest, inv: Inv, ev: Event)
    requires IterateByRules(b, catalog, hash, inv, ev).Over?
    ensures var p := IterateByRules(b, catalog, hash, inv, ev); p.reason == TermConcluded ==> Settled(catalog, p.inv)
    ensures IterateByRules(b, catalog, hash, inv, ev).reason != TermFailed
  {
    hide Merge, HypothesisIds;
    if Owed(catalog, inv) {
      var u := FoldIn(RuleByID(catalog, inv.lastHypothesis).value, inv.lastResult.value).hypotheses[0];
      MergeSingle(inv.hypotheses, u);
    } else {
      FirstUntriedFinds(catalog, HypothesisIds(inv.hypotheses));
    }
  }

  ghost predicate Uninterrupted(b: Budget, env: nat -> Event) {
    forall k :: !env(k).aborted && env(k).elapsed <= b.wallClock
  }

  lemma {:induction false} LoopConcludes(b: Budget, catalog: seq<Rule>, hash: Digest, env: nat -> Event, k: nat,
                                         inv: Inv)
    requires Uninterrupted(b, env) && Kept(b, inv) && Sparing(catalog, inv) && inv.kind == RulesReasoner
    requires 1 + 2 * |catalog| < b.maxSteps <= b.maxToolCalls && b.maxCost > 0
    ensures var p := LoopByRules(b, catalog, hash, env, k, inv); p.reason == TermConcluded && Settled(catalog, p.inv)
    decreases Remaining(b, inv), Unswapped(inv)
  {
    hide Kept, Sparing, Settled, Remaining, Unswapped, Iterate, NextStep;
    var p := IterateByRules(b, catalog, hash, inv, env(k));
    ByRulesProgresses(b, catalog, hash, inv, env(k));
    IterationKeeps(b, None, hash, inv, env(k).(reply := NextStep(catalog, inv)));
    StaysByRules(b, catalog, hash, inv, env(k));
    if p.Going? {
      if Owed(catalog, inv) { FoldInSparing(b, catalog, hash, inv, env(k)); }
      else { TestSparing(b, catalog, hash, inv, env(k)); }
      LoopConcludes(b, catalog, hash, env, k + 1, p.inv);
    } else {
      GateOpen(b, catalog, hash, inv, env(k));
      ConcludesSettled(b, catalog, hash, inv, env(k));
    }
  }

  lemma StaysByRules(b: Budget, catalog: seq<Rule>, hash: Digest, inv: Inv, ev: Event)
    requires inv.kind == RulesReasoner
    ensures IterateByRules(b, catalog, hash, inv, ev).inv.kind == RulesReasoner
  {
    hide Merge, NextStep;
  }

  lemma GateOpen(b: Budget, catalog: seq<Rule>, hash: Digest, inv: Inv, ev: Event)
    requires Sparing(catalog, inv) && Kept(b, inv) && inv.kind == RulesReasoner && !ev.aborted &&
             ev.elapsed <= b.wallClock
    requires 1 + 2 * |catalog| < b.maxSteps <= b.maxToolCalls && b.maxCost > 0
    ensures Gate(b, inv, ev.(reply := NextStep(catalog, inv))).None?
    ensures IterateByRules(b, catalog, hash, inv, ev).Over? ==>
            IterateByRules(b, catalog, hash, inv, ev).reason in {TermConcluded, TermFailed}
  {
    hide NextStep, Merge;
    forall id | id in inv.tested ensures id in CatalogIds(catalog) {
      var i :| 0 <= i < |catalog| && catalog[i].id == id;
      assert catalog[i] in catalog;
    }
    DistinctAtMost(inv.tested, CatalogIds(catalog));
    IdsAtMost(catalog);
  }

  /** With a step budget above one and two for each rule, only an abort or the wall clock can
      stop an investigation by rules before a rule is confirmed or the catalog is exhausted. */
  lemma RulesConclude(b: Budget, catalog: seq<Rule>, hash: Digest, journalOk: bool, env: nat -> Event)
    requires Uninterrupted(b, env) && 1 + 2 * |catalog| < b.maxSteps <= b.maxToolCalls && b.maxCost > 0
    ensures var p := LoopByRules(b, catalog, hash, env, 0, Opening(RulesReasoner, journalOk));
            p.reason == TermConcluded && Settled(catalog, p.inv)
  {
    OpeningKept(b, hash, RulesReasoner, journalOk);
    assert Sparing(catalog, Opening(RulesReasoner, journalOk));
    LoopConcludes(b, catalog, hash, env, 0, Opening(RulesReasoner, journalOk));
  }
}
