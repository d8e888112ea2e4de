/** What the keep policy guarantees over whole runs of decisions, with the floors adjusted
    in any way between them. */
module KeepPolicyRuns {
  import opened TokenBucket
  import opened KeepPolicy

  /** One evaluation: the policy it meets, the trace, the policy it leaves, the reason. */
  datatype Move = Move(before: Policy, c: Candidate, after: Policy, reason: KeepReason)

  /** A history of evaluations from a fresh policy; only floors change in between. */
  ghost predicate IsRun(cfg: PolicyConfig, run: seq<Move>) {
    Linked(run) && forall k {:trigger Evaluates(cfg, run[k])} :: 0 <= k < |run| ==> Evaluates(cfg, run[k])
  }

  ghost predicate Evaluates(cfg: PolicyConfig, m: Move) {
    m.after == After(cfg, m.before, m.c) && m.reason == Reason(cfg, m.before, m.c)
  }

  ghost predicate Linked(run: seq<Move>) {
    forall k: nat {:trigger PolicyBefore(run, k)} :: k < |run| ==>
      run[k].before == PolicyBefore(run, k).(floors := run[k].before.floors)
  }

  function PolicyBefore(run: seq<Move>, k: nat): Policy
    requires k <= |run|
  {
    if k == 0 then Fresh else run[k - 1].after
  }

  ghost predicate TimedWithin(run: seq<Move>, i: nat, j: nat, start: int, end: int)
    requires i <= j <= |run|
  {
    forall k :: i <= k < j ==> start <= run[k].c.now <= end
  }

  ghost predicate Clocked(run: seq<Move>) {
    forall i, j :: 0 <= i < j < |run| ==> run[i].c.now <= run[j].c.now
  }

  // ---------- One step ----------

  /** What classifying, and hence the whole step, may do to the rare-path state. */
  ghost predicate RareEffect(cfg: PolicyConfig, p: Policy, c: Candidate, q: Policy, reason: KeepReason) {
    var touched := Touched(p, c.tenant);
    if !RareCandidate(cfg, p, c.tenant, c.signature, c.now) then SameRare(touched, q) && reason != KeepRare
    else
      (SameRare(touched, q) && reason != KeepRare) ||
      (SameRare(AfterRare(cfg, touched, c.tenant, c.signature, c.now), q) &&
       (reason == KeepRare ==> RareGranted(cfg, touched, c.tenant, c.now)))
  }

  ghost predicate SameRare(p: Policy, q: Policy) {
    q.rareSeen == p.rareSeen && q.cardinality == p.cardinality && q.rareBuckets == p.rareBuckets
  }

  ghost predicate FloorEffect(cfg: PolicyConfig, p: Policy, c: Candidate, q: Policy, reason: KeepReason) {
    (q.floorBuckets == p.floorBuckets && reason != KeepFloor) ||
    (q.floorBuckets == AfterFloor(cfg, p, c.tenant, c.rootService, c.now).floorBuckets &&
     (reason == KeepFloor ==> FloorGranted(cfg, p, c.tenant, c.rootService, c.now)))
  }

  ghost predicate HistoryEffect(p: Policy, c: Candidate, q: Policy, reason: KeepReason) {
    var h, e := History(p, c.tenant), KeepEvent(c.now, Keeps(reason), reason);
    q.history == p.history[c.tenant := h + [e]] ||
      q.history == p.history[c.tenant := DropOlder(h, c.now - WINDOW) + [e]]
  }

  lemma CommonEffect(cfg: PolicyConfig, p: Policy, c: Candidate)
    ensures var k := ClassifyCommon(cfg, p, c);
            SameRare(p, k.policy) && k.policy.history == p.history && k.reason != KeepRare &&
            FloorEffect(cfg, p, c, k.policy, k.reason)
  {
    hide Probabilistic, FloorBucket;
  }

  lemma ClassifyRare(cfg: PolicyConfig, p: Policy, c: Candidate)
    ensures var k := Classify(cfg, p, c); RareEffect(cfg, p, c, k.policy, k.reason)
  {
    hide ClassifyCommon, FloorEffect, HasError, SlowFires, RareCandidate, RareGranted, AfterRare;
    var q := Touched(p, c.tenant);
    CommonEffect(cfg, q, c);
    CommonEffect(cfg, AfterRare(cfg, q, c.tenant, c.signature, c.now), c);
  }

  lemma FloorEffectFrom(cfg: PolicyConfig, p: Policy, q: Policy, c: Candidate, k: Classified)
    requires q.floorBuckets == p.floorBuckets && FloorEffect(cfg, q, c, k.policy, k.reason)
    ensures FloorEffect(cfg, p, c, k.policy, k.reason)
  {
  }

  lemma ClassifyFloor(cfg: PolicyConfig, p: Policy, c: Candidate)
    ensures var k := Classify(cfg, p, c); FloorEffect(cfg, p, c, k.policy, k.reason)
  {
    hide ClassifyCommon, HasError, SlowFires, RareCandidate, RareGranted, FloorGranted, RareBucket;
    var q := Touched(p, c.tenant);
    var r := AfterRare(cfg, q, c.tenant, c.signature, c.now);
    CommonEffect(cfg, q, c);
    CommonEffect(cfg, r, c);
    FloorEffectFrom(cfg, p, q, c, ClassifyCommon(cfg, q, c));
    FloorEffectFrom(cfg, p, r, c, ClassifyCommon(cfg, r, c));
  }

  lemma ClassifyHistory(cfg: PolicyConfig, p: Policy, c: Candidate)
    ensures Classify(cfg, p, c).policy.history == p.history
  {
    hide HasError, SlowFires, RareCandidate, RareGranted, FloorGranted, RareBucket, FloorBucket, Probabilistic;
  }

  lemma SettleEffect(cfg: PolicyConfig, p: Policy, c: Candidate, reason: KeepReason)
    ensures var s := Settle(cfg, p, c, Earned(c, reason));
            SameRare(p, s.policy) && s.policy.floorBuckets == p.floorBuckets &&
            (s.reason in {KeepRare, KeepFloor} ==> s.reason == reason) &&
            HistoryEffect(p, c, Recorded(s.policy, c.tenant, KeepEvent(c.now, Keeps(s.reason), s.reason)), s.reason)
  {
    hide Settle, HistoryEffect, SameRare, Recorded;
    SettleShape(cfg, p, c, Earned(c, reason));
    var s := Settle(cfg, p, c, Earned(c, reason));
    RecordedEffect(p, c, s.policy, s.reason);
  }

  /** Settling prunes the tenant's history or nothing, and sheds or changes no reason. */
  lemma SettleShape(cfg: PolicyConfig, p: Policy, c: Candidate, reason: KeepReason)
    ensures var s := Settle(cfg, p, c, reason);
            (s.policy == p || s.policy == Pruned(p, c.tenant, c.now)) && (s.reason == reason || s.reason == KeepShed)
  {
    hide ShedEligible, OverRate, ShedsClass, History, Pruned;
  }

  lemma RecordedEffect(p: Policy, c: Candidate, q: Policy, reason: KeepReason)
    requires q == p || q == Pruned(p, c.tenant, c.now)
    ensures SameRare(p, q) && q.floorBuckets == p.floorBuckets
    ensures HistoryEffect(p, c, Recorded(q, c.tenant, KeepEvent(c.now, Keeps(reason), reason)), reason)
  {
    hide DropOlder, Keeps;
  }

  lemma Effects(cfg: PolicyConfig, p: Policy, c: Candidate, k: Classified, s: Classified, q: Policy)
    requires k == Classify(cfg, p, c) && s == Settle(cfg, k.policy, c, Earned(c, k.reason))
    requires q == Recorded(s.policy, c.tenant, KeepEvent(c.now, Keeps(s.reason), s.reason))
    ensures RareEffect(cfg, p, c, q, s.reason) && FloorEffect(cfg, p, c, q, s.reason) &&
            HistoryEffect(p, c, q, s.reason)
  {
    ClassifyRare(cfg, p, c);
    ClassifyFloor(cfg, p, c);
    ClassifyHistory(cfg, p, c);
    SettleEffect(cfg, k.policy, c, k.reason);
  }

  lemma StepEffects(cfg: PolicyConfig, p: Policy, c: Candidate, q: Policy, reason: KeepReason)
    requires q == After(cfg, p, c) && reason == Reason(cfg, p, c)
    ensures RareEffect(cfg, p, c, q, reason) && FloorEffect(cfg, p, c, q, reason) && HistoryEffect(p, c, q, reason)
  {
    var k := Classify(cfg, p, c);
    Effects(cfg, p, c, k, Settle(cfg, k.policy, c, Earned(c, k.reason)), q);
  }

  /** A run seen through the effects of its steps alone. */
  ghost predicate IsTrace(cfg: PolicyConfig, run: seq<Move>) {
    Linked(run) && forall k {:trigger HasEffects(cfg, run[k])} :: 0 <= k < |run| ==> HasEffects(cfg, run[k])
  }

  ghost predicate HasEffects(cfg: PolicyConfig, m: Move) {
    RareEffect(cfg, m.before, m.c, m.after, m.reason) && FloorEffect(cfg, m.before, m.c, m.after, m.reason) &&
    HistoryEffect(m.before, m.c, m.after, m.reason)
  }

  lemma RunIsTrace(cfg: PolicyConfig, run: seq<Move>)
    requires IsRun(cfg, run)
    ensures IsTrace(cfg, run)
  {
    forall k | 0 <= k < |run| ensures HasEffects(cfg, run[k]) {
      var m := run[k];
      assert Evaluates(cfg, m);
      StepEffects(cfg, m.before, m.c, m.after, m.reason);
    }
  }

  /** The bucket a tenant's rare paths draw on; one not yet opened is full. */
  function RareView(cfg: PolicyConfig, p: Policy, t: Tenant, start: int): Bucket {
    RareBucket(cfg, p, t, start)
  }

  /** Either nothing is taken and nothing kept, or the keep is one of the bucket's grants. */
  ghost predicate Draws(b: Bucket, after: Bucket, kept: bool, now: int) {
    (after == b && !kept) || (after == AfterTake(b, now) && (kept ==> Grants(b, now)))
  }

  lemma FullEitherWay(perMinute: real, start: int, now: int)
    requires perMinute >= 0.0 && start <= now
    ensures AfterTake(NewBucket(perMinute, start), now) == AfterTake(NewBucket(perMinute, now), now)
    ensures Grants(NewBucket(perMinute, start), now) == Grants(NewBucket(perMinute, now), now)
  {
    GainGrows(perMinute / 60.0, 0, now - start);
  }

  lemma RareStep(cfg: PolicyConfig, p: Policy, c: Candidate, q: Policy, reason: KeepReason, t: Tenant, start: int)
    requires cfg.rarePathKeepsPerMin >= 0.0 && start <= c.now && RareEffect(cfg, p, c, q, reason)
    ensures Draws(RareView(cfg, p, t, start), RareView(cfg, q, t, start), c.tenant == t && reason == KeepRare, c.now)
  {
    FullEitherWay(cfg.rarePathKeepsPerMin, start, c.now);
  }

  lemma FloorStep(cfg: PolicyConfig, p: Policy, c: Candidate, q: Policy, reason: KeepReason,
                  t: Tenant, service: string, start: int)
    requires cfg.floorTracesPerMinPerService >= 0.0 && start <= c.now && FloorEffect(cfg, p, c, q, reason)
    ensures Draws(FloorBucket(cfg, p, t, service, start), FloorBucket(cfg, q, t, service, start),
                  c.tenant == t && c.rootService == service && reason == KeepFloor, c.now)
  {
    FullEitherWay(cfg.floorTracesPerMinPerService, start, c.now);
  }

  // ---------- Rate bounds ----------

  ghost predicate Sound(b: Bucket, perMinute: real) {
    b.capacity == perMinute && b.rate == perMinute / 60.0 && 0.0 <= b.tokens <= perMinute
  }

  lemma DrawSpends(b: Bucket, after: Bucket, kept: bool, now: int, perMinute: real, start: int, end: int)
    requires perMinute >= 0.0 && Sound(b, perMinute) && Draws(b, after, kept, now) && start <= now <= end
    ensures Sound(after, perMinute)
    ensures Credit(after, start, end) + (if kept then 1.0 else 0.0) <= Credit(b, start, end)
  {
    TakeSpendsCredit(b, start, end, now);
    TakeKeepsTokens(b, now);
  }

  lemma TakeSound(b: Bucket, perMinute: real, now: int)
    requires perMinute >= 0.0 && Sound(b, perMinute)
    ensures Sound(AfterTake(b, now), perMinute)
  {
    TakeKeepsTokens(b, now);
  }

  /** Every bucket a run has opened is within its capacity. */
  ghost predicate BucketsSound(cfg: PolicyConfig, p: Policy) {
    (forall t <- p.rareBuckets :: Sound(p.rareBuckets[t], cfg.rarePathKeepsPerMin)) &&
    (forall k <- p.floorBuckets :: Sound(p.floorBuckets[k], cfg.floorTracesPerMinPerService))
  }

  lemma StepKeepsSound(cfg: PolicyConfig, p: Policy, c: Candidate, q: Policy, reason: KeepReason)
    requires cfg.rarePathKeepsPerMin >= 0.0 && cfg.floorTracesPerMinPerService >= 0.0 && BucketsSound(cfg, p)
    requires RareEffect(cfg, p, c, q, reason) && FloorEffect(cfg, p, c, q, reason)
    ensures BucketsSound(cfg, q)
  {
    hide RareEffect, FloorEffect, Sound;
    RareStepSound(cfg, p, c, q, reason);
    FloorStepSound(cfg, p, c, q, reason);
  }

  lemma RareStepSound(cfg: PolicyConfig, p: Policy, c: Candidate, q: Policy, reason: KeepReason)
    requires cfg.rarePathKeepsPerMin >= 0.0 && BucketsSound(cfg, p) && RareEffect(cfg, p, c, q, reason)
    ensures forall t <- q.rareBuckets :: Sound(q.rareBuckets[t], cfg.rarePathKeepsPerMin)
  {
    hide RareCandidate, RareGranted, Grants, AfterTake, Tracked;
    TakeSound(RareBucket(cfg, p, c.tenant, c.now), cfg.rarePathKeepsPerMin, c.now);
  }

  lemma FloorStepSound(cfg: PolicyConfig, p: Policy, c: Candidate, q: Policy, reason: KeepReason)
    requires cfg.floorTracesPerMinPerService >= 0.0 && BucketsSound(cfg, p) && FloorEffect(cfg, p, c, q, reason)
    ensures forall k <- q.floorBuckets :: Sound(q.floorBuckets[k], cfg.floorTracesPerMinPerService)
  {
    hide FloorGranted, Grants, AfterTake;
    TakeSound(FloorBucket(cfg, p, c.tenant, c.rootService, c.now), cfg.floorTracesPerMinPerService, c.now);
  }

  lemma {:induction false} RunKeepsSound(cfg: PolicyConfig, run: seq<Move>, n: nat)
    requires cfg.rarePathKeepsPerMin >= 0.0 && cfg.floorTracesPerMinPerService >= 0.0 && IsTrace(cfg, run) && n <= |run|
    ensures BucketsSound(cfg, PolicyBefore(run, n))
  {
    if n > 0 {
      RunKeepsSound(cfg, run, n - 1);
      var m := run[n - 1];
      assert HasEffects(cfg, m);
      StepKeepsSound(cfg, m.before, m.c, m.after, m.reason);
    }
  }

  /** KeepRare decisions for a tenant among steps i up to but not including j. */
  function RareKeeps(run: seq<Move>, t: Tenant, i: nat, j: nat): nat
    requires i <= j <= |run|
    decreases j - i
  {
    if i == j then 0
    else (if run[i].reason == KeepRare && run[i].c.tenant == t then 1 else 0) + RareKeeps(run, t, i + 1, j)
  }

  function FloorKeeps(run: seq<Move>, t: Tenant, service: string, i: nat, j: nat): nat
    requires i <= j <= |run|
    decreases j - i
  {
    if i == j then 0
    else (if run[i].reason == KeepFloor && run[i].c.tenant == t && run[i].c.rootService == service then 1 else 0)
         + FloorKeeps(run, t, service, i + 1, j)
  }

  lemma {:induction false} RareWithinCredit(cfg: PolicyConfig, run: seq<Move>, t: Tenant, i: nat, j: nat, start: int,
                                            end: int)
    requires cfg.rarePathKeepsPerMin >= 0.0 && IsTrace(cfg, run)
    requires i <= j <= |run| && start <= end && TimedWithin(run, i, j, start, end)
    requires Sound(RareView(cfg, PolicyBefore(run, i), t, start), cfg.rarePathKeepsPerMin)
    ensures RareKeeps(run, t, i, j) as real <= Credit(RareView(cfg, PolicyBefore(run, i), t, start), start, end)
    decreases j - i
  {
    var b := RareView(cfg, PolicyBefore(run, i), t, start);
    if i == j {
      CreditNotNegative(b, start, end);
    } else {
      var m := run[i];
      assert HasEffects(cfg, m);
      RareStep(cfg, m.before, m.c, m.after, m.reason, t, start);
      DrawSpends(b, RareView(cfg, m.after, t, start), m.c.tenant == t && m.reason == KeepRare,
                 m.c.now, cfg.rarePathKeepsPerMin, start, end);
      RareWithinCredit(cfg, run, t, i + 1, j, start, end);
    }
  }

  lemma {:induction false} FloorWithinCredit(cfg: PolicyConfig, run: seq<Move>, t: Tenant, service: string,
                                             i: nat, j: nat, start: int, end: int)
    requires cfg.floorTracesPerMinPerService >= 0.0 && IsTrace(cfg, run)
    requires i <= j <= |run| && start <= end && TimedWithin(run, i, j, start, end)
    requires Sound(FloorBucket(cfg, PolicyBefore(run, i), t, service, start), cfg.floorTracesPerMinPerService)
    ensures FloorKeeps(run, t, service, i, j) as real
            <= Credit(FloorBucket(cfg, PolicyBefore(run, i), t, service, start), start, end)
    decreases j - i
  {
    var b := FloorBucket(cfg, PolicyBefore(run, i), t, service, start);
    if i == j {
      CreditNotNegative(b, start, end);
    } else {
      var m := run[i];
      assert HasEffects(cfg, m);
      FloorStep(cfg, m.before, m.c, m.after, m.reason, t, service, start);
      DrawSpends(b, FloorBucket(cfg, m.after, t, service, start),
                 m.c.tenant == t && m.c.rootService == service && m.reason == KeepFloor,
                 m.c.now, cfg.floorTracesPerMinPerService, start, end);
      FloorWithinCredit(cfg, run, t, service, i + 1, j, start, end);
    }
  }

  /** Any stretch of a run timed within [start, end] keeps at most the bucket's capacity plus
      its accrual as rare paths of a tenant, and as floor traces of a tenant's service. */
  lemma KeepsPerWindowBounded(cfg: PolicyConfig, run: seq<Move>, t: Tenant, service: string, i: nat, j: nat,
                              start: int, end: int)
    requires cfg.rarePathKeepsPerMin >= 0.0 && cfg.floorTracesPerMinPerService >= 0.0 && IsRun(cfg, run)
    requires i <= j <= |run| && start <= end && TimedWithin(run, i, j, start, end)
    ensures RareKeeps(run, t, i, j) as real
            <= cfg.rarePathKeepsPerMin + Gain(cfg.rarePathKeepsPerMin / 60.0, end - start)
    ensures FloorKeeps(run, t, service, i, j) as real
            <= cfg.floorTracesPerMinPerService + Gain(cfg.floorTracesPerMinPerService / 60.0, end - start)
  {
    RunIsTrace(cfg, run);
    RunKeepsSound(cfg, run, i);
    RareWithinCredit(cfg, run, t, i, j, start, end);
    CreditBounded(RareView(cfg, PolicyBefore(run, i), t, start), start, end);
    FloorWithinCredit(cfg, run, t, service, i, j, start, end);
    CreditBounded(FloorBucket(cfg, PolicyBefore(run, i), t, service, start), start, end);
  }

  // ---------- Rare signatures ----------

  lemma SeenStep(cfg: PolicyConfig, p: Policy, c: Candidate, q: Policy, reason: KeepReason,
                 t: Tenant, sig: Signature, since: int)
    requires since <= c.now && RareEffect(cfg, p, c, q, reason)
    requires (t, sig) in p.rareSeen && since <= p.rareSeen[(t, sig)]
    ensures (t, sig) in q.rareSeen && since <= q.rareSeen[(t, sig)]
  {
  }

  lemma {:induction false} SeenSince(cfg: PolicyConfig, run: seq<Move>, i: nat, j: nat)
    requires IsTrace(cfg, run) && Clocked(run) && i < j <= |run| && run[i].reason == KeepRare
    ensures var c, q := run[i].c, PolicyBefore(run, j);
            (c.tenant, c.signature) in q.rareSeen && c.now <= q.rareSeen[(c.tenant, c.signature)]
    decreases j
  {
    var m := run[j - 1];
    assert HasEffects(cfg, m);
    if j > i + 1 {
      SeenSince(cfg, run, i, j - 1);
      SeenStep(cfg, m.before, m.c, m.after, m.reason, run[i].c.tenant, run[i].c.signature, run[i].c.now);
    }
  }

  /** Two rare keeps of one tenant's signature lie more than the lookback apart. */
  lemma RareKeepsSpaced(cfg: PolicyConfig, run: seq<Move>, i: nat, j: nat)
    requires IsRun(cfg, run) && Clocked(run) && i < j < |run|
    requires run[i].reason == KeepRare && run[j].reason == KeepRare
    requires run[i].c.tenant == run[j].c.tenant && run[i].c.signature == run[j].c.signature
    ensures run[j].c.now - run[i].c.now > cfg.rarePathLookback
  {
    RunIsTrace(cfg, run);
    SeenSince(cfg, run, i, j);
    assert HasEffects(cfg, run[j]);
  }

  lemma CardinalityStep(cfg: PolicyConfig, p: Policy, c: Candidate, q: Policy, reason: KeepReason, t: Tenant)
    requires RareEffect(cfg, p, c, q, reason)
    ensures |Tracked(q, t)| <= |Tracked(p, t)| || |Tracked(q, t)| <= cfg.maxPathSignatureCardinality
  {
    if c.signature in Tracked(p, c.tenant) {
      assert Tracked(p, c.tenant) + {c.signature} == Tracked(p, c.tenant);
    }
  }

  /** The signatures tracked for a tenant never outnumber the cap. */
  lemma {:induction false} CardinalityCapped(cfg: PolicyConfig, run: seq<Move>, t: Tenant, n: nat)
    requires IsTrace(cfg, run) && n <= |run|
    ensures |Tracked(PolicyBefore(run, n), t)| == 0 ||
            |Tracked(PolicyBefore(run, n), t)| <= cfg.maxPathSignatureCardinality
  {
    if n > 0 {
      CardinalityCapped(cfg, run, t, n - 1);
      var m := run[n - 1];
      assert HasEffects(cfg, m);
      CardinalityStep(cfg, m.before, m.c, m.after, m.reason, t);
    }
  }

  // ---------- The rolling window and the shed order ----------

  /** Everything decided for the tenant in the first n steps, oldest first. */
  function AllEvents(run: seq<Move>, t: Tenant, n: nat): seq<KeepEvent>
    requires n <= |run|
  {
    if n == 0 then []
    else
      var rest, m := AllEvents(run, t, n - 1), run[n - 1];
      if m.c.tenant == t then rest + [EventOf(m)] else rest
  }

  function Since(events: seq<KeepEvent>, cutoff: int): (r: seq<KeepEvent>)
    ensures forall k :: 0 <= k < |r| ==> r[k].at >= cutoff && r[k] in events
  {
    if events == [] then []
    else Since(events[..|events| - 1], cutoff) + if events[|events| - 1].at >= cutoff then [events[|events| - 1]]
    else []
  }

  lemma {:induction false} DropEarlierFirst(hist: seq<KeepEvent>, earlier: int, cutoff: int)
    requires earlier <= cutoff
    ensures DropOlder(DropOlder(hist, earlier), cutoff) == DropOlder(hist, cutoff)
    decreases |hist|
  {
    if hist != [] && hist[0].at < earlier { DropEarlierFirst(hist[1..], earlier, cutoff); }
  }

  lemma {:induction false} DropThenAppend(hist: seq<KeepEvent>, e: KeepEvent, cutoff: int)
    ensures DropOlder(hist + [e], cutoff) ==
            if DropOlder(hist, cutoff) == [] then (if e.at < cutoff then [] else [e]) else DropOlder(hist, cutoff) + [e]
    decreases |hist|
  {
    if hist == [] {
      assert hist + [e] == [e];
    } else if hist[0].at < cutoff {
      assert (hist + [e])[1..] == hist[1..] + [e];
      DropThenAppend(hist[1..], e, cutoff);
    }
  }

  lemma {:induction false} EventsPrecede(run: seq<Move>, t: Tenant, n: nat, now: int)
    requires n <= |run| && forall k :: 0 <= k < n ==> run[k].c.now <= now
    ensures forall e :: e in AllEvents(run, t, n) ==> e.at <= now
    decreases n
  {
    if n > 0 { EventsPrecede(run, t, n - 1, now); }
  }

  lemma SameWindow(hist: seq<KeepEvent>, all: seq<KeepEvent>, e: KeepEvent, cutoff: int)
    requires DropOlder(hist, cutoff) == Since(all, cutoff) && forall x :: x in all ==> x.at <= e.at
    ensures DropOlder(hist + [e], cutoff) == Since(all + [e], cutoff)
  {
    DropThenAppend(hist, e, cutoff);
    assert (all + [e])[..|all|] == all;
    var since := Since(all, cutoff);
    if since != [] { assert since[0] in all; }
  }

  lemma OwnWindowStep(h: seq<KeepEvent>, after: seq<KeepEvent>, e: KeepEvent, all: seq<KeepEvent>, cutoff: int)
    requires after == h + [e] || after == DropOlder(h, e.at - WINDOW) + [e]
    requires e.at - WINDOW <= cutoff && DropOlder(h, cutoff) == Since(all, cutoff) && forall x :: x in all ==>
             x.at <= e.at
    ensures DropOlder(after, cutoff) == Since(all + [e], cutoff)
  {
    SameWindow(h, all, e, cutoff);
    DropEarlierFirst(h, e.at - WINDOW, cutoff);
    SameWindow(DropOlder(h, e.at - WINDOW), all, e, cutoff);
  }

  function EventOf(m: Move): KeepEvent { KeepEvent(m.c.now, Keeps(m.reason), m.reason) }

  lemma HistoryStep(m: Move, t: Tenant)
    requires HistoryEffect(m.before, m.c, m.after, m.reason)
    ensures var h, after := History(m.before, t), History(m.after, t);
            if m.c.tenant != t then after == h
            else after == h + [EventOf(m)] || after == DropOlder(h, m.c.now - WINDOW) + [EventOf(m)]
  {
  }

  lemma WindowStep(m: Move, t: Tenant, all: seq<KeepEvent>, cutoff: int)
    requires HistoryEffect(m.before, m.c, m.after, m.reason) && m.c.now - WINDOW <= cutoff
    requires DropOlder(History(m.before, t), cutoff) == Since(all, cutoff) && forall x :: x in all ==> x.at <= m.c.now
    ensures DropOlder(History(m.after, t), cutoff) == Since(if m.c.tenant == t then all + [EventOf(m)] else all, cutoff)
  {
    HistoryStep(m, t);
    if m.c.tenant == t {
      OwnWindowStep(History(m.before, t), History(m.after, t), EventOf(m), all, cutoff);
    }
  }

  lemma EmptyWindow(t: Tenant, cutoff: int)
    ensures DropOlder(History(Fresh, t), cutoff) == [] == Since([], cutoff)
  {
  }

  /** However often it was pruned on the way, the history pruned at any present or later time
      holds exactly the tenant's events of the last minute. */
  lemma {:induction false} WindowIsLastMinute(cfg: PolicyConfig, run: seq<Move>, t: Tenant, n: nat, now: int)
    requires IsTrace(cfg, run) && Clocked(run) && n <= |run| && (n > 0 ==> run[n - 1].c.now <= now)
    ensures DropOlder(History(PolicyBefore(run, n), t), now - WINDOW) == Since(AllEvents(run, t, n), now - WINDOW)
    decreases n
  {
    hide RareEffect, FloorEffect, HistoryEffect, DropOlder, Since;
    if n == 0 {
      EmptyWindow(t, now - WINDOW);
    } else {
      var m := run[n - 1];
      WindowIsLastMinute(cfg, run, t, n - 1, now);
      assert HasEffects(cfg, m) && History(m.before, t) == History(PolicyBefore(run, n - 1), t);
      EventsPrecede(run, t, n - 1, m.c.now);
      WindowStep(m, t, AllEvents(run, t, n - 1), now - WINDOW);
    }
  }

  // ---------- The class table ----------

  function Length(s: SpanFacts): nat { if s.start < s.end then s.end - s.start else 0 }

  /** The baseline is warm and the longest span is longer than its 99th percentile and, reread as
      a signed 64-bit number, than the configured minimum. */
  ghost predicate IsSlow(cfg: PolicyConfig, c: Candidate) {
    c.baseline.warmed &&
    exists i :: 0 <= i < |c.spans| && (forall j :: 0 <= j < |c.spans| ==> Length(c.spans[j]) <= Length(c.spans[i])) &&
                Length(c.spans[i]) > c.baseline.p99 && Signed(Length(c.spans[i])) > cfg.slowMinDuration
  }

  /** The signature is tracked or there is room for it, it was not kept within the lookback, and the
      tenant's bucket, full when first used, has a token. */
  predicate HasRareToken(cfg: PolicyConfig, p: Policy, c: Candidate) {
    var tracked := if c.tenant in p.cardinality then p.cardinality[c.tenant] else {};
    (c.signature in tracked || |tracked| < cfg.maxPathSignatureCardinality) &&
    ((c.tenant, c.signature) !in p.rareSeen || c.now - p.rareSeen[(c.tenant, c.signature)] > cfg.rarePathLookback) &&
    Grants(if c.tenant in p.rareBuckets then p.rareBuckets[c.tenant] else NewBucket(cfg.rarePathKeepsPerMin, c.now),
           c.now)
  }

  predicate HasFloorToken(cfg: PolicyConfig, p: Policy, c: Candidate) {
    var key := (c.tenant, c.rootService);
    Grants(if key in p.floorBuckets then p.floorBuckets[key] else NewBucket(cfg.floorTracesPerMinPerService, c.now),
           c.now)
  }

  /** The hash of the trace id falls below the tenant's sampling floor, in ten-thousandths. */
  predicate IsSampled(cfg: PolicyConfig, p: Policy, c: Candidate) {
    var floor := if c.tenant in p.floors then p.floors[c.tenant] else cfg.healthySampleRate;
    c.idHash % 10000 < Truncate(floor * 10000.0)
  }

  /** The first of the six classes that claims the trace. */
  ghost function ClassOf(cfg: PolicyConfig, p: Policy, c: Candidate): KeepReason {
    if exists i :: 0 <= i < |c.spans| && c.spans[i].isError then KeepError
    else if IsSlow(cfg, c) then KeepSlow
    else if HasRareToken(cfg, p, c) then KeepRare
    else if c.interest.matched then KeepInterest
    else if HasFloorToken(cfg, p, c) then KeepFloor
    else if IsSampled(cfg, p, c) then KeepProbabilistic
    else KeepDropped
  }

  lemma TruncatesTowardZero(x: real)
    ensures x >= 0.0 ==> Truncate(x) as real <= x < (Truncate(x) + 1) as real
    ensures x < 0.0 ==> (Truncate(x) - 1) as real < x <= Truncate(x) as real
  {
  }

  lemma SlowExactly(cfg: PolicyConfig, c: Candidate)
    ensures SlowFires(cfg, c) <==> IsSlow(cfg, c)
  {
    var max := MaxDuration(c.spans);
    hide MaxDuration, Signed;
    assert forall i :: 0 <= i < |c.spans| ==> Length(c.spans[i]) == Duration(c.spans[i]);
    if SlowFires(cfg, c) {
      var i :| 0 <= i < |c.spans| && Duration(c.spans[i]) == max;
      assert Length(c.spans[i]) == max;
    }
    if IsSlow(cfg, c) {
      var i :| 0 <= i < |c.spans| && (forall j :: 0 <= j < |c.spans| ==> Length(c.spans[j]) <= Length(c.spans[i])) &&
               Length(c.spans[i]) > c.baseline.p99 && Signed(Length(c.spans[i])) > cfg.slowMinDuration;
      assert Length(c.spans[i]) == max;
    }
  }

  /** While durations fit in 63 bits, slow means that some span is longer than both limits. */
  lemma SlowBySomeSpan(cfg: PolicyConfig, c: Candidate)
    requires forall i :: 0 <= i < |c.spans| ==> Length(c.spans[i]) < TWO_63
    ensures IsSlow(cfg, c) <==>
            c.baseline.warmed && exists i :: 0 <= i < |c.spans| && Length(c.spans[i]) > c.baseline.p99 &&
                                             Length(c.spans[i]) > cfg.slowMinDuration
  {
    if IsSlow(cfg, c) {
      var i :| 0 <= i < |c.spans| && (forall j :: 0 <= j < |c.spans| ==> Length(c.spans[j]) <= Length(c.spans[i])) &&
               Length(c.spans[i]) > c.baseline.p99 && Signed(Length(c.spans[i])) > cfg.slowMinDuration;
      FitsSigned(Length(c.spans[i]));
    } else if c.baseline.warmed {
      hide Length, Signed;
      forall i | 0 <= i < |c.spans| && Length(c.spans[i]) > c.baseline.p99
        ensures Length(c.spans[i]) <= cfg.slowMinDuration
      {
        var l := LongestSpan(c.spans);
        FitsSigned(Length(c.spans[l]));
      }
    }
  }

  /** The signed reading is the one 64-bit number congruent to x between -2 to the 63 and 2 to the 63. */
  lemma SignedExactly(x: nat)
    ensures -TWO_63 <= Signed(x) < TWO_63 && (x - Signed(x)) % TWO_64 == 0
  {
  }

  lemma FitsSigned(x: nat)
    requires x < TWO_63
    ensures Signed(x) == x
  {
  }

  lemma {:induction false} LongestSpan(spans: seq<SpanFacts>) returns (l: nat)
    requires spans != []
    ensures l < |spans| && forall j :: 0 <= j < |spans| ==> Length(spans[j]) <= Length(spans[l])
    decreases |spans|
  {
    l := |spans| - 1;
    if |spans| > 1 {
      var k := LongestSpan(spans[..|spans| - 1]);
      if Length(spans[k]) > Length(spans[l]) { l := k; }
    }
  }

  lemma CommonClass(cfg: PolicyConfig, p: Policy, q: Policy, c: Candidate)
    requires q.floorBuckets == p.floorBuckets && q.floors == p.floors
    ensures ClassifyCommon(cfg, q, c).reason ==
            if c.interest.matched then KeepInterest
            else if HasFloorToken(cfg, p, c) then KeepFloor
            else if IsSampled(cfg, p, c) then KeepProbabilistic
            else KeepDropped
  {
    hide Grants, NewBucket, AfterTake;
  }

  lemma RareTokenExactly(cfg: PolicyConfig, p: Policy, c: Candidate)
    ensures HasRareToken(cfg, p, c) <==>
            RareCandidate(cfg, p, c.tenant, c.signature, c.now) &&
            RareGranted(cfg, Touched(p, c.tenant), c.tenant, c.now)
  {
    hide Grants, NewBucket;
  }

  /** Classification earns exactly that class. */
  lemma ClassExactly(cfg: PolicyConfig, p: Policy, c: Candidate)
    ensures Classify(cfg, p, c).reason == ClassOf(cfg, p, c)
  {
    SlowExactly(cfg, c);
    RareTokenExactly(cfg, p, c);
    var q := Touched(p, c.tenant);
    var r := AfterRare(cfg, q, c.tenant, c.signature, c.now);
    CommonClass(cfg, p, q, c);
    CommonClass(cfg, p, r, c);
    hide ClassifyCommon, HasRareToken, RareCandidate, RareGranted, HasFloorToken, IsSampled, SlowFires, IsSlow;
    hide AfterRare;
  }

  /** Exactly the traces that earn the rare class are remembered: their signature is tracked from then
      on, and was last kept now. */
  lemma RareRememberedExactly(cfg: PolicyConfig, p: Policy, c: Candidate)
    ensures var q := Classify(cfg, p, c).policy;
            if ClassOf(cfg, p, c) == KeepRare
            then q.rareSeen == p.rareSeen[(c.tenant, c.signature) := c.now] &&
                 Tracked(q, c.tenant) == Tracked(p, c.tenant) + {c.signature}
            else q.rareSeen == p.rareSeen && Tracked(q, c.tenant) == Tracked(p, c.tenant)
  {
    SlowExactly(cfg, c);
    RareTokenExactly(cfg, p, c);
    var q := Touched(p, c.tenant);
    CommonEffect(cfg, q, c);
    CommonEffect(cfg, AfterRare(cfg, q, c.tenant, c.signature, c.now), c);
    hide ClassifyCommon, HasRareToken, RareCandidate, HasFloorToken, IsSampled, SlowFires, IsSlow, FloorEffect;
    hide Grants, AfterTake, NewBucket;
  }

  /** The class a trace would be kept under, were nothing shed: a truncated trace that any class
      claims counts as truncated. */
  ghost function Contender(cfg: PolicyConfig, m: Move): KeepReason {
    var k := ClassOf(cfg, m.before, m.c);
    if m.c.truncated && k != KeepDropped then KeepTruncated else k
  }

  lemma ContenderEarned(cfg: PolicyConfig, m: Move)
    ensures Contender(cfg, m) == Earned(m.c, Classify(cfg, m.before, m.c).reason)
  {
    ClassExactly(cfg, m.before, m.c);
    hide ClassOf, Classify;
  }

  /** The decision keeps the trace unless it is dropped or shed, names a matched predicate, and
      lists every other class that would have claimed it: error, slow, a rare candidate with or
      without a token, interest. */
  lemma DecisionExactly(cfg: PolicyConfig, m: Move, k: KeepReason)
    requires Evaluates(cfg, m)
    ensures var d := DecisionOn(cfg, m.before, m.c);
            && d.tenant == m.c.tenant && d.traceID == m.c.traceID && d.decidedAt == m.c.now && d.reason == m.reason
            && (d.keep <==> m.reason != KeepDropped && m.reason != KeepShed)
            && d.matchedPredicateID == (if m.c.interest.matched then m.c.interest.predicateID else "")
            && (k in d.secondary <==>
                  && k != Contender(cfg, m)
                  && match k
                     case KeepError => exists i :: 0 <= i < |m.c.spans| && m.c.spans[i].isError
                     case KeepSlow => IsSlow(cfg, m.c)
                     case KeepRare => RareCandidate(cfg, m.before, m.c.tenant, m.c.signature, m.c.now)
                     case KeepInterest => m.c.interest.matched
                     case _ => false)
  {
    ContenderEarned(cfg, m);
    SlowExactly(cfg, m.c);
    hide Contender, Classify, Settle, SlowFires, IsSlow, RareCandidate, After;
  }

  /** The classes shed before this one. */
  function ShedBefore(k: KeepReason): set<KeepReason> {
    match k
    case KeepFloor => {KeepProbabilistic}
    case KeepInterest => {KeepProbabilistic, KeepFloor}
    case KeepRare => {KeepProbabilistic, KeepFloor, KeepInterest}
    case KeepSlow => {KeepProbabilistic, KeepFloor, KeepInterest, KeepRare}
    case _ => {}
  }

  lemma RanksAreOrder(j: KeepReason, k: KeepReason)
    requires ShedRank(k) >= 0
    ensures 0 <= ShedRank(j) < ShedRank(k) <==> j in ShedBefore(k)
  {
  }

  function KeptEvents(w: seq<KeepEvent>): set<int> { set i | 0 <= i < |w| && w[i].keep }

  lemma {:induction false} KeptInCounts(w: seq<KeepEvent>)
    ensures KeptIn(w) == |KeptEvents(w)|
    decreases |w|
  {
    if w != [] {
      var front, last := w[..|w| - 1], |w| - 1;
      KeptInCounts(front);
      assert KeptEvents(w) == KeptEvents(front) + if w[last].keep then {last} else {};
    }
  }

  function LastMinute(run: seq<Move>, n: nat): seq<KeepEvent>
    requires n < |run|
  {
    Since(AllEvents(run, run[n].c.tenant, n), run[n].c.now - WINDOW)
  }

  /** The class may be shed, the window is over the keep rate, and no less protected class has
      a keep standing in it. */
  ghost predicate MustShed(cfg: PolicyConfig, c: Candidate, k: KeepReason, w: seq<KeepEvent>) {
    k in {KeepSlow, KeepRare, KeepInterest, KeepFloor, KeepProbabilistic} &&
    (k == KeepInterest ==> c.interest.scope == ScopeRecurrence) &&
    w != [] && |KeptEvents(w)| as real / |w| as real > cfg.maxKeepRate &&
    forall i :: 0 <= i < |w| && w[i].keep ==> w[i].reason !in ShedBefore(k)
  }

  lemma SettleExactly(cfg: PolicyConfig, p: Policy, c: Candidate, k: KeepReason, w: seq<KeepEvent>)
    requires k != KeepShed && DropOlder(History(p, c.tenant), c.now - WINDOW) == w
    ensures Settle(cfg, p, c, k).reason == if MustShed(cfg, c, k, w) then KeepShed else k
  {
    NothingLower(w, k);
    RankedIsSheddable(k);
    KeptInCounts(w);
    assert History(Pruned(p, c.tenant, c.now), c.tenant) == w;
  }

  lemma RankedIsSheddable(k: KeepReason)
    ensures ShedRank(k) >= 0 <==> k in {KeepSlow, KeepRare, KeepInterest, KeepFloor, KeepProbabilistic}
  {
  }

  lemma ReasonExactly(cfg: PolicyConfig, m: Move, w: seq<KeepEvent>)
    requires Evaluates(cfg, m) && DropOlder(History(m.before, m.c.tenant), m.c.now - WINDOW) == w
    ensures m.reason == if MustShed(cfg, m.c, Contender(cfg, m), w) then KeepShed else Contender(cfg, m)
  {
    var k := Classify(cfg, m.before, m.c);
    ClassifyHistory(cfg, m.before, m.c);
    NeverClassifiedShed(cfg, m.before, m.c);
    ContenderEarned(cfg, m);
    hide Contender, Classify, Settle, MustShed;
    SettleExactly(cfg, k.policy, m.c, Contender(cfg, m), w);
  }

  lemma NeverClassifiedShed(cfg: PolicyConfig, p: Policy, c: Candidate)
    ensures Classify(cfg, p, c).reason !in {KeepShed, KeepTruncated}
  {
  }

  lemma NothingLower(w: seq<KeepEvent>, k: KeepReason)
    ensures (forall r :: 0 <= r < ShedRank(k) ==> !Standing(w, r)) <==>
            forall i :: 0 <= i < |w| && w[i].keep ==> ShedRank(k) < 0 || w[i].reason !in ShedBefore(k)
  {
    if ShedRank(k) >= 0 {
      forall i | 0 <= i < |w| ensures 0 <= ShedRank(w[i].reason) < ShedRank(k) <==> w[i].reason in ShedBefore(k) {
        RanksAreOrder(w[i].reason, k);
      }
    }
    if i :| 0 <= i < |w| && w[i].keep && 0 <= ShedRank(w[i].reason) < ShedRank(k) {
      assert Standing(w, ShedRank(w[i].reason));
    }
  }

  lemma PrunedIsLastMinute(cfg: PolicyConfig, run: seq<Move>, n: nat)
    requires IsTrace(cfg, run) && Clocked(run) && n < |run|
    ensures DropOlder(History(run[n].before, run[n].c.tenant), run[n].c.now - WINDOW) == LastMinute(run, n)
  {
    WindowIsLastMinute(cfg, run, run[n].c.tenant, n, run[n].c.now);
    assert run[n].before == PolicyBefore(run, n).(floors := run[n].before.floors);
  }

  /** A trace is shed exactly when its class may be shed, the tenant's last minute is over the
      keep rate, and no less protected class has a keep standing in that minute; a trace that
      is not shed keeps its class. */
  lemma ShedExactly(cfg: PolicyConfig, run: seq<Move>, n: nat)
    requires IsRun(cfg, run) && Clocked(run) && n < |run|
    ensures run[n].reason ==
            if MustShed(cfg, run[n].c, Contender(cfg, run[n]), LastMinute(run, n)) then KeepShed
            else Contender(cfg, run[n])
  {
    RunIsTrace(cfg, run);
    PrunedIsLastMinute(cfg, run, n);
    ReasonExactly(cfg, run[n], LastMinute(run, n));
  }

  /** A trace with an error, a truncated one, and one an investigation asked for are never shed:
      the first is always kept, and a truncated one is kept unless nothing at all claimed it. */
  lemma NeverShed(cfg: PolicyConfig, run: seq<Move>, n: nat)
    requires IsRun(cfg, run) && n < |run|
    ensures var c, k, r := run[n].c, Contender(cfg, run[n]), run[n].reason;
            ((exists i :: 0 <= i < |c.spans| && c.spans[i].isError) ==>
               r == if c.truncated then KeepTruncated else KeepError) &&
            (c.truncated ==> r in {KeepTruncated, KeepDropped}) &&
            (k == KeepInterest && c.interest.scope == ScopeInvestigation ==> r == KeepInterest)
  {
    var m := run[n];
    RankedIsSheddable(Contender(cfg, m));
    ContenderEarned(cfg, m);
    assert Evaluates(cfg, m);
  }
}
