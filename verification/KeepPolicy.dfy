/** The six-class keep policy with its rare-path cache, token buckets and the rolling
    keep-rate cap. Times are Unix nanoseconds. */
module KeepPolicy {
  import opened TokenBucket

  const WINDOW := 60_000_000_000
  const TWO_63 := 0x8000_0000_0000_0000
  const TWO_64 := 0x1_0000_0000_0000_0000

  type Tenant = string
  type Signature = int

  datatype KeepReason = KeepError | KeepSlow | KeepRare | KeepInterest | KeepFloor
                      | KeepProbabilistic | KeepDropped | KeepShed | KeepTruncated

  datatype Scope = ScopeInvestigation | ScopeRecurrence

  datatype PolicyConfig = PolicyConfig(slowMinDuration: int, rarePathLookback: int, rarePathKeepsPerMin: real,
                                       maxPathSignatureCardinality: int, floorTracesPerMinPerService: real,
                                       healthySampleRate: real, maxKeepRate: real)

  datatype SpanFacts = SpanFacts(isError: bool, start: nat, end: nat)
  datatype Baseline = Baseline(p99: nat, warmed: bool)
  datatype Match = Match(matched: bool, predicateID: string, scope: Scope)

  /** One trace to decide, with the clock reading and the hash of its id. */
  datatype Candidate = Candidate(tenant: Tenant, traceID: string, idHash: nat, spans: seq<SpanFacts>, truncated: bool,
                                 signature: Signature, rootService: string, baseline: Baseline, interest: Match,
                                 now: int)

  datatype Decision = Decision(tenant: Tenant, traceID: string, keep: bool, reason: KeepReason,
                               matchedPredicateID: string, secondary: set<KeepReason>, decidedAt: int)

  datatype KeepEvent = KeepEvent(at: int, keep: bool, reason: KeepReason)

  datatype Policy = Policy(rareSeen: map<(Tenant, Signature), int>, cardinality: map<Tenant, set<Signature>>,
                           rareBuckets: map<Tenant, Bucket>, floorBuckets: map<(Tenant, string), Bucket>,
                           floors: map<Tenant, real>, history: map<Tenant, seq<KeepEvent>>)

  const Fresh := Policy(map[], map[], map[], map[], map[], map[])

  // ---------- Facts about one trace ----------

  function Duration(s: SpanFacts): nat { if s.end <= s.start then 0 else s.end - s.start }

  predicate HasError(spans: seq<SpanFacts>) { exists i :: 0 <= i < |spans| && spans[i].isError }

  ghost predicate IsMaxDuration(spans: seq<SpanFacts>, max: nat) {
    (forall i :: 0 <= i < |spans| ==> Duration(spans[i]) <= max) &&
    (max == 0 || exists i :: 0 <= i < |spans| && Duration(spans[i]) == max)
  }

  function MaxDuration(spans: seq<SpanFacts>): (max: nat)
    ensures IsMaxDuration(spans, max)
  {
    if spans == [] then 0
    else
      var rest := MaxDuration(spans[..|spans| - 1]);
      var d := Duration(spans[|spans| - 1]);
      if d > rest then d else rest
  }

  /** An unsigned 64-bit duration reread as signed. */
  function Signed(x: nat): int {
    var w := x % TWO_64;
    if w < TWO_63 then w else w - TWO_64
  }

  predicate SlowFires(cfg: PolicyConfig, c: Candidate) {
    var d := MaxDuration(c.spans);
    c.baseline.warmed && d > c.baseline.p99 && Signed(d) > cfg.slowMinDuration
  }

  function Truncate(x: real): int { if x >= 0.0 then x.Floor else -((-x).Floor) }

  predicate Probabilistic(idHash: nat, floor: real) { idHash % 10000 < Truncate(floor * 10000.0) }

  function CurrentFloor(cfg: PolicyConfig, p: Policy, t: Tenant): real {
    if t in p.floors then p.floors[t] else cfg.healthySampleRate
  }

  // ---------- Rare paths and service floors ----------

  function Tracked(p: Policy, t: Tenant): set<Signature> {
    if t in p.cardinality then p.cardinality[t] else {}
  }

  predicate RareCandidate(cfg: PolicyConfig, p: Policy, t: Tenant, sig: Signature, now: int) {
    (sig in Tracked(p, t) || |Tracked(p, t)| < cfg.maxPathSignatureCardinality) &&
    ((t, sig) in p.rareSeen ==> now - p.rareSeen[(t, sig)] > cfg.rarePathLookback)
  }

  function Touched(p: Policy, t: Tenant): Policy { p.(cardinality := p.cardinality[t := Tracked(p, t)]) }

  function RareBucket(cfg: PolicyConfig, p: Policy, t: Tenant, now: int): Bucket {
    if t in p.rareBuckets then p.rareBuckets[t] else NewBucket(cfg.rarePathKeepsPerMin, now)
  }

  predicate RareGranted(cfg: PolicyConfig, p: Policy, t: Tenant, now: int) { Grants(RareBucket(cfg, p, t, now), now) }

  function AfterRare(cfg: PolicyConfig, p: Policy, t: Tenant, sig: Signature, now: int): Policy {
    var b := RareBucket(cfg, p, t, now);
    var q := p.(rareBuckets := p.rareBuckets[t := AfterTake(b, now)]);
    if !Grants(b, now) then q
    else q.(rareSeen := q.rareSeen[(t, sig) := now], cardinality := q.cardinality[t := Tracked(q, t) + {sig}])
  }

  function FloorBucket(cfg: PolicyConfig, p: Policy, t: Tenant, service: string, now: int): Bucket {
    if (t, service) in p.floorBuckets then p.floorBuckets[(t, service)]
    else NewBucket(cfg.floorTracesPerMinPerService, now)
  }

  predicate FloorGranted(cfg: PolicyConfig, p: Policy, t: Tenant, service: string, now: int) {
    Grants(FloorBucket(cfg, p, t, service, now), now)
  }

  function AfterFloor(cfg: PolicyConfig, p: Policy, t: Tenant, service: string, now: int): Policy {
    p.(floorBuckets := p.floorBuckets[(t, service) := AfterTake(FloorBucket(cfg, p, t, service, now), now)])
  }

  // ---------- The rolling window ----------

  function History(p: Policy, t: Tenant): seq<KeepEvent> { if t in p.history then p.history[t] else [] }

  /** Drops the leading events older than the cutoff. */
  function DropOlder(hist: seq<KeepEvent>, cutoff: int): seq<KeepEvent> {
    if hist != [] && hist[0].at < cutoff then DropOlder(hist[1..], cutoff) else hist
  }

  function Pruned(p: Policy, t: Tenant, now: int): Policy {
    p.(history := p.history[t := DropOlder(History(p, t), now - WINDOW)])
  }

  function KeptIn(hist: seq<KeepEvent>): (n: nat)
    ensures n <= |hist|
  {
    if hist == [] then 0 else KeptIn(hist[..|hist| - 1]) + if hist[|hist| - 1].keep then 1 else 0
  }

  predicate OverRate(cfg: PolicyConfig, hist: seq<KeepEvent>) {
    hist != [] && KeptIn(hist) as real / |hist| as real > cfg.maxKeepRate
  }

  function ShedRank(r: KeepReason): int {
    match r
    case KeepProbabilistic => 0
    case KeepFloor => 1
    case KeepInterest => 2
    case KeepRare => 3
    case KeepSlow => 4
    case _ => -1
  }

  const SHED_RANKS := 5

  /** Some kept event of this rank stands in the window. */
  predicate Standing(hist: seq<KeepEvent>, rank: int) {
    exists i :: 0 <= i < |hist| && hist[i].keep && ShedRank(hist[i].reason) == rank
  }

  predicate ShedsClass(hist: seq<KeepEvent>, reason: KeepReason) {
    ShedRank(reason) >= 0 && forall r :: 0 <= r < ShedRank(reason) ==> !Standing(hist, r)
  }

  function Recorded(p: Policy, t: Tenant, e: KeepEvent): Policy {
    p.(history := p.history[t := History(p, t) + [e]])
  }

  // ---------- One decision ----------

  datatype Classified = Classified(policy: Policy, reason: KeepReason)

  function ClassifyCommon(cfg: PolicyConfig, p: Policy, c: Candidate): Classified {
    if c.interest.matched then Classified(p, KeepInterest)
    else
      var q := AfterFloor(cfg, p, c.tenant, c.rootService, c.now);
      if FloorGranted(cfg, p, c.tenant, c.rootService, c.now) then Classified(q, KeepFloor)
      else if Probabilistic(c.idHash, CurrentFloor(cfg, q, c.tenant)) then Classified(q, KeepProbabilistic)
      else Classified(q, KeepDropped)
  }

  /** The class a trace earns before truncation and shedding, and the policy it leaves. */
  function Classify(cfg: PolicyConfig, p: Policy, c: Candidate): Classified {
    var q := Touched(p, c.tenant);
    if HasError(c.spans) then Classified(q, KeepError)
    else if SlowFires(cfg, c) then Classified(q, KeepSlow)
    else if RareCandidate(cfg, p, c.tenant, c.signature, c.now) then
      var r := AfterRare(cfg, q, c.tenant, c.signature, c.now);
      if RareGranted(cfg, q, c.tenant, c.now) then Classified(r, KeepRare) else ClassifyCommon(cfg, r, c)
    else ClassifyCommon(cfg, q, c)
  }

  function Earned(c: Candidate, reason: KeepReason): KeepReason {
    if c.truncated && reason != KeepDropped then KeepTruncated else reason
  }

  predicate ShedEligible(c: Candidate, reason: KeepReason) {
    reason != KeepDropped && reason != KeepError && (reason == KeepInterest ==> c.interest.scope == ScopeRecurrence)
  }

  function FiredSet(hasError: bool, slowFires: bool, rareCandidate: bool, matched: bool): set<KeepReason> {
    (if hasError then {KeepError} else {}) + (if slowFires then {KeepSlow} else {}) +
    (if rareCandidate then {KeepRare} else {}) + (if matched then {KeepInterest} else {})
  }

  function Fired(cfg: PolicyConfig, p: Policy, c: Candidate): set<KeepReason> {
    FiredSet(HasError(c.spans), SlowFires(cfg, c), RareCandidate(cfg, p, c.tenant, c.signature, c.now),
             c.interest.matched)
  }

  function Settle(cfg: PolicyConfig, p: Policy, c: Candidate, reason: KeepReason): Classified {
    if !ShedEligible(c, reason) then Classified(p, reason)
    else
      var q := Pruned(p, c.tenant, c.now);
      var hist := History(q, c.tenant);
      Classified(q, if OverRate(cfg, hist) && ShedsClass(hist, reason) then KeepShed else reason)
  }

  predicate Keeps(reason: KeepReason) { reason != KeepDropped && reason != KeepShed }

  function Decided(cfg: PolicyConfig, p: Policy, c: Candidate): Classified {
    var k := Classify(cfg, p, c);
    Settle(cfg, k.policy, c, Earned(c, k.reason))
  }

  function Reason(cfg: PolicyConfig, p: Policy, c: Candidate): KeepReason { Decided(cfg, p, c).reason }

  function DecisionOn(cfg: PolicyConfig, p: Policy, c: Candidate): Decision {
    var reason := Reason(cfg, p, c);
    Decision(c.tenant, c.traceID, Keeps(reason), reason, if c.interest.matched then c.interest.predicateID else "",
             Fired(cfg, p, c) - {Earned(c, Classify(cfg, p, c).reason)}, c.now)
  }

  function After(cfg: PolicyConfig, p: Policy, c: Candidate): Policy {
    var d := Decided(cfg, p, c);
    Recorded(d.policy, c.tenant, KeepEvent(c.now, Keeps(d.reason), d.reason))
  }

  lemma {:induction false} DropTwice(hist: seq<KeepEvent>, cutoff: int)
    ensures DropOlder(DropOlder(hist, cutoff), cutoff) == DropOlder(hist, cutoff)
    decreases |hist|
  {
    if hist != [] && hist[0].at < cutoff { DropTwice(hist[1..], cutoff); }
  }

  class DefaultPolicy {
    const cfg: PolicyConfig
    var rareSeen: map<(Tenant, Signature), int>
    var rareCardinality: map<Tenant, set<Signature>>
    var rareBuckets: map<Tenant, Bucket>
    var floorBuckets: map<(Tenant, string), Bucket>
    var floors: map<Tenant, real>
    var keepHistory: map<Tenant, seq<KeepEvent>>

    ghost function State(): Policy
      reads this
    {
      Policy(rareSeen, rareCardinality, rareBuckets, floorBuckets, floors, keepHistory)
    }

    constructor (cfg: PolicyConfig)
      ensures this.cfg == cfg && State() == Fresh
    {
      this.cfg := cfg;
      rareSeen, rareCardinality, rareBuckets, floorBuckets, floors, keepHistory := map[], map[], map[], map[], map[],
        map[];
    }

    method AdjustFloor(t: Tenant, floor: real)
      modifies this
      ensures State() == old(State()).(floors := old(floors)[t := floor])
    {
      floors := floors[t := floor];
    }

    method CurrentFloorOf(t: Tenant) returns (floor: real)
      ensures floor == CurrentFloor(cfg, State(), t)
    {
      if t in floors { return floors[t]; }
      return cfg.healthySampleRate;
    }

    method PruneLocked(t: Tenant, now: int) returns (hist: seq<KeepEvent>)
      modifies this
      ensures State() == Pruned(old(State()), t, now) && hist == History(State(), t)
    {
      hist := if t in keepHistory then keepHistory[t] else [];
      var cutoff := now - WINDOW;
      var i := 0;
      while i < |hist| && hist[i].at < cutoff
        invariant i <= |hist|
        invariant DropOlder(hist[i..], cutoff) == DropOlder(hist, cutoff)
      {
        i := i + 1;
      }
      hist := hist[i..];
      keepHistory := keepHistory[t := hist];
    }

    method AllowForTenant(t: Tenant, now: int) returns (allowed: bool)
      modifies this
      ensures State() == Pruned(old(State()), t, now)
      ensures allowed == !OverRate(cfg, History(State(), t))
    {
      var hist := PruneLocked(t, now);
      if |hist| == 0 { return true; }
      var kept := 0;
      for i := 0 to |hist|
        invariant kept == KeptIn(hist[..i])
      {
        assert hist[..i + 1][..i] == hist[..i];
        if hist[i].keep { kept := kept + 1; }
      }
      assert hist[..|hist|] == hist;
      var rate := kept as real / |hist| as real;
      return rate <= cfg.maxKeepRate;
    }

    static method StandingRanks(hist: seq<KeepEvent>) returns (stillKept: array<bool>)
      ensures fresh(stillKept) && stillKept.Length == SHED_RANKS
      ensures forall r :: 0 <= r < SHED_RANKS ==> stillKept[r] == Standing(hist, r)
    {
      stillKept := new bool[SHED_RANKS](_ => false);
      for i := 0 to |hist|
        invariant fresh(stillKept)
        invariant forall r :: 0 <= r < SHED_RANKS ==>
          (stillKept[r] <==> exists j :: 0 <= j < i && hist[j].keep && ShedRank(hist[j].reason) == r)
      {
        var r := ShedRank(hist[i].reason);
        if hist[i].keep && r >= 0 {
          stillKept[r] := true;
        }
      }
    }

    method ShouldShedClass(t: Tenant, reason: KeepReason, now: int) returns (shed: bool)
      modifies this
      ensures State() == (if ShedRank(reason) < 0 then old(State()) else Pruned(old(State()), t, now))
      ensures shed == (ShedRank(reason) >= 0 && ShedsClass(History(State(), t), reason))
    {
      var rank := ShedRank(reason);
      if rank < 0 { return false; }
      var hist := PruneLocked(t, now);
      var stillKept := StandingRanks(hist);
      for r := 0 to rank
        invariant forall q :: 0 <= q < r ==> !Standing(hist, q)
      {
        if stillKept[r] { return false; }
      }
      return true;
    }

    method IsRareCandidate(t: Tenant, sig: Signature, now: int) returns (rare: bool)
      modifies this
      ensures State() == Touched(old(State()), t)
      ensures rare == RareCandidate(cfg, old(State()), t, sig, now)
    {
      if t !in rareCardinality {
        rareCardinality := rareCardinality[t := {}];
      }
      var card := rareCardinality[t];
      assert rareCardinality == old(rareCardinality)[t := card];
      if sig !in card && |card| >= cfg.maxPathSignatureCardinality { return false; }
      if (t, sig) !in rareSeen { return true; }
      return now - rareSeen[(t, sig)] > cfg.rarePathLookback;
    }

    method TryTakeRare(t: Tenant, sig: Signature, now: int) returns (taken: bool)
      modifies this
      ensures State() == AfterRare(cfg, old(State()), t, sig, now)
      ensures taken == RareGranted(cfg, old(State()), t, now)
    {
      var bucket := if t in rareBuckets then rareBuckets[t] else NewBucket(cfg.rarePathKeepsPerMin, now);
      rareBuckets := rareBuckets[t := AfterTake(bucket, now)];
      if !Grants(bucket, now) { return false; }
      rareSeen := rareSeen[(t, sig) := now];
      var card := if t in rareCardinality then rareCardinality[t] else {};
      rareCardinality := rareCardinality[t := card + {sig}];
      return true;
    }

    method TryTakeFloor(t: Tenant, service: string, now: int) returns (taken: bool)
      modifies this
      ensures State() == AfterFloor(cfg, old(State()), t, service, now)
      ensures taken == FloorGranted(cfg, old(State()), t, service, now)
    {
      var key := (t, service);
      var bucket := if key in floorBuckets then floorBuckets[key] else NewBucket(cfg.floorTracesPerMinPerService, now);
      floorBuckets := floorBuckets[key := AfterTake(bucket, now)];
      return Grants(bucket, now);
    }

    static method TraceHasError(spans: seq<SpanFacts>) returns (found: bool)
      ensures found == HasError(spans)
    {
      for i := 0 to |spans|
        invariant forall j :: 0 <= j < i ==> !spans[j].isError
      {
        if spans[i].isError { return true; }
      }
      return false;
    }

    static method TraceMaxDuration(spans: seq<SpanFacts>) returns (max: nat)
      ensures max == MaxDuration(spans)
    {
      max := 0;
      for i := 0 to |spans|
        invariant max == MaxDuration(spans[..i])
      {
        assert spans[..i + 1][..i] == spans[..i];
        var d := Duration(spans[i]);
        if d > max { max := d; }
      }
      assert spans[..|spans|] == spans;
    }

    method Choose(c: Candidate, hasError: bool, slowFires: bool, rareCandidate: bool) returns (reason: KeepReason)
      requires hasError == HasError(c.spans) && slowFires == SlowFires(cfg, c)
      modifies this
      ensures var q := old(State());
              var r := if hasError then Classified(q, KeepError)
                       else if slowFires then Classified(q, KeepSlow)
                       else if !rareCandidate then ClassifyCommon(cfg, q, c)
                       else var p := AfterRare(cfg, q, c.tenant, c.signature, c.now);
                         if RareGranted(cfg, q, c.tenant, c.now) then Classified(p, KeepRare)
                         else ClassifyCommon(cfg, p, c);
              State() == r.policy && reason == r.reason
    {
      if hasError { return KeepError; }
      if slowFires { return KeepSlow; }
      if rareCandidate {
        var taken := TryTakeRare(c.tenant, c.signature, c.now);
        if taken { return KeepRare; }
      }
      if c.interest.matched { return KeepInterest; }
      var kept := TryTakeFloor(c.tenant, c.rootService, c.now);
      if kept { return KeepFloor; }
      var floor := CurrentFloorOf(c.tenant);
      return if Probabilistic(c.idHash, floor) then KeepProbabilistic else KeepDropped;
    }

    /** The keep-rate cap, applied after all six classes. */
    method Shed(c: Candidate, earned: KeepReason) returns (reason: KeepReason)
      modifies this
      ensures var s := Settle(cfg, old(State()), c, earned); State() == s.policy && reason == s.reason
    {
      reason := earned;
      if ShedEligible(c, earned) {
        DropTwice(History(State(), c.tenant), c.now - WINDOW);
        var allowed := AllowForTenant(c.tenant, c.now);
        if !allowed {
          var shed := ShouldShedClass(c.tenant, earned, c.now);
          if shed { reason := KeepShed; }
        }
      }
    }

    method RecordKeep(t: Tenant, now: int, reason: KeepReason)
      modifies this
      ensures State() == Recorded(old(State()), t, KeepEvent(now, Keeps(reason), reason))
    {
      var hist := if t in keepHistory then keepHistory[t] else [];
      keepHistory := keepHistory[t := hist + [KeepEvent(now, Keeps(reason), reason)]];
    }

    static method Secondary(hasError: bool, slowFires: bool, rareCandidate: bool, matched: bool)
      returns (secondary: set<KeepReason>)
      ensures secondary == FiredSet(hasError, slowFires, rareCandidate, matched)
    {
      secondary := {};
      if hasError { secondary := secondary + {KeepError}; }
      if slowFires { secondary := secondary + {KeepSlow}; }
      if rareCandidate { secondary := secondary + {KeepRare}; }
      if matched { secondary := secondary + {KeepInterest}; }
    }

    /** The class the trace earns, with every class that fired. */
    method Earn(c: Candidate) returns (earned: KeepReason, fired: set<KeepReason>)
      modifies this
      ensures State() == Classify(cfg, old(State()), c).policy
      ensures earned == Earned(c, Classify(cfg, old(State()), c).reason) && fired == Fired(cfg, old(State()), c)
    {
      var hasError := TraceHasError(c.spans);
      var maxDur := TraceMaxDuration(c.spans);
      var slowFires := c.baseline.warmed && maxDur > c.baseline.p99 && Signed(maxDur) > cfg.slowMinDuration;
      var rareCandidate := IsRareCandidate(c.tenant, c.signature, c.now);
      fired := Secondary(hasError, slowFires, rareCandidate, c.interest.matched);
      earned := Choose(c, hasError, slowFires, rareCandidate);
      if c.truncated && earned != KeepDropped { earned := KeepTruncated; }
    }

    method Evaluate(c: Candidate) returns (d: Decision)
      modifies this
      ensures State() == After(cfg, old(State()), c)
      ensures d == DecisionOn(cfg, old(State()), c)
    {
      var earned, fired := Earn(c);
      var reason := Shed(c, earned);
      RecordKeep(c.tenant, c.now, reason);
      d := Decision(c.tenant, c.traceID, Keeps(reason), reason,
                    if c.interest.matched then c.interest.predicateID else "", fired - {earned}, c.now);
    }
  }
}
