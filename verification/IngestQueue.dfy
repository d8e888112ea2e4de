/** The byte-bounded sink queue: many producers, one drainer, a channel and an atomic byte
    counter that is read before a send and written after it. */
module IngestQueue {

  datatype Batch = Batch(tenant: string, id: int, bytes: nat)

  /** blocks says whether the overflow policy waits out a timer before its second attempt. */
  datatype Config = Config(maxBytes: int, capacity: nat, blocks: bool)

  // ---------- The queue itself ----------

  function Bytes(q: seq<Batch>): nat { if q == [] then 0 else Bytes(q[..|q| - 1]) + q[|q| - 1].bytes }

  predicate Fits(cfg: Config, counter: int, b: Batch) { cfg.maxBytes <= 0 || counter + b.bytes <= cfg.maxBytes }

  datatype Outcome = Accepted | QueueFull | QueueFullAfterWait | Cancelled

  lemma {:induction false} BytesHead(q: seq<Batch>)
    requires q != []
    ensures Bytes(q) == q[0].bytes + Bytes(q[1..])
    decreases |q|
  {
    if |q| > 1 {
      BytesHead(q[..|q| - 1]);
      assert q[..|q| - 1][1..] == q[1..][..|q| - 2];
    } else {
      assert q[..0] == [] && q[1..] == [];
    }
  }

  class SinkQueue {
    const cfg: Config
    var ch: seq<Batch>
    var counter: int
    /** What the sink has been handed, oldest first. */
    var delivered: seq<Batch>

    constructor (maxBytes: int, capacity: int, blocks: bool)
      ensures cfg == Config(maxBytes, if capacity <= 0 then 1 else capacity, blocks)
      ensures ch == [] && counter == 0 && delivered == []
    {
      cfg := Config(maxBytes, if capacity <= 0 then 1 else capacity, blocks);
      ch, counter, delivered := [], 0, [];
    }

    method TryEnqueue(b: Batch) returns (ok: bool)
      modifies this
      ensures ok == (Fits(cfg, old(counter), b) && |old(ch)| < cfg.capacity)
      ensures ch == (if ok then old(ch) + [b] else old(ch)) && counter == old(counter) + (if ok then b.bytes else 0)
      ensures delivered == old(delivered)
    {
      if cfg.maxBytes > 0 && counter + b.bytes > cfg.maxBytes {
        return false;
      }
      if |ch| < cfg.capacity {
        ch := ch + [b];
        counter := counter + b.bytes;
        return true;
      }
      return false;
    }

    /** One push that nothing interrupts; cancelled says whether its context ends before the timer. */
    method Push(b: Batch, cancelled: bool) returns (outcome: Outcome)
      modifies this
      ensures outcome == if Fits(cfg, old(counter), b) && |old(ch)| < cfg.capacity then Accepted
                         else if !cfg.blocks then QueueFull
                         else if cancelled then Cancelled else QueueFullAfterWait
      ensures ch == (if outcome == Accepted then old(ch) + [b] else old(ch))
      ensures counter == old(counter) + (if outcome == Accepted then b.bytes else 0) && delivered == old(delivered)
    {
      var ok := TryEnqueue(b);
      if ok { return Accepted; }
      if cfg.blocks {
        if cancelled { return Cancelled; }
        ok := TryEnqueue(b);
        return if ok then Accepted else QueueFullAfterWait;
      }
      return QueueFull;
    }

    method Consume(b: Batch)
      modifies this`counter, this`delivered
      ensures counter == old(counter) - b.bytes && delivered == old(delivered) + [b]
    {
      counter := counter - b.bytes;
      delivered := delivered + [b];
    }

    method DrainRemaining()
      modifies this
      ensures ch == [] && delivered == old(delivered) + old(ch) && counter == old(counter) - Bytes(old(ch))
    {
      while ch != []
        invariant delivered + ch == old(delivered) + old(ch)
        invariant counter - Bytes(ch) == old(counter) - Bytes(old(ch))
        decreases |ch|
      {
        BytesHead(ch);
        var b := ch[0];
        ch := ch[1..];
        Consume(b);
      }
    }
  }

  // ---------- Producers and drainer interleaved ----------

  /** Where a producer's attempt stands; again marks the attempt after the timer. */
  datatype Producer = Idle
                    | Trying(b: Batch, again: bool)
                    | Checked(b: Batch, again: bool)
                    | Sent(b: Batch)
                    | Waiting(b: Batch)

  datatype Drainer = Receiving | Taken(b: Batch) | Delivering(b: Batch) | Exited

  /** entered, accepted and consumed record every send, every push that returned no error and
      every delivery; draining is set once the drainer has seen the cancellation. */
  datatype State = State(ch: seq<Batch>, counter: int, producers: seq<Producer>, drainer: Drainer, draining: bool,
                         stopped: bool, entered: seq<Batch>, accepted: seq<Batch>, consumed: seq<Batch>)

  datatype Action = Start(p: nat, b: Batch) | Check(p: nat) | Send(p: nat) | Account(p: nat)
                  | TimerFires(p: nat) | GiveUp(p: nat)
                  | Take | Discount | Deliver | Stop | NoticeStop | Exit

  function Init(producers: nat): State {
    State([], 0, seq(producers, _ => Idle), Receiving, false, false, [], [], [])
  }

  predicate AllIdle(ps: seq<Producer>) { forall i :: 0 <= i < |ps| ==> ps[i] == Idle }

  /** Pushes stop before the drainer is told to: receivers are stopped first. */
  predicate Enabled(s: State, a: Action) {
    match a
    case Start(p, b) => p < |s.producers| && s.producers[p] == Idle && !s.stopped
    case Check(p) => p < |s.producers| && s.producers[p].Trying?
    case Send(p) => p < |s.producers| && s.producers[p].Checked?
    case Account(p) => p < |s.producers| && s.producers[p].Sent?
    case TimerFires(p) => p < |s.producers| && s.producers[p].Waiting?
    case GiveUp(p) => p < |s.producers| && s.producers[p].Waiting?
    case Take => s.drainer == Receiving && s.ch != []
    case Discount => s.drainer.Taken?
    case Deliver => s.drainer.Delivering?
    case Stop => !s.stopped && AllIdle(s.producers)
    case NoticeStop => s.drainer == Receiving && s.stopped && !s.draining
    case Exit => s.drainer == Receiving && s.draining && s.ch == []
  }

  function Refused(cfg: Config, b: Batch, again: bool): Producer {
    if cfg.blocks && !again then Waiting(b) else Idle
  }

  function Moved(s: State, p: nat, next: Producer): State
    requires p < |s.producers|
  {
    s.(producers := s.producers[p := next])
  }

  function Next(cfg: Config, s: State, a: Action): State
    requires Enabled(s, a)
  {
    match a
    case Start(p, b) => Moved(s, p, Trying(b, false))
    case Check(p) =>
      var q := s.producers[p];
      Moved(s, p, if Fits(cfg, s.counter, q.b) then Checked(q.b, q.again) else Refused(cfg, q.b, q.again))
    case Send(p) =>
      var q := s.producers[p];
      if |s.ch| < cfg.capacity then Moved(s, p, Sent(q.b)).(ch := s.ch + [q.b], entered := s.entered + [q.b])
      else Moved(s, p, Refused(cfg, q.b, q.again))
    case Account(p) =>
      var b := s.producers[p].b;
      Moved(s, p, Idle).(counter := s.counter + b.bytes, accepted := s.accepted + [b])
    case TimerFires(p) => Moved(s, p, Trying(s.producers[p].b, true))
    case GiveUp(p) => Moved(s, p, Idle)
    case Take => s.(ch := s.ch[1..], drainer := Taken(s.ch[0]))
    case Discount => s.(counter := s.counter - s.drainer.b.bytes, drainer := Delivering(s.drainer.b))
    case Deliver => s.(drainer := Receiving, consumed := s.consumed + [s.drainer.b])
    case Stop => s.(stopped := true)
    case NoticeStop => s.(draining := true)
    case Exit => s.(drainer := Exited)
  }

  /** The bytes a producer has in flight: sent but not yet counted, or about to be sent. */
  function SentBytes(p: Producer): nat { if p.Sent? then p.b.bytes else 0 }
  function PendingBytes(p: Producer): nat { if p.Checked? then p.b.bytes else 0 }

  function AllSent(ps: seq<Producer>): nat { if ps == [] then 0 else AllSent(ps[..|ps| - 1]) + SentBytes(ps[|ps| - 1]) }
  function AllPending(ps: seq<Producer>): nat {
    if ps == [] then 0 else AllPending(ps[..|ps| - 1]) + PendingBytes(ps[|ps| - 1])
  }

  function SentBatches(ps: seq<Producer>): multiset<Batch> {
    if ps == [] then multiset{}
    else SentBatches(ps[..|ps| - 1]) + SentOne(ps[|ps| - 1])
  }

  function InHand(d: Drainer): seq<Batch> { if d.Taken? || d.Delivering? then [d.b] else [] }
  function Undiscounted(d: Drainer): nat { if d.Taken? then d.b.bytes else 0 }

  /** No producer handles a batch over the limit the receiver enforces. */
  predicate Limited(ps: seq<Producer>, maxBatch: nat) {
    forall i :: 0 <= i < |ps| ==> !ps[i].Idle? ==> ps[i].b.bytes <= maxBatch
  }

  /** The counter differs from the queue by exactly what is in flight. */
  predicate Counted(s: State) { s.counter + AllSent(s.producers) == Bytes(s.ch) + Undiscounted(s.drainer) }

  /** Every batch that entered is consumed, in hand or queued, in order. */
  predicate Ordered(s: State) { s.entered == s.consumed + InHand(s.drainer) + s.ch }

  /** Every batch that entered was accepted, or is sent by a push about to return. */
  predicate Reported(s: State) { multiset(s.entered) == multiset(s.accepted) + SentBatches(s.producers) }

  predicate Accounts(s: State) { Counted(s) && Ordered(s) && Reported(s) }

  ghost predicate Phases(s: State) {
    (s.stopped ==> AllIdle(s.producers)) && (s.draining ==> s.stopped) &&
      (s.drainer == Exited ==> s.draining && s.ch == [])
  }

  /** Counted, sent and admitted bytes together stay within the bound. */
  ghost predicate Bounded(cfg: Config, s: State, maxBatch: nat) {
    Limited(s.producers, maxBatch) &&
    s.counter + AllSent(s.producers) + AllPending(s.producers) <= cfg.maxBytes + (|s.producers| - 1) * maxBatch
  }

  // ---------- Sums over producers ----------

  lemma {:induction false} Replace(ps: seq<Producer>, p: nat, q: Producer)
    requires p < |ps|
    ensures AllSent(ps[p := q]) == AllSent(ps) - SentBytes(ps[p]) + SentBytes(q)
    ensures AllPending(ps[p := q]) == AllPending(ps) - PendingBytes(ps[p]) + PendingBytes(q)
    decreases |ps|
  {
    var n := |ps| - 1;
    if p < n {
      Replace(ps[..n], p, q);
      assert ps[p := q][..n] == ps[..n][p := q];
    } else {
      assert ps[p := q][..n] == ps[..n];
    }
  }

  function SentOne(p: Producer): multiset<Batch> { if p.Sent? then multiset{p.b} else multiset{} }

  lemma Shuffle(a: multiset<Batch>, b: multiset<Batch>, c: multiset<Batch>, d: multiset<Batch>, x: multiset<Batch>)
    requires a + b == c + d
    ensures (a + x) + b == (c + x) + d
  {
    assert (a + x) + b == (a + b) + x && (c + x) + d == (c + d) + x;
  }

  lemma SentLast(ps: seq<Producer>)
    requires ps != []
    ensures SentBatches(ps) == SentBatches(ps[..|ps| - 1]) + SentOne(ps[|ps| - 1])
  {
  }

  lemma Exchange(a: multiset<Batch>, x: multiset<Batch>, y: multiset<Batch>)
    ensures a + x + y == a + y + x
  {
  }

  lemma {:induction false} ReplaceSent(ps: seq<Producer>, p: nat, q: Producer)
    requires p < |ps|
    ensures SentBatches(ps[p := q]) + SentOne(ps[p]) == SentBatches(ps) + SentOne(q)
    decreases |ps|
  {
    hide SentBatches, SentOne;
    var n := |ps| - 1;
    SentLast(ps);
    SentLast(ps[p := q]);
    if p < n {
      ReplaceSent(ps[..n], p, q);
      assert ps[p := q][..n] == ps[..n][p := q];
      Shuffle(SentBatches(ps[..n][p := q]), SentOne(ps[p]), SentBatches(ps[..n]), SentOne(q), SentOne(ps[n]));
    } else {
      assert ps[p := q][..n] == ps[..n];
      Exchange(SentBatches(ps[..n]), SentOne(q), SentOne(ps[n]));
    }
  }

  lemma {:induction false} IdleSums(ps: seq<Producer>)
    requires AllIdle(ps)
    ensures AllSent(ps) == 0 && AllPending(ps) == 0 && SentBatches(ps) == multiset{}
    decreases |ps|
  {
    if ps != [] { IdleSums(ps[..|ps| - 1]); }
  }

  lemma AtMost(n: nat, maxBatch: nat)
    ensures (n + 1) * maxBatch == n * maxBatch + maxBatch
  {
  }

  lemma {:induction false} InFlightAtMost(ps: seq<Producer>, maxBatch: nat)
    requires Limited(ps, maxBatch)
    ensures AllSent(ps) + AllPending(ps) <= |ps| * maxBatch
    decreases |ps|
  {
    if ps != [] {
      InFlightAtMost(ps[..|ps| - 1], maxBatch);
      AtMost(|ps| - 1, maxBatch);
    }
  }

  // ---------- Every step keeps the accounts ----------

  lemma MoveKeepsAccounts(s: State, p: nat, next: Producer)
    requires Accounts(s) && p < |s.producers| && !s.producers[p].Sent? && !next.Sent?
    ensures Accounts(Moved(s, p, next))
  {
    Replace(s.producers, p, next);
    ReplaceSent(s.producers, p, next);
    assert SentBatches(s.producers[p := next]) == SentBatches(s.producers[p := next]) + multiset{};
    assert SentBatches(s.producers) == SentBatches(s.producers) + multiset{};
  }

  lemma BytesAppend(q: seq<Batch>, b: Batch)
    ensures Bytes(q + [b]) == Bytes(q) + b.bytes
  {
    assert (q + [b])[..|q|] == q;
  }

  lemma SendKeepsCount(s: State, p: nat, t: State)
    requires p < |s.producers| && s.producers[p].Checked? && Counted(s)
    requires t == Moved(s, p, Sent(s.producers[p].b)).(ch := s.ch + [s.producers[p].b],
                                                       entered := s.entered + [s.producers[p].b])
    ensures Counted(t)
  {
    Replace(s.producers, p, Sent(s.producers[p].b));
    BytesAppend(s.ch, s.producers[p].b);
  }

  lemma SendKeepsReport(s: State, p: nat, b: Batch)
    requires p < |s.producers| && s.producers[p].Checked? && Reported(s)
    ensures multiset(s.entered + [b]) == multiset(s.accepted) + SentBatches(s.producers[p := Sent(b)])
  {
    hide SentBatches;
    ReplaceSent(s.producers, p, Sent(b));
    var x, y := SentBatches(s.producers[p := Sent(b)]), SentBatches(s.producers);
    assert x == x + multiset{} == y + multiset{b};
    assert multiset(s.entered + [b]) == multiset(s.entered) + multiset{b};
    assert (multiset(s.accepted) + y) + multiset{b} == multiset(s.accepted) + (y + multiset{b});
  }

  lemma SendKeepsOrder(s: State, b: Batch)
    requires Ordered(s)
    ensures s.entered + [b] == s.consumed + InHand(s.drainer) + (s.ch + [b])
  {
  }

  lemma SendKeepsAccounts(cfg: Config, s: State, p: nat)
    requires Accounts(s) && Enabled(s, Send(p))
    ensures Accounts(Next(cfg, s, Send(p)))
  {
    hide AllSent, AllPending, SentBatches, Bytes;
    var b := s.producers[p].b;
    if |s.ch| < cfg.capacity {
      SendKeepsCount(s, p, Next(cfg, s, Send(p)));
      SendKeepsReport(s, p, b);
      SendKeepsOrder(s, b);
    } else {
      MoveKeepsAccounts(s, p, Refused(cfg, b, s.producers[p].again));
    }
  }

  lemma AcceptKeepsReport(entered: seq<Batch>, accepted: seq<Batch>, b: Batch, before: multiset<Batch>,
                          after: multiset<Batch>)
    requires multiset(entered) == multiset(accepted) + before && after + multiset{b} == before + multiset{}
    ensures multiset(entered) == multiset(accepted + [b]) + after
  {
    assert before == before + multiset{};
    assert multiset(accepted + [b]) == multiset(accepted) + multiset{b};
    assert multiset(accepted) + (after + multiset{b}) == (multiset(accepted) + multiset{b}) + after;
  }

  lemma AccountKeepsAccounts(cfg: Config, s: State, p: nat)
    requires Accounts(s) && Enabled(s, Account(p))
    ensures Accounts(Next(cfg, s, Account(p)))
  {
    hide AllSent, AllPending, SentBatches, Bytes;
    var b := s.producers[p].b;
    Replace(s.producers, p, Idle);
    ReplaceSent(s.producers, p, Idle);
    AcceptKeepsReport(s.entered, s.accepted, b, SentBatches(s.producers), SentBatches(s.producers[p := Idle]));
  }

  lemma TakeKeepsAccounts(cfg: Config, s: State)
    requires Accounts(s) && Enabled(s, Take)
    ensures Accounts(Next(cfg, s, Take))
  {
    hide AllSent, SentBatches, Bytes;
    BytesHead(s.ch);
    assert s.consumed + [] + s.ch == s.consumed + [s.ch[0]] + s.ch[1..];
  }

  lemma DeliverKeepsAccounts(cfg: Config, s: State)
    requires Accounts(s) && Enabled(s, Deliver)
    ensures Accounts(Next(cfg, s, Deliver))
  {
    hide AllSent, SentBatches, Bytes;
    assert s.consumed + [s.drainer.b] + s.ch == (s.consumed + [s.drainer.b]) + [] + s.ch;
  }

  lemma ProducerKeepsAccounts(cfg: Config, s: State, a: Action)
    requires Accounts(s) && Enabled(s, a)
    requires a.Start? || a.Check? || a.Send? || a.Account? || a.TimerFires? || a.GiveUp?
    ensures Accounts(Next(cfg, s, a))
  {
    hide Accounts;
    if a.Send? {
      SendKeepsAccounts(cfg, s, a.p);
    } else if a.Account? {
      AccountKeepsAccounts(cfg, s, a.p);
    } else {
      MoveKeepsAccounts(s, a.p, Next(cfg, s, a).producers[a.p]);
    }
  }

  lemma DrainerKeepsAccounts(cfg: Config, s: State, a: Action)
    requires Accounts(s) && Enabled(s, a)
    requires a.Take? || a.Discount? || a.Deliver? || a.Stop? || a.NoticeStop? || a.Exit?
    ensures Accounts(Next(cfg, s, a))
  {
    hide AllSent, SentBatches, Bytes;
    if a.Take? { TakeKeepsAccounts(cfg, s); }
    if a.Deliver? { DeliverKeepsAccounts(cfg, s); }
  }

  lemma StepKeepsPhases(cfg: Config, s: State, a: Action)
    requires Phases(s) && Enabled(s, a)
    ensures Phases(Next(cfg, s, a))
  {
  }

  lemma StepKeepsAccounts(cfg: Config, s: State, a: Action)
    requires Accounts(s) && Enabled(s, a)
    ensures Accounts(Next(cfg, s, a))
  {
    hide Accounts, Next, Enabled;
    if a.Start? || a.Check? || a.Send? || a.Account? || a.TimerFires? || a.GiveUp? {
      ProducerKeepsAccounts(cfg, s, a);
    } else {
      DrainerKeepsAccounts(cfg, s, a);
    }
  }

  /** Admission is the one step that can raise the total, and it only checks its own batch. */
  lemma AdmitKeepsBound(cfg: Config, s: State, p: nat, maxBatch: nat)
    requires cfg.maxBytes > 0 && Bounded(cfg, s, maxBatch) && Enabled(s, Check(p)) &&
             Fits(cfg, s.counter, s.producers[p].b)
    ensures Bounded(cfg, Next(cfg, s, Check(p)), maxBatch)
  {
    var q := s.producers[p];
    var next := Checked(q.b, q.again);
    Replace(s.producers, p, next);
    OthersInFlight(s.producers, p, maxBatch);
  }

  lemma {:induction false} OthersInFlight(ps: seq<Producer>, p: nat, maxBatch: nat)
    requires p < |ps| && Limited(ps, maxBatch)
    ensures AllSent(ps) - SentBytes(ps[p]) + AllPending(ps) - PendingBytes(ps[p]) <= (|ps| - 1) * maxBatch
    decreases |ps|
  {
    var n := |ps| - 1;
    if p < n {
      OthersInFlight(ps[..n], p, maxBatch);
      AtMost(n - 1, maxBatch);
    } else {
      InFlightAtMost(ps[..n], maxBatch);
    }
  }

  lemma MoveKeepsBound(cfg: Config, s: State, p: nat, next: Producer, t: State, maxBatch: nat)
    requires p < |s.producers| && Bounded(cfg, s, maxBatch) && t.producers == s.producers[p := next]
    requires next.Idle? || next.b.bytes <= maxBatch
    requires t.counter + SentBytes(next) + PendingBytes(next)
             <= s.counter + SentBytes(s.producers[p]) + PendingBytes(s.producers[p])
    ensures Bounded(cfg, t, maxBatch)
  {
    Replace(s.producers, p, next);
  }

  lemma StepKeepsBound(cfg: Config, s: State, a: Action, maxBatch: nat)
    requires cfg.maxBytes > 0 && Bounded(cfg, s, maxBatch) && Enabled(s, a) && (a.Start? ==> a.b.bytes <= maxBatch)
    ensures Bounded(cfg, Next(cfg, s, a), maxBatch)
  {
    if a.Check? && Fits(cfg, s.counter, s.producers[a.p].b) {
      AdmitKeepsBound(cfg, s, a.p, maxBatch);
    } else if a.Start? || a.Check? || a.Send? || a.Account? || a.TimerFires? || a.GiveUp? {
      hide AllSent, AllPending;
      var t := Next(cfg, s, a);
      MoveKeepsBound(cfg, s, a.p, t.producers[a.p], t, maxBatch);
    }
  }

  // ---------- Every run ----------

  /** The state after n actions of a schedule, each enabled when it is taken. */
  ghost predicate IsRun(cfg: Config, producers: nat, schedule: seq<Action>, states: seq<State>, maxBatch: nat) {
    |states| == |schedule| + 1 && states[0] == Init(producers) &&
    forall i: nat {:trigger Follows(cfg, schedule, states, i, maxBatch)} :: i < |schedule| ==>
      Follows(cfg, schedule, states, i, maxBatch)
  }

  ghost predicate Follows(cfg: Config, schedule: seq<Action>, states: seq<State>, i: nat, maxBatch: nat)
    requires i < |schedule| && |states| == |schedule| + 1
  {
    var a := schedule[i];
    Enabled(states[i], a) && states[i + 1] == Next(cfg, states[i], a) && (a.Start? ==> a.b.bytes <= maxBatch)
  }

  lemma InitAccounts(producers: nat)
    ensures Accounts(Init(producers)) && Phases(Init(producers)) && |Init(producers).producers| == producers
  {
    IdleSums(Init(producers).producers);
  }

  lemma {:induction false} AlwaysAccounts(cfg: Config, producers: nat, schedule: seq<Action>, states: seq<State>,
                                          maxBatch: nat, n: nat)
    requires IsRun(cfg, producers, schedule, states, maxBatch) && n <= |schedule|
    ensures Accounts(states[n]) && Phases(states[n]) && |states[n].producers| == producers
  {
    hide Accounts, Phases, Init;
    if n == 0 {
      InitAccounts(producers);
    } else {
      AlwaysAccounts(cfg, producers, schedule, states, maxBatch, n - 1);
      assert Follows(cfg, schedule, states, n - 1, maxBatch);
      StepKeepsAccounts(cfg, states[n - 1], schedule[n - 1]);
      StepKeepsPhases(cfg, states[n - 1], schedule[n - 1]);
    }
  }

  lemma {:induction false} AlwaysBounded(cfg: Config, producers: nat, schedule: seq<Action>, states: seq<State>,
                                         maxBatch: nat, n: nat)
    requires IsRun(cfg, producers, schedule, states, maxBatch) && n <= |schedule| && cfg.maxBytes > 0 && producers > 0
    ensures Bounded(cfg, states[n], maxBatch)
  {
    if n == 0 {
      IdleSums(states[0].producers);
      assert 0 <= (producers - 1) * maxBatch;
    } else {
      AlwaysBounded(cfg, producers, schedule, states, maxBatch, n - 1);
      assert Follows(cfg, schedule, states, n - 1, maxBatch);
      StepKeepsBound(cfg, states[n - 1], schedule[n - 1], maxBatch);
    }
  }

  /** However producers and drainer interleave, the bytes queued exceed the limit by at most
      one batch for each producer after the first, and the limit is exact for one producer. */
  lemma QueuedBytesBounded(cfg: Config, producers: nat, schedule: seq<Action>, states: seq<State>, maxBatch: nat,
                           n: nat)
    requires IsRun(cfg, producers, schedule, states, maxBatch) && n <= |schedule| && cfg.maxBytes > 0 && producers > 0
    ensures Bytes(states[n].ch) <= cfg.maxBytes + (producers - 1) * maxBatch
    ensures producers == 1 ==> Bytes(states[n].ch) <= cfg.maxBytes
  {
    AlwaysAccounts(cfg, producers, schedule, states, maxBatch, n);
    AlwaysBounded(cfg, producers, schedule, states, maxBatch, n);
  }

  /** Whenever nothing is between a send and its count, or a receive and its discount, the
      counter is exactly the bytes queued. */
  lemma CounterExactAtRest(cfg: Config, producers: nat, schedule: seq<Action>, states: seq<State>, maxBatch: nat,
                           n: nat)
    requires IsRun(cfg, producers, schedule, states, maxBatch) && n <= |schedule|
    requires !states[n].drainer.Taken? && forall p <- states[n].producers :: !p.Sent?
    ensures states[n].counter == Bytes(states[n].ch)
  {
    AlwaysAccounts(cfg, producers, schedule, states, maxBatch, n);
    NoneSent(states[n].producers);
  }

  lemma {:induction false} NoneSent(ps: seq<Producer>)
    requires forall p <- ps :: !p.Sent?
    ensures AllSent(ps) == 0
    decreases |ps|
  {
    if ps != [] { NoneSent(ps[..|ps| - 1]); }
  }

  /** Once the drainer has exited, everything that entered was consumed in the order it
      entered, every accepted push was consumed exactly once and nothing else was, and the
      counter is back to zero. */
  lemma NothingLostAtExit(cfg: Config, producers: nat, schedule: seq<Action>, states: seq<State>, maxBatch: nat, n: nat)
    requires IsRun(cfg, producers, schedule, states, maxBatch) && n <= |schedule| && states[n].drainer == Exited
    ensures states[n].consumed == states[n].entered && multiset(states[n].consumed) == multiset(states[n].accepted)
    ensures states[n].counter == 0
  {
    AlwaysAccounts(cfg, producers, schedule, states, maxBatch, n);
    IdleSums(states[n].producers);
  }

  /** At every moment what has been consumed is the first part of what entered. */
  lemma ConsumedInOrder(cfg: Config, producers: nat, schedule: seq<Action>, states: seq<State>, maxBatch: nat, n: nat)
    requires IsRun(cfg, producers, schedule, states, maxBatch) && n <= |schedule|
    ensures states[n].consumed <= states[n].entered
  {
    AlwaysAccounts(cfg, producers, schedule, states, maxBatch, n);
  }

  // ---------- What one push does ----------

  /** The timer of producer p's latest push has fired. */
  function Fired(schedule: seq<Action>, n: nat, p: nat): bool
    requires n <= |schedule|
  {
    if n == 0 then false
    else
      match schedule[n - 1]
      case Start(q, _) => q != p && Fired(schedule, n - 1, p)
      case TimerFires(q) => q == p || Fired(schedule, n - 1, p)
      case _ => Fired(schedule, n - 1, p)
  }

  /** A push waits once at most, and only when the policy blocks. */
  predicate WaitsOnce(cfg: Config, q: Producer, fired: bool) {
    (q.Waiting? ==> cfg.blocks && !fired) && (q.Trying? || q.Checked? ==> q.again == fired) &&
    (fired && q != Idle ==> cfg.blocks)
  }

  lemma {:induction false} AlwaysWaitsOnce(cfg: Config, producers: nat, schedule: seq<Action>, states: seq<State>,
                                           maxBatch: nat, n: nat, p: nat)
    requires IsRun(cfg, producers, schedule, states, maxBatch) && n <= |schedule|
    ensures |states[n].producers| == producers
    ensures p < producers ==> WaitsOnce(cfg, states[n].producers[p], Fired(schedule, n, p))
    decreases n
  {
    if n > 0 {
      AlwaysWaitsOnce(cfg, producers, schedule, states, maxBatch, n - 1, p);
      assert Follows(cfg, schedule, states, n - 1, maxBatch);
    }
  }

  /** An attempt is refused by its check when the batch does not fit the bytes, and by its send
      when the channel is full. */
  predicate IsRefused(cfg: Config, s: State, a: Action, p: nat)
    requires p < |s.producers|
  {
    (a == Check(p) && s.producers[p].Trying? && cfg.maxBytes > 0 &&
     s.counter + s.producers[p].b.bytes > cfg.maxBytes) ||
    (a == Send(p) && s.producers[p].Checked? && |s.ch| >= cfg.capacity)
  }

  /** How a push ends, over every run: accepted after its send, cancelled in its one wait, or
      refused, the first time when the policy sheds and after the timer when it blocks. */
  lemma PushEndsExactly(cfg: Config, producers: nat, schedule: seq<Action>, states: seq<State>, maxBatch: nat, n: nat,
                        p: nat)
    requires IsRun(cfg, producers, schedule, states, maxBatch) && n < |schedule| && p < producers
    ensures |states[n].producers| == |states[n + 1].producers| == producers
    ensures var s, t, a := states[n], states[n + 1], schedule[n];
            s.producers[p] != Idle ==>
              (t.producers[p] == Idle <==>
                 a == Account(p) || a == GiveUp(p) ||
                 (IsRefused(cfg, s, a, p) && (!cfg.blocks || Fired(schedule, n, p)))) &&
              (IsRefused(cfg, s, a, p) && cfg.blocks && !Fired(schedule, n, p) ==> t.producers[p].Waiting?) &&
              (a == Send(p) ==>
                 t.entered == s.entered + if IsRefused(cfg, s, a, p) then [] else [s.producers[p].b]) &&
              (a == Account(p) ==> t.accepted == s.accepted + [s.producers[p].b])
    ensures !schedule[n].Account? ==> states[n + 1].accepted == states[n].accepted
  {
    AlwaysWaitsOnce(cfg, producers, schedule, states, maxBatch, n, p);
    assert Follows(cfg, schedule, states, n, maxBatch);
  }

  // ---------- Shutdown finishes ----------

  function Left(s: State): nat {
    3 * |s.ch| + (if s.drainer.Taken? then 2 else if s.drainer.Delivering? then 1 else 0)
    + (if s.draining then 0 else 1) + (if s.drainer == Exited then 0 else 1)
  }

  /** After the stop every action brings the exit nearer, and until the exit one is enabled. */
  lemma StopLeadsToExit(cfg: Config, s: State, a: Action)
    requires Phases(s) && s.stopped
    ensures Enabled(s, a) ==> Next(cfg, s, a).stopped && Left(Next(cfg, s, a)) < Left(s)
    ensures s.drainer != Exited ==> exists c :: Enabled(s, c)
  {
    if s.drainer == Receiving {
      assert Enabled(s, if s.ch != [] then Take else if s.draining then Exit else NoticeStop);
    } else if s.drainer.Taken? {
      assert Enabled(s, Discount);
    } else if s.drainer.Delivering? {
      assert Enabled(s, Deliver);
    }
  }

  // ---------- The bound is attained ----------

  ghost predicate Reachable(cfg: Config, producers: nat, maxBatch: nat, s: State) {
    exists schedule, states :: IsRun(cfg, producers, schedule, states, maxBatch) && states[|schedule|] == s
  }

  lemma ReachNext(cfg: Config, producers: nat, maxBatch: nat, s: State, a: Action, t: State)
    requires Reachable(cfg, producers, maxBatch, s) && Enabled(s, a) && (a.Start? ==> a.b.bytes <= maxBatch)
    requires t == Next(cfg, s, a)
    ensures Reachable(cfg, producers, maxBatch, t)
  {
    hide Next, Enabled;
    var schedule, states :| IsRun(cfg, producers, schedule, states, maxBatch) && states[|schedule|] == s;
    var more, all := schedule + [a], states + [t];
    forall i: nat | i < |more| ensures Follows(cfg, more, all, i, maxBatch) {
      if i < |schedule| { assert Follows(cfg, schedule, states, i, maxBatch); }
    }
    assert IsRun(cfg, producers, more, all, maxBatch) && all[|more|] == t;
  }

  function Repeat(b: Batch, k: nat): (r: seq<Batch>)
    ensures |r| == k
  {
    if k == 0 then [] else Repeat(b, k - 1) + [b]
  }

  /** Some batches queued and counted, and the first k producers admitted for another each. */
  function Admitted(producers: nat, pre: seq<Batch>, b: Batch, k: nat): State {
    State(pre, Bytes(pre), seq(producers, i => if i < k then Checked(b, false) else Idle), Receiving, false, false,
          pre, pre, [])
  }

  /** The same with all admitted and the first k sent. */
  function AllIn(producers: nat, pre: seq<Batch>, b: Batch, k: nat): State {
    var q := pre + Repeat(b, k);
    State(q, Bytes(pre), seq(producers, i => if i < k then Sent(b) else Checked(b, false)), Receiving, false, false,
          q, pre, [])
  }

  lemma NoneIn(cfg: Config, producers: nat, maxBatch: nat, b: Batch)
    ensures Reachable(cfg, producers, maxBatch, Admitted(producers, [], b, 0))
  {
    var s0 := Init(producers);
    var schedule: seq<Action>, states := [], [s0];
    assert IsRun(cfg, producers, schedule, states, maxBatch) && states[|schedule|] == s0;
    assert s0.producers == Admitted(producers, [], b, 0).producers;
    assert s0 == Admitted(producers, [], b, 0);
  }

  /** The first producer pushes one batch more. */
  lemma OneMoreIn(cfg: Config, producers: nat, maxBatch: nat, pre: seq<Batch>, x: Batch, b: Batch)
    requires producers > 0 && |pre| < cfg.capacity && x.bytes <= maxBatch && Fits(cfg, Bytes(pre), x)
    requires Reachable(cfg, producers, maxBatch, Admitted(producers, pre, b, 0))
    ensures Reachable(cfg, producers, maxBatch, Admitted(producers, pre + [x], b, 0))
  {
    hide Reachable, Bytes;
    var s0 := Admitted(producers, pre, b, 0);
    var s1 := Next(cfg, s0, Start(0, x));
    ReachNext(cfg, producers, maxBatch, s0, Start(0, x), s1);
    var s2 := Next(cfg, s1, Check(0));
    ReachNext(cfg, producers, maxBatch, s1, Check(0), s2);
    var s3 := Next(cfg, s2, Send(0));
    ReachNext(cfg, producers, maxBatch, s2, Send(0), s3);
    var s4 := Next(cfg, s3, Account(0));
    ReachNext(cfg, producers, maxBatch, s3, Account(0), s4);
    BytesAppend(pre, x);
    assert s4.producers == Admitted(producers, pre + [x], b, 0).producers;
    assert s4 == Admitted(producers, pre + [x], b, 0);
  }

  /** Any number of bytes within the limit can be queued in n batches that are large enough. */
  lemma {:induction false} Fill(cfg: Config, producers: nat, maxBatch: nat, b: Batch, total: nat, n: nat)
    returns (pre: seq<Batch>)
    requires producers > 0 && total <= cfg.maxBytes && total <= n * maxBatch && n <= cfg.capacity
    ensures Reachable(cfg, producers, maxBatch, Admitted(producers, pre, b, 0)) && Bytes(pre) == total && |pre| <= n
    decreases n
  {
    hide Reachable, Admitted;
    if total == 0 {
      NoneIn(cfg, producers, maxBatch, b);
      return [];
    }
    AtMost(n - 1, maxBatch);
    var x := Batch("", 0, if total < maxBatch then total else maxBatch);
    pre := Fill(cfg, producers, maxBatch, b, total - x.bytes, n - 1);
    OneMoreIn(cfg, producers, maxBatch, pre, x, b);
    BytesAppend(pre, x);
    pre := pre + [x];
  }

  lemma AdmitOne(cfg: Config, producers: nat, maxBatch: nat, pre: seq<Batch>, b: Batch, k: nat)
    requires k < producers && b.bytes <= maxBatch && Fits(cfg, Bytes(pre), b)
    requires Reachable(cfg, producers, maxBatch, Admitted(producers, pre, b, k))
    ensures Reachable(cfg, producers, maxBatch, Admitted(producers, pre, b, k + 1))
  {
    hide Reachable;
    var s0 := Admitted(producers, pre, b, k);
    var s1 := Next(cfg, s0, Start(k, b));
    ReachNext(cfg, producers, maxBatch, s0, Start(k, b), s1);
    var s2 := Next(cfg, s1, Check(k));
    ReachNext(cfg, producers, maxBatch, s1, Check(k), s2);
    assert s2.producers == Admitted(producers, pre, b, k + 1).producers;
    assert s2 == Admitted(producers, pre, b, k + 1);
  }

  lemma SendOne(cfg: Config, producers: nat, maxBatch: nat, pre: seq<Batch>, b: Batch, k: nat)
    requires k < producers && |pre| + k < cfg.capacity
    requires Reachable(cfg, producers, maxBatch, AllIn(producers, pre, b, k))
    ensures Reachable(cfg, producers, maxBatch, AllIn(producers, pre, b, k + 1))
  {
    hide Reachable;
    var s0 := AllIn(producers, pre, b, k);
    var s1 := Next(cfg, s0, Send(k));
    ReachNext(cfg, producers, maxBatch, s0, Send(k), s1);
    assert s1.producers == AllIn(producers, pre, b, k + 1).producers;
    assert s1.ch == AllIn(producers, pre, b, k + 1).ch;
    assert s1 == AllIn(producers, pre, b, k + 1);
  }

  lemma {:induction false} RepeatBytes(pre: seq<Batch>, b: Batch, k: nat)
    ensures Bytes(pre + Repeat(b, k)) == Bytes(pre) + k * b.bytes
    decreases k
  {
    hide Bytes;
    if k == 0 {
      assert pre + Repeat(b, 0) == pre;
    } else {
      RepeatBytes(pre, b, k - 1);
      assert pre + Repeat(b, k) == (pre + Repeat(b, k - 1)) + [b];
      BytesAppend(pre + Repeat(b, k - 1), b);
      AtMost(k - 1, b.bytes);
    }
  }

  /** No smaller bound holds, for any limit of at least one batch: with room in the channel for
      the batches that make up the limit and one for each producer, some schedule queues exactly
      this much. */
  lemma BoundAttained(cfg: Config, producers: nat, maxBatch: nat, n: nat) returns (s: State)
    requires producers > 0 && 0 < maxBatch <= cfg.maxBytes <= n * maxBatch + maxBatch && n + producers <= cfg.capacity
    ensures Reachable(cfg, producers, maxBatch, s) && Bytes(s.ch) == cfg.maxBytes + (producers - 1) * maxBatch
  {
    hide Reachable, Admitted, AllIn;
    var b := Batch("", 1, maxBatch);
    var pre := Fill(cfg, producers, maxBatch, b, cfg.maxBytes - maxBatch, n);
    var k := 0;
    while k < producers
      invariant k <= producers && Reachable(cfg, producers, maxBatch, Admitted(producers, pre, b, k))
    {
      AdmitOne(cfg, producers, maxBatch, pre, b, k);
      k := k + 1;
    }
    AdmittedIsNoneSent(producers, pre, b);
    k := 0;
    while k < producers
      invariant k <= producers && Reachable(cfg, producers, maxBatch, AllIn(producers, pre, b, k))
    {
      SendOne(cfg, producers, maxBatch, pre, b, k);
      k := k + 1;
    }
    s := AllIn(producers, pre, b, producers);
    AllInBytes(producers, pre, b);
    AtMost(producers - 1, maxBatch);
  }

  lemma AllInBytes(producers: nat, pre: seq<Batch>, b: Batch)
    ensures Bytes(AllIn(producers, pre, b, producers).ch) == Bytes(pre) + producers * b.bytes
  {
    RepeatBytes(pre, b, producers);
  }

  lemma AdmittedIsNoneSent(producers: nat, pre: seq<Batch>, b: Batch)
    ensures AllIn(producers, pre, b, 0) == Admitted(producers, pre, b, producers)
  {
    var s, t := AllIn(producers, pre, b, 0), Admitted(producers, pre, b, producers);
    assert s.ch == t.ch;
    assert s.producers == t.producers;
  }
}
