/** The audit log: one append-only list holding an interleaved hash chain per tenant. */
module AuditChain {

  newtype byte = x: int | 0 <= x < 256
  type Bytes = seq<byte>
  /** The digest of a message, and the hash of an event in its place in a chain. */
  type Digest = Bytes -> Bytes

  const TWO_63: int := 0x8000_0000_0000_0000
  const TWO_64: int := 0x1_0000_0000_0000_0000

  datatype Event = Event(tenant: Bytes, actor: Bytes, action: Bytes, payload: Bytes, timestamp: int)
  type Hasher = (Bytes, int, Event) -> Bytes
  datatype Stored = Stored(seqNo: int, tenant: Bytes, event: Event, prevHash: Bytes, hash: Bytes)
  datatype Report = Report(ok: bool, brokenAtSeq: int)

  // ---------- The hashed message ----------

  /** The k low-order bytes of n, most significant first. */
  function BigEndian(n: nat, k: nat): (r: Bytes)
    ensures |r| == k
  {
    if k == 0 then [] else BigEndian(n / 256, k - 1) + [(n % 256) as byte]
  }

  /** An int64 reinterpreted as unsigned and written in eight bytes. */
  function Word(x: int): (r: Bytes)
    ensures |r| == 8
  {
    BigEndian(x % TWO_64, 8)
  }

  /** The event's text fields run together with nothing between them. */
  function Text(e: Event): Bytes { e.tenant + e.actor + e.action + e.payload }

  function Message(prev: Bytes, seqNo: int, e: Event): Bytes {
    prev + Word(seqNo) + Text(e) + Word(e.timestamp)
  }

  function ChainHash(digest: Digest): Hasher {
    (prev: Bytes, seqNo: int, e: Event) => digest(Message(prev, seqNo, e))
  }

  /** What an edit must alter to reach the hash. */
  predicate Changed(e: Event, f: Event) {
    e.tenant + e.actor + e.action + e.payload != f.tenant + f.actor + f.action + f.payload ||
    e.timestamp != f.timestamp
  }

  predicate Int64(x: int) { -TWO_63 <= x < TWO_63 }

  function Pow256(k: nat): (r: nat)
    ensures r > 0
  {
    if k == 0 then 1 else 256 * Pow256(k - 1)
  }

  lemma {:induction false} BigEndianInjective(x: nat, y: nat, k: nat)
    requires x < Pow256(k) && y < Pow256(k) && BigEndian(x, k) == BigEndian(y, k)
    ensures x == y
  {
    if k > 0 {
      var a, b := BigEndian(x, k), BigEndian(y, k);
      assert BigEndian(x / 256, k - 1) == a[..k - 1] == b[..k - 1] == BigEndian(y / 256, k - 1);
      assert a[k - 1] == b[k - 1];
      BigEndianInjective(x / 256, y / 256, k - 1);
    }
  }

  lemma WordInjective(x: int, y: int)
    requires Int64(x) && Int64(y) && Word(x) == Word(y)
    ensures x == y
  {
    assert Pow256(4) == 0x1_0000_0000;
    assert Pow256(8) == TWO_64;
    BigEndianInjective(x % TWO_64, y % TWO_64, 8);
  }

  /** The number eight bytes stand for, the most significant first. */
  function Decoded(b: Bytes): nat { if b == [] then 0 else Decoded(b[..|b| - 1]) * 256 + b[|b| - 1] as nat }

  lemma {:induction false} BigEndianDecodes(n: nat, k: nat)
    ensures Decoded(BigEndian(n, k)) == n % Pow256(k)
    decreases k
  {
    if k > 0 {
      var b := BigEndian(n, k);
      assert b[..k - 1] == BigEndian(n / 256, k - 1);
      BigEndianDecodes(n / 256, k - 1);
      ByteFirst(n, Pow256(k - 1));
    }
  }

  lemma ByteFirst(n: nat, m: nat)
    requires m > 0
    ensures n % (256 * m) == (n / 256) % m * 256 + n % 256
  {
    var q, r := n / 256 / m, n / 256 % m;
    assert n / 256 == q * m + r && n == (n / 256) * 256 + n % 256;
    assert n == q * (256 * m) + (r * 256 + n % 256);
    RemainderIs(n, 256 * m, q, r * 256 + n % 256);
  }

  lemma RemainderIs(n: nat, m: nat, q: nat, r: nat)
    requires m > 0 && r < m && n == q * m + r
    ensures n % m == r
  {
    var d := n / m - q;
    assert d * m == r - n % m;
    assert (d >= 1 ==> d * m >= m) && (d <= -1 ==> d * m + m <= 0);
  }

  /** Eight bytes hold the number modulo 2 to the 64, big-endian. */
  lemma WordDecodes(x: int)
    ensures |Word(x)| == 8 && Decoded(Word(x)) == x % TWO_64
  {
    BigEndianDecodes(x % TWO_64, 8);
    assert Pow256(4) == 0x1_0000_0000;
    assert Pow256(8) == TWO_64;
  }

  lemma SplitAtEnd(a: Bytes, b: Bytes, u: Bytes, v: Bytes)
    requires a + u == b + v && |u| == |v|
    ensures a == b && u == v
  {
    assert |a| == |b|;
    assert a == (a + u)[..|a|] && u == (a + u)[|a|..];
    assert b == (b + v)[..|b|] && v == (b + v)[|b|..];
  }

  lemma SplitAtStart(p: Bytes, a: Bytes, b: Bytes)
    requires p + a == p + b
    ensures a == b
  {
    assert a == (p + a)[|p|..];
    assert b == (p + b)[|p|..];
  }

  /** Two events hash the same message in the same place exactly when neither their
      run-together text nor their timestamp differs. */
  lemma MessageTellsChange(prev: Bytes, seqNo: int, e: Event, f: Event)
    requires Int64(e.timestamp) && Int64(f.timestamp)
    ensures Message(prev, seqNo, e) == Message(prev, seqNo, f) <==> !Changed(e, f)
  {
    if Message(prev, seqNo, e) == Message(prev, seqNo, f) {
      var p := prev + Word(seqNo);
      SplitAtEnd(p + Text(e), p + Text(f), Word(e.timestamp), Word(f.timestamp));
      SplitAtStart(p, Text(e), Text(f));
      WordInjective(e.timestamp, f.timestamp);
    }
  }

  /** The message commits to everything before it: with previous hashes of one length, two messages
      are equal exactly when previous hash, number, run-together text and timestamp all are. */
  lemma MessageTellsAll(prev: Bytes, other: Bytes, m: int, n: int, e: Event, f: Event)
    requires |prev| == |other| && Int64(m) && Int64(n) && Int64(e.timestamp) && Int64(f.timestamp)
    ensures Message(prev, m, e) == Message(other, n, f) <==> prev == other && m == n && !Changed(e, f)
  {
    if Message(prev, m, e) == Message(other, n, f) {
      SplitAtEnd(prev + Word(m) + Text(e), other + Word(n) + Text(f), Word(e.timestamp), Word(f.timestamp));
      assert prev + Word(m) + Text(e) == prev + (Word(m) + Text(e));
      assert other + Word(n) + Text(f) == other + (Word(n) + Text(f));
      assert prev == (prev + (Word(m) + Text(e)))[..|prev|] && other == (other + (Word(n) + Text(f)))[..|other|];
      SplitAtStart(prev, Word(m) + Text(e), Word(n) + Text(f));
      assert Word(m) == (Word(m) + Text(e))[..8] && Word(n) == (Word(n) + Text(f))[..8];
      SplitAtStart(Word(m), Text(e), Text(f));
      WordInjective(m, n);
      WordInjective(e.timestamp, f.timestamp);
    }
  }

  /** An edit of the payload alone always reaches the hash. */
  lemma PayloadEditChanges(e: Event, payload: Bytes)
    ensures Changed(e, e.(payload := payload)) <==> payload != e.payload
  {
    var head := e.tenant + e.actor + e.action;
    if head + e.payload == head + payload {
      SplitAtStart(head, e.payload, payload);
    }
  }

  /** Moving the tail of the actor to the front of the action alters neither text nor time. */
  lemma ShiftKeepsText(e: Event, moved: Bytes)
    requires |moved| <= |e.actor| && moved == e.actor[|e.actor| - |moved|..]
    ensures !Changed(e, Shifted(e, moved))
  {
    var f := Shifted(e, moved);
    assert e.actor == f.actor + moved;
    assert Text(e) == e.tenant + f.actor + moved + e.action + e.payload;
    assert Text(f) == e.tenant + f.actor + moved + e.action + e.payload;
  }

  function Shifted(e: Event, moved: Bytes): Event
    requires |moved| <= |e.actor|
  {
    e.(actor := e.actor[..|e.actor| - |moved|], action := moved + e.action)
  }

  // ---------- The log ----------

  function Count(log: seq<Stored>, t: Bytes): (n: nat) {
    if log == [] then 0
    else Count(log[..|log| - 1], t) + if log[|log| - 1].tenant == t then 1 else 0
  }

  /** The hash of the tenant's last entry, empty when it has none. */
  function LastHash(log: seq<Stored>, t: Bytes): Bytes {
    if log == [] then []
    else if log[|log| - 1].tenant == t then log[|log| - 1].hash
    else LastHash(log[..|log| - 1], t)
  }

  function NextEntry(h: Hasher, log: seq<Stored>, e: Event): Stored {
    var n, prev := Count(log, e.tenant) + 1, LastHash(log, e.tenant);
    Stored(n, e.tenant, e, prev, h(prev, n, e))
  }

  /** The log after recording the events, oldest first, in an empty one. */
  function Recorded(h: Hasher, events: seq<Event>): (log: seq<Stored>)
    ensures |log| == |events|
    decreases |events|
  {
    if events == [] then []
    else
      var log := Recorded(h, events[..|events| - 1]);
      log + [NextEntry(h, log, events[|events| - 1])]
  }

  ghost predicate EntryIntact(h: Hasher, log: seq<Stored>, i: nat)
    requires i < |log|
  {
    log[i] == NextEntry(h, log[..i], log[i].event)
  }

  ghost predicate Intact(h: Hasher, log: seq<Stored>) {
    forall i: nat :: i < |log| ==> EntryIntact(h, log, i)
  }

  lemma {:induction false} RecordedIntact(h: Hasher, events: seq<Event>)
    ensures Intact(h, Recorded(h, events))
    ensures forall i :: 0 <= i < |events| ==> Recorded(h, events)[i].event == events[i]
    decreases |events|
  {
    if events != [] {
      var front := Recorded(h, events[..|events| - 1]);
      var log := Recorded(h, events);
      RecordedIntact(h, events[..|events| - 1]);
      forall i: nat | i < |log| ensures EntryIntact(h, log, i) {
        if i < |front| {
          assert EntryIntact(h, front, i);
          assert log[..i] == front[..i];
        } else {
          assert log[..i] == front;
        }
      }
    }
  }

  /** The tenant's own chain, oldest first. */
  function ChainOf(log: seq<Stored>, t: Bytes): (c: seq<Stored>)
    ensures |c| == Count(log, t)
  {
    if log == [] then []
    else ChainOf(log[..|log| - 1], t) + if log[|log| - 1].tenant == t then [log[|log| - 1]] else []
  }

  function EventsOf(events: seq<Event>, t: Bytes): seq<Event> {
    if events == [] then []
    else EventsOf(events[..|events| - 1], t) + if events[|events| - 1].tenant == t then [events[|events| - 1]] else []
  }

  ghost predicate Links(h: Hasher, s: Stored, n: int, prev: Bytes) {
    s.seqNo == n && s.prevHash == prev && s.hash == h(prev, n, s.event)
  }

  function HashBefore(c: seq<Stored>, k: nat): Bytes
    requires k <= |c|
  {
    if k == 0 then [] else c[k - 1].hash
  }

  ghost predicate Chained(h: Hasher, c: seq<Stored>) {
    forall k: nat {:trigger HashBefore(c, k)} :: k < |c| ==> Links(h, c[k], k + 1, HashBefore(c, k))
  }

  lemma {:induction false} LastOfChain(log: seq<Stored>, t: Bytes)
    ensures LastHash(log, t) == HashBefore(ChainOf(log, t), Count(log, t))
    decreases |log|
  {
    if log != [] { LastOfChain(log[..|log| - 1], t); }
  }

  /** The chain carries exactly these events, in order. */
  ghost predicate Carries(c: seq<Stored>, es: seq<Event>, t: Bytes) {
    |c| == |es| && forall k {:trigger c[k]} :: 0 <= k < |c| ==> c[k].event == es[k] && c[k].tenant == t
  }

  lemma ChainGrows(h: Hasher, c: seq<Stored>, s: Stored)
    requires Chained(h, c) && Links(h, s, |c| + 1, HashBefore(c, |c|))
    ensures Chained(h, c + [s])
  {
    var d := c + [s];
    forall k: nat | k < |d| ensures Links(h, d[k], k + 1, HashBefore(d, k)) {
      assert HashBefore(d, k) == HashBefore(c, k);
      if k < |c| { assert Links(h, c[k], k + 1, HashBefore(c, k)); }
    }
  }

  /** However tenants' appends interleave, each tenant's entries are its events in order,
      numbered from one, each linked to that tenant's previous hash. */
  lemma {:induction false} EveryTenantChained(h: Hasher, events: seq<Event>, t: Bytes)
    ensures Chained(h, ChainOf(Recorded(h, events), t))
    ensures Carries(ChainOf(Recorded(h, events), t), EventsOf(events, t), t)
    decreases |events|
  {
    if events != [] {
      EveryTenantChained(h, events[..|events| - 1], t);
      var front := Recorded(h, events[..|events| - 1]);
      var log := Recorded(h, events);
      var e := events[|events| - 1];
      assert log[..|log| - 1] == front;
      LastOfChain(front, t);
      if e.tenant == t {
        var s := NextEntry(h, front, e);
        ChainGrows(h, ChainOf(front, t), s);
        assert ChainOf(log, t) == ChainOf(front, t) + [s];
      } else {
        assert ChainOf(log, t) == ChainOf(front, t);
      }
    }
  }

  // ---------- Verification ----------

  predicate Covered(s: Stored, t: Bytes, from: int, to: int) {
    s.tenant == t && s.seqNo >= from && (to <= 0 || s.seqNo < to)
  }

  /** The stored hash of the tenant's last entry numbered from - 1. */
  function Seed(log: seq<Stored>, t: Bytes, from: int): Bytes {
    if log == [] then []
    else if log[|log| - 1].tenant == t && log[|log| - 1].seqNo == from - 1 then log[|log| - 1].hash
    else Seed(log[..|log| - 1], t, from)
  }

  function Scan(h: Hasher, log: seq<Stored>, t: Bytes, from: int, to: int, i: nat, prev: Bytes): Report
    requires i <= |log|
    decreases |log| - i
  {
    if i == |log| then Report(true, 0)
    else if !Covered(log[i], t, from, to) then Scan(h, log, t, from, to, i + 1, prev)
    else if h(prev, log[i].seqNo, log[i].event) != log[i].hash then Report(false, log[i].seqNo)
    else Scan(h, log, t, from, to, i + 1, log[i].hash)
  }

  function Verify(h: Hasher, log: seq<Stored>, t: Bytes, from: int, to: int): Report {
    Scan(h, log, t, from, to, 0, Seed(log, t, from))
  }

  class AuditLog {
    const h: Hasher
    var entries: seq<Stored>
    var seqs: map<Bytes, int>

    ghost predicate Valid()
      reads this
    {
      forall t :: (if t in seqs then seqs[t] else 0) == Count(entries, t)
    }

    constructor (h: Hasher)
      ensures Valid() && entries == [] && this.h == h
    {
      this.h := h;
      entries := [];
      seqs := map[];
    }

    method Append(e: Event) returns (seqNo: int, hash: Bytes)
      requires Valid()
      modifies this
      ensures Valid()
      ensures entries == old(entries) + [NextEntry(h, old(entries), e)]
      ensures seqNo == Count(old(entries), e.tenant) + 1
      ensures hash == h(LastHash(old(entries), e.tenant), seqNo, e)
    {
      seqs := seqs[e.tenant := (if e.tenant in seqs then seqs[e.tenant] else 0) + 1];
      seqNo := seqs[e.tenant];
      var prev := LatestHash(e.tenant);
      hash := h(prev, seqNo, e);
      entries := entries + [Stored(seqNo, e.tenant, e, prev, hash)];
      assert entries[..|entries| - 1] == old(entries);
    }

    /** The backward scan for the tenant's latest entry. */
    method LatestHash(t: Bytes) returns (prev: Bytes)
      ensures prev == LastHash(entries, t)
    {
      prev := [];
      var i := |entries|;
      assert entries[..i] == entries;
      while i > 0
        invariant 0 <= i <= |entries|
        invariant LastHash(entries[..i], t) == LastHash(entries, t)
      {
        i := i - 1;
        assert entries[..i + 1][..i] == entries[..i];
        if entries[i].tenant == t {
          return entries[i].hash;
        }
      }
    }

    method VerifyChain(t: Bytes, from: int, to: int) returns (r: Report)
      ensures r == Verify(h, entries, t, from, to)
    {
      var prev: Bytes := [];
      for i := 0 to |entries|
        invariant prev == Seed(entries[..i], t, from)
      {
        assert entries[..i + 1][..i] == entries[..i];
        if entries[i].tenant == t && entries[i].seqNo == from - 1 {
          prev := entries[i].hash;
        }
      }
      assert entries[..|entries|] == entries;
      for i := 0 to |entries|
        invariant Verify(h, entries, t, from, to) == Scan(h, entries, t, from, to, i, prev)
      {
        var se := entries[i];
        if se.tenant != t || se.seqNo < from || (to > 0 && se.seqNo >= to) {
          continue;
        }
        var want := h(prev, se.seqNo, se.event);
        if want != se.hash {
          return Report(false, se.seqNo);
        }
        prev := se.hash;
      }
      return Report(true, 0);
    }
  }

  // ---------- The verdict on any log ----------

  /** The stored hash a scan brings to entry i: that of the latest covered entry before it, or
      the seed where there is none. */
  function Into(log: seq<Stored>, t: Bytes, from: int, to: int, i: nat): Bytes
    requires i <= |log|
  {
    if i == 0 then Seed(log, t, from)
    else if Covered(log[i - 1], t, from, to) then log[i - 1].hash
    else Into(log, t, from, to, i - 1)
  }

  ghost predicate NoneCovered(log: seq<Stored>, t: Bytes, from: int, to: int, i: int, j: int)
    requires 0 <= i <= j <= |log|
  {
    forall k :: i <= k < j ==> !Covered(log[k], t, from, to)
  }

  lemma {:induction false} IntoIsLatest(log: seq<Stored>, t: Bytes, from: int, to: int, i: nat)
    requires i <= |log|
    ensures (NoneCovered(log, t, from, to, 0, i) && Into(log, t, from, to, i) == Seed(log, t, from)) ||
            exists j :: 0 <= j < i && Covered(log[j], t, from, to) && NoneCovered(log, t, from, to, j + 1, i) &&
                        Into(log, t, from, to, i) == log[j].hash
    decreases i
  {
    hide Covered, Seed;
    if i > 0 {
      if Covered(log[i - 1], t, from, to) {
        assert NoneCovered(log, t, from, to, i, i);
      } else {
        IntoIsLatest(log, t, from, to, i - 1);
        if j :| 0 <= j < i - 1 && Covered(log[j], t, from, to) && NoneCovered(log, t, from, to, j + 1, i - 1) &&
                Into(log, t, from, to, i - 1) == log[j].hash {
          assert NoneCovered(log, t, from, to, j + 1, i);
        }
      }
    }
  }

  /** The seed is the stored hash of the tenant's latest entry numbered from - 1, or empty. */
  lemma {:induction false} SeedIsLatest(log: seq<Stored>, t: Bytes, from: int)
    ensures (Seed(log, t, from) == [] && forall k :: 0 <= k < |log| ==>
             !(log[k].tenant == t && log[k].seqNo == from - 1)) ||
            exists j :: 0 <= j < |log| && log[j].tenant == t && log[j].seqNo == from - 1 &&
                        Seed(log, t, from) == log[j].hash &&
                        forall k :: j < k < |log| ==> !(log[k].tenant == t && log[k].seqNo == from - 1)
    decreases |log|
  {
    if log != [] && !(log[|log| - 1].tenant == t && log[|log| - 1].seqNo == from - 1) {
      SeedIsLatest(log[..|log| - 1], t, from);
    }
  }

  /** A covered entry hashes, from what the scan brings to it, to its own stored hash. */
  predicate Holds(h: Hasher, log: seq<Stored>, t: Bytes, from: int, to: int, i: int)
    requires 0 <= i < |log|
  {
    Covered(log[i], t, from, to) ==> h(Into(log, t, from, to, i), log[i].seqNo, log[i].event) == log[i].hash
  }

  ghost predicate FirstFailure(h: Hasher, log: seq<Stored>, t: Bytes, from: int, to: int, k: int)
    requires 0 <= k < |log|
  {
    !Holds(h, log, t, from, to, k) && forall j :: 0 <= j < k ==> Holds(h, log, t, from, to, j)
  }

  lemma {:induction false} ScanExactly(h: Hasher, log: seq<Stored>, t: Bytes, from: int, to: int, i: nat)
    requires i <= |log| && forall j :: 0 <= j < i ==> Holds(h, log, t, from, to, j)
    ensures var r := Scan(h, log, t, from, to, i, Into(log, t, from, to, i));
            if r.ok then forall j :: 0 <= j < |log| ==> Holds(h, log, t, from, to, j)
            else exists k :: 0 <= k < |log| && FirstFailure(h, log, t, from, to, k) && r.brokenAtSeq == log[k].seqNo
    decreases |log| - i
  {
    if i < |log| {
      if Holds(h, log, t, from, to, i) {
        ScanExactly(h, log, t, from, to, i + 1);
      } else {
        assert FirstFailure(h, log, t, from, to, i);
      }
    }
  }

  /** Whatever has been done to its stored fields, a log is accepted if and only if every covered
      entry hashes, from the stored hash of the covered entry before it or the seed, to its own
      stored hash; otherwise the first that does not is reported. */
  lemma VerifyExactly(h: Hasher, log: seq<Stored>, t: Bytes, from: int, to: int)
    ensures var r := Verify(h, log, t, from, to);
            (r.ok <==> forall j :: 0 <= j < |log| ==> Holds(h, log, t, from, to, j)) &&
            (!r.ok ==> exists k :: 0 <= k < |log| && FirstFailure(h, log, t, from, to, k) &&
                                   r.brokenAtSeq == log[k].seqNo)
  {
    ScanExactly(h, log, t, from, to, 0);
  }

  // ---------- Edits that verification cannot see ----------

  /** The two entries agree in everything verification reads. */
  ghost predicate SeenAlike(h: Hasher, a: Stored, b: Stored) {
    a.tenant == b.tenant && a.seqNo == b.seqNo && a.hash == b.hash &&
    forall prev :: h(prev, a.seqNo, a.event) == h(prev, b.seqNo, b.event)
  }

  ghost predicate AllSeenAlike(h: Hasher, a: seq<Stored>, b: seq<Stored>) {
    |a| == |b| && forall i :: 0 <= i < |a| ==> SeenAlike(h, a[i], b[i])
  }

  lemma {:induction false} AlikeSeed(h: Hasher, a: seq<Stored>, b: seq<Stored>, t: Bytes, from: int)
    requires AllSeenAlike(h, a, b)
    ensures Seed(a, t, from) == Seed(b, t, from)
    decreases |a|
  {
    if a != [] {
      assert SeenAlike(h, a[|a| - 1], b[|b| - 1]);
      AlikeSeed(h, a[..|a| - 1], b[..|b| - 1], t, from);
    }
  }

  lemma {:induction false} AlikeScan(h: Hasher, a: seq<Stored>, b: seq<Stored>, t: Bytes, from: int, to: int, i: nat,
                                     prev: Bytes)
    requires AllSeenAlike(h, a, b) && i <= |a|
    ensures Scan(h, a, t, from, to, i, prev) == Scan(h, b, t, from, to, i, prev)
    decreases |a| - i
  {
    if i < |a| {
      assert SeenAlike(h, a[i], b[i]);
      AlikeScan(h, a, b, t, from, to, i + 1, prev);
      AlikeScan(h, a, b, t, from, to, i + 1, a[i].hash);
    }
  }

  lemma AlikeVerdict(h: Hasher, a: seq<Stored>, b: seq<Stored>, t: Bytes, from: int, to: int)
    requires AllSeenAlike(h, a, b)
    ensures Verify(h, a, t, from, to) == Verify(h, b, t, from, to)
  {
    AlikeSeed(h, a, b, t, from);
    AlikeScan(h, a, b, t, from, to, 0, Seed(a, t, from));
  }

  /** The stored link to the previous hash is never read: overwriting it changes no verdict. */
  lemma PrevHashUnseen(h: Hasher, log: seq<Stored>, i: nat, x: Bytes, t: Bytes, from: int, to: int)
    requires i < |log|
    ensures Verify(h, log[i := log[i].(prevHash := x)], t, from, to) == Verify(h, log, t, from, to)
  {
    AlikeVerdict(h, log[i := log[i].(prevHash := x)], log, t, from, to);
  }

  /** Overwriting an event with one of the same run-together text and timestamp changes no verdict. */
  lemma SameTextUnseen(digest: Digest, log: seq<Stored>, i: nat, f: Event, t: Bytes, from: int, to: int)
    requires i < |log| && !Changed(log[i].event, f)
    ensures Verify(ChainHash(digest), log[i := log[i].(event := f)], t, from, to) ==
            Verify(ChainHash(digest), log, t, from, to)
  {
    var h, edited := ChainHash(digest), log[i := log[i].(event := f)];
    forall prev: Bytes ensures h(prev, log[i].seqNo, f) == h(prev, log[i].seqNo, log[i].event) {
      assert Message(prev, log[i].seqNo, f) == Message(prev, log[i].seqNo, log[i].event);
    }
    AlikeVerdict(h, edited, log, t, from, to);
  }

  /** Moving the tail of the actor into the action overwrites two stored fields and changes no verdict. */
  lemma ShiftedBoundaryUnseen(digest: Digest, log: seq<Stored>, i: nat, moved: Bytes, t: Bytes, from: int, to: int)
    requires i < |log|
    requires var e := log[i].event; 0 < |moved| <= |e.actor| && moved == e.actor[|e.actor| - |moved|..]
    ensures var edited := log[i := log[i].(event := Shifted(log[i].event, moved))];
            edited != log && Verify(ChainHash(digest), edited, t, from, to) ==
              Verify(ChainHash(digest), log, t, from, to)
  {
    ShiftKeepsText(log[i].event, moved);
    SameTextUnseen(digest, log, i, Shifted(log[i].event, moved), t, from, to);
    var edited := log[i := log[i].(event := Shifted(log[i].event, moved))];
    assert |edited[i].event.actor| < |log[i].event.actor|;
  }

  // ---------- Untouched and rewritten logs ----------

  /** after is before with some events overwritten and everything else left as stored. */
  predicate Rewritten(before: seq<Stored>, after: seq<Stored>) {
    |before| == |after| &&
    forall i :: 0 <= i < |before| ==> after[i] == before[i].(event := after[i].event)
  }

  /** Entry i is in the verified range and no longer hashes to what is stored. */
  predicate Broken(h: Hasher, before: seq<Stored>, after: seq<Stored>, t: Bytes, from: int, to: int, i: int)
    requires |before| == |after| && 0 <= i < |before|
  {
    Covered(before[i], t, from, to) && h(before[i].prevHash, before[i].seqNo, after[i].event) != before[i].hash
  }

  lemma {:induction false} CountMonotone(log: seq<Stored>, t: Bytes, i: nat)
    requires i <= |log|
    ensures Count(log[..i], t) <= Count(log, t)
    decreases |log|
  {
    if i < |log| {
      assert log[..|log| - 1][..i] == log[..i];
      CountMonotone(log[..|log| - 1], t, i);
    } else {
      assert log[..i] == log;
    }
  }

  lemma IntactPrefix(h: Hasher, log: seq<Stored>, i: nat)
    requires Intact(h, log) && i <= |log|
    ensures Intact(h, log[..i])
  {
    forall k: nat | k < i ensures EntryIntact(h, log[..i], k) {
      assert EntryIntact(h, log, k);
      assert log[..i][..k] == log[..k];
    }
  }

  lemma CountStep(log: seq<Stored>, t: Bytes, i: nat)
    requires i < |log|
    ensures Count(log[..i + 1], t) == Count(log[..i], t) + (if log[i].tenant == t then 1 else 0)
    ensures LastHash(log[..i + 1], t) == if log[i].tenant == t then log[i].hash else LastHash(log[..i], t)
  {
    assert log[..i + 1][..i] == log[..i];
  }

  /** The seed is the hash of the entry just before the range. */
  lemma {:induction false} SeedIsPredecessor(h: Hasher, log: seq<Stored>, t: Bytes, from: int, i: nat)
    requires Intact(h, log) && i <= |log|
    requires Count(log[..i], t) == if from <= 0 then 0 else from - 1
    ensures Seed(log, t, from) == LastHash(log[..i], t)
    decreases |log|
  {
    if log == [] { return; }
    var n := |log| - 1;
    var front := log[..n];
    IntactPrefix(h, log, n);
    assert EntryIntact(h, log, n);
    CountStep(log, t, n);
    assert log[..n + 1] == log;
    if i == |log| {
      if log[n].tenant != t {
        assert front[..n] == front;
        SeedIsPredecessor(h, front, t, from, n);
      } else {
        assert log[n].seqNo == from - 1;
      }
    } else {
      assert front[..i] == log[..i];
      CountMonotone(front, t, i);
      SeedIsPredecessor(h, front, t, from, i);
    }
  }

  lemma SameSeed(before: seq<Stored>, after: seq<Stored>, t: Bytes, from: int)
    requires Rewritten(before, after)
    ensures Seed(after, t, from) == Seed(before, t, from)
    decreases |before|
  {
    if before != [] {
      var b, a := before[..|before| - 1], after[..|after| - 1];
      assert forall i :: 0 <= i < |b| ==> a[i] == before[i].(event := a[i].event);
      SameSeed(b, a, t, from);
    }
  }

  /** The hash the scan must carry when it reaches entry i. */
  ghost predicate Carried(log: seq<Stored>, t: Bytes, from: int, to: int, i: nat, prev: Bytes)
    requires i <= |log|
  {
    var n := Count(log[..i], t);
    (to > 0 && n + 1 >= to) || n + 1 < from || prev == LastHash(log[..i], t)
  }

  lemma CarriedOn(h: Hasher, log: seq<Stored>, t: Bytes, from: int, to: int, i: nat, prev: Bytes)
    requires Intact(h, log) && i < |log| && Carried(log, t, from, to, i, prev)
    requires prev == Seed(log, t, from) || Count(log[..i], t) + 1 > from
    ensures Covered(log[i], t, from, to) ==>
              prev == log[i].prevHash && Carried(log, t, from, to, i + 1, log[i].hash) &&
                Count(log[..i + 1], t) + 1 > from
    ensures !Covered(log[i], t, from, to) ==>
              Carried(log, t, from, to, i + 1, prev) &&
              (prev == Seed(log, t, from) || Count(log[..i + 1], t) + 1 > from)
  {
    assert EntryIntact(h, log, i);
    CountStep(log, t, i);
    if log[i].tenant == t && log[i].seqNo < from && log[i].seqNo + 1 >= from {
      SeedIsPredecessor(h, log, t, from, i + 1);
    }
  }

  /** In an intact log the scan brings to a covered entry the hash the entry was linked to. */
  lemma {:induction false} IntoIsPrev(h: Hasher, log: seq<Stored>, t: Bytes, from: int, to: int, i: nat)
    requires Intact(h, log) && i <= |log|
    ensures Carried(log, t, from, to, i, Into(log, t, from, to, i))
    ensures Into(log, t, from, to, i) == Seed(log, t, from) || Count(log[..i], t) + 1 > from
    ensures i < |log| && Covered(log[i], t, from, to) ==> Into(log, t, from, to, i) == log[i].prevHash
    decreases i
  {
    if i == 0 {
      assert log[..0] == [];
      if from <= 1 { SeedIsPredecessor(h, log, t, from, 0); }
    } else {
      IntoIsPrev(h, log, t, from, to, i - 1);
      CarriedOn(h, log, t, from, to, i - 1, Into(log, t, from, to, i - 1));
    }
    if i < |log| { CarriedOn(h, log, t, from, to, i, Into(log, t, from, to, i)); }
  }

  lemma {:induction false} SameInto(before: seq<Stored>, after: seq<Stored>, t: Bytes, from: int, to: int, i: nat)
    requires Rewritten(before, after) && i <= |before|
    ensures Into(after, t, from, to, i) == Into(before, t, from, to, i)
    decreases i
  {
    if i == 0 { SameSeed(before, after, t, from); } else { SameInto(before, after, t, from, to, i - 1); }
  }

  lemma BrokenIsFailing(h: Hasher, before: seq<Stored>, after: seq<Stored>, t: Bytes, from: int, to: int, i: nat)
    requires Intact(h, before) && Rewritten(before, after) && i < |before|
    ensures Broken(h, before, after, t, from, to, i) <==> !Holds(h, after, t, from, to, i)
  {
    IntoIsPrev(h, before, t, from, to, i);
    SameInto(before, after, t, from, to, i);
  }

  /** Earlier in the log means a smaller number within one tenant's chain. */
  lemma EarlierIsSmaller(h: Hasher, log: seq<Stored>, i: nat, j: nat)
    requires Intact(h, log) && i < j < |log| && log[i].tenant == log[j].tenant
    ensures log[i].seqNo < log[j].seqNo
  {
    assert EntryIntact(h, log, i) && EntryIntact(h, log, j);
    CountStep(log, log[i].tenant, i);
    assert log[..j][..i + 1] == log[..i + 1];
    CountMonotone(log[..j], log[i].tenant, i + 1);
  }

  /** The report names the least number among the bad entries, or accepts for want of any. */
  ghost predicate ReportsLeast(log: seq<Stored>, bad: set<int>, r: Report)
    requires forall i :: i in bad ==> 0 <= i < |log|
  {
    if r.ok then bad == {}
    else
      (exists k :: k in bad && log[k].seqNo == r.brokenAtSeq) &&
      forall j :: j in bad ==> r.brokenAtSeq <= log[j].seqNo
  }

  ghost function BrokenIn(h: Hasher, before: seq<Stored>, after: seq<Stored>, t: Bytes, from: int, to: int): set<int>
    requires |before| == |after|
  {
    set i | 0 <= i < |before| && Broken(h, before, after, t, from, to, i)
  }

  /** Of an intact log with events overwritten, verification reports the least number in the
      range whose entry no longer hashes to the stored value, whatever the hash. */
  lemma VerifyReportsLeastBroken(h: Hasher, before: seq<Stored>, after: seq<Stored>, t: Bytes, from: int, to: int)
    requires Intact(h, before) && Rewritten(before, after)
    ensures ReportsLeast(before, BrokenIn(h, before, after, t, from, to), Verify(h, after, t, from, to))
  {
    hide Verify, Holds, Broken, Intact, Rewritten;
    VerifyExactly(h, after, t, from, to);
    SameLength(before, after);
    forall i: int | 0 <= i < |before|
      ensures Broken(h, before, after, t, from, to, i) <==> !Holds(h, after, t, from, to, i)
    {
      BrokenIsFailing(h, before, after, t, from, to, i);
    }
    var r := Verify(h, after, t, from, to);
    if !r.ok {
      var k :| 0 <= k < |after| && FirstFailure(h, after, t, from, to, k) && r.brokenAtSeq == after[k].seqNo;
      FirstIsLeast(h, before, after, t, from, to, k);
    }
  }

  lemma SameLength(before: seq<Stored>, after: seq<Stored>)
    requires Rewritten(before, after)
    ensures |before| == |after|
  {
  }

  lemma FirstIsLeast(h: Hasher, before: seq<Stored>, after: seq<Stored>, t: Bytes, from: int, to: int, k: nat)
    requires Intact(h, before) && Rewritten(before, after) && k < |before| && Broken(h, before, after, t, from, to, k)
    requires forall j :: 0 <= j < k ==> !Broken(h, before, after, t, from, to, j)
    ensures k in BrokenIn(h, before, after, t, from, to) && after[k].seqNo == before[k].seqNo
    ensures forall j :: j in BrokenIn(h, before, after, t, from, to) ==> before[k].seqNo <= before[j].seqNo
  {
    forall j | 0 <= j < |before| && Broken(h, before, after, t, from, to, j)
      ensures before[k].seqNo <= before[j].seqNo {
      if k < j { EarlierIsSmaller(h, before, k, j); }
    }
  }

  /** Relabelling a tenant's last entry as another tenant's leaves its own chain accepted. */
  lemma RelabelledLastUnseen(h: Hasher, log: seq<Stored>, i: nat, u: Bytes, t: Bytes, from: int, to: int)
    requires Intact(h, log) && i < |log| && log[i].tenant == t && u != t
    requires forall j :: i < j < |log| ==> log[j].tenant != t
    ensures Verify(h, Relabelled(log, i, u), t, from, to).ok
  {
    var edited := log[i := log[i].(tenant := u)];
    forall j: nat | j < |edited| ensures Holds(h, edited, t, from, to, j) {
      if Covered(edited[j], t, from, to) {
        EarlierIsSmaller(h, log, j, i);
        RelabelKeepsSeed(log, i, u, t, from);
        RelabelKeepsInto(log, i, u, t, from, to, j);
        IntoIsPrev(h, log, t, from, to, j);
        assert EntryIntact(h, log, j);
      }
    }
    VerifyExactly(h, edited, t, from, to);
  }

  lemma {:induction false} RelabelKeepsSeed(log: seq<Stored>, i: nat, u: Bytes, t: Bytes, from: int)
    requires i < |log| && log[i].seqNo != from - 1
    ensures Seed(log[i := log[i].(tenant := u)], t, from) == Seed(log, t, from)
    decreases |log|
  {
    var n := |log| - 1;
    var edited := log[i := log[i].(tenant := u)];
    if i < n {
      assert edited[..n] == log[..n][i := log[i].(tenant := u)];
      RelabelKeepsSeed(log[..n], i, u, t, from);
    } else {
      assert edited[..n] == log[..n];
    }
  }

  lemma {:induction false} RelabelKeepsInto(log: seq<Stored>, i: nat, u: Bytes, t: Bytes, from: int, to: int, j: nat)
    requires i < |log| && j <= i && Seed(log[i := log[i].(tenant := u)], t, from) == Seed(log, t, from)
    ensures Into(log[i := log[i].(tenant := u)], t, from, to, j) == Into(log, t, from, to, j)
    decreases j
  {
    if j > 0 { RelabelKeepsInto(log, i, u, t, from, to, j - 1); }
  }

  function Relabelled(log: seq<Stored>, i: nat, u: Bytes): seq<Stored>
    requires i < |log|
  {
    log[i := log[i].(tenant := u)]
  }

  /** The tenant's number is stored again after entry i. */
  ghost predicate NumberedAfter(log: seq<Stored>, u: Bytes, n: int, i: nat) {
    exists k :: i < k < |log| && log[k].tenant == u && log[k].seqNo == n
  }

  /** Entry j is covered for u and is the relabelled entry i, or the one its hash is now brought
      to: the next covered entry, or the first one when i becomes the seed. */
  ghost predicate Relinked(log: seq<Stored>, i: nat, u: Bytes, from: int, to: int, j: nat)
    requires i < |log| && j < |log|
  {
    var edited := Relabelled(log, i, u);
    Covered(edited[j], u, from, to) &&
    (j == i || (i < j && Covered(edited[i], u, from, to) && NoneCovered(edited, u, from, to, i + 1, j)) ||
     (log[i].seqNo == from - 1 && !NumberedAfter(log, u, from - 1, i) && NoneCovered(edited, u, from, to, 0, j)))
  }

  lemma {:induction false} RelabelledSeed(log: seq<Stored>, i: nat, u: Bytes, from: int)
    requires i < |log| && log[i].seqNo == from - 1
    ensures Seed(Relabelled(log, i, u), u, from) ==
            if NumberedAfter(log, u, from - 1, i) then Seed(log, u, from) else log[i].hash
    decreases |log|
  {
    var n := |log| - 1;
    var edited := Relabelled(log, i, u);
    if i < n {
      assert edited[..n] == Relabelled(log[..n], i, u);
      RelabelledSeed(log[..n], i, u, from);
      if NumberedAfter(log[..n], u, from - 1, i) {
        var k :| i < k < n && log[..n][k].tenant == u && log[..n][k].seqNo == from - 1;
        assert log[k] == log[..n][k];
      }
      if k :| i < k < |log| && log[k].tenant == u && log[k].seqNo == from - 1 && k != n {
        assert log[k] == log[..n][k];
      }
    }
  }

  /** What is brought to entry j once entry i is the other tenant's. */
  lemma {:induction false} RelabelledInto(log: seq<Stored>, i: nat, u: Bytes, from: int, to: int, j: nat)
    requires i < |log| && log[i].tenant != u && j <= |log|
    ensures var edited := Relabelled(log, i, u);
            Into(edited, u, from, to, j) ==
            if (i < j && Covered(edited[i], u, from, to) && NoneCovered(edited, u, from, to, i + 1, j)) ||
               (log[i].seqNo == from - 1 && !NumberedAfter(log, u, from - 1, i) &&
                NoneCovered(edited, u, from, to, 0, j))
            then log[i].hash else Into(log, u, from, to, j)
    decreases j
  {
    hide Seed, NumberedAfter;
    var edited := Relabelled(log, i, u);
    if j == 0 {
      if log[i].seqNo == from - 1 { RelabelledSeed(log, i, u, from); } else { RelabelKeepsSeed(log, i, u, u, from); }
    } else {
      RelabelledInto(log, i, u, from, to, j - 1);
      if Covered(edited[j - 1], u, from, to) && j - 1 != i {
        assert !NoneCovered(edited, u, from, to, 0, j) && (i + 1 < j ==> !NoneCovered(edited, u, from, to, i + 1, j));
      }
    }
  }

  /** The tenant that receives a relabelled entry accepts it exactly when the entry hashes from
      what its own chain brings there, and the entry after it hashes from the relabelled one. */
  lemma ReceiverAcceptsExactly(h: Hasher, log: seq<Stored>, i: nat, u: Bytes, from: int, to: int)
    requires Intact(h, log) && i < |log| && log[i].tenant != u
    ensures Verify(h, Relabelled(log, i, u), u, from, to).ok <==>
            forall j: nat :: j < |log| && Relinked(log, i, u, from, to, j) ==>
              h(if j == i then Into(log, u, from, to, i) else log[i].hash, log[j].seqNo, log[j].event) == log[j].hash
  {
    var edited := Relabelled(log, i, u);
    VerifyExactly(h, edited, u, from, to);
    forall j: nat | j < |log|
      ensures Holds(h, edited, u, from, to, j) <==>
        (Relinked(log, i, u, from, to, j) ==>
           h(if j == i then Into(log, u, from, to, i) else log[i].hash, log[j].seqNo, log[j].event) == log[j].hash)
    {
      RelinkedHolds(h, log, i, u, from, to, j);
    }
    hide Verify, Holds, Relinked, Intact;
    assert |edited| == |log|;
  }

  lemma RelinkedHolds(h: Hasher, log: seq<Stored>, i: nat, u: Bytes, from: int, to: int, j: nat)
    requires Intact(h, log) && i < |log| && log[i].tenant != u && j < |log|
    ensures Holds(h, Relabelled(log, i, u), u, from, to, j) <==>
            (Relinked(log, i, u, from, to, j) ==>
               h(if j == i then Into(log, u, from, to, i) else log[i].hash, log[j].seqNo, log[j].event) == log[j].hash)
  {
    hide Into, NoneCovered, NumberedAfter;
    RelabelledInto(log, i, u, from, to, j);
    if j != i {
      IntoIsPrev(h, log, u, from, to, j);
      assert EntryIntact(h, log, j);
    }
  }

  /** With a hash that tells previous hashes apart: each entry now linked anew must already have
      been stored with the hash it now follows. */
  lemma ReceiverAcceptsLinks(h: Hasher, log: seq<Stored>, i: nat, u: Bytes, from: int, to: int)
    requires Intact(h, log) && i < |log| && log[i].tenant != u
    requires forall x, y, n, e :: h(x, n, e) == h(y, n, e) ==> x == y
    ensures Verify(h, Relabelled(log, i, u), u, from, to).ok <==>
            forall j: nat :: j < |log| && Relinked(log, i, u, from, to, j) ==>
              log[j].prevHash == if j == i then Into(log, u, from, to, i) else log[i].hash
  {
    ReceiverAcceptsExactly(h, log, i, u, from, to);
    hide Verify, Relinked, Into;
    forall j: nat | j < |log| ensures log[j].hash == h(log[j].prevHash, log[j].seqNo, log[j].event) {
      assert EntryIntact(h, log, j);
    }
  }

  /** Every range of an untouched log is accepted. */
  lemma UntouchedAccepted(h: Hasher, events: seq<Event>, t: Bytes, from: int, to: int)
    ensures Verify(h, Recorded(h, events), t, from, to).ok
  {
    var log := Recorded(h, events);
    RecordedIntact(h, events);
    forall i: nat | i < |log| ensures log[i].hash == h(log[i].prevHash, log[i].seqNo, log[i].event) {
      assert EntryIntact(h, log, i);
    }
    VerifyReportsLeastBroken(h, log, log, t, from, to);
  }

  // ---------- What an edit must touch to be reported ----------

  function StoredMessage(s: Stored, e: Event): Bytes { Message(s.prevHash, s.seqNo, e) }

  /** No overwriting event collides with the one it replaces. */
  ghost predicate NoCollision(digest: Digest, before: seq<Stored>, after: seq<Stored>)
    requires |before| == |after|
  {
    forall i :: 0 <= i < |before| ==>
      (digest(StoredMessage(before[i], before[i].event)) == digest(StoredMessage(before[i], after[i].event)) ==>
         StoredMessage(before[i], before[i].event) == StoredMessage(before[i], after[i].event))
  }

  predicate Timed(log: seq<Stored>) { forall i :: 0 <= i < |log| ==> Int64(log[i].event.timestamp) }

  ghost function ChangedIn(before: seq<Stored>, after: seq<Stored>, t: Bytes, from: int, to: int): set<int>
    requires |before| == |after|
  {
    set i | 0 <= i < |before| && Covered(before[i], t, from, to) && Changed(before[i].event, after[i].event)
  }

  lemma BrokenIsChanged(digest: Digest, before: seq<Stored>, after: seq<Stored>, t: Bytes, from: int, to: int, i: nat)
    requires Intact(ChainHash(digest), before) && Rewritten(before, after) && NoCollision(digest, before, after)
    requires Timed(before) && Timed(after) && i < |before|
    ensures Broken(ChainHash(digest), before, after, t, from, to, i) <==>
            Covered(before[i], t, from, to) && Changed(before[i].event, after[i].event)
  {
    var s, e := before[i], after[i].event;
    assert EntryIntact(ChainHash(digest), before, i);
    assert s.hash == digest(StoredMessage(s, s.event));
    MessageTellsChange(s.prevHash, s.seqNo, s.event, e);
  }

  /** Verification of a rewritten log reports exactly the least number in the range whose
      edit altered the entry's run-together text or its timestamp, and accepts exactly when
      there is none. */
  lemma VerifyReportsLeastChange(digest: Digest, before: seq<Stored>, after: seq<Stored>, t: Bytes, from: int, to: int)
    requires Intact(ChainHash(digest), before) && Rewritten(before, after) && NoCollision(digest, before, after)
    requires Timed(before) && Timed(after)
    ensures ReportsLeast(before, ChangedIn(before, after, t, from, to), Verify(ChainHash(digest), after, t, from, to))
  {
    VerifyReportsLeastBroken(ChainHash(digest), before, after, t, from, to);
    forall i: int | 0 <= i < |before|
      ensures i in BrokenIn(ChainHash(digest), before, after, t, from, to) <==>
              i in ChangedIn(before, after, t, from, to)
    {
      BrokenIsChanged(digest, before, after, t, from, to, i);
    }
    assert BrokenIn(ChainHash(digest), before, after, t, from, to) == ChangedIn(before, after, t, from, to);
  }
}
