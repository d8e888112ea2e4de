/** The live topology graph: span pairing, edge upserts, eviction, warm start and the two
    breadth-first queries. Map iteration order is a nondeterministic choice. */
module LiveTopology {
  import opened TopologyWalks
  import opened EdgeTable

  const CHANGES_CAPACITY := 256

  datatype ChangeEvent = ChangeEvent(key: EdgeKey, detected: int)

  /** A drop-oldest send on the bounded change channel. */
  function Emitted(changes: seq<ChangeEvent>, ev: ChangeEvent): seq<ChangeEvent> {
    (if |changes| < CHANGES_CAPACITY then changes else changes[1..]) + [ev]
  }

  function KeyFor(tenant: string, caller: string, callee: string, protocol: string): EdgeKey {
    EdgeKey(tenant, caller, callee, if caller != "" && caller == callee then "internal" else protocol)
  }

  function Elapsed(start: nat, end: nat): nat { if end > start then end - start else 0 }

  // ---------- Pairing spans into edges ----------

  datatype SpanKind = Client | Producer | Server | Consumer | Internal

  /** A span as edge derivation reads it; peer is empty when no attribute names the callee. */
  datatype EdgeSpan = EdgeSpan(kind: SpanKind, traceID: string, spanID: string, parentID: string, service: string,
                               peer: string, peerProtocol: string, protocol: string, start: nat, end: nat, isErr: bool)

  datatype SpanRef = SpanRef(tenant: string, traceID: string, spanID: string)
  datatype PendingClient = PendingClient(service: string, protocol: string, timestamp: int)
  type Pending = map<SpanRef, PendingClient>

  predicate Calls(s: EdgeSpan) { s.kind == Client || s.kind == Producer }
  predicate Answers(s: EdgeSpan) { s.kind == Server || s.kind == Consumer }
  predicate Waits(s: EdgeSpan) { Calls(s) && s.peer == "" }

  function OwnRef(tenant: string, s: EdgeSpan): SpanRef { SpanRef(tenant, s.traceID, s.spanID) }
  function ParentRef(tenant: string, s: EdgeSpan): SpanRef { SpanRef(tenant, s.traceID, s.parentID) }

  function PendingAfter(pending: Pending, tenant: string, s: EdgeSpan, now: int): Pending {
    if Waits(s) then pending[OwnRef(tenant, s) := PendingClient(s.service, s.protocol, now)]
    else if Answers(s) then pending - {ParentRef(tenant, s)}
    else pending
  }

  datatype Request = Request(caller: string, callee: string, protocol: string, start: nat, end: nat, isErr: bool)

  datatype Option<T> = None | Some(value: T)

  /** The edge call a span gives rise to, if any. */
  function RequestOf(pending: Pending, tenant: string, s: EdgeSpan): Option<Request> {
    if Calls(s) && s.peer != "" then Some(Request(s.service, s.peer, s.peerProtocol, s.start, s.end, s.isErr))
    else if Answers(s) then
      var ref := ParentRef(tenant, s);
      if ref in pending then Some(Request(pending[ref].service, s.service, pending[ref].protocol, s.start, s.end,
                                          s.isErr))
      else Some(Request("external", s.service, "unknown", s.start, s.end, s.isErr))
    else None
  }

  function PendingAt(pending: Pending, tenant: string, spans: seq<EdgeSpan>, now: int, n: nat): Pending
    requires n <= |spans|
  {
    if n == 0 then pending else PendingAfter(PendingAt(pending, tenant, spans, now, n - 1), tenant, spans[n - 1], now)
  }

  /** Span i waits under this reference, and nothing between it and j replaces or answers it. */
  ghost predicate StillWaits(tenant: string, spans: seq<EdgeSpan>, i: int, j: int, ref: SpanRef) {
    0 <= i < j <= |spans| && Waits(spans[i]) && OwnRef(tenant, spans[i]) == ref &&
    Undisturbed(tenant, spans, i + 1, j, ref)
  }

  ghost predicate Undisturbed(tenant: string, spans: seq<EdgeSpan>, i: int, j: int, ref: SpanRef)
    requires 0 <= i <= j <= |spans|
  {
    forall k :: i <= k < j ==> Ignores(tenant, spans[k], ref)
  }

  /** Span s neither waits under the reference nor answers it. */
  predicate Ignores(tenant: string, s: EdgeSpan, ref: SpanRef) {
    !(Waits(s) && OwnRef(tenant, s) == ref) && !(Answers(s) && ParentRef(tenant, s) == ref)
  }

  lemma UndisturbedStep(tenant: string, spans: seq<EdgeSpan>, i: int, n: nat, ref: SpanRef)
    requires 0 <= i < n <= |spans|
    ensures Undisturbed(tenant, spans, i, n, ref) <==>
            Undisturbed(tenant, spans, i, n - 1, ref) && Ignores(tenant, spans[n - 1], ref)
  {
  }

  lemma StillWaitsStep(tenant: string, spans: seq<EdgeSpan>, i: int, n: nat, ref: SpanRef)
    requires 0 < n <= |spans|
    ensures StillWaits(tenant, spans, i, n, ref) <==>
            (i == n - 1 && Waits(spans[i]) && OwnRef(tenant, spans[i]) == ref) ||
            (StillWaits(tenant, spans, i, n - 1, ref) && Ignores(tenant, spans[n - 1], ref))
  {
    if 0 <= i < n - 1 { UndisturbedStep(tenant, spans, i + 1, n, ref); }
  }

  /** The call waiting under the reference after n spans, read off the spans themselves. */
  ghost predicate WaitsAs(pending: Pending, tenant: string, spans: seq<EdgeSpan>, now: int, n: nat, ref: SpanRef,
                          c: PendingClient)
    requires n <= |spans|
  {
    (exists i ::
       StillWaits(tenant, spans, i, n, ref) && c == PendingClient(spans[i].service, spans[i].protocol, now)) ||
    (ref in pending && c == pending[ref] && Undisturbed(tenant, spans, 0, n, ref))
  }

  /** One more span: it waits under the reference itself, or leaves what waited there. */
  lemma WaitsStep(pending: Pending, tenant: string, spans: seq<EdgeSpan>, now: int, n: nat, ref: SpanRef,
                  c: PendingClient)
    requires 0 < n <= |spans|
    ensures var s := spans[n - 1];
            WaitsAs(pending, tenant, spans, now, n, ref, c) <==>
            (Waits(s) && OwnRef(tenant, s) == ref && c == PendingClient(s.service, s.protocol, now)) ||
            (Ignores(tenant, s, ref) && WaitsAs(pending, tenant, spans, now, n - 1, ref, c))
  {
    hide Undisturbed;
    UndisturbedStep(tenant, spans, 0, n, ref);
    forall i { StillWaitsStep(tenant, spans, i, n, ref); }
    hide StillWaits;
    var s := spans[n - 1];
    if Waits(s) && OwnRef(tenant, s) == ref { assert StillWaits(tenant, spans, n - 1, n, ref); }
  }

  /** A call is waiting exactly when the last span to touch its reference was the caller's own;
      so each waiting call is answered at most once, and by the span whose parent it is. */
  lemma {:induction false} WaitingExactly(pending: Pending, tenant: string, spans: seq<EdgeSpan>, now: int, n: nat,
                                          ref: SpanRef, c: PendingClient)
    requires n <= |spans|
    ensures var p := PendingAt(pending, tenant, spans, now, n);
            (ref in p && p[ref] == c) <==> WaitsAs(pending, tenant, spans, now, n, ref, c)
    decreases n
  {
    if n > 0 {
      WaitingExactly(pending, tenant, spans, now, n - 1, ref, c);
      WaitsStep(pending, tenant, spans, now, n, ref, c);
      hide WaitsAs;
      PendingStep(PendingAt(pending, tenant, spans, now, n - 1), tenant, spans[n - 1], now, ref, c);
    }
  }

  lemma PendingStep(p: Pending, tenant: string, s: EdgeSpan, now: int, ref: SpanRef, c: PendingClient)
    ensures var q := PendingAfter(p, tenant, s, now);
            (ref in q && q[ref] == c) <==>
            (Waits(s) && OwnRef(tenant, s) == ref && c == PendingClient(s.service, s.protocol, now)) ||
            (Ignores(tenant, s, ref) && ref in p && p[ref] == c)
  {
  }

  /** The graph as a caller sees it change: the edge table and the change channel. */
  datatype Graph = Graph(table: Table, changes: seq<ChangeEvent>)

  ghost predicate GraphOk(g: Graph) { Valid(g.table) && Shaped(g.table.edges) }

  function Upsert(g: Graph, tenant: string, q: Request, ts: int, max: int): (r: Graph)
    requires GraphOk(g)
    ensures GraphOk(r)
  {
    var key := KeyFor(tenant, q.caller, q.callee, q.protocol);
    UpsertKeepsCap(g.table, key, ts, Elapsed(q.start, q.end), q.isErr, max);
    var t := AfterEviction(g.table, key, ts, Elapsed(q.start, q.end), q.isErr, max);
    Graph(Marked(t, key, ts),
          if IsNew(t.lastNewEmit, key, ts) then Emitted(g.changes, ChangeEvent(key, ts)) else g.changes)
  }

  function AfterRequest(g: Graph, tenant: string, q: Option<Request>, ts: int, max: int): (r: Graph)
    requires GraphOk(g)
    ensures GraphOk(r)
  {
    if q.None? then g else Upsert(g, tenant, q.value, ts, max)
  }

  function GraphAt(g: Graph, pending: Pending, tenant: string, spans: seq<EdgeSpan>, now: int, n: nat,
                   max: int): (r: Graph)
    requires GraphOk(g) && n <= |spans|
    ensures GraphOk(r)
  {
    if n == 0 then g
    else
      var p := PendingAt(pending, tenant, spans, now, n - 1);
      AfterRequest(GraphAt(g, pending, tenant, spans, now, n - 1, max), tenant, RequestOf(p, tenant, spans[n - 1]), now,
                   max)
  }

  // ---------- Queries ----------

  /** What a neighbourhood search has found. */
  datatype Found = Found(upstream: seq<string>, downstream: seq<string>, edgesOut: seq<EdgeKey>,
                         hopOf: map<string, nat>, next: seq<string>)

  function Reach(f: Found, service: string, h: nat, down: bool): Found {
    if service in f.hopOf then f
    else
      Found(if down then f.upstream else f.upstream + [service],
            if down then f.downstream + [service] else f.downstream,
            f.edgesOut, f.hopOf[service := h], f.next + [service])
  }

  function Elements(s: seq<string>): set<string> { set x | x in s }

  lemma NoElements(s: seq<string>)
    requires |s| == 0
    ensures Elements(s) == {}
  {
  }

  lemma ElementsAppend(s: seq<string>, x: string)
    ensures Elements(s + [x]) == Elements(s) + {x}
  {
  }

  ghost predicate NoRepeats(s: seq<string>) { forall i, j :: 0 <= i < j < |s| ==> s[i] != s[j] }

  /** Every service but the root is listed once, upstream or downstream. */
  ghost predicate ListedOnce(f: Found, root: string) {
    root in f.hopOf && NoRepeats(f.upstream) && NoRepeats(f.downstream) &&
    Elements(f.upstream) !! Elements(f.downstream) &&
    Elements(f.upstream) + Elements(f.downstream) == f.hopOf.Keys - {root}
  }

  /** An edge of the tenant leads from one service to another that is a hop further out. */
  ghost predicate Leads(keys: set<EdgeKey>, tenant: string, hopOf: map<string, nat>, from: string, to: string,
                        down: bool) {
    from in hopOf && to in hopOf && hopOf[to] == hopOf[from] + 1 &&
    Link(from, to) in Links(keys, tenant, if down then Downstream else Upstream)
  }

  /** Downstream services were reached along a call, upstream ones against it. */
  ghost predicate Oriented(f: Found, keys: set<EdgeKey>, tenant: string, dir: Direction) {
    (dir == Downstream ==> f.upstream == []) && (dir == Upstream ==> f.downstream == []) &&
    (forall s <- f.downstream :: exists p :: Leads(keys, tenant, f.hopOf, p, s, true)) &&
    (forall s <- f.upstream :: exists p :: Leads(keys, tenant, f.hopOf, p, s, false))
  }

  /** f continues e: it has reached these services too, newly at hop h. */
  ghost predicate Reaches(e: Found, f: Found, reached: set<string>, h: nat) {
    f.hopOf.Keys == e.hopOf.Keys + reached &&
    (forall s <- f.hopOf :: f.hopOf[s] == if s in e.hopOf then e.hopOf[s] else h) &&
    Elements(f.next) == Elements(e.next) + (reached - e.hopOf.Keys)
  }

  lemma ReachLists(f: Found, service: string, h: nat, down: bool, root: string)
    requires ListedOnce(f, root)
    ensures ListedOnce(Reach(f, service, h, down), root)
  {
    ElementsAppend(f.upstream, service);
    ElementsAppend(f.downstream, service);
    if service !in f.hopOf {
      assert service !in Elements(f.upstream) && service !in Elements(f.downstream);
    }
  }

  lemma ReachReaches(f: Found, service: string, h: nat, down: bool)
    ensures Reaches(f, Reach(f, service, h, down), {service}, h)
  {
    ElementsAppend(f.next, service);
  }

  lemma LeadsOn(keys: set<EdgeKey>, tenant: string, a: map<string, nat>, b: map<string, nat>, s: string, down: bool)
    requires exists p :: Leads(keys, tenant, a, p, s, down)
    requires forall x <- a :: x in b && b[x] == a[x]
    ensures exists p :: Leads(keys, tenant, b, p, s, down)
  {
    var p :| Leads(keys, tenant, a, p, s, down);
    assert Leads(keys, tenant, b, p, s, down);
  }

  lemma ReachOriented(f: Found, from: string, to: string, h: nat, down: bool, keys: set<EdgeKey>, tenant: string,
                      dir: Direction)
    requires Oriented(f, keys, tenant, dir) && from in f.hopOf && f.hopOf[from] + 1 == h
    requires Link(from, to) in Links(keys, tenant, if down then Downstream else Upstream)
    requires dir != if down then Upstream else Downstream
    ensures Oriented(Reach(f, to, h, down), keys, tenant, dir)
  {
    var g := Reach(f, to, h, down);
    if to !in f.hopOf {
      assert Leads(keys, tenant, g.hopOf, from, to, down);
      forall s | s in g.downstream ensures exists p :: Leads(keys, tenant, g.hopOf, p, s, true) {
        if s in f.downstream { LeadsOn(keys, tenant, f.hopOf, g.hopOf, s, true); }
      }
      forall s | s in g.upstream ensures exists p :: Leads(keys, tenant, g.hopOf, p, s, false) {
        if s in f.upstream { LeadsOn(keys, tenant, f.hopOf, g.hopOf, s, false); }
      }
    }
  }

  /** The edges among keys that a search in this direction sees from these services. */
  function SeenFrom(keys: set<EdgeKey>, tenant: string, dir: Direction, services: set<string>): set<EdgeKey> {
    set k | k in keys && k.tenant == tenant && ((dir != Upstream && k.caller in services) ||
                                                (dir != Downstream && k.callee in services))
  }

  /** f continues e by these services and these edges. */
  ghost predicate Extends(e: Found, f: Found, reached: set<string>, seen: set<EdgeKey>, h: nat) {
    Reaches(e, f, reached, h) && forall k :: k in f.edgesOut <==> k in e.edgesOut || k in seen
  }

  lemma ExtendsBoth(e: Found, f: Found, g: Found, r: set<string>, s: set<string>, a: set<EdgeKey>, b: set<EdgeKey>,
                    h: nat)
    requires Extends(e, f, r, a, h) && Extends(f, g, s, b, h)
    ensures Extends(e, g, r + s, a + b, h)
  {
  }

  ghost predicate WellFound(f: Found, keys: set<EdgeKey>, tenant: string, dir: Direction, root: string) {
    ListedOnce(f, root) && Oriented(f, keys, tenant, dir)
  }

  /** Where one edge leads from s. */
  function Ends(k: EdgeKey, tenant: string, dir: Direction, s: string): set<string> {
    (if k.tenant == tenant && dir != Upstream && k.caller == s then {k.callee} else {}) +
    (if k.tenant == tenant && dir != Downstream && k.callee == s then {k.caller} else {})
  }

  function Targets(keys: set<EdgeKey>, tenant: string, dir: Direction, s: string): set<string> {
    Next(Links(keys, tenant, dir), {s})
  }

  lemma TargetsAre(keys: set<EdgeKey>, tenant: string, dir: Direction, s: string, x: string)
    ensures x in Targets(keys, tenant, dir, s) <==> exists k <- keys :: x in Ends(k, tenant, dir, s)
  {
    if x in Targets(keys, tenant, dir, s) {
      assert Link(s, x) in Links(keys, tenant, dir);
    }
    if k :| k in keys && x in Ends(k, tenant, dir, s) {
      assert Link(s, x) in Links(keys, tenant, dir);
    }
  }

  /** An enumeration of the edges, in whatever order the map yields them. */
  ghost predicate Enumerates(order: seq<EdgeKey>, keys: set<EdgeKey>) { forall k :: k in order <==> k in keys }

  function EndsOf(order: seq<EdgeKey>, tenant: string, dir: Direction, s: string, n: nat): set<string>
    requires n <= |order|
  {
    if n == 0 then {} else EndsOf(order, tenant, dir, s, n - 1) + Ends(order[n - 1], tenant, dir, s)
  }

  function SeenOf(order: seq<EdgeKey>, tenant: string, dir: Direction, s: string, n: nat): set<EdgeKey>
    requires n <= |order|
  {
    if n == 0 then {} else SeenOf(order, tenant, dir, s, n - 1) + SeenFrom({order[n - 1]}, tenant, dir, {s})
  }

  lemma {:induction false} EndsOfAre(order: seq<EdgeKey>, tenant: string, dir: Direction, s: string, n: nat)
    requires n <= |order|
    ensures forall x :: x in EndsOf(order, tenant, dir, s, n) <==>
            exists i :: 0 <= i < n && x in Ends(order[i], tenant, dir, s)
    ensures forall k :: k in SeenOf(order, tenant, dir, s, n) <==>
            k in order[..n] && k in SeenFrom({k}, tenant, dir, {s})
  {
    if n > 0 {
      EndsOfAre(order, tenant, dir, s, n - 1);
      assert order[..n] == order[..n - 1] + [order[n - 1]];
    }
  }

  /** A whole enumeration, in any order, yields exactly the services and edges next to s. */
  lemma AnyOrderYields(order: seq<EdgeKey>, keys: set<EdgeKey>, tenant: string, dir: Direction, s: string)
    requires Enumerates(order, keys)
    ensures EndsOf(order, tenant, dir, s, |order|) == Targets(keys, tenant, dir, s)
    ensures SeenOf(order, tenant, dir, s, |order|) == SeenFrom(keys, tenant, dir, {s})
  {
    EndsOfAre(order, tenant, dir, s, |order|);
    assert order[..|order|] == order;
    forall x ensures x in EndsOf(order, tenant, dir, s, |order|) <==> x in Targets(keys, tenant, dir, s) {
      TargetsAre(keys, tenant, dir, s, x);
      if i :| 0 <= i < |order| && x in Ends(order[i], tenant, dir, s) { assert order[i] in keys; }
      if k :| k in keys && x in Ends(k, tenant, dir, s) { assert k in order; }
    }
  }

  lemma SeenUnion(keys: set<EdgeKey>, tenant: string, dir: Direction, a: set<string>, b: set<string>)
    ensures SeenFrom(keys, tenant, dir, a + b) == SeenFrom(keys, tenant, dir, a) + SeenFrom(keys, tenant, dir, b)
  {
  }

  /** The search is complete to n hops: it has those services at their own layer, and the
      edges seen from the layers before the last. */
  ghost predicate Searched(f: Found, links: set<Link>, keys: set<EdgeKey>, tenant: string, dir: Direction, root: string,
                           n: nat) {
    HopsRight(f, links, root, n) && EdgesRight(f, keys, tenant, dir, Inner(links, root, n))
  }

  ghost predicate HopsRight(f: Found, links: set<Link>, root: string, n: nat) {
    f.hopOf.Keys == Within(links, root, n) &&
    forall s {:trigger f.hopOf[s]} :: s in f.hopOf ==> f.hopOf[s] <= n && ShortestIs(links, root, s, f.hopOf[s])
  }

  ghost predicate EdgesRight(f: Found, keys: set<EdgeKey>, tenant: string, dir: Direction, services: set<string>) {
    forall k :: k in f.edgesOut <==> k in SeenFrom(keys, tenant, dir, services)
  }

  /** The services whose edges a search to n hops has looked at. */
  function Inner(links: set<Link>, root: string, n: nat): set<string> {
    if n == 0 then {} else Within(links, root, n - 1)
  }

  lemma ShortestNotLater(links: set<Link>, root: string, s: string, h: nat, n: nat)
    requires ShortestIs(links, root, s, h) && h < n
    ensures s in Within(links, root, n - 1)
  {
    var walk :| IsWalk(links, root, s, walk) && |walk| == h + 1;
    WalkIsWithin(links, root, s, walk, n - 1);
  }

  /** The last layer is exactly the services at the last hop. */
  lemma FrontierHops(f: Found, links: set<Link>, keys: set<EdgeKey>, tenant: string, dir: Direction, root: string,
                     n: nat,
                     frontier: seq<string>)
    requires Searched(f, links, keys, tenant, dir, root, n) && Elements(frontier) == Layer(links, root, n)
    ensures forall s <- frontier :: s in f.hopOf && f.hopOf[s] == n
  {
    forall s | s in frontier ensures s in f.hopOf && f.hopOf[s] == n {
      assert s in Elements(frontier);
      hide Within, Next;
      if f.hopOf[s] < n { ShortestNotLater(links, root, s, f.hopOf[s], n); }
    }
  }

  lemma FreshFrontier(f: Found, g: Found, links: set<Link>, keys: set<EdgeKey>, tenant: string, dir: Direction,
                      root: string, n: nat)
    requires WellFound(f, keys, tenant, dir, root) && Searched(f, links, keys, tenant, dir, root, n)
    requires g == f.(next := [])
    ensures WellFound(g, keys, tenant, dir, root) && Searched(g, links, keys, tenant, dir, root, n)
  {
  }

  lemma NextHops(f: Found, g: Found, links: set<Link>, root: string, n: nat, reached: set<string>)
    requires HopsRight(f, links, root, n) && Reaches(f, g, reached, n + 1)
    requires Within(links, root, n + 1) == Within(links, root, n) + reached
    ensures HopsRight(g, links, root, n + 1)
  {
    forall s | s in g.hopOf ensures g.hopOf[s] <= n + 1 && ShortestIs(links, root, s, g.hopOf[s]) {
      if s !in f.hopOf { FirstLayerIsShortest(links, root, s, n + 1); } else { assert g.hopOf[s] == f.hopOf[s]; }
    }
  }

  lemma NextEdges(f: Found, g: Found, links: set<Link>, keys: set<EdgeKey>, tenant: string, dir: Direction,
                  services: set<string>, layer: set<string>, reached: set<string>, h: nat)
    requires EdgesRight(f, keys, tenant, dir, services) && Extends(f, g, reached, SeenFrom(keys, tenant, dir, layer), h)
    ensures EdgesRight(g, keys, tenant, dir, services + layer)
  {
    SeenUnion(keys, tenant, dir, services, layer);
  }

  lemma InnerStep(links: set<Link>, root: string, n: nat)
    ensures Inner(links, root, n) + Layer(links, root, n) == Inner(links, root, n + 1)
  {
    if n > 0 { WithinGrows(links, root, n - 1, n); }
  }

  lemma NextRound(f: Found, g: Found, links: set<Link>, keys: set<EdgeKey>, tenant: string, dir: Direction,
                  root: string,
                  n: nat, layer: set<string>)
    requires f.next == [] && Searched(f, links, keys, tenant, dir, root, n) && layer == Layer(links, root, n)
    requires Extends(f, g, Next(links, layer), SeenFrom(keys, tenant, dir, layer), n + 1)
    ensures Searched(g, links, keys, tenant, dir, root, n + 1)
    ensures Elements(g.next) == Layer(links, root, n + 1)
  {
    LayerStep(links, root, n);
    NextHops(f, g, links, root, n, Next(links, layer));
    NextEdges(f, g, links, keys, tenant, dir, Inner(links, root, n), layer, Next(links, layer), n + 1);
    InnerStep(links, root, n);
    NextFrontier(f, g, links, root, n, Next(links, layer));
  }

  lemma NextFrontier(f: Found, g: Found, links: set<Link>, root: string, n: nat, reached: set<string>)
    requires f.next == [] && f.hopOf.Keys == Within(links, root, n) && Reaches(f, g, reached, n + 1)
    requires Within(links, root, n + 1) == Within(links, root, n) + reached
    ensures Elements(g.next) == Layer(links, root, n + 1)
  {
    assert Elements([]) == {};
  }

  lemma SameSet(a: set<string>, b: set<string>)
    requires b <= a && a - b == {}
    ensures a == b
  {
    assert a == (a - b) + b;
  }

  lemma LayerZero(links: set<Link>, root: string)
    ensures Layer(links, root, 0) != {}
  {
    assert root in Layer(links, root, 0);
  }

  lemma LayerEmpty(links: set<Link>, root: string, m: nat, n: nat)
    requires Layer(links, root, m) == {} && m < n
    ensures Within(links, root, n) == Within(links, root, m) && Inner(links, root, n) == Inner(links, root, m)
  {
    hide Within, Next;
    if m == 0 {
      LayerZero(links, root);
    } else {
      WithinGrows(links, root, m - 1, m);
      assert Layer(links, root, m) == Within(links, root, m) - Within(links, root, m - 1);
      SameSet(Within(links, root, m), Within(links, root, m - 1));
      WithinStable(links, root, m - 1, n);
      WithinStable(links, root, m - 1, n - 1);
    }
  }

  lemma SearchStarts(f: Found, links: set<Link>, keys: set<EdgeKey>, tenant: string, dir: Direction, root: string)
    requires f == Found([], [], [], map[root := 0], [])
    ensures WellFound(f, keys, tenant, dir, root) && Searched(f, links, keys, tenant, dir, root, 0)
    ensures Elements([root]) == Layer(links, root, 0)
  {
    FirstLayerIsShortest(links, root, root, 0);
    assert Elements([]) == {} && f.hopOf.Keys == {root};
  }

  /** A search whose frontier ran dry is complete to every depth. */
  lemma Exhausted(f: Found, links: set<Link>, keys: set<EdgeKey>, tenant: string, dir: Direction, root: string, m: nat,
                  n: nat)
    requires Searched(f, links, keys, tenant, dir, root, m) && Layer(links, root, m) == {} && m < n
    ensures Searched(f, links, keys, tenant, dir, root, n)
  {
    LayerEmpty(links, root, m, n);
  }

  lemma WithinIsWalks(links: set<Link>, root: string, n: nat, s: string)
    ensures s in Within(links, root, n) <==> exists walk :: IsWalk(links, root, s, walk) && |walk| <= n + 1
  {
    if s in Within(links, root, n) {
      var walk := WithinHasWalk(links, root, n, s);
    }
    if walk :| IsWalk(links, root, s, walk) && |walk| <= n + 1 {
      WalkIsWithin(links, root, s, walk, n);
    }
  }

  lemma SearchedShortest(f: Found, links: set<Link>, root: string, n: nat)
    requires HopsRight(f, links, root, n)
    ensures forall s :: s in f.hopOf <==> exists walk :: IsWalk(links, root, s, walk) && |walk| <= n + 1
    ensures forall s <- f.hopOf :: ShortestIs(links, root, s, f.hopOf[s])
  {
    forall s ensures s in f.hopOf <==> exists walk :: IsWalk(links, root, s, walk) && |walk| <= n + 1 {
      WithinIsWalks(links, root, n, s);
    }
  }

  lemma NextUnion(links: set<Link>, a: set<string>, b: set<string>)
    ensures Next(links, a + b) == Next(links, a) + Next(links, b)
  {
  }

  /** The links lead nowhere by themselves. */
  lemma NextNone(links: set<Link>)
    ensures Next(links, {}) == {}
  {
  }

  // ---------- The hops, told by the edges alone ----------

  /** A search in this direction crosses the edge from a to b. */
  predicate Crosses(k: EdgeKey, tenant: string, dir: Direction, a: string, b: string) {
    k.tenant == tenant && (((dir == Downstream || dir == Both) && k.caller == a && k.callee == b) ||
                           ((dir == Upstream || dir == Both) && k.callee == a && k.caller == b))
  }

  ghost predicate Crossed(keys: set<EdgeKey>, tenant: string, dir: Direction, a: string, b: string) {
    exists k <- keys :: Crosses(k, tenant, dir, a, b)
  }

  /** The root at no hop, any other service one hop beyond a service an edge reaches it from, and
      no service left out or put further than an edge reaches it. */
  ghost predicate HopsTold(hopOf: map<string, nat>, keys: set<EdgeKey>, tenant: string, dir: Direction, root: string,
                           n: nat) {
    root in hopOf && hopOf[root] == 0 &&
    (forall s <- hopOf :: s != root ==>
       0 < hopOf[s] <= n && exists a <- hopOf :: hopOf[a] + 1 == hopOf[s] && Crossed(keys, tenant, dir, a, s)) &&
    forall a <- hopOf, b | hopOf[a] < n && Crossed(keys, tenant, dir, a, b) :: b in hopOf && hopOf[b] <= hopOf[a] + 1
  }

  /** The edges seen are those that leave a service nearer than the last hop. */
  ghost predicate EdgesTold(f: Found, keys: set<EdgeKey>, tenant: string, dir: Direction, n: nat) {
    forall k :: k in f.edgesOut <==>
      k in keys && exists a <- f.hopOf, b :: f.hopOf[a] < n && Crosses(k, tenant, dir, a, b)
  }

  lemma LinkCrossed(keys: set<EdgeKey>, tenant: string, dir: Direction, a: string, b: string)
    ensures Link(a, b) in Links(keys, tenant, dir) <==> Crossed(keys, tenant, dir, a, b)
  {
    if Link(a, b) in Links(keys, tenant, dir) {
      var k :| k in keys && k.tenant == tenant &&
               ((dir != Upstream && Link(a, b) == Link(k.caller, k.callee)) ||
                (dir != Downstream && Link(a, b) == Link(k.callee, k.caller)));
      assert Crosses(k, tenant, dir, a, b);
    }
  }

  lemma WalkOn(links: set<Link>, root: string, a: string, b: string, walk: seq<string>)
    requires IsWalk(links, root, a, walk) && Link(a, b) in links
    ensures IsWalk(links, root, b, walk + [b])
  {
    var more := walk + [b];
    forall i | 0 <= i < |more| - 1 ensures StepsAt(links, more, i) {
      if i < |walk| - 1 { assert StepsAt(links, walk, i); }
    }
  }

  lemma WalkBack(links: set<Link>, root: string, b: string, walk: seq<string>) returns (a: string)
    requires IsWalk(links, root, b, walk) && |walk| > 1
    ensures IsWalk(links, root, a, walk[..|walk| - 1]) && Link(a, b) in links
  {
    var front := walk[..|walk| - 1];
    a := front[|front| - 1];
    assert StepsAt(links, walk, |walk| - 2);
    forall i | 0 <= i < |front| - 1 ensures StepsAt(links, front, i) { assert StepsAt(links, walk, i); }
  }

  /** A service an edge reaches is there, at most one hop further. */
  lemma ReachedHop(f: Found, links: set<Link>, root: string, n: nat, a: string, b: string)
    requires HopsRight(f, links, root, n) && a in f.hopOf && f.hopOf[a] < n && Link(a, b) in links
    ensures b in f.hopOf && f.hopOf[b] <= f.hopOf[a] + 1
  {
    var walk :| IsWalk(links, root, a, walk) && |walk| == f.hopOf[a] + 1;
    WalkOn(links, root, a, b, walk);
    WalkIsWithin(links, root, b, walk + [b], n);
    hide Within;
    assert ShortestIs(links, root, b, f.hopOf[b]);
  }

  /** A service found was reached from one a hop nearer. */
  lemma NearerHop(f: Found, links: set<Link>, root: string, n: nat, s: string) returns (a: string)
    requires HopsRight(f, links, root, n) && s in f.hopOf && s != root
    ensures 0 < f.hopOf[s] <= n && a in f.hopOf && f.hopOf[a] + 1 == f.hopOf[s] && Link(a, s) in links
  {
    var walk :| IsWalk(links, root, s, walk) && |walk| == f.hopOf[s] + 1;
    a := WalkBack(links, root, s, walk);
    WalkIsWithin(links, root, a, walk[..|walk| - 1], n);
    hide Within;
    assert ShortestIs(links, root, a, f.hopOf[a]);
    var short :| IsWalk(links, root, a, short) && |short| == f.hopOf[a] + 1;
    WalkOn(links, root, a, s, short);
  }

  lemma HopsAreTold(f: Found, keys: set<EdgeKey>, tenant: string, dir: Direction, root: string, n: nat)
    requires HopsRight(f, Links(keys, tenant, dir), root, n)
    ensures HopsTold(f.hopOf, keys, tenant, dir, root, n)
  {
    hide Links, HopsRight, Crossed;
    var links := Links(keys, tenant, dir);
    RootHop(f, links, root, n);
    forall s | s in f.hopOf && s != root
      ensures 0 < f.hopOf[s] <= n
      ensures exists a <- f.hopOf :: f.hopOf[a] + 1 == f.hopOf[s] && Crossed(keys, tenant, dir, a, s)
    {
      var a := NearerHop(f, links, root, n, s);
      LinkCrossed(keys, tenant, dir, a, s);
    }
    forall a <- f.hopOf, b | f.hopOf[a] < n && Crossed(keys, tenant, dir, a, b)
      ensures b in f.hopOf && f.hopOf[b] <= f.hopOf[a] + 1
    {
      LinkCrossed(keys, tenant, dir, a, b);
      ReachedHop(f, links, root, n, a, b);
    }
  }

  lemma RootHop(f: Found, links: set<Link>, root: string, n: nat)
    requires HopsRight(f, links, root, n)
    ensures root in f.hopOf && f.hopOf[root] == 0
  {
    assert IsWalk(links, root, root, [root]);
    WalkIsWithin(links, root, root, [root], n);
    hide Within;
    assert ShortestIs(links, root, root, f.hopOf[root]);
  }

  lemma InnerAre(f: Found, links: set<Link>, root: string, n: nat, a: string)
    requires HopsRight(f, links, root, n)
    ensures a in Inner(links, root, n) <==> a in f.hopOf && f.hopOf[a] < n
  {
    hide Within;
    if n > 0 && a in Inner(links, root, n) {
      WithinGrows(links, root, n - 1, n);
      assert ShortestIs(links, root, a, f.hopOf[a]);
      var walk := WithinHasWalk(links, root, n - 1, a);
    } else if a in f.hopOf && f.hopOf[a] < n {
      ShortestNotLater(links, root, a, f.hopOf[a], n);
    }
  }

  lemma EdgesAreTold(f: Found, keys: set<EdgeKey>, tenant: string, dir: Direction, root: string, n: nat)
    requires HopsRight(f, Links(keys, tenant, dir), root, n)
    requires EdgesRight(f, keys, tenant, dir, Inner(Links(keys, tenant, dir), root, n))
    ensures EdgesTold(f, keys, tenant, dir, n)
  {
    hide Links, HopsRight, Inner;
    var links := Links(keys, tenant, dir);
    forall k ensures k in f.edgesOut <==>
                     k in keys && exists a <- f.hopOf, b :: f.hopOf[a] < n && Crosses(k, tenant, dir, a, b) {
      InnerAre(f, links, root, n, k.caller);
      InnerAre(f, links, root, n, k.callee);
      assert k in SeenFrom(keys, tenant, dir, Inner(links, root, n)) <==>
             k in keys && ((k.caller in Inner(links, root, n) && Crosses(k, tenant, dir, k.caller, k.callee)) ||
                           (k.callee in Inner(links, root, n) && Crosses(k, tenant, dir, k.callee, k.caller)));
    }
  }

  class LiveGraph {
    const maxEdges: int
    var edges: map<EdgeKey, Edge>
    var insertSeq: map<EdgeKey, nat>
    var nextSeq: nat
    var evicted: nat
    var lastNewEmit: map<EdgeKey, int>
    var changes: seq<ChangeEvent>
    var pending: Pending

    ghost function State(): Table
      reads this
    {
      Table(edges, insertSeq, nextSeq, evicted, lastNewEmit)
    }

    ghost predicate Consistent()
      reads this
    {
      Valid(State()) && Shaped(edges)
    }

    constructor (maxEdges: int)
      ensures this.maxEdges == maxEdges && State() == Empty && Consistent() && changes == [] && pending == map[]
    {
      this.maxEdges := maxEdges;
      edges, insertSeq, nextSeq, evicted, lastNewEmit, changes, pending := map[], map[], 0, 0, map[], [], map[];
    }

    // ----- Updates -----

    static method BucketIndex(durationNanos: nat) returns (idx: nat)
      ensures idx == Bucket(durationNanos) && IsBucket(durationNanos, idx)
    {
      BucketExactly(durationNanos, Bucket(durationNanos));
      var ms := durationNanos / 1_000_000;
      if ms < 1 { return 0; }
      idx := 0;
      var bound := 1;
      while idx < 15 && ms >= bound * 2
        invariant idx < HIST_BUCKETS && bound == Pow2(idx)
        invariant BucketFrom(ms, 0) == BucketFrom(ms, idx)
        decreases HIST_BUCKETS - idx
      {
        bound := bound * 2;
        idx := idx + 1;
      }
    }

    static method FindColdest(t: Table) returns (victim: EdgeKey)
      requires Valid(t) && t.edges != map[]
      ensures IsColdest(HeatOf(t), victim)
    {
      HeatsDistinct(t);
      victim := ColdestOf(HeatOf(t));
    }

    /** Scans the edges in any order for the one to evict. */
    static method ColdestOf(p: Heats) returns (victim: EdgeKey)
      requires Distinct(p) && p.Keys != {}
      ensures IsColdest(p, victim)
    {
      var todo := p.Keys;
      victim :| victim in todo;
      todo := todo - {victim};
      while todo != {}
        invariant todo <= p.Keys && victim in p && victim !in todo
        invariant forall k <- p :: k == victim || k in todo || Colder(p[victim], p[k])
        decreases |todo|
      {
        var k :| k in todo;
        todo := todo - {k};
        assert p[k] != p[victim];
        if Colder(p[k], p[victim]) {
          victim := k;
        }
      }
    }

    static method EvictFrom(t: Table, max: int) returns (r: Table)
      requires Valid(t)
      ensures Valid(r) && r == Evicted(t, max)
    {
      r := t;
      if max > 0 {
        while |r.edges| > max
          invariant Valid(r) && Evicted(r, max) == Evicted(t, max)
          decreases |r.edges|
        {
          var victim := FindColdest(r);
          EvictColdestFirst(r, victim, max);
          WithoutValid(r, victim);
          r := Without(r, victim);
        }
      }
      NothingToEvict(r, max);
    }

    method Install(t: Table)
      modifies this`edges, this`insertSeq, this`nextSeq, this`evicted, this`lastNewEmit
      ensures State() == t
    {
      edges, insertSeq, nextSeq, evicted, lastNewEmit := t.edges, t.insertSeq, t.nextSeq, t.evicted, t.lastNewEmit;
    }

    method EvictIfNeeded()
      requires Consistent()
      modifies this`edges, this`insertSeq, this`nextSeq, this`evicted, this`lastNewEmit
      ensures Consistent() && State() == Evicted(old(State()), maxEdges)
    {
      EvictedShaped(State(), maxEdges);
      var r := EvictFrom(Table(edges, insertSeq, nextSeq, evicted, lastNewEmit), maxEdges);
      Install(r);
    }

    method Emit(ev: ChangeEvent)
      modifies this`changes
      ensures changes == Emitted(old(changes), ev)
    {
      if |changes| < CHANGES_CAPACITY {
        changes := changes + [ev];
        return;
      }
      changes := changes[1..];
      changes := changes + [ev];
    }

    method UpsertEdge(tenant: string, caller: string, callee: string, protocol: string, ts: int,
                      start: nat, end: nat, isErr: bool)
      requires Consistent()
      modifies this`edges, this`insertSeq, this`nextSeq, this`evicted, this`lastNewEmit, this`changes
      ensures Consistent()
      ensures Graph(State(), changes) ==
              Upsert(old(Graph(State(), changes)), tenant, Request(caller, callee, protocol, start, end, isErr), ts,
                     maxEdges)
    {
      hide Valid, Shaped, AfterEviction, Marked;
      var key := EdgeKey(tenant, caller, callee, if caller != "" && caller == callee then "internal" else protocol);
      var duration := if end > start then end - start else 0;
      var t, isNew := UpsertInto(Table(edges, insertSeq, nextSeq, evicted, lastNewEmit), key, ts, duration, isErr,
                                 maxEdges);
      UpsertKeepsCap(State(), key, ts, duration, isErr, maxEdges);
      Install(t);
      if isNew {
        Emit(ChangeEvent(key, ts));
      }
    }

    static method UpsertInto(t: Table, key: EdgeKey, ts: int, duration: nat, isErr: bool, max: int)
        returns (r: Table, isNew: bool)
      requires Valid(t) && Shaped(t.edges)
      ensures r == Upserted(t, key, ts, duration, isErr, max)
      ensures isNew == IsNew(AfterEviction(t, key, ts, duration, isErr, max).lastNewEmit, key, ts)
    {
      hide Valid, Shaped, AfterEviction;
      r := CountCall(t, key, ts, duration, isErr, max);
      isNew := key !in r.lastNewEmit || ts - r.lastNewEmit[key] > NEW_EDGE_WINDOW;
      if key in r.edges {
        r := r.(edges := r.edges[key := r.edges[key].(isNew := isNew)]);
      }
      r := r.(lastNewEmit := r.lastNewEmit[key := ts]);
    }

    /** Counts the call on the edge, creating it and evicting if it was not there. */
    static method CountCall(t: Table, key: EdgeKey, ts: int, duration: nat, isErr: bool, max: int) returns (r: Table)
      requires Valid(t) && Shaped(t.edges)
      ensures r == AfterEviction(t, key, ts, duration, isErr, max)
    {
      hide Valid, Evicted, Counted;
      var known := key in t.edges;
      var e := Bump(if known then t.edges[key] else NewEdge(ts), ts, duration, isErr);
      TouchedValid(t, key, ts, duration, isErr);
      if known { return Table(t.edges[key := e], t.insertSeq, t.nextSeq, t.evicted, t.lastNewEmit); }
      r := Table(t.edges[key := e], t.insertSeq[key := t.nextSeq + 1], t.nextSeq + 1, t.evicted, t.lastNewEmit);
      r := EvictFrom(r, max);
    }

    static method Bump(e: Edge, ts: int, duration: nat, isErr: bool) returns (r: Edge)
      requires |e.hist| == HIST_BUCKETS
      ensures r == Counted(e, ts, duration, isErr)
    {
      var b := BucketIndex(duration);
      r := e.(calls := e.calls + 1, errors := e.errors + (if isErr then 1 else 0),
              durationSum := e.durationSum + duration,
              hist := e.hist[b := e.hist[b] + 1], lastSeen := ts, bucketStart := ts - ts % EDGE_BUCKET,
              isVanished := false);
    }

    static method InstallLoaded(t: Table, loaded: seq<Loaded>) returns (r: Table)
      requires Valid(t)
      ensures r == InstalledAll(t, loaded)
    {
      r := t;
      for i := 0 to |loaded|
        invariant r == InstalledAll(t, loaded[..i])
      {
        assert loaded[..i + 1][..i] == loaded[..i];
        var key := loaded[i].key;
        if key !in r.edges {
          r := r.(nextSeq := r.nextSeq + 1, insertSeq := r.insertSeq[key := r.nextSeq + 1]);
        }
        r := r.(edges := r.edges[key := loaded[i].edge]);
      }
      assert loaded[..|loaded|] == loaded;
    }

    method WarmStart(loaded: seq<Loaded>)
      requires Consistent() && forall l <- loaded :: |l.edge.hist| == HIST_BUCKETS
      modifies this`edges, this`insertSeq, this`nextSeq, this`evicted, this`lastNewEmit
      ensures Consistent() && State() == WarmStarted(old(State()), loaded, maxEdges)
    {
      var r := InstallLoaded(Table(edges, insertSeq, nextSeq, evicted, lastNewEmit), loaded);
      WarmStartWithinCap(State(), loaded, maxEdges);
      InstalledValid(State(), loaded);
      InstalledShape(State(), loaded);
      EvictedShaped(r, maxEdges);
      r := EvictFrom(r, maxEdges);
      Install(r);
    }

    method Consume(tenant: string, spans: seq<EdgeSpan>, now: int)
      requires Consistent()
      modifies this
      ensures Consistent()
      ensures pending == PendingAt(old(pending), tenant, spans, now, |spans|)
      ensures Graph(State(), changes) == GraphAt(old(Graph(State(), changes)), old(pending), tenant, spans, now,
                                                 |spans|, maxEdges)
    {
      ghost var g, p := Graph(State(), changes), pending;
      for i := 0 to |spans|
        invariant Consistent() && pending == PendingAt(p, tenant, spans, now, i)
        invariant Graph(State(), changes) == GraphAt(g, p, tenant, spans, now, i, maxEdges)
      {
        ConsumeSpan(tenant, spans[i], now);
      }
    }

    method ConsumeSpan(tenant: string, span: EdgeSpan, now: int)
      requires Consistent()
      modifies this
      ensures Consistent()
      ensures pending == PendingAfter(old(pending), tenant, span, now)
      ensures Graph(State(), changes) ==
              AfterRequest(old(Graph(State(), changes)), tenant, RequestOf(old(pending), tenant, span), now, maxEdges)
    {
      var request := Correlate(tenant, span, now);
      if request.Some? {
        var q := request.value;
        UpsertEdge(tenant, q.caller, q.callee, q.protocol, now, q.start, q.end, q.isErr);
      }
    }

    /** Joins a span with the call waiting for it, or leaves its own call waiting. */
    method Correlate(tenant: string, span: EdgeSpan, now: int) returns (request: Option<Request>)
      modifies this`pending
      ensures pending == PendingAfter(old(pending), tenant, span, now)
      ensures request == RequestOf(old(pending), tenant, span)
    {
      request := None;
      if Calls(span) {
        if span.peer != "" {
          return Some(Request(span.service, span.peer, span.peerProtocol, span.start, span.end, span.isErr));
        }
        pending := pending[OwnRef(tenant, span) := PendingClient(span.service, span.protocol, now)];
      } else if Answers(span) {
        var ref := ParentRef(tenant, span);
        if ref in pending {
          var entry := pending[ref];
          pending := pending - {ref};
          return Some(Request(entry.service, span.service, entry.protocol, span.start, span.end, span.isErr));
        }
        assert pending - {ref} == pending;
        return Some(Request("external", span.service, "unknown", span.start, span.end, span.isErr));
      }
    }

    // ----- Queries -----

    method VisitEdge(f: Found, k: EdgeKey, tenant: string, dir: Direction, s: string, h: nat, ghost root: string)
      returns (r: Found)
      requires k in edges && s in f.hopOf && f.hopOf[s] + 1 == h && WellFound(f, edges.Keys, tenant, dir, root)
      ensures WellFound(r, edges.Keys, tenant, dir, root)
      ensures Extends(f, r, Ends(k, tenant, dir, s), SeenFrom({k}, tenant, dir, {s}), h)
    {
      r := f;
      if k.tenant != tenant { return; }
      if dir != Upstream && k.caller == s {
        ReachLists(r, k.callee, h, true, root);
        ReachReaches(r, k.callee, h, true);
        ReachOriented(r, s, k.callee, h, true, edges.Keys, tenant, dir);
        r := Reach(r, k.callee, h, true);
        r := r.(edgesOut := r.edgesOut + [k]);
      }
      if dir != Downstream && k.callee == s {
        ReachLists(r, k.caller, h, false, root);
        ReachReaches(r, k.caller, h, false);
        ReachOriented(r, s, k.caller, h, false, edges.Keys, tenant, dir);
        r := Reach(r, k.caller, h, false);
        r := r.(edgesOut := r.edgesOut + [k]);
      }
    }

    method AnyOrder() returns (order: seq<EdgeKey>)
      ensures Enumerates(order, edges.Keys)
    {
      order := [];
      var todo := edges.Keys;
      while todo != {}
        invariant forall k :: k in edges <==> k in todo || k in order
        decreases |todo|
      {
        var k :| k in todo;
        order := order + [k];
        todo := todo - {k};
      }
    }

    /** Scans the edges once, in any order, for the services next to s. */
    method ScanNeighbors(f: Found, tenant: string, dir: Direction, s: string, h: nat, ghost root: string)
        returns (r: Found)
      requires s in f.hopOf && f.hopOf[s] + 1 == h && WellFound(f, edges.Keys, tenant, dir, root)
      ensures WellFound(r, edges.Keys, tenant, dir, root)
      ensures Extends(f, r, Targets(edges.Keys, tenant, dir, s), SeenFrom(edges.Keys, tenant, dir, {s}), h)
    {
      r := f;
      var order := AnyOrder();
      for i := 0 to |order|
        invariant WellFound(r, edges.Keys, tenant, dir, root)
        invariant Extends(f, r, EndsOf(order, tenant, dir, s, i), SeenOf(order, tenant, dir, s, i), h)
      {
        var g := VisitEdge(r, order[i], tenant, dir, s, h, root);
        ExtendsBoth(f, r, g, EndsOf(order, tenant, dir, s, i), Ends(order[i], tenant, dir, s),
                    SeenOf(order, tenant, dir, s, i), SeenFrom({order[i]}, tenant, dir, {s}), h);
        r := g;
      }
      AnyOrderYields(order, edges.Keys, tenant, dir, s);
    }

    /** One round: everything next to the frontier. */
    method ExpandNeighbors(f: Found, tenant: string, dir: Direction, frontier: seq<string>, h: nat, ghost root: string)
      returns (r: Found)
      requires forall s <- frontier :: s in f.hopOf && f.hopOf[s] + 1 == h
      requires WellFound(f, edges.Keys, tenant, dir, root)
      ensures WellFound(r, edges.Keys, tenant, dir, root)
      ensures Extends(f, r, Next(Links(edges.Keys, tenant, dir), Elements(frontier)),
                      SeenFrom(edges.Keys, tenant, dir, Elements(frontier)), h)
    {
      r := f;
      ghost var links := Links(edges.Keys, tenant, dir);
      NextNone(links);
      for i := 0 to |frontier|
        invariant WellFound(r, edges.Keys, tenant, dir, root)
        invariant Extends(f, r, Next(links, Elements(frontier[..i])),
                          SeenFrom(edges.Keys, tenant, dir, Elements(frontier[..i])), h)
      {
        var s := frontier[i];
        ghost var before := Elements(frontier[..i]);
        ElementsAppend(frontier[..i], s);
        assert frontier[..i + 1] == frontier[..i] + [s];
        NextUnion(links, before, {s});
        SeenUnion(edges.Keys, tenant, dir, before, {s});
        var g := ScanNeighbors(r, tenant, dir, s, h, root);
        ExtendsBoth(f, r, g, Next(links, before), Next(links, {s}),
                    SeenFrom(edges.Keys, tenant, dir, before), SeenFrom(edges.Keys, tenant, dir, {s}), h);
        r := g;
      }
      assert frontier[..|frontier|] == frontier;
    }

    /** One round of the search, from a complete search to one hop less. */
    method SearchRound(f: Found, tenant: string, service: string, dir: Direction, frontier: seq<string>, h: nat)
      returns (r: Found)
      requires h > 0 && WellFound(f, edges.Keys, tenant, dir, service)
      requires Searched(f, Links(edges.Keys, tenant, dir), edges.Keys, tenant, dir, service, h - 1)
      requires Elements(frontier) == Layer(Links(edges.Keys, tenant, dir), service, h - 1)
      ensures WellFound(r, edges.Keys, tenant, dir, service)
      ensures Searched(r, Links(edges.Keys, tenant, dir), edges.Keys, tenant, dir, service, h)
      ensures Elements(r.next) == Layer(Links(edges.Keys, tenant, dir), service, h)
    {
      hide Links, Within, Next, Layer, Inner, WellFound, Searched, Extends, SeenFrom, Elements;
      ghost var links := Links(edges.Keys, tenant, dir);
      FrontierHops(f, links, edges.Keys, tenant, dir, service, h - 1, frontier);
      var g := f.(next := []);
      FreshFrontier(f, g, links, edges.Keys, tenant, dir, service, h - 1);
      r := ExpandNeighbors(g, tenant, dir, frontier, h, service);
      NextRound(g, r, links, edges.Keys, tenant, dir, service, h - 1, Elements(frontier));
    }

    method SearchNeighbors(tenant: string, service: string, hops: int, dir: Direction) returns (r: Found)
      ensures WellFound(r, edges.Keys, tenant, dir, service)
      ensures Searched(r, Links(edges.Keys, tenant, dir), edges.Keys, tenant, dir, service,
                       if hops < 0 then 0 else hops)
    {
      hide Links, Within, Next, Layer, Inner, WellFound, Searched, Elements;
      ghost var links := Links(edges.Keys, tenant, dir);
      r := Found([], [], [], map[service := 0], []);
      var frontier := [service];
      SearchStarts(r, links, edges.Keys, tenant, dir, service);
      var h := 1;
      while h <= hops && |frontier| > 0
        invariant 1 <= h && (h <= hops + 1 || h == 1)
        invariant WellFound(r, edges.Keys, tenant, dir, service)
        invariant Searched(r, links, edges.Keys, tenant, dir, service, h - 1)
        invariant Elements(frontier) == Layer(links, service, h - 1)
        decreases hops - h
      {
        r := SearchRound(r, tenant, service, dir, frontier, h);
        frontier := r.next;
        h := h + 1;
      }
      if h <= hops {
        NoElements(frontier);
        Exhausted(r, links, edges.Keys, tenant, dir, service, h - 1, hops);
      }
    }

    /** Everything within some hops of a service, whatever order the edges are scanned in:
        each service at the length of its shortest walk, and every edge seen on the way. */
    method Neighbors(tenant: string, service: string, hops: int, dir: Direction) returns (r: Found)
      ensures ListedOnce(r, service) && Oriented(r, edges.Keys, tenant, dir)
      ensures var links, n := Links(edges.Keys, tenant, dir), if hops < 0 then 0 else hops;
              (forall s :: s in r.hopOf <==> exists walk :: IsWalk(links, service, s, walk) && |walk| <= n + 1) &&
              (forall s <- r.hopOf :: ShortestIs(links, service, s, r.hopOf[s])) &&
              HopsTold(r.hopOf, edges.Keys, tenant, dir, service, n) && EdgesTold(r, edges.Keys, tenant, dir, n)
    {
      hide Links, HopsRight, EdgesRight, HopsTold, EdgesTold, Inner;
      r := SearchNeighbors(tenant, service, hops, dir);
      ghost var n := if hops < 0 then 0 else hops;
      SearchedShortest(r, Links(edges.Keys, tenant, dir), service, n);
      HopsAreTold(r, edges.Keys, tenant, dir, service, n);
      EdgesAreTold(r, edges.Keys, tenant, dir, service, n);
    }

    /** Scans the edges once, in any order, for b or for unvisited services next to s. */
    method ScanDistance(tenant: string, s: string, b: string, visited: set<string>, next: seq<string>)
      returns (hit: bool, visited': set<string>, next': seq<string>)
      ensures hit <==> b in Targets(edges.Keys, tenant, Both, s)
      ensures !hit ==> visited' == visited + Targets(edges.Keys, tenant, Both, s)
      ensures !hit ==> Elements(next') == Elements(next) + (Targets(edges.Keys, tenant, Both, s) - visited)
    {
      var order := AnyOrder();
      hit, visited', next' := ScanInOrder(order, tenant, s, b, visited, next);
      AnyOrderYields(order, edges.Keys, tenant, Both, s);
    }

    static method ScanInOrder(order: seq<EdgeKey>, tenant: string, s: string, b: string, visited: set<string>,
                              next: seq<string>)
      returns (hit: bool, visited': set<string>, next': seq<string>)
      ensures hit <==> b in EndsOf(order, tenant, Both, s, |order|)
      ensures !hit ==> visited' == visited + EndsOf(order, tenant, Both, s, |order|)
      ensures !hit ==> Elements(next') == Elements(next) + (EndsOf(order, tenant, Both, s, |order|) - visited)
    {
      hit, visited', next' := false, visited, next;
      for i := 0 to |order|
        invariant b !in EndsOf(order, tenant, Both, s, i)
        invariant visited' == visited + EndsOf(order, tenant, Both, s, i)
        invariant Elements(next') == Elements(next) + (EndsOf(order, tenant, Both, s, i) - visited)
      {
        var k := order[i];
        if k.tenant == tenant && (s == k.caller || s == k.callee) {
          var other := if s == k.caller then k.callee else k.caller;
          assert Ends(k, tenant, Both, s) == {other};
          if other == b {
            EndsOfAre(order, tenant, Both, s, |order|);
            return true, visited', next';
          }
          ElementsAppend(next', other);
          if other !in visited' {
            visited' := visited' + {other};
            next' := next' + [other];
          }
        }
      }
    }

    method ExpandDistance(tenant: string, b: string, visited: set<string>, frontier: seq<string>)
      returns (hit: bool, visited': set<string>, next: seq<string>)
      ensures var reached := Next(Links(edges.Keys, tenant, Both), Elements(frontier));
              (hit <==> b in reached) &&
              (!hit ==> visited' == visited + reached && Elements(next) == reached - visited)
    {
      hit, visited', next := false, visited, [];
      ghost var links := Links(edges.Keys, tenant, Both);
      NextNone(links);
      for i := 0 to |frontier|
        invariant b !in Next(links, Elements(frontier[..i]))
        invariant visited' == visited + Next(links, Elements(frontier[..i]))
        invariant Elements(next) == Next(links, Elements(frontier[..i])) - visited
      {
        var s := frontier[i];
        ElementsAppend(frontier[..i], s);
        assert frontier[..i + 1] == frontier[..i] + [s];
        NextUnion(links, Elements(frontier[..i]), {s});
        hit, visited', next := ScanDistance(tenant, s, b, visited', next);
        if hit {
          NextUnion(links, Elements(frontier), {s});
          assert Elements(frontier) + {s} == Elements(frontier);
          return;
        }
      }
      assert frontier[..|frontier|] == frontier;
    }

    /** The length of the shortest undirected walk between two services when it is at most
        maxHops, and not found exactly when there is none that short. */
    method Distance(tenant: string, a: string, b: string, maxHops: int) returns (hops: nat, found: bool)
      ensures var links := Links(edges.Keys, tenant, Both);
              if found then ShortestIs(links, a, b, hops) && (a == b || hops <= maxHops)
              else hops == 0 && forall walk :: IsWalk(links, a, b, walk) ==> |walk| - 1 > maxHops
    {
      ghost var links := Links(edges.Keys, tenant, Both);
      if a == b {
        FirstLayerIsShortest(links, a, b, 0);
        return 0, true;
      }
      var visited, frontier := {a}, [a];
      var h := 1;
      while h <= maxHops
        invariant 1 <= h && (h <= maxHops + 1 || h == 1)
        invariant b !in Within(links, a, h - 1)
        invariant visited == Within(links, a, h - 1) && Elements(frontier) == Layer(links, a, h - 1)
        decreases maxHops - h
      {
        LayerStep(links, a, h - 1);
        var hit, visited', next := ExpandDistance(tenant, b, visited, frontier);
        if hit {
          FirstLayerIsShortest(links, a, b, h);
          return h, true;
        }
        visited, frontier := visited', next;
        h := h + 1;
      }
      NotWithinNoShort(links, a, b, h - 1);
      return 0, false;
    }
  }
}
