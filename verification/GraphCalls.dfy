/** Which calls a batch of spans counts, read off the spans themselves. */
module GraphCalls {
  import opened TopologyWalks
  import opened EdgeTable
  import opened LiveTopology
  import opened EdgeHistory

  /** A client or producer span that names no peer, and so waits for its answer. */
  predicate Asks(s: EdgeSpan) { s.kind in {Client, Producer} && s.peer == "" }

  /** A server or consumer span that answers the span of this id in this trace. */
  predicate Replies(s: EdgeSpan, traceID: string, spanID: string) {
    s.kind in {Server, Consumer} && s.traceID == traceID && s.parentID == spanID
  }

  /** Span i asked, span n answers it, and no span between asks under the same id or answers it. */
  ghost predicate Pairs(spans: seq<EdgeSpan>, i: int, n: nat)
    requires n < |spans|
  {
    var s := spans[n];
    0 <= i < n && Asks(spans[i]) && spans[i].traceID == s.traceID && spans[i].spanID == s.parentID &&
    forall k :: i < k < n ==>
      !(Asks(spans[k]) && spans[k].traceID == s.traceID && spans[k].spanID == s.parentID) &&
      !Replies(spans[k], s.traceID, s.parentID)
  }

  /** No span before n asks under the id that span n answers, or answers it. */
  ghost predicate Untouched(spans: seq<EdgeSpan>, n: nat)
    requires n < |spans|
  {
    var s := spans[n];
    forall k :: 0 <= k < n ==>
      !(Asks(spans[k]) && spans[k].traceID == s.traceID && spans[k].spanID == s.parentID) &&
      !Replies(spans[k], s.traceID, s.parentID)
  }

  /** What span n of a batch counts: its own peer's call; or, for an answer, the call of the span it
      pairs with in the batch, else of one left waiting by an earlier batch, else of the outside. */
  ghost predicate Counts(pending: Pending, tenant: string, spans: seq<EdgeSpan>, n: nat, q: Option<Request>)
    requires n < |spans|
  {
    var s := spans[n];
    var ref := SpanRef(tenant, s.traceID, s.parentID);
    if s.kind in {Client, Producer} then
      q == if s.peer == "" then None else Some(Request(s.service, s.peer, s.peerProtocol, s.start, s.end, s.isErr))
    else if s.kind in {Server, Consumer} then
      && q.Some? && q.value.callee == s.service && q.value.start == s.start && q.value.end == s.end
      && q.value.isErr == s.isErr
      && (forall i :: Pairs(spans, i, n) ==>
            q.value.caller == spans[i].service && q.value.protocol == spans[i].protocol)
      && ((forall i :: !Pairs(spans, i, n)) ==>
            if ref in pending && Untouched(spans, n)
            then q.value.caller == pending[ref].service && q.value.protocol == pending[ref].protocol
            else q.value.caller == "external" && q.value.protocol == "unknown")
    else q == None
  }

  lemma PairsAreWaiting(tenant: string, spans: seq<EdgeSpan>, i: int, n: nat)
    requires n < |spans|
    ensures Pairs(spans, i, n) <==> StillWaits(tenant, spans, i, n, ParentRef(tenant, spans[n]))
  {
    var ref := ParentRef(tenant, spans[n]);
    if 0 <= i < n {
      forall k | 0 <= k < n
        ensures Ignores(tenant, spans[k], ref) <==>
          !(Asks(spans[k]) && spans[k].traceID == ref.traceID && spans[k].spanID == ref.spanID) &&
          !Replies(spans[k], ref.traceID, ref.spanID)
      {
      }
    }
  }

  lemma UntouchedIsUndisturbed(tenant: string, spans: seq<EdgeSpan>, n: nat)
    requires n < |spans|
    ensures Untouched(spans, n) <==> Undisturbed(tenant, spans, 0, n, ParentRef(tenant, spans[n]))
  {
    var ref := ParentRef(tenant, spans[n]);
    forall k | 0 <= k < n
      ensures Ignores(tenant, spans[k], ref) <==>
        !(Asks(spans[k]) && spans[k].traceID == ref.traceID && spans[k].spanID == ref.spanID) &&
        !Replies(spans[k], ref.traceID, ref.spanID)
    {
    }
  }

  /** The request the code derives from span n is that call. */
  lemma RequestExactly(pending: Pending, tenant: string, spans: seq<EdgeSpan>, now: int, n: nat)
    requires n < |spans|
    ensures Counts(pending, tenant, spans, n, RequestOf(PendingAt(pending, tenant, spans, now, n), tenant, spans[n]))
  {
    var s, p := spans[n], PendingAt(pending, tenant, spans, now, n);
    var ref := ParentRef(tenant, s);
    hide PendingAt;
    if s.kind in {Server, Consumer} {
      AnswerExactly(pending, tenant, spans, now, n);
    }
  }

  lemma AnswerExactly(pending: Pending, tenant: string, spans: seq<EdgeSpan>, now: int, n: nat)
    requires n < |spans|
    ensures var p, ref := PendingAt(pending, tenant, spans, now, n), ParentRef(tenant, spans[n]);
            && (forall i :: Pairs(spans, i, n) ==>
                  ref in p && p[ref].service == spans[i].service && p[ref].protocol == spans[i].protocol)
            && ((forall i :: !Pairs(spans, i, n)) ==>
                  if ref in pending && Untouched(spans, n) then ref in p && p[ref] == pending[ref] else ref !in p)
  {
    var p, ref := PendingAt(pending, tenant, spans, now, n), ParentRef(tenant, spans[n]);
    hide PendingAt, Pairs, StillWaits, Undisturbed, Untouched;
    UntouchedIsUndisturbed(tenant, spans, n);
    forall i ensures Pairs(spans, i, n) <==> StillWaits(tenant, spans, i, n, ref) {
      PairsAreWaiting(tenant, spans, i, n);
    }
    forall i | Pairs(spans, i, n)
      ensures ref in p && p[ref].service == spans[i].service && p[ref].protocol == spans[i].protocol
    {
      PairInRange(spans, i, n);
      var c := PendingClient(spans[i].service, spans[i].protocol, now);
      assert WaitsAs(pending, tenant, spans, now, n, ref, c);
      WaitingExactly(pending, tenant, spans, now, n, ref, c);
    }
    if ref in p { WaitingExactly(pending, tenant, spans, now, n, ref, p[ref]); }
    if ref in pending { WaitingExactly(pending, tenant, spans, now, n, ref, pending[ref]); }
  }

  lemma PairInRange(spans: seq<EdgeSpan>, i: int, n: nat)
    requires n < |spans| && Pairs(spans, i, n)
    ensures 0 <= i < n
  {
  }

  /** The call a request counts: one between a service and itself is internal, and one that ends
      before it starts lasted no time. */
  function CallFor(tenant: string, q: Option<Request>, now: int): seq<EdgeCall> {
    if q.None? then []
    else
      var r := q.value;
      [EdgeCall(EdgeKey(tenant, r.caller, r.callee,
                        if r.callee != "" && r.callee == r.caller then "internal" else r.protocol),
                now, if r.start < r.end then r.end - r.start else 0, r.isErr)]
  }

  /** The calls of the first n spans. */
  function CallsOf(pending: Pending, tenant: string, spans: seq<EdgeSpan>, now: int, n: nat): seq<EdgeCall>
    requires n <= |spans|
  {
    if n == 0 then []
    else
      CallsOf(pending, tenant, spans, now, n - 1) +
      CallFor(tenant, RequestOf(PendingAt(pending, tenant, spans, now, n - 1), tenant, spans[n - 1]), now)
  }

  /** A batch changes the edge table as those calls do, one after another. */
  lemma {:induction false} BatchIsCalls(g: Graph, pending: Pending, tenant: string, spans: seq<EdgeSpan>, now: int,
                                        n: nat, max: int)
    requires GraphOk(g) && n <= |spans|
    ensures GraphAt(g, pending, tenant, spans, now, n, max).table ==
            AfterCalls(g.table, CallsOf(pending, tenant, spans, now, n), max)
    decreases n
  {
    hide Valid, Shaped, PendingAt, RequestOf, AfterRequest, CallFor;
    if n > 0 {
      BatchIsCalls(g, pending, tenant, spans, now, n - 1, max);
      var q := RequestOf(PendingAt(pending, tenant, spans, now, n - 1), tenant, spans[n - 1]);
      RequestIsCall(GraphAt(g, pending, tenant, spans, now, n - 1, max), g.table,
                    CallsOf(pending, tenant, spans, now, n - 1), tenant, q, now, max);
    }
  }

  lemma RequestIsCall(before: Graph, t: Table, front: seq<EdgeCall>, tenant: string, q: Option<Request>, now: int,
                      max: int)
    requires Valid(t) && Shaped(t.edges) && GraphOk(before) && before.table == AfterCalls(t, front, max)
    ensures AfterRequest(before, tenant, q, now, max).table == AfterCalls(t, front + CallFor(tenant, q, now), max)
  {
    hide Valid, Shaped, Upserted, AfterCalls, Upsert;
    if q.None? {
      assert front + [] == front;
    } else {
      var c := CallFor(tenant, q, now)[0];
      OneMoreCall(t, front, c, max);
      UpsertIsCall(before, tenant, q.value, now, max);
    }
  }

  lemma UpsertIsCall(g: Graph, tenant: string, q: Request, ts: int, max: int)
    requires GraphOk(g)
    ensures Upsert(g, tenant, q, ts, max).table ==
            Upserted(g.table, EdgeKey(tenant, q.caller, q.callee,
                                      if q.callee != "" && q.callee == q.caller then "internal" else q.protocol),
                     ts, if q.start < q.end then q.end - q.start else 0, q.isErr, max)
  {
    hide AfterEviction, Marked;
  }
}
