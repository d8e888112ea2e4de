/** The trace path signature: a depth-first walk of the span forest that an unordered
    span buffer encodes through parent identifiers. The hash function is a parameter;
    what is modelled is the exact byte string it is fed. */
module PathSignature {

  /** Eight identifier bytes read as a big-endian number, so byte order is numeric order. */
  type SpanID = n: int | 0 <= n < 0x1_0000_0000_0000_0000

  datatype Span = Span(id: SpanID, parent: SpanID, service: string, name: string, start: nat)

  datatype Option<+T> = None | Some(value: T)

  predicate IsRoot(s: Span) { s.parent == 0 }

  predicate Before(a: Span, b: Span) {
    a.start < b.start || (a.start == b.start && a.id < b.id)
  }

  // ---------- The forest as a set of spans ----------

  ghost predicate DistinctIds(S: set<Span>) {
    forall s, t :: s in S && t in S && s.id == t.id ==> s == t
  }

  ghost predicate HasParent(S: set<Span>, s: Span) {
    exists t :: t in S && t.id == s.parent
  }

  ghost function Roots(S: set<Span>): set<Span> {
    set s | s in S && (IsRoot(s) || !HasParent(S, s))
  }

  ghost function Kids(S: set<Span>, p: Span): set<Span> {
    set s | s in S && s !in Roots(S) && s.parent == p.id
  }

  /** The ancestor links of s end in a root or a dangling parent after at most n steps. */
  ghost predicate Reaches(S: set<Span>, s: Span, n: nat)
    decreases n
  {
    s in Roots(S) || (n > 0 && exists p :: p in S && s in Kids(S, p) && Reaches(S, p, n - 1))
  }

  ghost predicate Anchored(S: set<Span>, s: Span) {
    s in S && exists n: nat :: Reaches(S, s, n)
  }

  /** A path that starts at a root and follows parent-to-child links. */
  ghost predicate Chain(S: set<Span>, path: seq<Span>) {
    && |path| > 0
    && path[0] in Roots(S)
    && forall i :: 0 < i < |path| ==> path[i] in Kids(S, path[i - 1])
  }

  function Last(path: seq<Span>): Span
    requires |path| > 0
  {
    path[|path| - 1]
  }

  /** With distinct identifiers a chain is determined by its last span. */
  lemma {:induction false} ChainUnique(S: set<Span>, p: seq<Span>, q: seq<Span>)
    requires DistinctIds(S) && Chain(S, p) && Chain(S, q) && Last(p) == Last(q)
    ensures p == q
    decreases |p|
  {
    HeadOnlyIsRoot(S, p);
    HeadOnlyIsRoot(S, q);
    if |p| > 1 && |q| > 1 {
      var p', q' := p[..|p| - 1], q[..|q| - 1];
      assert Last(p) in Kids(S, Last(p')) && Last(q) in Kids(S, Last(q'));
      InSet(S, p');
      InSet(S, q');
      ChainUnique(S, p', q');
      assert p == p' + [Last(p)] && q == q' + [Last(q)];
    }
  }

  lemma HeadOnlyIsRoot(S: set<Span>, p: seq<Span>)
    requires Chain(S, p)
    ensures Last(p) in Roots(S) <==> |p| == 1
  {
    if |p| > 1 { assert Last(p) in Kids(S, p[|p| - 2]); }
  }

  lemma InSet(S: set<Span>, p: seq<Span>)
    requires Chain(S, p)
    ensures forall i :: 0 <= i < |p| ==> p[i] in S
  {
    forall i | 0 <= i < |p| ensures p[i] in S {
      if i > 0 { assert p[i] in Kids(S, p[i - 1]); }
    }
  }

  /** No chain is longer than the buffer, even when other spans form parent cycles:
      this is what bounds the recursion of the walk. */
  lemma ChainFits(S: set<Span>, p: seq<Span>)
    requires DistinctIds(S) && Chain(S, p)
    ensures |p| <= |S|
  {
    InSet(S, p);
    forall i, j | 0 <= i < j < |p| ensures p[i] != p[j] {
      if p[i] == p[j] {
        ChainUnique(S, p[..i + 1], p[..j + 1]);
        assert false;
      }
    }
    DistinctFits(p, S);
  }

  lemma {:induction false} DistinctFits<T>(q: seq<T>, S: set<T>)
    requires forall i :: 0 <= i < |q| ==> q[i] in S
    requires forall i, j :: 0 <= i < j < |q| ==> q[i] != q[j]
    ensures |q| <= |S|
  {
    if |q| > 0 {
      DistinctFits(q[1..], S - {q[0]});
    }
  }

  // ---------- Sorting by (start, identifier) ----------

  predicate Ordered(q: seq<Span>) {
    forall i, j :: 0 <= i < j < |q| ==> Before(q[i], q[j])
  }

  ghost predicate IsFirst(S: set<Span>, m: Span) {
    m in S && forall s :: s in S && s != m ==> Before(m, s)
  }

  lemma {:induction false} FirstExists(S: set<Span>)
    requires S != {} && DistinctIds(S)
    ensures exists m :: IsFirst(S, m)
    decreases |S|
  {
    var x :| x in S;
    if S == {x} {
      assert IsFirst(S, x);
    } else {
      FirstExists(S - {x});
      var m :| IsFirst(S - {x}, m);
      forall s | s in S && s != x && Before(x, m) ensures Before(x, s) {
        assert s in S - {x};
      }
      assert IsFirst(S, x) || IsFirst(S, m);
    }
  }

  /** The spans of S in (start, identifier) order. */
  ghost function SortedOf(S: set<Span>): (q: seq<Span>)
    requires DistinctIds(S)
    ensures forall s :: s in q <==> s in S
    ensures Ordered(q)
    decreases |S|
  {
    if S == {} then [] else
      FirstExists(S);
      var m :| IsFirst(S, m);
      var rest := SortedOf(S - {m});
      assert forall i :: 0 <= i < |rest| ==> rest[i] in rest;
      [m] + rest
  }

  lemma HeadIsFirst(S: set<Span>, q: seq<Span>)
    requires S != {} && Ordered(q) && forall s :: s in q <==> s in S
    ensures q != [] && IsFirst(S, q[0])
  {
    var x :| x in S;
    assert x in q;
    forall s | s in S && s != q[0] ensures Before(q[0], s) {
      var i :| 0 <= i < |q| && q[i] == s;
    }
  }

  lemma TailElements(q: seq<Span>, S: set<Span>)
    requires q != [] && Ordered(q) && forall s :: s in q <==> s in S
    ensures forall s :: s in q[1..] <==> s in S - {q[0]}
  {
    forall s ensures s in q[1..] <==> s in S - {q[0]} {
      assert s in q <==> s == q[0] || s in q[1..];
      if s in q[1..] {
        var i :| 0 <= i < |q[1..]| && q[1..][i] == s;
        assert Before(q[0], q[i + 1]);
      }
    }
  }

  lemma SortedUnfold(S: set<Span>, m: Span)
    requires DistinctIds(S) && IsFirst(S, m)
    ensures SortedOf(S) == [m] + SortedOf(S - {m})
  {
    assert forall m' :: IsFirst(S, m') && m' != m ==> Before(m, m');
  }

  /** Whatever sorting algorithm is used, an ordered arrangement of S is SortedOf(S). */
  lemma {:induction false} SortedUnique(S: set<Span>, q: seq<Span>)
    requires DistinctIds(S) && Ordered(q) && forall s :: s in q <==> s in S
    ensures q == SortedOf(S)
    decreases |S|
  {
    if q == [] {
      assert S == {};
    } else {
      assert q[0] in S;
      HeadIsFirst(S, q);
      TailElements(q, S);
      SortedUnique(S - {q[0]}, q[1..]);
      SortedUnfold(S, q[0]);
      assert q == [q[0]] + q[1..];
    }
  }

  // ---------- The walk ----------

  /** Pre-order walk below `path`; each visited span is listed with its whole root path. */
  ghost function Walk(S: set<Span>, path: seq<Span>): seq<seq<Span>>
    requires DistinctIds(S) && Chain(S, path)
    decreases |S| - |path|, 1, 0
  {
    ChainFits(S, path);
    [path] + WalkAll(S, path, SortedOf(Kids(S, Last(path))))
  }

  /** Each span in `next` prolongs `path` to a chain. */
  ghost predicate Extends(S: set<Span>, path: seq<Span>, next: seq<Span>) {
    forall i :: 0 <= i < |next| ==> Chain(S, path + [next[i]])
  }

  ghost function WalkAll(S: set<Span>, path: seq<Span>, next: seq<Span>): seq<seq<Span>>
    requires DistinctIds(S) && |path| <= |S|
    requires Extends(S, path, next)
    decreases |S| - |path|, 0, |next|
  {
    if next == [] then [] else
      ChainFits(S, path + [next[0]]);
      Walk(S, path + [next[0]]) + WalkAll(S, path, next[1..])
  }

  ghost function Forest(S: set<Span>): seq<seq<Span>>
    requires DistinctIds(S)
  {
    WalkAll(S, [], SortedOf(Roots(S)))
  }

  lemma {:induction false} WalkAllSplit(S: set<Span>, path: seq<Span>, next: seq<Span>, n: nat)
    requires DistinctIds(S) && |path| <= |S| && n < |next|
    requires Extends(S, path, next)
    ensures WalkAll(S, path, next[..n + 1]) ==
            WalkAll(S, path, next[..n]) + Walk(S, path + [next[n]])
    decreases n
  {
    if n == 0 {
      assert next[..1][1..] == [] && next[..0] == [];
    } else {
      WalkAllSplit(S, path, next[1..], n - 1);
      assert next[..n + 1][1..] == next[1..][..n];
      assert next[..n][1..] == next[1..][..n - 1];
    }
  }

  /** Everything below `path` that the walk lists is a chain that extends `path`. */
  lemma {:induction false} WalkSound(S: set<Span>, path: seq<Span>, c: seq<Span>)
    requires DistinctIds(S) && Chain(S, path) && c in Walk(S, path)
    ensures Chain(S, c) && path <= c
    decreases |S| - |path|, 1, 0
  {
    ChainFits(S, path);
    var kids := SortedOf(Kids(S, Last(path)));
    KidsExtend(S, path, kids);
    if c != path {
      assert Walk(S, path)[1..] == WalkAll(S, path, kids);
      WalkAllSound(S, path, kids, c);
    }
  }

  lemma {:induction false} WalkAllSound(S: set<Span>, path: seq<Span>, next: seq<Span>, c: seq<Span>)
    requires DistinctIds(S) && |path| <= |S|
    requires Extends(S, path, next)
    requires c in WalkAll(S, path, next)
    ensures Chain(S, c) && path < c && c[|path|] in next
    decreases |S| - |path|, 0, |next|
  {
    ChainFits(S, path + [next[0]]);
    if c in Walk(S, path + [next[0]]) {
      WalkSound(S, path + [next[0]], c);
    } else {
      WalkAllSound(S, path, next[1..], c);
    }
  }

  lemma {:induction false} WalkComplete(S: set<Span>, path: seq<Span>, c: seq<Span>)
    requires DistinctIds(S) && Chain(S, path) && Chain(S, c) && path <= c
    ensures c in Walk(S, path)
    decreases |S| - |path|, 1, 0
  {
    ChainFits(S, path);
    if c != path {
      assert c[|path|] in Kids(S, c[|path| - 1]);
      WalkAllComplete(S, path, SortedOf(Kids(S, Last(path))), c);
    }
  }

  lemma {:induction false} WalkAllComplete(S: set<Span>, path: seq<Span>, next: seq<Span>, c: seq<Span>)
    requires DistinctIds(S) && |path| <= |S|
    requires Extends(S, path, next)
    requires Chain(S, c) && path < c && c[|path|] in next
    ensures c in WalkAll(S, path, next)
    decreases |S| - |path|, 0, |next|
  {
    ChainFits(S, path + [next[0]]);
    if c[|path|] == next[0] {
      WalkComplete(S, path + [next[0]], c);
    } else {
      WalkAllComplete(S, path, next[1..], c);
    }
  }

  /** Pre-order: a path comes before its extensions, and siblings in (start, id) order. */
  ghost predicate LexBefore(c: seq<Span>, d: seq<Span>) {
    c < d || exists i :: 0 <= i < |c| && i < |d| && c[..i] == d[..i] && Before(c[i], d[i])
  }

  ghost predicate LexSorted(w: seq<seq<Span>>) {
    forall i, j :: 0 <= i < j < |w| ==> LexBefore(w[i], w[j])
  }

  lemma {:induction false} WalkSorted(S: set<Span>, path: seq<Span>)
    requires DistinctIds(S) && Chain(S, path)
    ensures LexSorted(Walk(S, path))
    decreases |S| - |path|, 1, 0
  {
    ChainFits(S, path);
    var next := SortedOf(Kids(S, Last(path)));
    WalkAllSorted(S, path, next);
    var rest := WalkAll(S, path, next);
    forall j | 0 <= j < |rest| ensures LexBefore(path, rest[j]) {
      WalkAllSound(S, path, next, rest[j]);
    }
  }

  lemma {:induction false} WalkAllSorted(S: set<Span>, path: seq<Span>, next: seq<Span>)
    requires DistinctIds(S) && |path| <= |S| && Ordered(next)
    requires Extends(S, path, next)
    ensures LexSorted(WalkAll(S, path, next))
    decreases |S| - |path|, 0, |next|
  {
    if next != [] {
      ChainFits(S, path + [next[0]]);
      WalkSorted(S, path + [next[0]]);
      WalkAllSorted(S, path, next[1..]);
      var a, b := Walk(S, path + [next[0]]), WalkAll(S, path, next[1..]);
      forall i, j | 0 <= i < |a| && 0 <= j < |b| ensures LexBefore(a[i], b[j]) {
        WalkSound(S, path + [next[0]], a[i]);
        WalkAllSound(S, path, next[1..], b[j]);
        var k :| 1 <= k < |next| && next[k] == b[j][|path|];
        assert a[i][..|path|] == path == b[j][..|path|];
        assert a[i][|path|] == next[0];
      }
    }
  }

  lemma RootsExtend(S: set<Span>, roots: seq<Span>)
    requires forall s :: s in roots ==> s in Roots(S)
    ensures Extends(S, [], roots)
  {
    forall i | 0 <= i < |roots| ensures Chain(S, [] + [roots[i]]) {
      assert roots[i] in roots;
    }
  }

  lemma KidsExtend(S: set<Span>, path: seq<Span>, kids: seq<Span>)
    requires Chain(S, path) && forall s :: s in kids ==> s in Kids(S, Last(path))
    ensures Extends(S, path, kids)
  {
    forall i | 0 <= i < |kids| ensures Chain(S, path + [kids[i]]) {
      assert kids[i] in kids;
    }
  }

  /** The forest walk is exactly the list of all root chains in pre-order. */
  lemma ForestIsAllChains(S: set<Span>)
    requires DistinctIds(S)
    ensures forall c :: c in Forest(S) <==> Chain(S, c)
    ensures LexSorted(Forest(S))
  {
    var roots := SortedOf(Roots(S));
    RootsExtend(S, roots);
    WalkAllSorted(S, [], roots);
    forall c ensures c in Forest(S) <==> Chain(S, c) {
      if c in Forest(S) { WalkAllSound(S, [], roots, c); }
      if Chain(S, c) { WalkAllComplete(S, [], roots, c); }
    }
  }

  predicate Rooted(c: seq<Span>) { c != [] && IsRoot(c[0]) }
  predicate Orphaned(c: seq<Span>) { c != [] && !IsRoot(c[0]) }

  ghost predicate OrphansLast(walk: seq<seq<Span>>) {
    forall i, j :: 0 <= i < |walk| && 0 <= j < |walk| && Rooted(walk[i]) && Orphaned(walk[j]) ==> i < j
  }

  /** The walk lists every orphan subtree after the rooted ones exactly when each span with a
      dangling parent comes after each root in (start, id) order. */
  lemma OrphansLastExactly(S: set<Span>)
    requires DistinctIds(S)
    ensures OrphansLast(Forest(S)) <==>
            forall r, d :: r in Roots(S) && d in Roots(S) && IsRoot(r) && !IsRoot(d) ==> Before(r, d)
  {
    var walk := Forest(S);
    ForestIsAllChains(S);
    if OrphansLast(walk) {
      forall r, d | r in Roots(S) && d in Roots(S) && IsRoot(r) && !IsRoot(d) ensures Before(r, d) {
        assert Chain(S, [r]) && Chain(S, [d]);
        var i :| 0 <= i < |walk| && walk[i] == [r];
        var j :| 0 <= j < |walk| && walk[j] == [d];
        assert i < j && LexBefore(walk[i], walk[j]);
      }
    }
    if forall r, d :: r in Roots(S) && d in Roots(S) && IsRoot(r) && !IsRoot(d) ==> Before(r, d) {
      forall i, j | 0 <= i < |walk| && 0 <= j < |walk| && Rooted(walk[i]) && Orphaned(walk[j]) ensures i < j {
        var c, o := walk[i], walk[j];
        assert c in walk && o in walk && Chain(S, c) && Chain(S, o) && Before(c[0], o[0]);
        if j < i {
          assert LexBefore(o, c);
          TopsDecide(o, c);
        }
      }
    }
  }

  lemma TopsDecide(c: seq<Span>, d: seq<Span>)
    requires c != [] && d != [] && c[0] != d[0] && LexBefore(c, d)
    ensures Before(c[0], d[0])
  {
    forall i | 0 < i < |c| && i < |d| ensures c[..i] != d[..i] {
      assert c[..i][0] == c[0] && d[..i][0] == d[0];
    }
  }

  /** An orphan that starts before the root is visited before it. */
  lemma EarlyOrphanFirst()
    ensures var root, orphan := Span(1, 0, "a", "x", 5), Span(2, 9, "b", "y", 3);
            DistinctIds({root, orphan}) && !OrphansLast(Forest({root, orphan}))
  {
    var root, orphan := Span(1, 0, "a", "x", 5), Span(2, 9, "b", "y", 3);
    var S := {root, orphan};
    assert !HasParent(S, orphan);
    OrphansLastExactly(S);
    assert root in Roots(S) && orphan in Roots(S) && !Before(root, orphan);
  }

  lemma {:induction false} ReachesIsChain(S: set<Span>, s: Span, n: nat) returns (c: seq<Span>)
    requires s in S && Reaches(S, s, n)
    ensures Chain(S, c) && Last(c) == s
    decreases n
  {
    if s in Roots(S) {
      c := [s];
    } else {
      var p :| p in S && s in Kids(S, p) && Reaches(S, p, n - 1);
      c := ReachesIsChain(S, p, n - 1);
      c := c + [s];
    }
  }

  lemma {:induction false} ChainReaches(S: set<Span>, c: seq<Span>)
    requires Chain(S, c)
    ensures Reaches(S, Last(c), |c|) && Last(c) in S
    decreases |c|
  {
    InSet(S, c);
    if |c| > 1 {
      var c' := c[..|c| - 1];
      ChainReaches(S, c');
      assert Last(c) in Kids(S, Last(c'));
    }
  }

  lemma ForestNoRepeat(S: set<Span>, i: nat, j: nat)
    requires DistinctIds(S) && i < j < |Forest(S)|
    ensures Forest(S)[i] != [] && Forest(S)[j] != [] && Last(Forest(S)[i]) != Last(Forest(S)[j])
  {
    var c, d := Forest(S)[i], Forest(S)[j];
    ForestIsAllChains(S);
    assert c in Forest(S) && d in Forest(S) && LexBefore(c, d);
    if Last(c) == Last(d) {
      ChainUnique(S, c, d);
      assert false;
    }
  }

  /** Parent cycles are harmless: the walk visits every anchored span exactly once and
      no other span. */
  lemma VisitsAnchoredOnce(S: set<Span>, s: Span)
    requires DistinctIds(S)
    ensures Anchored(S, s) <==> exists i :: 0 <= i < |Forest(S)| && Forest(S)[i] != [] && Last(Forest(S)[i]) == s
    ensures forall i, j :: 0 <= i < j < |Forest(S)| ==>
              Forest(S)[i] != [] && Forest(S)[j] != [] && Last(Forest(S)[i]) != Last(Forest(S)[j])
  {
    forall i, j | 0 <= i < j < |Forest(S)|
      ensures Forest(S)[i] != [] && Forest(S)[j] != [] && Last(Forest(S)[i]) != Last(Forest(S)[j])
    {
      ForestNoRepeat(S, i, j);
    }
    var w := Forest(S);
    ForestIsAllChains(S);
    if Anchored(S, s) {
      var n: nat :| Reaches(S, s, n);
      var c := ReachesIsChain(S, s, n);
      assert c in w;
    }
    if i :| 0 <= i < |w| && w[i] != [] && Last(w[i]) == s {
      assert w[i] in w;
      ChainReaches(S, w[i]);
    }
  }

  // ---------- The bytes fed to the hash ----------

  function Nul(): string { ['\0'] }

  function LinkBytes(w: string, p: Span, s: Span): string {
    w + p.service + Nul() + p.name + Nul() + s.service + Nul() + s.name + Nul()
  }

  /** What has been written after the visit of the last span of `path`; a root adds nothing. */
  function Feed(w: string, path: seq<Span>): string {
    if |path| < 2 then w else LinkBytes(w, path[|path| - 2], path[|path| - 1])
  }

  function FeedAll(w: string, walk: seq<seq<Span>>): string
    decreases |walk|
  {
    if walk == [] then w else FeedAll(Feed(w, walk[0]), walk[1..])
  }

  lemma {:induction false} FeedAppend(w: string, a: seq<seq<Span>>, b: seq<seq<Span>>)
    ensures FeedAll(w, a + b) == FeedAll(FeedAll(w, a), b)
    decreases |a|
  {
    if a == [] {
      assert a + b == b;
    } else {
      FeedAppend(Feed(w, a[0]), a[1..], b);
      assert (a + b)[1..] == a[1..] + b;
    }
  }

  lemma FeedStep(w: string, S: set<Span>, path: seq<Span>, next: seq<Span>, n: nat)
    requires DistinctIds(S) && |path| <= |S| && n < |next|
    requires Extends(S, path, next)
    ensures Extends(S, path, next[..n]) && Extends(S, path, next[..n + 1])
    ensures FeedAll(w, WalkAll(S, path, next[..n + 1])) ==
            FeedAll(FeedAll(w, WalkAll(S, path, next[..n])), Walk(S, path + [next[n]]))
  {
    WalkAllSplit(S, path, next, n);
    FeedAppend(w, WalkAll(S, path, next[..n]), Walk(S, path + [next[n]]));
  }

  lemma FeedWalk(w: string, S: set<Span>, path: seq<Span>)
    requires DistinctIds(S) && Chain(S, path)
    ensures |path| <= |S| && Extends(S, path, SortedOf(Kids(S, Last(path))))
    ensures FeedAll(w, Walk(S, path)) == FeedAll(Feed(w, path), WalkAll(S, path, SortedOf(Kids(S, Last(path)))))
  {
    ChainFits(S, path);
    var kids := SortedOf(Kids(S, Last(path)));
    KidsExtend(S, path, kids);
    assert Walk(S, path)[1..] == WalkAll(S, path, kids);
  }

  /** Everything the hash is fed for the forest S. */
  ghost function SignatureBytes(S: set<Span>): string
    requires DistinctIds(S)
  {
    FeedAll("", Forest(S))
  }

  // ---------- What the bytes tell ----------

  datatype Edge = Edge(callerService: string, callerName: string, calleeService: string, calleeName: string)

  /** The call that c's last span answers, when a span comes before it. */
  function LastEdge(c: seq<Span>): seq<Edge> {
    var n := |c|;
    if n < 2 then [] else [Edge(c[n - 2].service, c[n - 2].name, c[n - 1].service, c[n - 1].name)]
  }

  /** The parent-to-child links of a walk, in the order visited. */
  function EdgesOf(walk: seq<seq<Span>>): seq<Edge> {
    if walk == [] then [] else LastEdge(walk[0]) + EdgesOf(walk[1..])
  }

  function FieldsOf(edges: seq<Edge>): seq<string> {
    if edges == [] then []
    else
      var e := edges[0];
      [e.callerService, e.callerName, e.calleeService, e.calleeName] + FieldsOf(edges[1..])
  }

  /** Each field followed by a NUL byte. */
  function Terminated(fields: seq<string>): string {
    if fields == [] then "" else fields[0] + ['\0'] + Terminated(fields[1..])
  }

  lemma Regroup(w: string, a: string, b: string, c: string, d: string, t: string)
    ensures w + a + ['\0'] + b + ['\0'] + c + ['\0'] + d + ['\0'] + t ==
            w + (a + ['\0'] + b + ['\0'] + c + ['\0'] + d + ['\0'] + t)
  {
  }

  lemma FeedsLastEdge(w: string, c: seq<Span>, rest: seq<Edge>)
    ensures Feed(w, c) + Terminated(FieldsOf(rest)) == w + Terminated(FieldsOf(LastEdge(c) + rest))
  {
    if |c| >= 2 {
      var e, t := LastEdge(c)[0], Terminated(FieldsOf(rest));
      FieldsCons(e, rest);
      TerminatedFour(e.callerService, e.callerName, e.calleeService, e.calleeName, FieldsOf(rest));
      hide FieldsOf, Terminated;
      assert LastEdge(c) + rest == [e] + rest;
      Regroup(w, e.callerService, e.callerName, e.calleeService, e.calleeName, t);
    } else {
      assert LastEdge(c) + rest == rest;
    }
  }

  lemma {:induction false} FeedIsTerminated(w: string, walk: seq<seq<Span>>)
    ensures FeedAll(w, walk) == w + Terminated(FieldsOf(EdgesOf(walk)))
    decreases |walk|
  {
    hide Feed, FieldsOf, Terminated, LastEdge;
    if walk == [] {
      NoFields();
    } else {
      FeedIsTerminated(Feed(w, walk[0]), walk[1..]);
      FeedsLastEdge(w, walk[0], EdgesOf(walk[1..]));
    }
  }

  lemma NoFields()
    ensures Terminated(FieldsOf([])) == ""
  {
  }

  lemma FieldsCons(e: Edge, rest: seq<Edge>)
    ensures FieldsOf([e] + rest) == [e.callerService, e.callerName, e.calleeService, e.calleeName] + FieldsOf(rest)
  {
    assert ([e] + rest)[1..] == rest;
  }

  lemma TerminatedCons(f: string, rest: seq<string>)
    ensures Terminated([f] + rest) == f + ['\0'] + Terminated(rest)
  {
    assert ([f] + rest)[1..] == rest;
  }

  lemma TerminatedFour(a: string, b: string, c: string, d: string, rest: seq<string>)
    ensures Terminated([a, b, c, d] + rest) ==
            a + ['\0'] + b + ['\0'] + c + ['\0'] + d + ['\0'] + Terminated(rest)
  {
    hide Terminated;
    TerminatedCons(d, rest);
    TerminatedCons(c, [d] + rest);
    TerminatedCons(b, [c] + ([d] + rest));
    TerminatedCons(a, [b] + ([c] + ([d] + rest)));
    assert [a, b, c, d] + rest == [a] + ([b] + ([c] + ([d] + rest)));
  }

  predicate NulFree(f: string) { forall i :: 0 <= i < |f| ==> f[i] != '\0' }

  lemma FirstField(f: string, g: string, x: string, y: string)
    requires NulFree(f) && NulFree(g) && f + ['\0'] + x == g + ['\0'] + y
    ensures f == g && x == y
  {
    var s, t := f + ['\0'] + x, g + ['\0'] + y;
    assert s[|f|] == '\0' == t[|g|];
    assert |f| == |g|;
    assert s[..|f|] == f && t[..|g|] == g;
    assert s[|f| + 1..] == x && t[|g| + 1..] == y;
  }

  lemma {:induction false} TerminatedTells(a: seq<string>, b: seq<string>)
    requires (forall f <- a :: NulFree(f)) && (forall f <- b :: NulFree(f))
    requires Terminated(a) == Terminated(b)
    ensures a == b
    decreases |a|
  {
    if a != [] && b != [] {
      FirstField(a[0], b[0], Terminated(a[1..]), Terminated(b[1..]));
      TerminatedTells(a[1..], b[1..]);
      assert a == [a[0]] + a[1..] && b == [b[0]] + b[1..];
    }
  }

  lemma {:induction false} FieldsTell(a: seq<Edge>, b: seq<Edge>)
    requires FieldsOf(a) == FieldsOf(b)
    ensures a == b
    decreases |a|
  {
    if a != [] && b != [] {
      assert FieldsOf(a)[4..] == FieldsOf(a[1..]) && FieldsOf(b)[4..] == FieldsOf(b[1..]);
      FieldsTell(a[1..], b[1..]);
      assert FieldsOf(a)[0] == a[0].callerService && FieldsOf(a)[1] == a[0].callerName;
      assert FieldsOf(a)[2] == a[0].calleeService && FieldsOf(a)[3] == a[0].calleeName;
      assert a == [a[0]] + a[1..] && b == [b[0]] + b[1..];
    }
  }

  ghost predicate Nameable(S: set<Span>) { forall s <- S :: NulFree(s.service) && NulFree(s.name) }

  lemma {:induction false} FieldsNulFree(S: set<Span>, walk: seq<seq<Span>>)
    requires Nameable(S) && forall c <- walk :: forall i :: 0 <= i < |c| ==> c[i] in S
    ensures forall f <- FieldsOf(EdgesOf(walk)) :: NulFree(f)
    decreases |walk|
  {
    hide NulFree;
    if walk != [] {
      var c, n, rest := walk[0], |walk[0]|, EdgesOf(walk[1..]);
      FieldsNulFree(S, walk[1..]);
      assert c in walk;
      if n >= 2 {
        var e := Edge(c[n - 2].service, c[n - 2].name, c[n - 1].service, c[n - 1].name);
        assert EdgesOf(walk) == [e] + rest;
        FieldsCons(e, rest);
        assert c[n - 2] in S && c[n - 1] in S;
      } else {
        assert EdgesOf(walk) == rest;
      }
    }
  }

  lemma ForestInSet(S: set<Span>)
    requires DistinctIds(S)
    ensures forall c <- Forest(S) :: forall i :: 0 <= i < |c| ==> c[i] in S
  {
    ForestIsAllChains(S);
    forall c | c in Forest(S) ensures forall i :: 0 <= i < |c| ==> c[i] in S {
      InSet(S, c);
    }
  }

  /** Where no service or operation contains a NUL, two forests feed the hash the same bytes
      exactly when they have the same calls in the same order: caller and callee, each with
      service and operation. */
  lemma BytesTellEdges(S: set<Span>, T: set<Span>)
    requires DistinctIds(S) && DistinctIds(T) && Nameable(S) && Nameable(T)
    ensures SignatureBytes(S) == SignatureBytes(T) <==> EdgesOf(Forest(S)) == EdgesOf(Forest(T))
  {
    var a, b := EdgesOf(Forest(S)), EdgesOf(Forest(T));
    FeedIsTerminated("", Forest(S));
    FeedIsTerminated("", Forest(T));
    ForestInSet(S);
    ForestInSet(T);
    FieldsNulFree(S, Forest(S));
    FieldsNulFree(T, Forest(T));
    if SignatureBytes(S) == SignatureBytes(T) {
      assert "" + Terminated(FieldsOf(a)) == Terminated(FieldsOf(a));
      assert "" + Terminated(FieldsOf(b)) == Terminated(FieldsOf(b));
      TerminatedTells(FieldsOf(a), FieldsOf(b));
      FieldsTell(a, b);
    }
  }

  /** The sibling order is that of the start and the identifier read as one number. */
  lemma OrderIsOneNumber(a: Span, b: Span)
    ensures Before(a, b) <==>
            a.start * 0x1_0000_0000_0000_0000 + a.id < b.start * 0x1_0000_0000_0000_0000 + b.id
  {
  }

  // ---------- The algorithm ----------

  /** The streaming hash state: everything written so far. */
  class Digest {
    var written: string

    constructor ()
      ensures written == ""
    {
      written := "";
    }

    method WriteString(s: string)
      modifies this
      ensures written == old(written) + s
    {
      written := written + s;
    }
  }

  ghost predicate NoDup<T>(q: seq<T>) {
    forall i, j :: 0 <= i < j < |q| ==> q[i] != q[j]
  }

  lemma {:induction false} NoDupCount<T>(q: seq<T>, x: T)
    requires NoDup(q)
    ensures multiset(q)[x] == if x in q then 1 else 0
  {
    if q != [] {
      NoDupCount(q[1..], x);
      assert q == [q[0]] + q[1..];
    }
  }

  lemma RepeatCount<T>(q: seq<T>, i: nat, j: nat)
    requires i < j < |q| && q[i] == q[j]
    ensures multiset(q)[q[i]] >= 2
  {
    assert q == q[..j] + [q[j]] + q[j + 1..];
    assert q[i] == q[..j][i];
    assert q[i] in multiset(q[..j]);
  }

  /** sort.Slice with the (start, id) comparison: some ordered rearrangement of the list. */
  method ByStartThenID(ghost S: set<Span>, list: seq<Span>) returns (sorted: seq<Span>)
    requires DistinctIds(S) && NoDup(list) && forall s :: s in list <==> s in S
    ensures sorted == SortedOf(S)
  {
    ghost var q := SortedOf(S);
    forall x ensures multiset(q)[x] == multiset(list)[x] {
      NoDupCount(q, x);
      NoDupCount(list, x);
    }
    assert multiset(q) == multiset(list);
    sorted :| multiset(sorted) == multiset(list) && Ordered(sorted);
    forall s ensures s in sorted <==> s in S {
      assert s in sorted <==> s in multiset(sorted);
      assert s in list <==> s in multiset(list);
    }
    SortedUnique(S, sorted);
  }

  function ChildList(children: map<SpanID, seq<Span>>, id: SpanID): seq<Span> {
    if id in children then children[id] else []
  }

  ghost predicate ChildTable(S: set<Span>, children: map<SpanID, seq<Span>>) {
    forall p :: p in S ==>
      NoDup(ChildList(children, p.id)) && forall s :: s in ChildList(children, p.id) <==> s in Kids(S, p)
  }

  method WriteEdge(parent: Span, s: Span, h: Digest)
    modifies h
    ensures h.written == LinkBytes(old(h.written), parent, s)
  {
    h.WriteString(parent.service);
    h.WriteString(Nul());
    h.WriteString(parent.name);
    h.WriteString(Nul());
    h.WriteString(s.service);
    h.WriteString(Nul());
    h.WriteString(s.name);
    h.WriteString(Nul());
  }

  method Visit(ghost S: set<Span>, ghost path: seq<Span>, children: map<SpanID, seq<Span>>,
               parent: Option<Span>, s: Span, h: Digest)
    requires DistinctIds(S) && ChildTable(S, children)
    requires Chain(S, path) && Last(path) == s
    requires parent == if |path| < 2 then None else Some(path[|path| - 2])
    modifies h
    ensures h.written == FeedAll(old(h.written), Walk(S, path))
    decreases |S| - |path|, 1, 0
  {
    ChainFits(S, path);
    InSet(S, path);
    if parent.Some? {
      WriteEdge(parent.value, s, h);
    }
    assert h.written == Feed(old(h.written), path);
    var kids := ByStartThenID(Kids(S, s), ChildList(children, s.id));
    KidsExtend(S, path, kids);
    VisitEach(S, path, children, Some(s), kids, h);
    FeedWalk(old(h.written), S, path);
  }

  /** The loops that visit a list of siblings in order. */
  method VisitEach(ghost S: set<Span>, ghost path: seq<Span>, children: map<SpanID, seq<Span>>,
                   parent: Option<Span>, next: seq<Span>, h: Digest)
    requires DistinctIds(S) && ChildTable(S, children)
    requires |path| <= |S| && Extends(S, path, next)
    requires parent == if path == [] then None else Some(Last(path))
    modifies h
    ensures h.written == FeedAll(old(h.written), WalkAll(S, path, next))
    decreases |S| - |path|, 0, 0
  {
    for i := 0 to |next|
      invariant Extends(S, path, next[..i])
      invariant h.written == FeedAll(old(h.written), WalkAll(S, path, next[..i]))
    {
      ChainFits(S, path + [next[i]]);
      Visit(S, path + [next[i]], children, parent, next[i], h);
      FeedStep(old(h.written), S, path, next, i);
    }
    assert next[..|next|] == next;
  }

  ghost predicate UniqueIds(spans: seq<Span>) {
    forall i, j :: 0 <= i < j < |spans| ==> spans[i].id != spans[j].id
  }

  ghost function Elements(spans: seq<Span>): set<Span> { set s | s in spans }

  lemma UniqueIsDistinct(spans: seq<Span>)
    requires UniqueIds(spans)
    ensures DistinctIds(Elements(spans))
  {
    forall s, t | s in Elements(spans) && t in Elements(spans) && s.id == t.id ensures s == t {
      var i :| 0 <= i < |spans| && spans[i] == s;
      var j :| 0 <= j < |spans| && spans[j] == t;
    }
  }

  method IndexByID(spans: seq<Span>) returns (bySpanID: map<SpanID, Span>)
    ensures forall s :: s in Elements(spans) ==> (s.parent in bySpanID <==> HasParent(Elements(spans), s))
  {
    bySpanID := map[];
    for i := 0 to |spans|
      invariant forall id :: id in bySpanID <==> exists k :: 0 <= k < i && spans[k].id == id
    {
      bySpanID := bySpanID[spans[i].id := spans[i]];
    }
    forall s | s in Elements(spans) ensures s.parent in bySpanID <==> HasParent(Elements(spans), s) {
      if s.parent in bySpanID {
        var k :| 0 <= k < |spans| && spans[k].id == s.parent;
        assert spans[k] in Elements(spans);
      }
    }
  }

  lemma RootExactly(S: set<Span>, s: Span)
    requires s in S
    ensures s in Roots(S) <==> IsRoot(s) || !HasParent(S, s)
  {
  }

  lemma RootsInside(S: set<Span>)
    ensures Roots(S) <= S
  {
  }

  method LinkSpans(spans: seq<Span>) returns (roots: seq<Span>, children: map<SpanID, seq<Span>>)
    requires UniqueIds(spans)
    ensures NoDup(roots) && forall s :: s in roots <==> s in Roots(Elements(spans))
    ensures ChildTable(Elements(spans), children)
  {
    hide Roots, HasParent, EdgesOf, SortedOf;
    ghost var S := Elements(spans);
    var bySpanID := IndexByID(spans);
    children := map[];
    roots := [];
    for i := 0 to |spans|
      invariant NoDup(roots) && forall s :: s in roots <==> s in spans[..i] && s in Roots(S)
      invariant forall id {:trigger ChildList(children, id)} :: NoDup(ChildList(children, id))
      invariant forall id, s :: s in ChildList(children, id) <==>
                  s in spans[..i] && s !in Roots(S) && s.parent == id
    {
      var s := spans[i];
      assert s in S && s !in spans[..i];
      RootExactly(S, s);
      assert spans[..i + 1] == spans[..i] + [s];
      if IsRoot(s) {
        roots := roots + [s];
      } else if s.parent in bySpanID {
        ghost var before := children;
        assert s !in ChildList(children, s.parent);
        children := children[s.parent := ChildList(children, s.parent) + [s]];
        assert forall id ::
          ChildList(children, id) == if id == s.parent then ChildList(before, id) + [s] else ChildList(before, id);
      } else {
        roots := roots + [s];
      }
    }
    assert spans[..|spans|] == spans;
    RootsInside(S);
  }

  method ComputePathSignature(spans: seq<Span>, sum64: string -> bv64) returns (signature: bv64)
    requires UniqueIds(spans)
    ensures DistinctIds(Elements(spans)) && signature == sum64(SignatureBytes(Elements(spans)))
  {
    ghost var S := Elements(spans);
    UniqueIsDistinct(spans);
    var roots, children := LinkSpans(spans);
    roots := ByStartThenID(Roots(S), roots);
    RootsExtend(S, roots);
    var h := new Digest();
    VisitEach(S, [], children, None, roots, h);
    assert h.written == SignatureBytes(S);
    signature := sum64(h.written);
  }

  /** Buffers that hold the same spans in different orders hash the same bytes. */
  lemma SignatureIgnoresBufferOrder(a: seq<Span>, b: seq<Span>)
    requires UniqueIds(a) && multiset(a) == multiset(b)
    ensures UniqueIds(b) && DistinctIds(Elements(a)) && DistinctIds(Elements(b))
    ensures SignatureBytes(Elements(a)) == SignatureBytes(Elements(b))
  {
    forall i, j | 0 <= i < j < |b| ensures b[i].id != b[j].id {
      if b[i].id == b[j].id {
        assert b[i] in multiset(b) && b[j] in multiset(b);
        assert b[i] in a && b[j] in a;
        RepeatCount(b, i, j);
        NoDupCount(a, b[i]);
        assert false;
      }
    }
    forall s ensures s in Elements(a) <==> s in Elements(b) {
      assert s in multiset(a) <==> s in a;
      assert s in multiset(b) <==> s in b;
    }
    assert Elements(a) == Elements(b);
  }

  // ---------- Why distinct identifiers matter ----------

  /** The child list the code builds for a buffer, without assuming distinct identifiers. */
  function BuiltChildren(spans: seq<Span>, id: SpanID): seq<Span> {
    FilterChildren(spans, spans, id)
  }

  function FilterChildren(spans: seq<Span>, rest: seq<Span>, id: SpanID): seq<Span> {
    if rest == [] then [] else
      (if !IsRoot(rest[0]) && rest[0].parent == id && (exists k :: 0 <= k < |spans| && spans[k].id == id)
       then [rest[0]] else []) + FilterChildren(spans, rest[1..], id)
  }

  /** The recursion of the walk from s nests at least n calls deep. */
  ghost predicate DeepRecursion(spans: seq<Span>, s: Span, n: nat)
    decreases n
  {
    n == 0 || exists k :: k in BuiltChildren(spans, s.id) && DeepRecursion(spans, k, n - 1)
  }

  /** Where the walk starts: a root, or a span whose parent is not in the buffer. */
  ghost predicate StartsWalk(spans: seq<Span>, s: Span) {
    s in spans && (IsRoot(s) || forall k :: 0 <= k < |spans| ==> spans[k].id != s.parent)
  }

  /** The spans of a nest of calls, outermost first. */
  ghost predicate Calls(spans: seq<Span>, path: seq<Span>) {
    path != [] && forall i :: 0 < i < |path| ==> path[i] in BuiltChildren(spans, path[i - 1].id)
  }

  ghost predicate NoDeeper(spans: seq<Span>, n: nat) {
    forall s :: StartsWalk(spans, s) ==> !DeepRecursion(spans, s, n)
  }

  lemma {:induction false} ChildrenInBuffer(spans: seq<Span>, rest: seq<Span>, id: SpanID, s: Span)
    requires s in FilterChildren(spans, rest, id)
    ensures s in rest
  {
    if s !in rest[1..] {
      if s != rest[0] { ChildrenInBuffer(spans, rest[1..], id, s); }
    }
  }

  lemma CallsInBuffer(spans: seq<Span>, path: seq<Span>)
    requires Calls(spans, path) && path[0] in spans
    ensures forall i :: 0 <= i < |path| ==> path[i] in spans
  {
    forall i | 0 <= i < |path| ensures path[i] in spans {
      if i > 0 { ChildrenInBuffer(spans, spans, path[i - 1].id, path[i]); }
    }
  }

  lemma {:induction false} DeepIsCalls(spans: seq<Span>, s: Span, n: nat) returns (path: seq<Span>)
    requires DeepRecursion(spans, s, n)
    ensures |path| == n + 1 && path[0] == s && Calls(spans, path)
    decreases n
  {
    if n == 0 {
      path := [s];
    } else {
      var k :| k in BuiltChildren(spans, s.id) && DeepRecursion(spans, k, n - 1);
      path := DeepIsCalls(spans, k, n - 1);
      path := [s] + path;
    }
  }

  /** A nest of calls in which an identifier returns can be prolonged for ever. */
  lemma {:induction false} RepeatIsDeep(spans: seq<Span>, path: seq<Span>, i: nat, j: nat, at: nat, n: nat)
    requires Calls(spans, path) && i < j < |path| && path[i].id == path[j].id && at <= j
    ensures DeepRecursion(spans, path[at], n)
    decreases n
  {
    if n > 0 {
      var next := if at < j then at + 1 else i + 1;
      assert path[next] in BuiltChildren(spans, path[at].id);
      RepeatIsDeep(spans, path, i, j, next, n - 1);
    }
  }

  lemma LongCallsRepeat(spans: seq<Span>, path: seq<Span>)
    requires Calls(spans, path) && path[0] in spans && |path| > |Elements(spans)|
    ensures !UniqueIds(path)
  {
    if UniqueIds(path) {
      CallsInBuffer(spans, path);
      forall i, j | 0 <= i < j < |path| ensures path[i] != path[j] {
        assert path[i].id != path[j].id;
      }
      DistinctFits(path, Elements(spans));
    }
  }

  /** For any buffer at all, the nesting of the walk is bounded exactly when no nest of calls from
      where it starts meets an identifier twice. */
  lemma WalkEndsExactly(spans: seq<Span>)
    ensures (exists n: nat :: NoDeeper(spans, n)) <==>
            forall path: seq<Span> :: Calls(spans, path) && StartsWalk(spans, path[0]) ==> UniqueIds(path)
  {
    if n: nat, path: seq<Span> :|
      NoDeeper(spans, n) && Calls(spans, path) && StartsWalk(spans, path[0]) && !UniqueIds(path)
    {
      var i, j :| 0 <= i < j < |path| && path[i].id == path[j].id;
      RepeatIsDeep(spans, path, i, j, 0, n);
      assert false;
    }
    if forall path: seq<Span> :: Calls(spans, path) && StartsWalk(spans, path[0]) ==> UniqueIds(path) {
      var n := |Elements(spans)|;
      forall s | StartsWalk(spans, s) ensures !DeepRecursion(spans, s, n) {
        if DeepRecursion(spans, s, n) {
          var path := DeepIsCalls(spans, s, n);
          LongCallsRepeat(spans, path);
        }
      }
      assert NoDeeper(spans, n);
    }
  }

  /** A root and a child that share an identifier make the recursion unbounded. */
  lemma DuplicateIdsNeverReturn(n: nat)
    ensures var a := Span(1, 0, "a", "x", 0);
            var b := Span(2, 1, "b", "y", 1);
            var c := Span(1, 2, "c", "z", 2);
            IsRoot(a) && DeepRecursion([a, b, c], a, n)
  {
    var a := Span(1, 0, "a", "x", 0);
    var b := Span(2, 1, "b", "y", 1);
    var c := Span(1, 2, "c", "z", 2);
    DuplicateIdsLoop(n, a);
  }

  lemma {:induction false} DuplicateIdsLoop(n: nat, s: Span)
    requires s.id == 1 || s.id == 2
    ensures DeepRecursion([Span(1, 0, "a", "x", 0), Span(2, 1, "b", "y", 1), Span(1, 2, "c", "z", 2)], s, n)
    decreases n
  {
    var a, b, c := Span(1, 0, "a", "x", 0), Span(2, 1, "b", "y", 1), Span(1, 2, "c", "z", 2);
    var spans := [a, b, c];
    hide FilterChildren, DeepRecursion;
    if n == 0 {
      Shallow(spans, s);
    } else {
      var at := if s.id == 1 then 1 else 2;
      assert spans[0].id == 1 && spans[1].id == 2;
      ChildListed(spans, spans, at, s.id);
      DuplicateIdsLoop(n - 1, spans[at]);
      OneDeeper(spans, s, spans[at], n);
    }
  }

  lemma Shallow(spans: seq<Span>, s: Span)
    ensures DeepRecursion(spans, s, 0)
  {
  }

  lemma OneDeeper(spans: seq<Span>, s: Span, k: Span, n: nat)
    requires n > 0 && k in BuiltChildren(spans, s.id) && DeepRecursion(spans, k, n - 1)
    ensures DeepRecursion(spans, s, n)
  {
    hide FilterChildren;
  }

  lemma {:induction false} ChildListed(spans: seq<Span>, rest: seq<Span>, at: nat, id: SpanID)
    requires at < |rest| && !IsRoot(rest[at]) && rest[at].parent == id
    requires exists k :: 0 <= k < |spans| && spans[k].id == id
    ensures rest[at] in FilterChildren(spans, rest, id)
    decreases at
  {
    if at > 0 {
      assert rest[1..][at - 1] == rest[at];
      ChildListed(spans, rest[1..], at - 1, id);
    }
  }
}
