/** Walks over one tenant's service edges, and the layers a breadth-first search visits. */
module TopologyWalks {

  datatype EdgeKey = EdgeKey(tenant: string, caller: string, callee: string, protocol: string)
  datatype Direction = Upstream | Downstream | Both

  /** One step a search may take. */
  datatype Link = Link(from: string, to: string)

  /** The steps a tenant's edges allow in a direction. */
  function Links(keys: set<EdgeKey>, tenant: string, dir: Direction): set<Link> {
    (if dir == Upstream then {} else set k | k in keys && k.tenant == tenant :: Link(k.caller, k.callee)) +
    (if dir == Downstream then {} else set k | k in keys && k.tenant == tenant :: Link(k.callee, k.caller))
  }

  predicate StepsAt(links: set<Link>, walk: seq<string>, i: int)
    requires 0 <= i < |walk| - 1
  {
    Link(walk[i], walk[i + 1]) in links
  }

  ghost predicate IsWalk(links: set<Link>, a: string, b: string, walk: seq<string>) {
    walk != [] && walk[0] == a && walk[|walk| - 1] == b && forall i :: 0 <= i < |walk| - 1 ==> StepsAt(links, walk, i)
  }

  /** The shortest walk from a to b has h steps. */
  ghost predicate ShortestIs(links: set<Link>, a: string, b: string, h: nat) {
    (exists walk :: IsWalk(links, a, b, walk) && |walk| == h + 1) &&
    forall walk :: IsWalk(links, a, b, walk) ==> |walk| >= h + 1
  }

  function Next(links: set<Link>, from: set<string>): set<string> {
    set l | l in links && l.from in from :: l.to
  }

  /** The services at most n steps from the root. */
  function Within(links: set<Link>, root: string, n: nat): set<string> {
    if n == 0 then {root}
    else
      var w := Within(links, root, n - 1);
      w + Next(links, w)
  }

  lemma {:induction false} WithinHasWalk(links: set<Link>, root: string, n: nat, b: string) returns (walk: seq<string>)
    requires b in Within(links, root, n)
    ensures IsWalk(links, root, b, walk) && |walk| <= n + 1
  {
    if n == 0 {
      walk := [root];
    } else if b in Within(links, root, n - 1) {
      walk := WithinHasWalk(links, root, n - 1, b);
    } else {
      var l :| l in links && l.from in Within(links, root, n - 1) && l.to == b;
      var front := WithinHasWalk(links, root, n - 1, l.from);
      walk := front + [b];
      forall i | 0 <= i < |walk| - 1 ensures StepsAt(links, walk, i) {
        if i < |front| - 1 { assert StepsAt(links, front, i); }
      }
    }
  }

  lemma {:induction false} WalkIsWithin(links: set<Link>, root: string, b: string, walk: seq<string>, n: nat)
    requires IsWalk(links, root, b, walk) && |walk| <= n + 1
    ensures b in Within(links, root, n)
    decreases n
  {
    if n > 0 {
      if |walk| == 1 {
        WalkIsWithin(links, root, b, walk, n - 1);
      } else {
        var front := walk[..|walk| - 1];
        forall i | 0 <= i < |front| - 1 ensures StepsAt(links, front, i) {
          assert StepsAt(links, walk, i);
        }
        WalkIsWithin(links, root, front[|front| - 1], front, n - 1);
        assert StepsAt(links, walk, |walk| - 2);
      }
    }
  }

  /** The layer a service first appears in is the length of its shortest walk. */
  lemma FirstLayerIsShortest(links: set<Link>, root: string, b: string, h: nat)
    requires b in Within(links, root, h) && (h > 0 ==> b !in Within(links, root, h - 1))
    ensures ShortestIs(links, root, b, h)
  {
    var found := WithinHasWalk(links, root, h, b);
    forall walk | IsWalk(links, root, b, walk) ensures |walk| >= h + 1 {
      if |walk| <= h { WalkIsWithin(links, root, b, walk, h - 1); }
    }
    assert |found| == h + 1;
  }

  lemma NotWithinNoShort(links: set<Link>, root: string, b: string, n: nat)
    requires b !in Within(links, root, n)
    ensures forall walk :: IsWalk(links, root, b, walk) ==> |walk| > n + 1
  {
    forall walk | IsWalk(links, root, b, walk) ensures |walk| > n + 1 {
      if |walk| <= n + 1 { WalkIsWithin(links, root, b, walk, n); }
    }
  }

  lemma {:induction false} WithinGrows(links: set<Link>, root: string, m: nat, n: nat)
    requires m <= n
    ensures Within(links, root, m) <= Within(links, root, n)
    decreases n
  {
    if m < n { WithinGrows(links, root, m, n - 1); }
  }

  /** Once a layer adds nothing, no later one does. */
  lemma {:induction false} WithinStable(links: set<Link>, root: string, m: nat, n: nat)
    requires m <= n && Within(links, root, m + 1) == Within(links, root, m)
    ensures Within(links, root, n) == Within(links, root, m)
    decreases n
  {
    if n > m { WithinStable(links, root, m, n - 1); }
  }

  /** The services first reached at step n. */
  function Layer(links: set<Link>, root: string, n: nat): set<string> {
    if n == 0 then {root} else Within(links, root, n) - Within(links, root, n - 1)
  }

  /** A layer and what lies one step from it account for the whole next layer. */
  lemma LayerStep(links: set<Link>, root: string, n: nat)
    ensures Within(links, root, n + 1) == Within(links, root, n) + Next(links, Layer(links, root, n))
  {
    if n > 0 {
      var w, v := Within(links, root, n), Within(links, root, n - 1);
      assert Next(links, v) <= w;
      forall b | b in Next(links, w) ensures b in w + Next(links, w - v) {
        var l :| l in links && l.from in w && l.to == b;
        if l.from in v { assert b in Next(links, v); }
      }
    }
  }
}
