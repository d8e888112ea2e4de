/** Fuzzy service-name matching: the two-row edit-distance loop and the catalog scan. */
module EditDistance {

  function Min2(a: nat, b: nat): nat { if b < a then b else a }

  function Init(s: string): string
    requires s != ""
  {
    s[..|s| - 1]
  }

  function Tip(s: string): char
    requires s != ""
  {
    s[|s| - 1]
  }

  function Cost(x: char, y: char): nat { if x == y then 0 else 1 }

  /** The recursive edit distance on prefixes. */
  function Dist(a: string, b: string): (d: nat)
    decreases |a| + |b|
  {
    if a == "" then |b|
    else if b == "" then |a|
    else Min2(Min2(Dist(Init(a), b) + 1, Dist(a, Init(b)) + 1), Dist(Init(a), Init(b)) + Cost(Tip(a), Tip(b)))
  }

  lemma {:induction false} DistSymmetric(a: string, b: string)
    ensures Dist(a, b) == Dist(b, a)
    decreases |a| + |b|
  {
    if a != "" && b != "" {
      DistSymmetric(Init(a), b);
      DistSymmetric(a, Init(b));
      DistSymmetric(Init(a), Init(b));
    }
  }

  lemma {:induction false} DistZero(a: string, b: string)
    ensures Dist(a, b) == 0 <==> a == b
    decreases |a| + |b|
  {
    if a != "" && b != "" {
      DistZero(Init(a), Init(b));
      assert a == Init(a) + [Tip(a)] && b == Init(b) + [Tip(b)];
    }
  }

  lemma {:induction false} DistLength(a: string, b: string)
    ensures |a| <= Dist(a, b) + |b| && |b| <= Dist(a, b) + |a|
    decreases |a| + |b|
  {
    if a != "" && b != "" {
      DistLength(Init(a), b);
      DistLength(a, Init(b));
      DistLength(Init(a), Init(b));
    }
  }

  lemma {:induction false} DistTriangle(a: string, b: string, c: string)
    ensures Dist(a, c) <= Dist(a, b) + Dist(b, c)
    decreases |a| + |b| + |c|
  {
    DistLength(a, b);
    DistLength(b, c);
    if a != "" && c != "" && b != "" {
      DistTriangle(Init(a), b, c);
      DistTriangle(a, b, Init(c));
      DistTriangle(a, Init(b), c);
      DistTriangle(Init(a), Init(b), c);
      DistTriangle(a, Init(b), Init(c));
      DistTriangle(Init(a), Init(b), Init(c));
    } else if a != "" && c != "" {
      DistAtMostBoth(a, c);
    }
  }

  lemma {:induction false} DistAtMostBoth(a: string, c: string)
    ensures Dist(a, c) <= |a| + |c|
    decreases |a|
  {
    if a != "" && c != "" { DistAtMostBoth(Init(a), c); }
  }

  // ---------- Edit scripts: what the distance means ----------

  ghost predicate InsertedAt(a: string, b: string, i: nat) {
    i <= |a| && |b| == |a| + 1 && b[..i] == a[..i] && b[i + 1..] == a[i..]
  }

  ghost predicate ReplacedAt(a: string, b: string, i: nat) {
    i < |a| && |b| == |a| && b[..i] == a[..i] && b[i + 1..] == a[i + 1..]
  }

  /** One character inserted, deleted or replaced. */
  ghost predicate OneEdit(a: string, b: string) {
    exists i: nat :: InsertedAt(a, b, i) || InsertedAt(b, a, i) || ReplacedAt(a, b, i)
  }

  /** n single-character edits lead from a to b. */
  ghost predicate Editable(a: string, b: string, n: nat)
    decreases n
  {
    if n == 0 then a == b else exists m :: OneEdit(a, m) && Editable(m, b, n - 1)
  }

  lemma {:induction false} SharedSuffix(p: string, q: string, s: string)
    ensures Dist(p + s, q + s) <= Dist(p, q)
    decreases |s|
  {
    if s == "" {
      assert p + s == p && q + s == q;
    } else {
      SharedSuffix(p, q, Init(s));
      assert Init(p + s) == p + Init(s) && Init(q + s) == q + Init(s);
    }
  }

  lemma OneEditCost(a: string, b: string)
    requires OneEdit(a, b)
    ensures Dist(a, b) <= 1
  {
    var i: nat :| InsertedAt(a, b, i) || InsertedAt(b, a, i) || ReplacedAt(a, b, i);
    if InsertedAt(a, b, i) {
      InsertCost(a, b, i);
    } else if InsertedAt(b, a, i) {
      InsertCost(b, a, i);
      DistSymmetric(a, b);
    } else {
      ReplaceCost(a, b, i);
    }
  }

  lemma ReplaceCost(a: string, b: string, i: nat)
    requires ReplacedAt(a, b, i)
    ensures Dist(a, b) <= 1
  {
    var p, s, x, y := a[..i], a[i + 1..], a[..i + 1], b[..i + 1];
    DistZero(p, p);
    assert Init(x) == p && Init(y) == p;
    assert Dist(x, y) <= Dist(p, p) + 1;
    SharedSuffix(x, y, s);
    assert a == x + s && b == y + s;
  }

  lemma InsertCost(a: string, b: string, i: nat)
    requires InsertedAt(a, b, i)
    ensures Dist(a, b) <= 1
  {
    var p, s, y := a[..i], a[i..], b[..i + 1];
    DistZero(p, p);
    assert Init(y) == p;
    assert Dist(p, y) <= 1;
    SharedSuffix(p, y, s);
    assert a == p + s && b == y + s;
  }

  lemma {:induction false} ScriptAtLeastDist(a: string, b: string, n: nat)
    requires Editable(a, b, n)
    ensures Dist(a, b) <= n
    decreases n
  {
    if n == 0 {
      DistZero(a, b);
    } else {
      var m :| OneEdit(a, m) && Editable(m, b, n - 1);
      OneEditCost(a, m);
      ScriptAtLeastDist(m, b, n - 1);
      DistTriangle(a, m, b);
    }
  }

  lemma {:induction false} EditLast(a: string, m: string, b: string, n: nat)
    requires Editable(a, m, n) && OneEdit(m, b)
    ensures Editable(a, b, n + 1)
    decreases n
  {
    if n > 0 {
      var x :| OneEdit(a, x) && Editable(x, m, n - 1);
      EditLast(x, m, b, n - 1);
    }
  }

  lemma OneEditLift(a: string, b: string, c: char)
    requires OneEdit(a, b)
    ensures OneEdit(a + [c], b + [c])
  {
    var i: nat :| InsertedAt(a, b, i) || InsertedAt(b, a, i) || ReplacedAt(a, b, i);
    var a', b' := a + [c], b + [c];
    assert a'[..i] == a[..i] && b'[..i] == b[..i];
    if InsertedAt(a, b, i) {
      assert b'[i + 1..] == b[i + 1..] + [c] && a'[i..] == a[i..] + [c];
      assert InsertedAt(a', b', i);
    } else if InsertedAt(b, a, i) {
      assert a'[i + 1..] == a[i + 1..] + [c] && b'[i..] == b[i..] + [c];
      assert InsertedAt(b', a', i);
    } else {
      assert b'[i + 1..] == b[i + 1..] + [c] && a'[i + 1..] == a[i + 1..] + [c];
      assert ReplacedAt(a', b', i);
    }
  }

  lemma {:induction false} EditLift(a: string, b: string, n: nat, c: char)
    requires Editable(a, b, n)
    ensures Editable(a + [c], b + [c], n)
    decreases n
  {
    if n > 0 {
      var m :| OneEdit(a, m) && Editable(m, b, n - 1);
      OneEditLift(a, m, c);
      EditLift(m, b, n - 1, c);
    }
  }

  lemma {:induction false} ScriptOfDist(a: string, b: string)
    ensures Editable(a, b, Dist(a, b))
    decreases |a| + |b|
  {
    if a == "" && b == "" {
    } else if b == "" || (a != "" && Dist(a, b) == Dist(Init(a), b) + 1) {
      ScriptOfDist(Init(a), b);
      DropLast(a);
    } else if a == "" || Dist(a, b) == Dist(a, Init(b)) + 1 {
      ScriptOfDist(a, Init(b));
      DropLast(b);
      EditLast(a, Init(b), b, Dist(a, Init(b)));
    } else {
      ScriptOfDist(Init(a), Init(b));
      ReplaceLast(a, b, Dist(Init(a), Init(b)));
    }
  }

  lemma DropLast(a: string)
    requires a != ""
    ensures OneEdit(a, Init(a)) && OneEdit(Init(a), a)
  {
    assert InsertedAt(Init(a), a, |a| - 1);
  }

  lemma ReplaceLast(a: string, b: string, n: nat)
    requires a != "" && b != "" && Editable(Init(a), Init(b), n)
    ensures Editable(a, b, n + Cost(Tip(a), Tip(b)))
  {
    EditLift(Init(a), Init(b), n, Tip(b));
    var m := Init(a) + [Tip(b)];
    assert b == Init(b) + [Tip(b)];
    if Tip(a) == Tip(b) {
      assert a == m;
    } else {
      assert ReplacedAt(a, m, |a| - 1);
      assert OneEdit(a, m);
    }
  }

  /** The distance is the length of a shortest edit script. */
  lemma DistIsLeastScript(a: string, b: string)
    ensures Editable(a, b, Dist(a, b))
    ensures forall n: nat :: Editable(a, b, n) ==> Dist(a, b) <= n
  {
    ScriptOfDist(a, b);
    forall n: nat | Editable(a, b, n) ensures Dist(a, b) <= n {
      ScriptAtLeastDist(a, b, n);
    }
  }

  // ---------- The two-row loop ----------

  method Levenshtein(a: string, b: string) returns (d: nat)
    ensures d == Dist(a, b)
  {
    if a == b {
      DistZero(a, b);
      return 0;
    }
    var la, lb := |a|, |b|;
    if la == 0 {
      return lb;
    }
    if lb == 0 {
      return la;
    }
    var prev, curr := new nat[lb + 1], new nat[lb + 1];
    for j := 0 to lb + 1
      invariant fresh(prev) && forall k :: 0 <= k < j ==> prev[k] == k
    {
      prev[j] := j;
    }
    for i := 1 to la + 1
      invariant fresh(prev) && fresh(curr) && prev != curr && prev.Length == curr.Length == lb + 1
      invariant IsRow(prev, a[..i - 1], b)
    {
      FillRow(a, b, i, prev, curr);
      prev, curr := curr, prev;
    }
    assert a[..la] == a && b[..lb] == b;
    return prev[lb];
  }

  /** The row holds the distances from a to every prefix of b. */
  ghost predicate IsRow(row: array<nat>, a: string, b: string)
    reads row
  {
    row.Length == |b| + 1 && forall k :: 0 <= k <= |b| ==> row[k] == Dist(a, b[..k])
  }

  /** One cell of the table from its three neighbours. */
  lemma CellIs(a: string, b: string, i: nat, j: nat)
    requires 1 <= i <= |a| && 1 <= j <= |b|
    ensures Dist(a[..i], b[..j]) ==
            Min2(Min2(Dist(a[..i - 1], b[..j]) + 1, Dist(a[..i], b[..j - 1]) + 1),
                 Dist(a[..i - 1], b[..j - 1]) + Cost(a[i - 1], b[j - 1]))
  {
    hide Dist;
    var p, q := a[..i], b[..j];
    DistStep(p, q);
    assert Init(p) == a[..i - 1] && Init(q) == b[..j - 1] && Tip(p) == a[i - 1] && Tip(q) == b[j - 1];
  }

  lemma DistStep(a: string, b: string)
    requires a != "" && b != ""
    ensures Dist(a, b) == Min2(Min2(Dist(Init(a), b) + 1, Dist(a, Init(b)) + 1),
                               Dist(Init(a), Init(b)) + Cost(Tip(a), Tip(b)))
  {
    hide Init, Tip, Cost, Min2;
  }

  method FillRow(a: string, b: string, i: nat, prev: array<nat>, curr: array<nat>)
    requires 1 <= i <= |a| && prev != curr && curr.Length == |b| + 1 && IsRow(prev, a[..i - 1], b)
    modifies curr
    ensures IsRow(curr, a[..i], b)
  {
    hide Dist;
    FirstCell(a[..i], b);
    curr[0] := i;
    for j := 1 to |b| + 1
      invariant forall k :: 0 <= k < j ==> curr[k] == Dist(a[..i], b[..k])
    {
      var cost := 1;
      if a[i - 1] == b[j - 1] {
        cost := 0;
      }
      var del, ins, sub := prev[j] + 1, curr[j - 1] + 1, prev[j - 1] + cost;
      var m := del;
      if ins < m {
        m := ins;
      }
      if sub < m {
        m := sub;
      }
      CellIs(a, b, i, j);
      curr[j] := m;
    }
  }

  lemma FirstCell(a: string, b: string)
    ensures Dist(a, b[..0]) == |a|
  {
  }

  // ---------- The catalog scan ----------

  const MAX_DISTANCE := 2

  /** The words of the text, then every pair of neighbouring words joined by a dash. */
  function Candidates(words: seq<string>): (c: seq<string>)
  {
    words + seq(if |words| == 0 then 0 else |words| - 1,
                i requires 0 <= i && i + 1 < |words| => words[i] + "-" + words[i + 1])
  }

  /** A candidate is a word, or two neighbouring words joined by a hyphen. */
  lemma CandidatesExactly(words: seq<string>, c: string)
    ensures c in Candidates(words) <==>
            c in words || exists i :: 0 <= i && i + 1 < |words| && c == words[i] + "-" + words[i + 1]
  {
    if i :| 0 <= i && i + 1 < |words| && c == words[i] + "-" + words[i + 1] {
      assert Candidates(words)[|words| + i] == c;
    }
    if c in words {
      var i :| 0 <= i < |words| && words[i] == c;
      assert Candidates(words)[i] == c;
    }
    if c in Candidates(words) {
      var i :| 0 <= i < |Candidates(words)| && Candidates(words)[i] == c;
      if i >= |words| {
        var j := i - |words|;
        assert c == words[j] + "-" + words[j + 1];
      }
    }
  }

  method BuildCandidates(words: seq<string>) returns (c: seq<string>)
    ensures c == Candidates(words)
  {
    c := words;
    var i := 0;
    while i + 1 < |words|
      invariant i == 0 || i < |words|
      invariant c == words + seq(i, k requires 0 <= k < i => words[k] + "-" + words[k + 1])
    {
      c := c + [words[i] + "-" + words[i + 1]];
      i := i + 1;
    }
  }

  /** Catalog entry k is the first entry at the least distance d, and d is close enough. */
  ghost predicate IsBest(cands: seq<string>, names: seq<string>, k: nat, d: nat) {
    && k < |names| && d <= MAX_DISTANCE
    && (exists c :: 0 <= c < |cands| && Dist(cands[c], names[k]) == d)
    && (forall k', c :: 0 <= k' < |names| && 0 <= c < |cands| ==> Dist(cands[c], names[k']) >= d)
    && (forall k', c :: 0 <= k' < k && 0 <= c < |cands| ==> Dist(cands[c], names[k']) > d)
  }

  function Lowered(catalog: seq<string>, lower: string -> string): (names: seq<string>)
    ensures |names| == |catalog|
  {
    seq(|catalog|, i requires 0 <= i < |catalog| => lower(catalog[i]))
  }

  /** The first closest entry is reported, unless it is the entry with the empty name,
      which the code cannot tell from no match at all. */
  method MatchService(words: seq<string>, catalog: seq<string>, lower: string -> string)
    returns (best: string, dist: nat, found: bool)
    ensures found <==>
            exists k: nat, d: nat :: IsBest(Candidates(words), Lowered(catalog, lower), k, d) && catalog[k] != ""
    ensures found ==> exists k: nat :: IsBest(Candidates(words), Lowered(catalog, lower), k, dist) && best == catalog[k]
    ensures !found ==> best == "" && dist == 0
  {
    if |catalog| == 0 {
      return "", 0, false;
    }
    var candidates := BuildCandidates(words);
    ghost var names := Lowered(catalog, lower);
    best, dist := "", MAX_DISTANCE + 1;
    ghost var at := 0;
    for i := 0 to |catalog|
      invariant Scanned(candidates, names, catalog, i, 0, best, dist, at)
    {
      var ls := lower(catalog[i]);
      for j := 0 to |candidates|
        invariant Scanned(candidates, names, catalog, i, j, best, dist, at)
      {
        var d := Levenshtein(candidates[j], ls);
        ScanNext(candidates, names, catalog, i, j, best, dist, at);
        if d <= MAX_DISTANCE && d < dist {
          dist, best, at := d, catalog[i], i;
        }
      }
      RowDone(candidates, names, catalog, i, best, dist, at);
    }
    ScanDone(candidates, names, catalog, best, dist, at);
    if best == "" {
      return "", 0, false;
    }
    return best, dist, true;
  }

  /** The scan state after entries before i, and candidates before j of entry i. */
  ghost predicate Scanned(cands: seq<string>, names: seq<string>, catalog: seq<string>,
                          i: nat, j: nat, best: string, dist: nat, at: nat) {
    && |names| == |catalog|
    && (forall k, c :: 0 <= k < |names| && 0 <= c < |cands| && (k < i || (k == i && c < j)) &&
                       Dist(cands[c], names[k]) <= MAX_DISTANCE ==>
          dist <= Dist(cands[c], names[k]))
    && (dist <= MAX_DISTANCE ==>
          && at < |names| && at <= i && best == catalog[at]
          && (exists c :: 0 <= c < |cands| && (at < i || c < j) && Dist(cands[c], names[at]) == dist)
          && (forall k, c :: 0 <= k < at && 0 <= c < |cands| ==> Dist(cands[c], names[k]) > dist))
    && (dist > MAX_DISTANCE ==> dist == MAX_DISTANCE + 1 && best == "")
  }

  lemma ScanNext(cands: seq<string>, names: seq<string>, catalog: seq<string>,
                 i: nat, j: nat, best: string, dist: nat, at: nat)
    requires i < |names| && j < |cands| && Scanned(cands, names, catalog, i, j, best, dist, at)
    ensures var d := Dist(cands[j], names[i]);
            if d <= MAX_DISTANCE && d < dist then Scanned(cands, names, catalog, i, j + 1, catalog[i], d, i)
            else Scanned(cands, names, catalog, i, j + 1, best, dist, at)
  {
  }

  lemma RowDone(cands: seq<string>, names: seq<string>, catalog: seq<string>,
                i: nat, best: string, dist: nat, at: nat)
    requires i < |names| && Scanned(cands, names, catalog, i, |cands|, best, dist, at)
    ensures Scanned(cands, names, catalog, i + 1, 0, best, dist, at)
  {
  }

  lemma ScanDone(cands: seq<string>, names: seq<string>, catalog: seq<string>, best: string, dist: nat, at: nat)
    requires Scanned(cands, names, catalog, |names|, 0, best, dist, at)
    ensures dist <= MAX_DISTANCE ==> IsBest(cands, names, at, dist) && best == catalog[at]
    ensures forall k: nat, d: nat :: IsBest(cands, names, k, d) ==> dist == d && at == k
    ensures dist > MAX_DISTANCE ==> best == ""
  {
    forall k: nat, d: nat | IsBest(cands, names, k, d) ensures dist == d && at == k {
      var c :| 0 <= c < |cands| && Dist(cands[c], names[k]) == d;
      assert dist <= d;
      var c' :| 0 <= c' < |cands| && Dist(cands[c'], names[at]) == dist;
    }
  }

  /** A nameless catalog entry that comes first at the least distance hides every later match:
      for the word "a" nothing is found, though "abc" is close enough. */
  lemma NamelessEntryHidesMatch(lower: string -> string)
    requires lower("") == "" && lower("abc") == "abc"
    ensures Dist("a", "abc") <= MAX_DISTANCE
    ensures !exists k: nat, d: nat ::
              IsBest(Candidates(["a"]), Lowered(["", "abc"], lower), k, d) && ["", "abc"][k] != ""
  {
    hide Dist;
    NearAbc();
    var names := Lowered(["", "abc"], lower);
    var cands := Candidates(["a"]);
    assert cands == ["a"] && names == ["", "abc"];
    forall k: nat, d: nat | IsBest(cands, names, k, d) ensures k == 0 {
      assert Dist(cands[0], names[0]) < Dist(cands[0], names[1]);
    }
  }

  lemma NearAbc()
    ensures Dist("a", "") == 1 && Dist("a", "abc") == 2
  {
    assert Init("a") == "" && Init("abc") == "ab" && Init("ab") == "a";
    DistZero("a", "a");
    assert Dist("a", "ab") <= 1;
    DistLength("a", "abc");
  }
}
