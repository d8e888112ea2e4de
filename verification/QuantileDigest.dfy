/** The bounded, mergeable digest of sorted observations, over exact reals. */
module QuantileDigest {
  import opened SortedValues

  const MAX_VALUES := 4096

  function Target(compression: int): int { compression * 20 }

  /** The index of the k-th value that survives downsampling n values to t. */
  function KeptIndex(n: nat, t: nat, k: nat): nat
    requires t > 0
  {
    k * n / t
  }

  lemma KeptInRange(n: nat, t: nat, k: nat)
    requires 0 < t < n && k < t
    ensures KeptIndex(n, t, k) < n
  {
    assert k * n <= (t - 1) * n == t * n - n;
    FloorBounds(k * n, t);
    CancelFactor(KeptIndex(n, t, k), n, t);
  }

  lemma CancelFactor(x: int, y: int, t: nat)
    requires x * t < y * t
    ensures x < y
  {
    if y <= x { MulMonotone(y, x, t); }
  }

  lemma MulMonotone(x: int, y: int, t: nat)
    requires x <= y
    ensures x * t <= y * t
  {
  }

  lemma FloorBounds(a: nat, t: nat)
    requires t > 0
    ensures (a / t) * t <= a < (a / t) * t + t
  {
  }

  /** Kept indices are strictly increasing: downsampling picks a subsequence. */
  lemma KeptIncreases(n: nat, t: nat, j: nat, k: nat)
    requires 0 < t < n && j < k < t
    ensures KeptIndex(n, t, j) < KeptIndex(n, t, k)
  {
    FloorBounds(j * n, t);
    FloorBounds(k * n, t);
    MulMonotone(j + 1, k, n);
    assert (j + 1) * n == j * n + n;
    var x, y := KeptIndex(n, t, j), KeptIndex(n, t, k);
    assert y * t + t > j * n + n >= x * t + n > x * t + t;
    CancelFactor(x, y, t);
  }

  /** The first k survivors of downsampling to t values. */
  function Picks(values: seq<real>, t: nat, k: nat): (r: seq<real>)
    requires 0 < t < |values| && k <= t
    ensures |r| == k
  {
    if k == 0 then [] else
      KeptInRange(|values|, t, k - 1);
      Picks(values, t, k - 1) + [values[KeptIndex(|values|, t, k - 1)]]
  }

  lemma {:induction false} PickAt(values: seq<real>, t: nat, k: nat, j: nat)
    requires 0 < t < |values| && j < k <= t
    ensures KeptIndex(|values|, t, j) < |values| && Picks(values, t, k)[j] == values[KeptIndex(|values|, t, j)]
    decreases k
  {
    KeptInRange(|values|, t, j);
    if j < k - 1 { PickAt(values, t, k - 1, j); }
  }

  function Compress(values: seq<real>, compression: int): (r: seq<real>)
  {
    var t, n := Target(compression), |values|;
    if t <= 0 || t >= n then values else Picks(values, t, t)
  }

  function AddValue(values: seq<real>, compression: int, v: real): seq<real> {
    var s := InsertSorted(values, v);
    if |s| > MAX_VALUES then Compress(s, compression) else s
  }

  function InsertAll(values: seq<real>, vs: seq<real>): seq<real> {
    if vs == [] then values else InsertSorted(InsertAll(values, vs[..|vs| - 1]), vs[|vs| - 1])
  }

  function MergeValues(values: seq<real>, compression: int, other: seq<real>): seq<real> {
    var s := InsertAll(values, other);
    if |s| > MAX_VALUES then Compress(s, compression) else s
  }

  /** A digest loses nothing to an observation that leaves it within the cap, and is compressed by
      one that does not. */
  lemma AddLosesExactly(values: seq<real>, compression: int, v: real)
    requires Sorted(values)
    ensures var r := AddValue(values, compression, v);
            && (|values| < MAX_VALUES ==> Sorted(r) && multiset(r) == multiset(values) + multiset{v})
            && (|values| >= MAX_VALUES ==>
                  exists s :: Sorted(s) && multiset(s) == multiset(values) + multiset{v}
                              && r == Compress(s, compression))
  {
    InsertKeeps(values, v);
    hide InsertSorted, Compress;
    assert |multiset(InsertSorted(values, v))| == |values| + 1;
    assert |InsertSorted(values, v)| == |values| + 1;
  }

  lemma {:induction false} InsertAllKeeps(values: seq<real>, vs: seq<real>)
    requires Sorted(values)
    ensures Sorted(InsertAll(values, vs)) && multiset(InsertAll(values, vs)) == multiset(values) + multiset(vs)
  {
    if vs != [] {
      InsertAllKeeps(values, vs[..|vs| - 1]);
      InsertKeeps(InsertAll(values, vs[..|vs| - 1]), vs[|vs| - 1]);
      assert vs == vs[..|vs| - 1] + [vs[|vs| - 1]];
    } else {
      assert multiset(vs) == multiset{};
    }
  }

  // ---------- A digest merged into itself ----------

  /** What the loop reads when the slice it ranges over is the one it inserts into, with room for
      spare more values before it is copied: each insertion in place shifts the rest along. */
  function Reread(values: seq<real>, spare: nat): seq<real> {
    seq(|values|, j requires 0 <= j < |values| => values[if j <= spare then 0 else j - spare])
  }

  /** The first n cells of the slice after j of the insertions. */
  function Window(values: seq<real>, spare: nat, j: nat): (w: seq<real>)
    requires j <= |values|
    ensures |w| == |values|
  {
    var k := if j < spare then j else spare;
    seq(|values|, i requires 0 <= i < |values| => values[if i <= k then 0 else i - k])
  }

  lemma {:induction false} MinimaInFront(values: seq<real>, spare: nat, j: nat)
    requires Sorted(values) && j <= |values| && j <= spare
    ensures var r := InsertAll(values, Reread(values, spare)[..j]);
            |r| == |values| + j && forall i :: 0 <= i < |r| ==> r[i] == values[if i <= j then 0 else i - j]
    decreases j
  {
    hide InsertAll, InsertSorted, Sorted;
    NoneInserted(values);
    if j > 0 {
      MinimaInFront(values, spare, j - 1);
      var vs := Reread(values, spare);
      var r := InsertAll(values, vs[..j - 1]);
      InsertNext(values, vs, j - 1);
      InsertFront(r, values[0]);
      assert vs[j - 1] == values[0];
    }
  }

  lemma InsertFront(s: seq<real>, v: real)
    requires s != [] && s[0] == v
    ensures InsertSorted(s, v) == [v] + s
  {
  }

  lemma InsertNext(values: seq<real>, vs: seq<real>, i: nat)
    requires i < |vs|
    ensures InsertAll(values, vs[..i + 1]) == InsertSorted(InsertAll(values, vs[..i]), vs[i])
  {
    assert vs[..i + 1][..i] == vs[..i];
  }

  /** A digest merged into itself gains its own values once more exactly when its slice has no
      room to spare or its values are all the same. */
  lemma SelfMergeDoublesExactly(values: seq<real>, spare: nat)
    requires Sorted(values)
    ensures multiset(InsertAll(values, Reread(values, spare))) == multiset(values) + multiset(values) <==>
            spare == 0 || values == [] || values[0] == values[|values| - 1]
  {
    var vs := Reread(values, spare);
    InsertAllKeeps(values, vs);
    RereadExactly(values, spare);
    hide InsertAll, Reread, Sorted;
    SamePart(multiset(values), multiset(vs), multiset(values));
  }

  lemma SamePart(whole: multiset<real>, a: multiset<real>, b: multiset<real>)
    ensures whole + a == whole + b <==> a == b
  {
    assert a == (whole + a) - whole && b == (whole + b) - whole;
  }

  lemma RereadExactly(values: seq<real>, spare: nat)
    requires Sorted(values)
    ensures multiset(Reread(values, spare)) == multiset(values) <==>
            spare == 0 || values == [] || values[0] == values[|values| - 1]
  {
    var vs := Reread(values, spare);
    RereadSorted(values, spare);
    if spare == 0 || values == [] || values[0] == values[|values| - 1] { assert vs == values; }
    if multiset(vs) == multiset(values) {
      SortedIsUnique(vs, values);
      if spare > 0 && values != [] { AllTheFirst(values, spare, |values| - 1); }
    }
  }

  lemma RereadSorted(values: seq<real>, spare: nat)
    requires Sorted(values)
    ensures Sorted(Reread(values, spare))
  {
  }

  lemma {:induction false} AllTheFirst(values: seq<real>, spare: nat, j: nat)
    requires Reread(values, spare) == values && spare > 0 && j < |values|
    ensures values[j] == values[0]
    decreases j
  {
    assert values[j] == Reread(values, spare)[j];
    if j > spare { AllTheFirst(values, spare, j - spare); }
  }

  /** One downsampling of n values to t < n: exactly t survive, in order, the first position
      among them and the last never. */
  lemma CompressShape(values: seq<real>, compression: int)
    requires Sorted(values) && 0 < Target(compression) < |values|
    ensures var n, t, r := |values|, Target(compression), Compress(values, compression);
            && |r| == t && Sorted(r)
            && KeptIndex(n, t, 0) == 0
            && KeptIndex(n, t, t - 1) <= n - 2
            && (forall j, k :: 0 <= j < k < t ==> KeptIndex(n, t, j) < KeptIndex(n, t, k) < n)
            && (forall k :: 0 <= k < t ==> KeptIndex(n, t, k) < n && r[k] == values[KeptIndex(n, t, k)])
  {
    var n, t := |values|, Target(compression);
    var r := Compress(values, compression);
    forall k | 0 <= k < t ensures KeptIndex(n, t, k) < n && r[k] == values[KeptIndex(n, t, k)] {
      PickAt(values, t, t, k);
    }
    forall j, k | 0 <= j < k < t ensures KeptIndex(n, t, j) < KeptIndex(n, t, k) {
      KeptIncreases(n, t, j, k);
    }
    FloorBounds((t - 1) * n, t);
    assert (t - 1) * n == t * n - n;
    var last := KeptIndex(n, t, t - 1);
    assert last * t <= t * n - n < n * t - t == (n - 1) * t;
    CancelFactor(last, n - 1, t);
  }

  function QuantileOf(values: seq<real>, q: real): real {
    if values == [] then 0.0 else values[QuantileIndex(q, |values|)]
  }

  /** One downsampling never raises a reported quantile, and the value reported afterwards
      sat fewer than 2n/t ranks below the one reported before. */
  lemma CompressRankLoss(values: seq<real>, compression: int, q: real)
    requires Sorted(values) && 0 < Target(compression) < |values|
    ensures QuantileOf(Compress(values, compression), q) <= QuantileOf(values, q)
    ensures exists rank: nat ::
              && rank <= QuantileIndex(q, |values|)
              && (QuantileIndex(q, |values|) - rank) * Target(compression) < 2 * |values|
              && QuantileOf(Compress(values, compression), q) == values[rank]
  {
    var n, t := |values|, Target(compression);
    CompressShape(values, compression);
    IndexLoss(n, t, q);
    var rank := KeptIndex(n, t, QuantileIndex(q, t));
    assert QuantileOf(Compress(values, compression), q) == values[rank];
  }

  lemma IndexLoss(n: nat, t: nat, q: real)
    requires 0 < t < n
    ensures var before, after := QuantileIndex(q, n), KeptIndex(n, t, QuantileIndex(q, t));
            after <= before && (before - after) * t < 2 * n
  {
    var i, j := QuantileIndex(q, n), QuantileIndex(q, t);
    var after := KeptIndex(n, t, j);
    FloorBounds(j * n, t);
    if q <= 0.0 {
      LowIndex(q, n);
      LowIndex(q, t);
    } else if q >= 1.0 {
      HighIndex(q, n);
      HighIndex(q, t);
      HighLoss(n, t, after);
    } else {
      MiddleIndex(q, n);
      MiddleIndex(q, t);
      MiddleLoss(n, t, q, i, j, after);
    }
  }

  lemma LowIndex(q: real, n: nat)
    requires n > 0 && q <= 0.0
    ensures QuantileIndex(q, n) == 0
  {
    assert q * (n - 1) as real <= 0.0;
  }

  lemma HighIndex(q: real, n: nat)
    requires n > 0 && q >= 1.0
    ensures QuantileIndex(q, n) == n - 1
  {
    var x := q * (n - 1) as real;
    Scale(1.0, q, (n - 1) as real);
    assert x >= (n - 1) as real >= 0.0;
    assert x.Floor >= n - 1;
    assert Trunc(x) == x.Floor;
  }

  lemma HighLoss(n: nat, t: nat, after: nat)
    requires 0 < t < n && after * t <= (t - 1) * n < after * t + t
    ensures after <= n - 1 && (n - 1 - after) * t < 2 * n
  {
    assert (t - 1) * n == t * n - n < n * t;
    CancelFactor(after, n, t);
    assert (n - 1 - after) * t == n * t - t - after * t;
  }

  lemma MiddleIndex(q: real, n: nat)
    requires n > 0 && 0.0 <= q <= 1.0
    ensures var i := QuantileIndex(q, n); i as real <= q * (n - 1) as real < i as real + 1.0
  {
    Scale(0.0, q, (n - 1) as real);
    Scale(q, 1.0, (n - 1) as real);
  }

  lemma MiddleLoss(n: nat, t: nat, q: real, i: nat, j: nat, after: nat)
    requires 0 < t < n && 0.0 <= q <= 1.0
    requires i as real <= q * (n - 1) as real < i as real + 1.0
    requires j as real <= q * (t - 1) as real < j as real + 1.0
    requires after * t <= j * n < after * t + t
    ensures after <= i && (i - after) * t < 2 * n
  {
    var a, b := q * (n - 1) as real, q * (t - 1) as real;
    CrossGap(q, n, t, a, b);
    FloorLoss(n, t, a, b, i, j, after);
  }

  lemma FloorLoss(n: nat, t: nat, a: real, b: real, i: nat, j: nat, after: nat)
    requires 0 < t < n && i as real <= a < i as real + 1.0 && j as real <= b < j as real + 1.0
    requires 0.0 <= a * t as real - b * n as real <= (n - t) as real
    requires after * t <= j * n < after * t + t
    ensures after <= i && (i - after) * t < 2 * n
  {
    ScaleFloor(i, a, t);
    ScaleFloor(j, b, n);
    Conclude(i, t, n, j * n, after * t, a * t as real, b * n as real);
    CancelFactor(after, i + 1, t);
    assert (i - after) * t == i * t - after * t;
  }

  lemma CrossGap(q: real, n: nat, t: nat, a: real, b: real)
    requires 0 < t < n && 0.0 <= q <= 1.0
    requires a == q * (n - 1) as real && b == q * (t - 1) as real
    ensures 0.0 <= a * t as real - b * n as real <= (n - t) as real
  {
    var rest := (n - t) as real;
    LessOne(q, n as real, (n - 1) as real);
    LessOne(q, t as real, (t - 1) as real);
    CrossProducts(q, n as real, t as real, a, b, rest);
    Scale(0.0, q, rest);
    Scale(q, 1.0, rest);
  }

  /** The two products differ by the rank times the difference in size. */
  lemma CrossProducts(q: real, n: real, t: real, a: real, b: real, rest: real)
    requires a == q * n - q && b == q * t - q && rest == n - t
    ensures a * t - b * n == q * rest
  {
    var qn, qt := q * n, q * t;
    assert a * t == qn * t - q * t by { Spread(qn, q, t); }
    assert b * n == qt * n - q * n by { Spread(qt, q, n); }
    assert qn * t == qt * n by { Exchange(q, n, t); }
    assert q * rest == q * n - q * t by { Spread(n, t, q); }
  }

  lemma LessOne(q: real, n: real, n1: real)
    requires n1 == n - 1.0
    ensures q * n1 == q * n - q
  {
  }

  lemma Spread(x: real, y: real, z: real)
    ensures (x - y) * z == x * z - y * z && z * (x - y) == z * x - z * y
  {
  }

  lemma Exchange(q: real, n: real, t: real)
    ensures (q * n) * t == (q * t) * n && q * (n - t) == (n - t) * q
  {
  }

  lemma ScaleFloor(x: nat, y: real, t: nat)
    requires x as real <= y < x as real + 1.0 && t > 0
    ensures (x * t) as real <= y * t as real < (x * t + t) as real
  {
    var yt, xt := y * t as real, x * t;
    NextMultiple(x, t);
    Products(x, t);
    Products(x + 1, t);
    Between(x as real, y, (x + 1) as real, t as real, xt as real, yt, (xt + t) as real);
  }

  lemma Between(x: real, y: real, z: real, t: real, xt: real, yt: real, zt: real)
    requires x <= y < z && t > 0.0 && xt == x * t && yt == y * t && zt == z * t
    ensures xt <= yt < zt
  {
    Scale(x, y, t);
    ScaleStrictly(y, z, t);
  }

  lemma NextMultiple(x: int, t: int)
    ensures (x + 1) * t == x * t + t
  {
  }

  lemma Conclude(i: nat, t: nat, n: nat, jn: int, at: int, AT: real, BN: real)
    requires (i * t) as real <= AT < (i * t + t) as real && jn as real <= BN < (jn + n) as real
    requires at <= jn < at + t && 0.0 <= AT - BN <= (n - t) as real
    ensures at < (i + 1) * t && i * t - at < 2 * n
  {
    assert (i + 1) * t == i * t + t;
    assert (i * t) as real < (2 * n + at) as real;
  }

  lemma Products(a: int, b: int)
    ensures (a * b) as real == a as real * b as real
  {
  }

  lemma Scale(x: real, y: real, z: real)
    requires x <= y && z >= 0.0
    ensures x * z <= y * z
  {
    assert (y - x) * z >= 0.0;
  }

  lemma ScaleStrictly(x: real, y: real, z: real)
    requires x < y && z > 0.0
    ensures x * z < y * z
  {
    assert (y - x) * z > 0.0;
  }

  // ---------- Every digest that can be built ----------

  /** A digest begins empty with some compression and grows by observations and merges. */
  datatype Build = Start(compression: int) | Added(prev: Build, v: real) | Merged(into: Build, other: Build)

  function Samples(b: Build): seq<real> {
    match b
    case Start(_) => []
    case Added(prev, v) => Samples(prev) + [v]
    case Merged(into, other) => Samples(into) + Samples(other)
  }

  function Compression(b: Build): int {
    match b
    case Start(c) => c
    case Added(prev, _) => Compression(prev)
    case Merged(into, _) => Compression(into)
  }

  function Values(b: Build): seq<real> {
    match b
    case Start(_) => []
    case Added(prev, v) => AddValue(Values(prev), Compression(prev), v)
    case Merged(into, other) => MergeValues(Values(into), Compression(into), Values(other))
  }

  /** A sorted selection of the observations that starts with the least of them. */
  ghost predicate Summarizes(values: seq<real>, xs: seq<real>) {
    && Sorted(values)
    && multiset(values) <= multiset(xs)
    && (values == [] <==> xs == [])
    && (xs != [] ==> values[0] == Min(xs))
  }

  lemma {:induction false} PicksSelect(values: seq<real>, t: nat, k: nat)
    requires 0 < t < |values| && 0 < k <= t
    ensures KeptIndex(|values|, t, k - 1) < |values|
    ensures multiset(Picks(values, t, k)) <= multiset(values[..KeptIndex(|values|, t, k - 1) + 1])
    decreases k
  {
    hide KeptIndex, Picks;
    KeptInRange(|values|, t, k - 1);
    PicksNext(values, t, k);
    var last := KeptIndex(|values|, t, k - 1);
    if k == 1 {
      NonePicked(values, t);
      SelectsOneMore(values, [], 0, last);
    } else {
      PicksSelect(values, t, k - 1);
      KeptIncreases(|values|, t, k - 2, k - 1);
      SelectsOneMore(values, Picks(values, t, k - 1), KeptIndex(|values|, t, k - 2) + 1, last);
    }
  }

  lemma NonePicked(values: seq<real>, t: nat)
    requires 0 < t < |values|
    ensures Picks(values, t, 0) == []
  {
  }

  lemma PicksNext(values: seq<real>, t: nat, k: nat)
    requires 0 < t < |values| && 0 < k <= t
    ensures KeptIndex(|values|, t, k - 1) < |values|
    ensures Picks(values, t, k) == Picks(values, t, k - 1) + [values[KeptIndex(|values|, t, k - 1)]]
  {
    hide KeptIndex;
    KeptInRange(|values|, t, k - 1);
  }

  lemma SelectsOneMore(values: seq<real>, picked: seq<real>, before: nat, last: nat)
    requires before <= last < |values| && multiset(picked) <= multiset(values[..before])
    ensures multiset(picked + [values[last]]) <= multiset(values[..last + 1])
  {
    assert values[..last + 1] == values[..before] + values[before..last] + [values[last]];
  }

  lemma CompressSelects(values: seq<real>, compression: int, xs: seq<real>)
    requires Summarizes(values, xs)
    ensures Summarizes(Compress(values, compression), xs)
  {
    var t, n := Target(compression), |values|;
    if 0 < t < n {
      CompressShape(values, compression);
      PicksSelect(values, t, t);
      var last := KeptIndex(n, t, t - 1) + 1;
      assert values == values[..last] + values[last..];
    }
  }

  lemma InsertSelects(values: seq<real>, xs: seq<real>, v: real)
    requires Summarizes(values, xs)
    ensures Summarizes(InsertSorted(values, v), xs + [v])
  {
    InsertKeeps(values, v);
    assert (xs + [v])[..|xs|] == xs;
    if xs == [] {
      assert xs + [v] == [v];
    }
  }

  /** Inserting the values of one summary into another summarizes all the observations. */
  lemma InsertAllSelects(values: seq<real>, xs: seq<real>, other: seq<real>, ys: seq<real>)
    requires Summarizes(values, xs) && Summarizes(other, ys)
    ensures Summarizes(InsertAll(values, other), xs + ys)
  {
    InsertAllKeeps(values, other);
    var r := InsertAll(values, other);
    assert |multiset(r)| == |r| && |multiset(values)| == |values| && |multiset(other)| == |other|;
    if xs == [] {
      assert xs + ys == ys;
      assert multiset(r) == multiset(other);
      SortedIsUnique(r, other);
    } else if ys == [] {
      assert xs + ys == xs;
    } else {
      MinJoin(values, xs, other, ys, r);
    }
  }

  lemma MinJoin(values: seq<real>, xs: seq<real>, other: seq<real>, ys: seq<real>, r: seq<real>)
    requires Summarizes(values, xs) && Summarizes(other, ys) && xs != [] && ys != []
    requires Sorted(r) && multiset(r) == multiset(values) + multiset(other)
    ensures r != [] && r[0] == Min(xs + ys)
  {
    MinMaxBound(xs);
    MinMaxBound(ys);
    MinMaxBound(xs + ys);
    assert values[0] in multiset(r) && other[0] in multiset(r);
    assert r[0] in multiset(r);
    assert r[0] in values || r[0] in other by {
      assert r[0] in multiset(values) || r[0] in multiset(other);
    }
    assert values[0] in r && other[0] in r;
    assert Min(xs) in xs + ys && Min(ys) in xs + ys;
  }

  lemma MultisetOfJoin(xs: seq<real>, ys: seq<real>)
    ensures multiset(xs + ys) == multiset(xs) + multiset(ys)
  {
  }

  /** What a digest knows about its observations. */
  ghost predicate Digests(values: seq<real>, compression: int, xs: seq<real>) {
    && Summarizes(values, xs)
    && (compression > 0 ==> |values| <= MAX_VALUES || |values| <= Target(compression))
    && (|xs| <= MAX_VALUES ==> values == SortReals(xs))
  }

  lemma AddKeepsDigests(values: seq<real>, compression: int, xs: seq<real>, v: real)
    requires Digests(values, compression, xs)
    ensures Digests(AddValue(values, compression, v), compression, xs + [v])
  {
    var s, ys := InsertSorted(values, v), xs + [v];
    InsertSelects(values, xs, v);
    CompressSelects(s, compression, ys);
    assert ys[..|ys| - 1] == xs;
    if |ys| <= MAX_VALUES {
      assert s == SortReals(ys);
    }
  }

  lemma MergeKeepsDigests(values: seq<real>, compression: int, xs: seq<real>, other: seq<real>, ys: seq<real>)
    requires Digests(values, compression, xs) && Summarizes(other, ys)
    requires |ys| <= MAX_VALUES ==> other == SortReals(ys)
    ensures Digests(MergeValues(values, compression, other), compression, xs + ys)
  {
    var s := InsertAll(values, other);
    InsertAllSelects(values, xs, other, ys);
    CompressSelects(s, compression, xs + ys);
    if |xs + ys| <= MAX_VALUES {
      SortRealsCorrect(xs);
      SortRealsCorrect(ys);
      SortRealsCorrect(xs + ys);
      InsertAllKeeps(values, other);
      MultisetOfJoin(xs, ys);
      SortedIsUnique(s, SortReals(xs + ys));
    }
  }

  /** Every digest holds a sorted selection of its observations, starting with the least;
      with a positive compression it never outgrows the larger of the two caps; and until
      the value cap is first exceeded it holds every observation. */
  lemma {:induction false} DigestInvariant(b: Build)
    ensures Digests(Values(b), Compression(b), Samples(b))
  {
    match b
    case Start(c) =>
    case Added(prev, v) =>
      DigestInvariant(prev);
      AddKeepsDigests(Values(prev), Compression(prev), Samples(prev), v);
    case Merged(into, other) =>
      DigestInvariant(into);
      DigestInvariant(other);
      MergeKeepsDigests(Values(into), Compression(into), Samples(into), Values(other), Samples(other));
  }

  ghost predicate SizeBounded(compression: int) {
    forall b :: Compression(b) == compression ==>
      |Values(b)| <= MAX_VALUES || |Values(b)| <= Target(compression)
  }

  /** The documented size bound needs a positive compression: with any other value
      downsampling is a no-op and every observation is kept for ever. */
  lemma SizeBoundedExactly(compression: int)
    ensures SizeBounded(compression) <==> compression > 0
  {
    if compression > 0 {
      forall b | Compression(b) == compression
        ensures |Values(b)| <= MAX_VALUES || |Values(b)| <= Target(compression)
      {
        DigestInvariant(b);
      }
    } else {
      var b := Zeros(compression, MAX_VALUES + 1);
      ZerosAllKept(compression, MAX_VALUES + 1);
      assert |Values(b)| == MAX_VALUES + 1 && Compression(b) == compression;
    }
  }

  function Zeros(compression: int, n: nat): Build {
    if n == 0 then Start(compression) else Added(Zeros(compression, n - 1), 0.0)
  }

  lemma {:induction false} ZerosAllKept(compression: int, n: nat)
    requires compression <= 0
    ensures |Values(Zeros(compression, n))| == n && Compression(Zeros(compression, n)) == compression
  {
    if n > 0 {
      ZerosAllKept(compression, n - 1);
    }
  }

  // ---------- The digest object ----------

  lemma NoneInserted(values: seq<real>)
    ensures InsertAll(values, []) == values
  {
  }

  /** The next cell read, and the window after its value has been inserted in place or elsewhere. */
  lemma NextReread(values: seq<real>, spare: nat, i: nat)
    requires Sorted(values) && i < |values|
    ensures var vs, r := Reread(values, spare), InsertAll(values, Reread(values, spare)[..i + 1]);
            && Window(values, spare, i)[i] == vs[i] && r == InsertSorted(InsertAll(values, vs[..i]), vs[i])
            && (i < spare ==> |r| >= |values| && r[..|values|] == Window(values, spare, i + 1))
            && (i >= spare ==> Window(values, spare, i) == Window(values, spare, i + 1))
  {
    var vs := Reread(values, spare);
    InsertNext(values, vs, i);
    hide InsertSorted, InsertAll, Sorted;
    if i < spare { MinimaInFront(values, spare, i + 1); }
  }

  class TDigest {
    var compression: int
    var values: seq<real>

    constructor (compression: int)
      ensures this.compression == (if compression <= 0 then 100 else compression) && values == []
    {
      this.compression := if compression <= 0 then 100 else compression;
      values := [];
    }

    method Add(v: real)
      modifies this
      ensures values == AddValue(old(values), compression, v) && compression == old(compression)
    {
      values := InsertSorted(values, v);
      if |values| > MAX_VALUES {
        CompressValues();
      }
    }

    method CompressValues()
      modifies this
      ensures values == Compress(old(values), compression) && compression == old(compression)
    {
      var target := compression * 20;
      if target <= 0 || target >= |values| {
        return;
      }
      values := Downsample(values, target);
    }

    static method Downsample(values: seq<real>, target: nat) returns (out: seq<real>)
      requires 0 < target < |values|
      ensures out == Picks(values, target, target)
    {
      var n := |values|;
      var step := n as real / target as real;
      out := [];
      var f := 0.0;
      CursorFloor(n, target, 0);
      while f.Floor < n
        invariant |out| <= target && f == Cursor(n, target, |out|)
        invariant f.Floor == KeptIndex(n, target, |out|)
        invariant out == Picks(values, target, |out|)
        decreases target - |out|
      {
        ghost var k := |out|;
        KeptAtEnd(n, target);
        CursorFloor(n, target, k + 1);
        CursorNext(n, target, k);
        out := out + [values[f.Floor]];
        f := f + step;
      }
      if |out| < target {
        KeptInRange(n, target, |out|);
        assert false;
      }
    }

    method Quantile(q: real) returns (r: real)
      ensures r == QuantileOf(values, q)
    {
      if |values| == 0 {
        return 0.0;
      }
      var idx := Trunc(q * (|values| - 1) as real);
      if idx < 0 {
        idx := 0;
      }
      if idx >= |values| {
        idx := |values| - 1;
      }
      return values[idx];
    }

    /** Merging a digest into itself, whose slice has room for spare more values. */
    method MergeSelf(spare: nat)
      requires Sorted(values)
      modifies this
      ensures values == MergeValues(old(values), compression, Reread(old(values), spare))
      ensures compression == old(compression)
    {
      hide InsertSorted, InsertAll;
      ghost var was, vs := values, Reread(values, spare);
      var window := values;
      var n := |window|;
      NoneInserted(values);
      for i := 0 to n
        invariant compression == old(compression) && values == InsertAll(was, vs[..i])
        invariant window == Window(was, spare, i)
      {
        NextReread(was, spare, i);
        values := InsertSorted(values, window[i]);
        if i < spare { window := values[..n]; }
      }
      assert vs[..n] == vs;
      if |values| > MAX_VALUES {
        CompressValues();
      }
    }

    method Merge(o: TDigest)
      requires o != this
      modifies this
      ensures values == MergeValues(old(values), compression, o.values) && compression == old(compression)
    {
      for i := 0 to |o.values|
        invariant compression == old(compression) && o.values == old(o.values)
        invariant values == InsertAll(old(values), o.values[..i])
      {
        assert o.values[..i + 1][..i] == o.values[..i];
        values := InsertSorted(values, o.values[i]);
      }
      assert o.values[..|o.values|] == o.values;
      if |values| > MAX_VALUES {
        CompressValues();
      }
    }
  }

  /** The float cursor after k steps of n/t. */
  ghost function Cursor(n: nat, t: nat, k: nat): real
    requires t > 0
  {
    k as real * (n as real / t as real)
  }

  lemma CursorNext(n: nat, t: nat, k: nat)
    requires t > 0
    ensures Cursor(n, t, k) + n as real / t as real == Cursor(n, t, k + 1)
  {
    var step := n as real / t as real;
    assert (k + 1) as real * step == k as real * step + step;
  }

  /** The cursor of the downsampling loop lands on the kept indices. */
  lemma CursorFloor(n: nat, t: nat, k: nat)
    requires t > 0
    ensures Cursor(n, t, k).Floor == KeptIndex(n, t, k)
  {
    var x, m := Cursor(n, t, k), KeptIndex(n, t, k);
    FloorBounds(k * n, t);
    Products(k, n);
    Products(m, t);
    assert n as real / t as real * t as real == n as real;
    assert x * t as real == k as real * (n as real / t as real * t as real);
    CancelReal(m as real, x, t as real);
    assert (m + 1) * t == m * t + t;
    Products(m + 1, t);
    if (m + 1) as real <= x { Scale((m + 1) as real, x, t as real); }
  }

  lemma CancelReal(x: real, y: real, z: real)
    requires z > 0.0 && x * z <= y * z
    ensures x <= y
  {
    if x > y { ScaleStrictly(y, x, z); }
  }

  lemma KeptAtEnd(n: nat, t: nat)
    requires t > 0
    ensures KeptIndex(n, t, t) == n
  {
    FloorBounds(t * n, t);
    var m := KeptIndex(n, t, t);
    assert t * n == n * t;
    CancelFactor(n, m + 1, t) by { assert (m + 1) * t == m * t + t; }
    if m > n { MulMonotone(n + 1, m, t); }
  }
}
