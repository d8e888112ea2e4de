/** The streaming five-marker quantile estimator, over exact reals. */
module P2Quantiles {
  import opened SortedValues

  datatype Marker = Marker(position: real, height: real)

  /** The state kept for one tracked quantile. */
  datatype Slot = Slot(markers: seq<Marker>, np: seq<real>, count: nat, init: seq<real>)

  const TRACKED: seq<real> := [0.50, 0.95, 0.99]

  function Blank(): Slot {
    Slot(seq(5, i => Marker(0.0, 0.0)), seq(5, i => 0.0), 0, [])
  }

  ghost predicate Shaped(s: Slot) { |s.markers| == 5 && |s.np| == 5 && (s.count < 5 ==> |s.init| == s.count) }

  /** How far each desired position moves per observation. */
  function Increments(p: real): (dn: seq<real>)
    ensures |dn| == 5
  {
    [0.0, p / 2.0, p, (1.0 + p) / 2.0, 1.0]
  }

  // ---------- One observation, as a function ----------

  function FirstMarkers(init: seq<real>): (m: seq<Marker>)
    requires |init| >= 5
    ensures |m| == 5
  {
    seq(5, i requires 0 <= i < 5 => Marker((i + 1) as real, SortReals(init)[i]))
  }

  function FirstDesired(p: real): (np: seq<real>)
    ensures |np| == 5
  {
    [1.0, 1.0 + 2.0 * p, 1.0 + 4.0 * p, 3.0 + 2.0 * p, 5.0]
  }

  /** The cell of v between the markers, as the index of its lower marker. */
  function Cell(m: seq<Marker>, v: real): (k: nat)
    requires |m| == 5
    ensures k < 4
  {
    if v < m[0].height then 0
    else if v >= m[4].height then 3
    else if v < m[1].height then 0
    else if v < m[2].height then 1
    else if v < m[3].height then 2
    else 3
  }

  /** The end markers follow the extremes; every marker above the cell moves up one place. */
  function Absorb(m: seq<Marker>, v: real): (r: seq<Marker>)
    requires |m| == 5
    ensures |r| == 5
  {
    seq(5, i requires 0 <= i < 5 =>
      Marker(if i > Cell(m, v) then m[i].position + 1.0 else m[i].position,
             if i == 0 && v < m[0].height then v
             else if i == 4 && !(v < m[0].height) && v >= m[4].height then v
             else m[i].height))
  }

  /** The markers around i are far enough apart for the parabola to exist. */
  predicate Apart(m: seq<Marker>, i: nat)
    requires |m| == 5 && 0 < i < 4
  {
    m[i - 1].position != m[i].position && m[i].position != m[i + 1].position && m[i - 1].position != m[i + 1].position
  }

  function Parabolic(m: seq<Marker>, i: nat, sign: real): real
    requires |m| == 5 && 0 < i < 4 && Apart(m, i)
  {
    var np1, n, nm1 := m[i + 1].position, m[i].position, m[i - 1].position;
    var qp1, q, qm1 := m[i + 1].height, m[i].height, m[i - 1].height;
    q + Blend(sign, np1 - nm1, n - nm1 + sign, qp1 - q, np1 - n, np1 - n - sign, q - qm1, n - nm1)
  }

  /** The weighted mean of the two secant slopes hx/zx and hy/zy, times d. */
  function Blend(d: real, span: real, x: real, hx: real, zx: real, y: real, hy: real, zy: real): real
    requires span != 0.0 && zx != 0.0 && zy != 0.0
  {
    d / span * (x * hx / zx + y * hy / zy)
  }

  function Linear(m: seq<Marker>, i: nat, sign: real): real
    requires |m| == 5 && 0 < i < 4 && (sign == 1.0 || sign == -1.0)
    requires sign == 1.0 ==> m[i + 1].position != m[i].position
    requires sign == -1.0 ==> m[i - 1].position != m[i].position
  {
    var j := if sign == 1.0 then i + 1 else i - 1;
    m[i].height + sign * (m[j].height - m[i].height) / (m[j].position - m[i].position)
  }

  ghost predicate Spread(m: seq<Marker>) {
    |m| == 5 && forall i, j :: 0 <= i < j < 5 ==> m[i].position < m[j].position
  }

  /** Marker i moves one place toward its desired position when there is room. Where two of
      the markers coincide the floating-point prediction is infinite or not a number, so it
      never lies between two heights and the straight line is taken. */
  function Adjust(m: seq<Marker>, desired: real, i: nat): (r: seq<Marker>)
    requires |m| == 5 && 0 < i < 4
    ensures |r| == 5
  {
    var d := desired - m[i].position;
    if (d >= 1.0 && m[i + 1].position - m[i].position > 1.0) ||
       (d <= -1.0 && m[i - 1].position - m[i].position < -1.0) then
      var sign := if d < 0.0 then -1.0 else 1.0;
      var curved := Apart(m, i) && m[i - 1].height < Parabolic(m, i, sign) && Parabolic(m, i, sign) < m[i + 1].height;
      m[i := Marker(m[i].position + sign, if curved then Parabolic(m, i, sign) else Linear(m, i, sign))]
    else m
  }

  /** Ordered heights at strictly increasing integer positions. */
  ghost predicate Tight(m: seq<Marker>) {
    && Spread(m)
    && (forall i, j :: 0 <= i < j < 5 ==> m[i].height <= m[j].height)
    && (forall i :: 0 <= i < 5 ==> Whole(m[i].position))
  }

  predicate Whole(x: real) { x == x.Floor as real }

  lemma WholeSteps(x: real)
    requires Whole(x)
    ensures Whole(x + 1.0) && Whole(x - 1.0)
  {
    var k := x.Floor;
    assert x + 1.0 == (k + 1) as real && x - 1.0 == (k - 1) as real;
  }

  lemma FirstIsTight(init: seq<real>)
    requires |init| == 5
    ensures Tight(FirstMarkers(init))
  {
    SortRealsCorrect(init);
  }

  lemma AbsorbKeepsTight(m: seq<Marker>, v: real)
    requires Tight(m)
    ensures Tight(Absorb(m, v))
  {
    var r := Absorb(m, v);
    forall i | 0 <= i < 5 ensures Whole(r[i].position) {
      WholeSteps(m[i].position);
    }
    forall i, j | 0 <= i < j < 5 ensures r[i].position < r[j].position && r[i].height <= r[j].height {
      assert m[i].position < m[j].position && m[i].height <= m[j].height;
      assert m[0].height <= m[i].height && m[j].height <= m[4].height;
    }
  }

  lemma LinearBetween(m: seq<Marker>, i: nat, sign: real)
    requires Tight(m) && 0 < i < 4
    requires (sign == 1.0 && m[i + 1].position - m[i].position > 1.0) ||
             (sign == -1.0 && m[i].position - m[i - 1].position > 1.0)
    ensures m[i - 1].height <= Linear(m, i, sign) <= m[i + 1].height
  {
    if sign == 1.0 {
      ShareBound(m[i + 1].height - m[i].height, m[i + 1].position - m[i].position);
    } else {
      var g, w := m[i].height - m[i - 1].height, m[i].position - m[i - 1].position;
      ShareBound(g, w);
      QuotientSigns(g, w);
      assert sign * (m[i - 1].height - m[i].height) == g;
    }
  }

  lemma Negative(x: real, w: real)
    requires x < 0.0 && w > 0.0
    ensures x * w < 0.0
  {
  }

  lemma ShareBound(g: real, w: real)
    requires g >= 0.0 && w > 1.0
    ensures 0.0 <= g / w <= g
  {
    var x := g / w;
    assert x * w == g;
    assert x >= 0.0 by { if x < 0.0 { Negative(x, w); } }
    assert x * (w - 1.0) >= 0.0;
  }

  lemma QuotientSigns(g: real, w: real)
    requires w > 0.0
    ensures g / (-w) == -(g / w)
  {
    assert (g / w) * w == g;
    assert (-(g / w)) * (-w) == g;
  }

  lemma AdjustKeepsTight(m: seq<Marker>, desired: real, i: nat)
    requires Tight(m) && 0 < i < 4
    ensures Tight(Adjust(m, desired, i))
    ensures Adjust(m, desired, i)[0] == m[0] && Adjust(m, desired, i)[4] == m[4]
  {
    var d := desired - m[i].position;
    var r := Adjust(m, desired, i);
    if r != m {
      var sign := if d < 0.0 then -1.0 else 1.0;
      LinearBetween(m, i, sign);
      WholeSteps(m[i].position);
      assert m[i - 1].height <= r[i].height <= m[i + 1].height;
      assert m[i - 1].position < r[i].position < m[i + 1].position;
      MoveKeepsTight(m, i, r[i]);
    }
  }

  // ---------- What one adjustment does ----------

  /** The parabola through the markers next to i and i itself. */
  ghost predicate Through(m: seq<Marker>, i: nat, a: real, b: real, c: real)
    requires |m| == 5 && 0 < i < 4
  {
    forall j :: i - 1 <= j <= i + 1 ==> m[j].height == Quadratic(a, b, c, m[j].position)
  }

  /** The point at x on the chord from marker i to marker j is at this height. */
  predicate OnChord(m: seq<Marker>, i: nat, j: nat, x: real, height: real)
    requires |m| == 5 && i < 5 && j < 5
  {
    (height - m[i].height) * (m[j].position - m[i].position) == (m[j].height - m[i].height) * (x - m[i].position)
  }

  /** Marker i is moved to position x, toward marker j: to the parabola where that lies strictly
      between the neighbours' heights, to the chord otherwise. */
  ghost predicate MovedTo(m: seq<Marker>, i: nat, j: nat, x: real, r: seq<Marker>)
    requires |m| == 5 && 0 < i < 4 && j < 5
  {
    |r| == 5 && r == m[i := Marker(x, r[i].height)] &&
    exists a, b, c :: Through(m, i, a, b, c) &&
      var h := Quadratic(a, b, c, x);
      if m[i - 1].height < h < m[i + 1].height then r[i].height == h else OnChord(m, i, j, x, r[i].height)
  }

  /** Marker i moves one place toward its desired position exactly when that is at least one
      place away and the next marker on that side more than one; nothing else changes. */
  ghost predicate Steps(m: seq<Marker>, desired: real, i: nat, r: seq<Marker>)
    requires |m| == 5 && 0 < i < 4
  {
    var x := m[i].position;
    if desired >= x + 1.0 && m[i + 1].position > x + 1.0 then MovedTo(m, i, i + 1, x + 1.0, r)
    else if desired <= x - 1.0 && m[i - 1].position < x - 1.0 then MovedTo(m, i, i - 1, x - 1.0, r)
    else r == m
  }

  /** There is such a parabola. */
  lemma ParabolaExists(m: seq<Marker>, i: nat) returns (a: real, b: real, c: real)
    requires Spread(m) && 0 < i < 4
    ensures Through(m, i, a, b, c)
  {
    var u, n, w := m[i - 1].position, m[i].position, m[i + 1].position;
    var hu, hn, hw := m[i - 1].height, m[i].height, m[i + 1].height;
    var s, t := (hn - hu) / (n - u), (hw - hn) / (w - n);
    a := (t - s) / (w - u);
    b := s - a * (u + n);
    c := hu - (a * u * u + b * u);
    assert s * (n - u) == hn - hu && t * (w - n) == hw - hn && a * (w - u) == t - s;
    FitsSecond(a, b, c, u, n, hu, hn, s);
    FitsThird(a, b, c, u, n, w, hn, hw, s, t);
  }

  lemma FitsSecond(a: real, b: real, c: real, u: real, n: real, hu: real, hn: real, s: real)
    requires s * (n - u) == hn - hu && b == s - a * (u + n) && c == hu - (a * u * u + b * u)
    ensures Quadratic(a, b, c, u) == hu && Quadratic(a, b, c, n) == hn
  {
    Rise(a, b, c, u, n);
    assert a * (u + n) + b == s;
  }

  lemma FitsThird(a: real, b: real, c: real, u: real, n: real, w: real, hn: real, hw: real, s: real, t: real)
    requires t * (w - n) == hw - hn && a * (w - u) == t - s && b == s - a * (u + n)
    requires Quadratic(a, b, c, n) == hn
    ensures Quadratic(a, b, c, w) == hw
  {
    Rise(a, b, c, n, w);
    assert a * (n + w) + b == s + (a * (n + w) - a * (u + n));
    assert a * (n + w) - a * (u + n) == a * (w - u);
    assert a * (n + w) + b == t;
  }

  /** How far a quadratic rises from x to y. */
  lemma Rise(a: real, b: real, c: real, x: real, y: real)
    ensures Quadratic(a, b, c, y) - Quadratic(a, b, c, x) == (a * (x + y) + b) * (y - x)
  {
  }

  lemma LinearOnChord(m: seq<Marker>, i: nat, sign: real)
    requires Spread(m) && 0 < i < 4 && (sign == 1.0 || sign == -1.0)
    ensures OnChord(m, i, if sign == 1.0 then i + 1 else i - 1, m[i].position + sign, Linear(m, i, sign))
  {
    var j := if sign == 1.0 then i + 1 else i - 1;
    var z, g := m[j].position - m[i].position, m[j].height - m[i].height;
    assert (sign * g / z) * z == sign * g;
    assert g * sign == sign * g;
  }

  /** The code's adjustment is that step. */
  lemma AdjustSteps(m: seq<Marker>, desired: real, i: nat)
    requires Spread(m) && 0 < i < 4
    ensures Steps(m, desired, i, Adjust(m, desired, i))
  {
    var d := desired - m[i].position;
    var r := Adjust(m, desired, i);
    var sign := if d < 0.0 then -1.0 else 1.0;
    var a, b, c := ParabolaExists(m, i);
    ParabolicInterpolates(m, i, sign, a, b, c);
    LinearOnChord(m, i, sign);
    hide Parabolic, Linear, OnChord, Quadratic;
    assert Through(m, i, a, b, c);
  }

  /** All three inner markers in turn, each seeing its neighbour's new place. */
  ghost predicate StepsInTurn(m: seq<Marker>, np: seq<real>, r: seq<Marker>)
    requires |m| == 5 && |np| == 5
  {
    exists m1, m2 ::
      Steps(m, np[1], 1, m1) && |m1| == 5 && Steps(m1, np[2], 2, m2) && |m2| == 5 && Steps(m2, np[3], 3, r)
  }

  lemma AdjustToSteps(m: seq<Marker>, np: seq<real>)
    requires Tight(m) && |np| == 5
    ensures StepsInTurn(m, np, AdjustTo(m, np, 4))
  {
    AdjustToKeepsTight(m, np, 2);
    AdjustToKeepsTight(m, np, 3);
    hide Adjust, Steps;
    var m1, m2 := AdjustTo(m, np, 2), AdjustTo(m, np, 3);
    assert AdjustTo(m, np, 1) == m;
    AdjustSteps(m, np[1], 1);
    AdjustSteps(m1, np[2], 2);
    AdjustSteps(m2, np[3], 3);
  }

  /** Absorbing an observation extends the extremes, and moves up exactly the last marker and the
      inner ones above the observation. */
  ghost predicate Absorbs(m: seq<Marker>, v: real, r: seq<Marker>)
    requires |m| == 5
  {
    |r| == 5 &&
    r[0] == Marker(m[0].position, if v < m[0].height then v else m[0].height) &&
    r[4] == Marker(m[4].position + 1.0, if v > m[4].height then v else m[4].height) &&
    forall i :: 0 < i < 4 ==>
      r[i] == Marker(if v < m[i].height then m[i].position + 1.0 else m[i].position, m[i].height)
  }

  lemma AbsorbMoves(m: seq<Marker>, v: real)
    requires Tight(m)
    ensures Absorbs(m, v, Absorb(m, v))
  {
    assert m[0].height <= m[1].height <= m[2].height <= m[3].height <= m[4].height;
  }

  /** A warm slot's next state: the observation absorbed, the desired positions moved along by 0,
      p/2, p, (1+p)/2 and 1, and the inner markers stepped toward them in turn. */
  lemma SampleSteps(s: Slot, p: real, v: real)
    requires Ready(s) && s.count >= 5
    ensures var r := AddSample(s, p, v);
            && r.count == s.count + 1 && r.init == s.init
            && r.np == [s.np[0], s.np[1] + p / 2.0, s.np[2] + p, s.np[3] + (1.0 + p) / 2.0, s.np[4] + 1.0]
            && exists m :: Absorbs(s.markers, v, m) && StepsInTurn(m, r.np, r.markers)
  {
    hide StepsInTurn, Absorbs, AdjustTo, Absorb, Tight, Advance;
    var m := Absorb(s.markers, v);
    AbsorbMoves(s.markers, v);
    AbsorbKeepsTight(s.markers, v);
    AdjustToSteps(m, Advance(s.np, p));
    AdvanceAdds(s.np, p);
    assert Absorbs(s.markers, v, m) && StepsInTurn(m, Advance(s.np, p), AddSample(s, p, v).markers);
  }

  lemma AdvanceAdds(np: seq<real>, p: real)
    requires |np| == 5
    ensures Advance(np, p) == [np[0], np[1] + p / 2.0, np[2] + p, np[3] + (1.0 + p) / 2.0, np[4] + 1.0]
  {
    var r := Advance(np, p);
    assert forall i :: 0 <= i < 5 ==> r[i] == np[i] + Increments(p)[i];
    assert r == [r[0], r[1], r[2], r[3], r[4]];
  }

  /** The fifth observation: the five values in order at positions 1 to 5, and the desired
      positions of five observations. */
  lemma FifthSample(s: Slot, p: real, v: real)
    requires Formed(s) && s.count == 4 && |s.init| == 4
    ensures var r := AddSample(s, p, v);
            && r.count == 5 && r.np == [1.0, 1.0 + 2.0 * p, 1.0 + 4.0 * p, 3.0 + 2.0 * p, 5.0]
            && (forall i :: 0 <= i < 5 ==> r.markers[i].position == (i + 1) as real)
            && (forall i, j :: 0 <= i < j < 5 ==> r.markers[i].height <= r.markers[j].height)
            && multiset([r.markers[0].height, r.markers[1].height, r.markers[2].height, r.markers[3].height,
                         r.markers[4].height]) == multiset(s.init + [v])
  {
    var buf := SortReals(s.init + [v]);
    SortRealsCorrect(s.init + [v]);
    hide SortReals;
    assert buf == [buf[0], buf[1], buf[2], buf[3], buf[4]];
  }

  lemma MoveKeepsTight(m: seq<Marker>, i: nat, x: Marker)
    requires Tight(m) && 0 < i < 4 && Whole(x.position)
    requires m[i - 1].height <= x.height <= m[i + 1].height
    requires m[i - 1].position < x.position < m[i + 1].position
    ensures Tight(m[i := x])
  {
    var r := m[i := x];
    forall a, b | 0 <= a < b < 5 ensures r[a].position < r[b].position && r[a].height <= r[b].height {
      assert m[a].position < m[b].position && m[a].height <= m[b].height;
      if a == i { assert m[i + 1].height <= m[b].height && m[i + 1].position <= m[b].position; }
      if b == i { assert m[a].height <= m[i - 1].height && m[a].position <= m[i - 1].position; }
    }
  }

  /** The parabolic prediction is the quadratic through the three markers, read at the
      marker's next position. */
  lemma ParabolicInterpolates(m: seq<Marker>, i: nat, sign: real, a: real, b: real, c: real)
    requires Spread(m) && 0 < i < 4
    requires forall j :: i - 1 <= j <= i + 1 ==> m[j].height == Quadratic(a, b, c, m[j].position)
    ensures Parabolic(m, i, sign) == Quadratic(a, b, c, m[i].position + sign)
  {
    var u, n, w := m[i - 1].position, m[i].position, m[i + 1].position;
    var hu, hn, hw := m[i - 1].height, m[i].height, m[i + 1].height;
    assert hu == Quadratic(a, b, c, u) && hn == Quadratic(a, b, c, n) && hw == Quadratic(a, b, c, w);
    var mean := a * (2.0 * n + sign) + b;
    Slope(a, b, c, n, w);
    Slope(a, b, c, u, n);
    SecantBlend(a, b, u, n, w, sign);
    BlendIsMean(n - u + sign, hw - hn, w - n, w - n - sign, hn - hu, n - u,
          a * (n + w) + b, a * (u + n) + b, w - u, mean, sign);
    QuadraticStep(a, b, c, n, sign);
  }

  function Quadratic(a: real, b: real, c: real, x: real): real { a * x * x + b * x + c }

  lemma Slope(a: real, b: real, c: real, x: real, y: real)
    requires x < y
    ensures (Quadratic(a, b, c, y) - Quadratic(a, b, c, x)) / (y - x) == a * (x + y) + b
  {
    assert Quadratic(a, b, c, y) - Quadratic(a, b, c, x) == (a * (x + y) + b) * (y - x);
  }

  lemma SecantBlend(a: real, b: real, u: real, n: real, w: real, d: real)
    ensures (n - u + d) * (a * (n + w) + b) + (w - n - d) * (a * (u + n) + b) == (w - u) * (a * (2.0 * n + d) + b)
  {
  }

  lemma BlendIsMean(x: real, hx: real, zx: real, y: real, hy: real, zy: real,
              upper: real, lower: real, span: real, mean: real, d: real)
    requires zx > 0.0 && zy > 0.0 && span > 0.0
    requires hx / zx == upper && hy / zy == lower && x * upper + y * lower == span * mean
    ensures Blend(d, span, x, hx, zx, y, hy, zy) == d * mean
  {
    MoveFactor(x, hx, zx);
    MoveFactor(y, hy, zy);
    CancelFactor(d, span, mean);
  }

  lemma QuadraticStep(a: real, b: real, c: real, n: real, d: real)
    ensures Quadratic(a, b, c, n + d) == Quadratic(a, b, c, n) + d * (a * (2.0 * n + d) + b)
  {
  }

  lemma MoveFactor(x: real, y: real, z: real)
    requires z > 0.0
    ensures x * y / z == x * (y / z)
  {
    assert x * (y / z) * z == x * y;
  }

  lemma CancelFactor(d: real, x: real, y: real)
    requires x > 0.0
    ensures d / x * (x * y) == d * y
  {
    assert d / x * (x * y) == (d / x * x) * y;
  }

  // ---------- A whole slot ----------

  ghost predicate Ready(s: Slot) {
    Shaped(s) && (s.count >= 5 ==> Tight(s.markers))
  }

  function Advance(np: seq<real>, p: real): (r: seq<real>)
    requires |np| == 5
    ensures |r| == 5
  {
    seq(5, i requires 0 <= i < 5 => np[i] + Increments(p)[i])
  }

  /** Inner markers 1, 2 and 3 are adjusted in turn, each seeing its neighbour's new place. */
  function AdjustTo(m: seq<Marker>, np: seq<real>, n: nat): (r: seq<Marker>)
    requires |m| == 5 && |np| == 5 && 1 <= n <= 4
    ensures |r| == 5
  {
    if n == 1 then m else Adjust(AdjustTo(m, np, n - 1), np[n - 1], n - 1)
  }

  lemma {:induction false} AdjustToKeepsTight(m: seq<Marker>, np: seq<real>, n: nat)
    requires Tight(m) && |np| == 5 && 1 <= n <= 4
    ensures var r := AdjustTo(m, np, n); Tight(r) && r[0] == m[0] && r[4] == m[4]
  {
    if n > 1 {
      AdjustToKeepsTight(m, np, n - 1);
      AdjustKeepsTight(AdjustTo(m, np, n - 1), np[n - 1], n - 1);
    }
  }

  /** Five markers, and something to read while warming up. */
  predicate Formed(s: Slot) {
    |s.markers| == 5 && |s.np| == 5 && (0 < s.count < 5 ==> s.init != [])
  }

  /** The fifth observation reads five stored values; with fewer the source indexes out of range. */
  predicate Panics(s: Slot) { s.count == 4 && |s.init| < 4 }

  function AddSample(s: Slot, p: real, v: real): (r: Slot)
    requires Formed(s) && !Panics(s)
    ensures Formed(r) && r.count == s.count + 1
  {
    if s.count < 4 then
      s.(init := s.init + [v], count := s.count + 1)
    else if s.count == 4 then
      Slot(FirstMarkers(s.init + [v]), FirstDesired(p), 5, s.init + [v])
    else
      var np := Advance(s.np, p);
      s.(markers := AdjustTo(Absorb(s.markers, v), np, 4), np := np, count := s.count + 1)
  }

  lemma SampleKeepsReady(s: Slot, p: real, v: real)
    requires Ready(s)
    ensures Formed(s) && !Panics(s) && Ready(AddSample(s, p, v))
  {
    if s.count == 4 {
      FirstIsTight(s.init + [v]);
    } else if s.count >= 5 {
      AbsorbKeepsTight(s.markers, v);
      AdjustToKeepsTight(Absorb(s.markers, v), Advance(s.np, p), 4);
    }
  }

  /** Where a level stands among n ordered observations, from 1 to n. */
  function IdealAt(level: real, n: nat): real { 1.0 + (n - 1) as real * level }

  /** The ideal positions of the markers after n observations: the ends, the tracked
      level p, and the two levels half way between it and the ends. */
  ghost predicate OnLines(np: seq<real>, p: real, n: nat) {
    && |np| == 5
    && np[0] == 1.0 && np[4] == n as real
    && np[1] == IdealAt(p / 2.0, n)
    && np[2] == IdealAt(p, n)
    && np[3] == IdealAt((1.0 + p) / 2.0, n)
  }

  lemma AdvanceStaysOnLines(np: seq<real>, p: real, n: nat)
    requires OnLines(np, p, n)
    ensures OnLines(Advance(np, p), p, n + 1)
  {
    NextMultiple(n, p / 2.0);
    NextMultiple(n, p);
    NextMultiple(n, (1.0 + p) / 2.0);
    var r := Advance(np, p);
    assert forall i :: 0 <= i < 5 ==> r[i] == np[i] + Increments(p)[i];
  }

  /** What an estimator fed exactly the observations xs knows. */
  ghost predicate Tracks(s: Slot, p: real, xs: seq<real>) {
    && Ready(s)
    && s.count == |xs|
    && (|xs| < 5 ==> s.init == xs)
    && (|xs| >= 5 ==>
          && s.markers[0].height == Min(xs) && s.markers[4].height == Max(xs)
          && s.markers[0].position == 1.0 && s.markers[4].position == |xs| as real
          && OnLines(s.np, p, |xs|))
  }

  ghost function AddAll(p: real, xs: seq<real>): (s: Slot)
    ensures Ready(s)
  {
    if xs == [] then Blank()
    else
      SampleKeepsReady(AddAll(p, xs[..|xs| - 1]), p, xs[|xs| - 1]);
      AddSample(AddAll(p, xs[..|xs| - 1]), p, xs[|xs| - 1])
  }

  lemma NextMultiple(n: int, d: real)
    ensures (n - 1) as real * d + d == n as real * d
  {
    assert (n - 1) as real == n as real - 1.0;
  }

  lemma SampleKeepsTracks(s: Slot, p: real, xs: seq<real>, v: real)
    requires Tracks(s, p, xs)
    ensures !Panics(s) && Tracks(AddSample(s, p, v), p, xs + [v])
  {
    SampleKeepsReady(s, p, v);
    var ys := xs + [v];
    assert ys[..|ys| - 1] == xs;
    if s.count == 4 {
      SortedEnds(ys);
    } else if s.count >= 5 {
      LaterSample(s, p, xs, v);
    }
  }

  lemma LaterSample(s: Slot, p: real, xs: seq<real>, v: real)
    requires Tracks(s, p, xs) && |xs| >= 5
    ensures Tracks(AddSample(s, p, v), p, xs + [v])
  {
    var ys := xs + [v];
    assert ys[..|ys| - 1] == xs;
    AbsorbKeepsTight(s.markers, v);
    SampleKeepsReady(s, p, v);
    AdjustToKeepsTight(Absorb(s.markers, v), Advance(s.np, p), 4);
    EndsFollow(s.markers, v);
    var r := AddSample(s, p, v);
    var m := Absorb(s.markers, v);
    assert r.markers[0] == m[0] && r.markers[4] == m[4];
    AdvanceStaysOnLines(s.np, p, |xs|);
  }

  lemma EndsFollow(m: seq<Marker>, v: real)
    requires Tight(m)
    ensures var r := Absorb(m, v);
            && r[0] == Marker(m[0].position, if v < m[0].height then v else m[0].height)
            && r[4] == Marker(m[4].position + 1.0, if v > m[4].height then v else m[4].height)
  {
    assert m[0].height <= m[4].height;
  }

  /** After any five or more observations: true extremes at the ends, integer positions
      from 1 to the count, desired positions on their ideal lines. */
  lemma {:induction false} StreamInvariant(p: real, xs: seq<real>)
    ensures Tracks(AddAll(p, xs), p, xs)
  {
    if xs != [] {
      var ys, v := xs[..|xs| - 1], xs[|xs| - 1];
      assert xs == ys + [v];
      StreamInvariant(p, ys);
      SampleKeepsTracks(AddAll(p, ys), p, ys, v);
      assert AddAll(p, xs) == AddSample(AddAll(p, ys), p, v);
    }
  }

  // ---------- Merging and reading ----------

  function Mean(a: real, m: nat, b: real, n: nat): real
    requires m + n > 0
  {
    (a * m as real + b * n as real) / (m + n) as real
  }

  function MergeSlots(e: Slot, o: Slot): (r: Slot)
    requires Formed(e) && Formed(o)
    ensures Formed(r)
  {
    if o.count == 0 then e
    else if e.count == 0 then o
    else e.(markers := seq(5, i requires 0 <= i < 5 =>
              Marker(e.markers[i].position, Mean(e.markers[i].height, e.count, o.markers[i].height, o.count))),
            count := e.count + o.count)
  }

  function Estimate(s: Slot, q: real): real
    requires Formed(s)
  {
    if s.count == 0 then 0.0
    else if s.count < 5 then SortReals(s.init)[QuantileIndex(q, |s.init|)]
    else s.markers[2].height
  }

  /** A warm stream is reported by the marker whose desired position is that of the tracked level. */
  lemma ReportsTheLevel(s: Slot, p: real, xs: seq<real>, q: real)
    requires Tracks(s, p, xs) && Formed(s) && |xs| >= 5
    ensures exists i :: 0 <= i < 5 && s.np[i] == IdealAt(p, |xs|) && Estimate(s, q) == s.markers[i].height
  {
    hide IdealAt;
    assert s.np[2] == IdealAt(p, |xs|) && Estimate(s, q) == s.markers[2].height;
  }

  /** Merging two non-empty slots adds the counts and gives each marker the mean of the two heights,
      each weighing as much as its slot has observations. */
  lemma MergeWeighs(e: Slot, o: Slot, i: nat)
    requires Formed(e) && Formed(o) && e.count > 0 && o.count > 0 && i < 5
    ensures var r := MergeSlots(e, o);
            && r.count == e.count + o.count && r.init == e.init && r.np == e.np
            && r.markers[i].position == e.markers[i].position
            && r.markers[i].height * r.count as real ==
               e.markers[i].height * e.count as real + o.markers[i].height * o.count as real
  {
    var x, t := e.markers[i].height * e.count as real + o.markers[i].height * o.count as real,
                (e.count + o.count) as real;
    assert x / t * t == x;
  }

  lemma ScaledUp(a: real, b: real, k: real)
    requires a <= b && k >= 0.0
    ensures a * k <= b * k
  {
  }

  lemma DividedUp(x: real, y: real, t: real)
    requires x <= y && t > 0.0
    ensures x / t <= y / t
  {
    assert (y - x) / t >= 0.0;
    assert y / t == x / t + (y - x) / t;
  }

  lemma MeanMonotone(a: real, a': real, m: nat, b: real, b': real, n: nat)
    requires m + n > 0 && a <= a' && b <= b'
    ensures Mean(a, m, b, n) <= Mean(a', m, b', n)
  {
    var x, y, t := a * m as real + b * n as real, a' * m as real + b' * n as real, (m + n) as real;
    assert Mean(a, m, b, n) == x / t && Mean(a', m, b', n) == y / t;
    hide Mean;
    ScaledUp(a, a', m as real);
    ScaledUp(b, b', n as real);
    DividedUp(x, y, t);
  }

  lemma MeanOfEqual(a: real, m: nat, n: nat)
    requires m + n > 0
    ensures Mean(a, m, a, n) == a
  {
    assert a * m as real + a * n as real == a * (m + n) as real;
    CancelFactor(1.0, (m + n) as real, a);
  }

  /** How an estimator may be put together: observations and merges in any arrangement. */
  datatype Build = Fresh | Fed(prev: Build, v: real) | Joined(left: Build, right: Build)

  function Samples(b: Build): seq<real> {
    match b
    case Fresh => []
    case Fed(prev, v) => Samples(prev) + [v]
    case Joined(l, r) => Samples(l) + Samples(r)
  }

  /** Every merge joins two warmed-up estimators or involves an empty one. */
  predicate WarmMerges(b: Build) {
    match b
    case Fresh => true
    case Fed(prev, _) => WarmMerges(prev)
    case Joined(l, r) =>
      WarmMerges(l) && WarmMerges(r) &&
      (Samples(l) == [] || Samples(r) == [] || (|Samples(l)| >= 5 && |Samples(r)| >= 5))
  }

  ghost predicate Bounded(s: Slot, xs: seq<real>) {
    && Ready(s)
    && s.count == |xs|
    && (|xs| < 5 ==> s.init == xs)
    && (|xs| >= 5 ==> Min(xs) <= s.markers[0].height && s.markers[4].height <= Max(xs))
  }

  lemma SampleKeepsBounded(s: Slot, p: real, xs: seq<real>, v: real)
    requires Bounded(s, xs)
    ensures !Panics(s) && Bounded(AddSample(s, p, v), xs + [v])
  {
    SampleKeepsReady(s, p, v);
    var ys := xs + [v];
    assert ys[..|ys| - 1] == xs;
    if s.count == 4 {
      SortedEnds(ys);
    } else if s.count >= 5 {
      AbsorbKeepsTight(s.markers, v);
      AdjustToKeepsTight(Absorb(s.markers, v), Advance(s.np, p), 4);
      EndsFollow(s.markers, v);
      var r := AddSample(s, p, v);
      assert r.markers[0] == Absorb(s.markers, v)[0] && r.markers[4] == Absorb(s.markers, v)[4];
    }
  }

  lemma MinMaxJoin(xs: seq<real>, ys: seq<real>)
    requires xs != [] && ys != []
    ensures Min(xs + ys) <= Min(xs) <= Max(xs) <= Max(xs + ys)
    ensures Min(xs + ys) <= Min(ys) <= Max(ys) <= Max(xs + ys)
  {
    MinMaxBound(xs);
    MinMaxBound(ys);
    MinMaxBound(xs + ys);
    assert Min(xs) in xs + ys && Max(xs) in xs + ys && Min(ys) in xs + ys && Max(ys) in xs + ys;
  }

  lemma MergeKeepsBounded(e: Slot, xs: seq<real>, o: Slot, ys: seq<real>)
    requires Bounded(e, xs) && Bounded(o, ys) && |xs| >= 5 && |ys| >= 5
    ensures Bounded(MergeSlots(e, o), xs + ys)
  {
    var r := MergeSlots(e, o);
    forall i, j | 0 <= i < j < 5 ensures r.markers[i].height <= r.markers[j].height {
      MeanMonotone(e.markers[i].height, e.markers[j].height, e.count, o.markers[i].height, o.markers[j].height,
                   o.count);
    }
    MinMaxJoin(xs, ys);
    var lo, hi := Min(xs + ys), Max(xs + ys);
    MeanOfEqual(lo, e.count, o.count);
    MeanOfEqual(hi, e.count, o.count);
    MeanMonotone(lo, e.markers[0].height, e.count, lo, o.markers[0].height, o.count);
    MeanMonotone(e.markers[4].height, hi, e.count, o.markers[4].height, hi, o.count);
  }

  lemma JoinKeepsBounded(e: Slot, xs: seq<real>, o: Slot, ys: seq<real>)
    requires Bounded(e, xs) && Bounded(o, ys)
    requires xs == [] || ys == [] || (|xs| >= 5 && |ys| >= 5)
    ensures Bounded(MergeSlots(e, o), xs + ys)
  {
    if xs == [] {
      assert xs + ys == ys;
    } else if ys == [] {
      assert xs + ys == xs;
    } else {
      MergeKeepsBounded(e, xs, o, ys);
    }
  }

  ghost function Run(b: Build, p: real): (s: Slot)
    requires WarmMerges(b)
    ensures Bounded(s, Samples(b))
  {
    match b
    case Fresh => Blank()
    case Fed(prev, v) =>
      SampleKeepsBounded(Run(prev, p), p, Samples(prev), v);
      AddSample(Run(prev, p), p, v)
    case Joined(l, r) =>
      JoinKeepsBounded(Run(l, p), Samples(l), Run(r, p), Samples(r));
      MergeSlots(Run(l, p), Run(r, p))
  }

  lemma EstimateInRange(s: Slot, xs: seq<real>, q: real)
    requires xs != [] && Bounded(s, xs)
    ensures Min(xs) <= Estimate(s, q) <= Max(xs)
  {
    if |xs| < 5 { SortedEnds(xs); }
  }

  /** Whatever is observed and merged, a reported quantile lies between the least and the
      greatest observation, as long as no merge involves a part-warmed estimator. */
  lemma ReportWithinObservations(b: Build, p: real, q: real)
    requires WarmMerges(b) && Samples(b) != []
    ensures Min(Samples(b)) <= Estimate(Run(b, p), q) <= Max(Samples(b))
  {
    EstimateInRange(Run(b, p), Samples(b), q);
  }

  function Repeat(x: real, n: nat): (s: seq<real>)
    ensures |s| == n
  {
    if n == 0 then [] else Repeat(x, n - 1) + [x]
  }

  lemma {:induction false} RepeatRange(x: real, n: nat)
    requires n > 0
    ensures Min(Repeat(x, n)) == x == Max(Repeat(x, n))
  {
    if n > 1 {
      RepeatRange(x, n - 1);
      assert Repeat(x, n)[..n - 1] == Repeat(x, n - 1);
    }
  }

  lemma {:induction false} BlankMarkersUntilWarm(p: real, xs: seq<real>)
    requires |xs| < 5
    ensures AddAll(p, xs).markers == Blank().markers
  {
    if xs != [] {
      BlankMarkersUntilWarm(p, xs[..|xs| - 1]);
      StreamInvariant(p, xs[..|xs| - 1]);
    }
  }

  // ---------- Which merges are safe ----------

  datatype Option<T> = None | Some(value: T)

  /** Further observations, oldest first; none of the result is left once one panics. */
  function Observe(s: Slot, p: real, vs: seq<real>): (r: Option<Slot>)
    requires Formed(s)
    ensures r.Some? ==> Formed(r.value)
    decreases |vs|
  {
    if vs == [] then Some(s)
    else
      var r := Observe(s, p, vs[..|vs| - 1]);
      if r.None? || Panics(r.value) then None else Some(AddSample(r.value, p, vs[|vs| - 1]))
  }

  /** Nothing observed from here on panics, and every report stays within all the observations. */
  ghost predicate Serves(s: Slot, p: real, xs: seq<real>)
    requires Formed(s)
  {
    forall vs, q :: ServesAfter(s, p, xs, vs, q)
  }

  ghost predicate ServesAfter(s: Slot, p: real, xs: seq<real>, vs: seq<real>, q: real)
    requires Formed(s)
  {
    var r := Observe(s, p, vs);
    r.Some? && (xs + vs != [] ==> Min(xs + vs) <= Estimate(r.value, q) <= Max(xs + vs))
  }

  lemma {:induction false} ObserveKeepsBounded(s: Slot, p: real, xs: seq<real>, vs: seq<real>)
    requires Bounded(s, xs)
    ensures Observe(s, p, vs).Some? && Bounded(Observe(s, p, vs).value, xs + vs)
    decreases |vs|
  {
    if vs == [] {
      assert xs + vs == xs;
    } else {
      var front, v := vs[..|vs| - 1], vs[|vs| - 1];
      ObserveKeepsBounded(s, p, xs, front);
      SampleKeepsBounded(Observe(s, p, front).value, p, xs + front, v);
      assert xs + vs == (xs + front) + [v];
    }
  }

  lemma BoundedServes(s: Slot, p: real, xs: seq<real>)
    requires Bounded(s, xs)
    ensures Serves(s, p, xs)
  {
    forall vs, q ensures ServesAfter(s, p, xs, vs, q) {
      ObserveKeepsBounded(s, p, xs, vs);
      if xs + vs != [] { EstimateInRange(Observe(s, p, vs).value, xs + vs, q); }
    }
  }

  /** A slot short of stored values panics as its count reaches five. */
  lemma {:induction false} RunsOut(s: Slot, p: real, vs: seq<real>)
    requires Formed(s) && 0 < s.count < 5 && |s.init| < s.count && s.count + |vs| <= 5
    ensures var r := Observe(s, p, vs);
            if s.count + |vs| == 5 then r.None?
            else r.Some? && r.value.count == s.count + |vs| && |r.value.init| == |s.init| + |vs|
    decreases |vs|
  {
    if vs != [] { RunsOut(s, p, vs[..|vs| - 1]); }
  }

  /** What a slot that only ever saw the value 10 looks like. */
  ghost predicate SawTens(s: Slot, n: nat) {
    Bounded(s, Repeat(10.0, n)) && (n < 5 ==> s.markers == Blank().markers)
  }

  /** Joining two such slots, both non-empty and one not warm, fails: at once when the joined
      count reaches five, and otherwise when it next does. */
  lemma ColdJoinFails(e: Slot, n: nat, o: Slot, m: nat, p: real, xs: seq<real>)
    requires SawTens(e, n) && SawTens(o, m) && 0 < n && 0 < m && (n < 5 || m < 5)
    requires xs == Repeat(10.0, n + m)
    ensures !Serves(MergeSlots(e, o), p, xs)
  {
    if n + m < 5 { FewJoinedFail(e, n, o, m, p, xs); } else { ManyJoinedFail(e, n, o, m, p, xs); }
  }

  lemma FewJoinedFail(e: Slot, n: nat, o: Slot, m: nat, p: real, xs: seq<real>)
    requires SawTens(e, n) && SawTens(o, m) && 0 < n && 0 < m && n + m < 5
    ensures !Serves(MergeSlots(e, o), p, xs)
  {
    hide Estimate;
    var s, vs := MergeSlots(e, o), Repeat(10.0, 5 - (n + m));
    RunsOut(s, p, vs);
    assert !ServesAfter(s, p, xs, vs, 0.5);
  }

  lemma ManyJoinedFail(e: Slot, n: nat, o: Slot, m: nat, p: real, xs: seq<real>)
    requires SawTens(e, n) && SawTens(o, m) && 0 < n && 0 < m && (n < 5 || m < 5) && n + m >= 5
    requires xs == Repeat(10.0, n + m)
    ensures !Serves(MergeSlots(e, o), p, xs)
  {
    hide SawTens, MergeSlots, Estimate, Serves, Repeat;
    RepeatRange(10.0, n + m);
    MiddleBelow(e, n, o, m);
    ReportBelow(MergeSlots(e, o), p, xs);
  }

  lemma MiddleBelow(e: Slot, n: nat, o: Slot, m: nat)
    requires SawTens(e, n) && SawTens(o, m) && 0 < n && 0 < m && (n < 5 || m < 5) && n + m >= 5
    ensures Formed(e) && Formed(o) && Estimate(MergeSlots(e, o), 0.5) < 10.0
  {
    hide Repeat, Estimate, MergeSlots, Mean;
    TensHeight(e, n);
    TensHeight(o, m);
    MergedEstimate(e, o, 0.5);
    ColdMeanBelow(e.markers[2].height, n, o.markers[2].height, m);
  }

  lemma ReportBelow(s: Slot, p: real, xs: seq<real>)
    requires Formed(s) && xs != [] && Estimate(s, 0.5) < Min(xs)
    ensures !Serves(s, p, xs)
  {
    var none: seq<real> := [];
    assert xs + none == xs && Observe(s, p, none) == Some(s);
    assert !ServesAfter(s, p, xs, none, 0.5);
  }

  lemma TensHeight(s: Slot, n: nat)
    requires SawTens(s, n) && n > 0
    ensures s.markers[2].height == if n < 5 then 0.0 else 10.0
  {
    if n >= 5 {
      RepeatRange(10.0, n);
      assert s.markers[0].height <= s.markers[2].height <= s.markers[4].height;
    }
  }

  /** Two streams of these lengths can always be merged: whatever was and will be observed. */
  ghost predicate MergeSafe(p: real, n: nat, m: nat) {
    forall xs, ys :: |xs| == n && |ys| == m ==> Serves(MergeSlots(AddAll(p, xs), AddAll(p, ys)), p, xs + ys)
  }

  lemma StreamBounded(p: real, xs: seq<real>)
    ensures Bounded(AddAll(p, xs), xs)
  {
    StreamInvariant(p, xs);
  }

  /** A merge is safe, for ever after and whatever the observations, if and only if one side is
      empty or both have warmed up. */
  lemma MergeSafeExactly(p: real, n: nat, m: nat)
    ensures MergeSafe(p, n, m) <==> n == 0 || m == 0 || (n >= 5 && m >= 5)
  {
    if n == 0 || m == 0 || (n >= 5 && m >= 5) {
      forall xs, ys | |xs| == n && |ys| == m ensures Serves(MergeSlots(AddAll(p, xs), AddAll(p, ys)), p, xs + ys) {
        StreamBounded(p, xs);
        StreamBounded(p, ys);
        JoinKeepsBounded(AddAll(p, xs), xs, AddAll(p, ys), ys);
        BoundedServes(MergeSlots(AddAll(p, xs), AddAll(p, ys)), p, xs + ys);
      }
    } else {
      var xs, ys := Repeat(10.0, n), Repeat(10.0, m);
      StreamSawTens(p, n);
      StreamSawTens(p, m);
      RepeatJoin(n, m);
      ColdJoinFails(AddAll(p, xs), n, AddAll(p, ys), m, p, xs + ys);
      assert !Serves(MergeSlots(AddAll(p, xs), AddAll(p, ys)), p, xs + ys);
    }
  }

  lemma StreamSawTens(p: real, n: nat)
    ensures SawTens(AddAll(p, Repeat(10.0, n)), n)
  {
    StreamBounded(p, Repeat(10.0, n));
    if n < 5 { BlankMarkersUntilWarm(p, Repeat(10.0, n)); }
  }

  lemma {:induction false} RepeatJoin(n: nat, m: nat)
    ensures Repeat(10.0, n) + Repeat(10.0, m) == Repeat(10.0, n + m)
    decreases m
  {
    if m > 0 { RepeatJoin(n, m - 1); }
  }

  /** Two streams of two observations each: the merged slot counts four with two values stored,
      and the next observation panics. */
  lemma TwoAndTwoPanics(p: real, xs: seq<real>, ys: seq<real>, v: real)
    requires |xs| == 2 && |ys| == 2
    ensures var s := MergeSlots(AddAll(p, xs), AddAll(p, ys));
            s.count == 4 && s.init == xs && Panics(s) && Observe(s, p, [v]) == None
  {
    StreamInvariant(p, xs);
    StreamInvariant(p, ys);
    var s := MergeSlots(AddAll(p, xs), AddAll(p, ys));
    assert [v][..0] == [];
    assert Observe(s, p, []) == Some(s);
  }

  // ---------- Which ways of building an estimator are safe ----------

  /** The estimator a build leaves, unless one of its observations panics. */
  ghost function Built(b: Build, p: real): (s: Option<Slot>)
    ensures s.Some? ==> Formed(s.value)
  {
    match b
    case Fresh => Some(Blank())
    case Fed(prev, v) =>
      var s := Built(prev, p);
      if s.None? || Panics(s.value) then None else Some(AddSample(s.value, p, v))
    case Joined(l, r) =>
      var e, o := Built(l, p), Built(r, p);
      if e.None? || o.None? then None else Some(MergeSlots(e.value, o.value))
  }

  /** Every estimator met on the way serves. */
  ghost predicate SafeThroughout(b: Build, p: real) {
    (var s := Built(b, p); s.Some? && Serves(s.value, p, Samples(b))) &&
    match b
    case Fresh => true
    case Fed(prev, _) => SafeThroughout(prev, p)
    case Joined(l, r) => SafeThroughout(l, p) && SafeThroughout(r, p)
  }

  /** The same arrangement of observations and merges, whatever the values. */
  predicate SameShape(b: Build, c: Build) {
    match b
    case Fresh => c.Fresh?
    case Fed(prev, _) => c.Fed? && SameShape(prev, c.prev)
    case Joined(l, r) => c.Joined? && SameShape(l, c.left) && SameShape(r, c.right)
  }

  /** The build with every observation 10. */
  function Tens(b: Build): Build {
    match b
    case Fresh => Fresh
    case Fed(prev, _) => Fed(Tens(prev), 10.0)
    case Joined(l, r) => Joined(Tens(l), Tens(r))
  }

  lemma {:induction false} ShapeKeepsCounts(b: Build, c: Build)
    requires SameShape(b, c)
    ensures |Samples(b)| == |Samples(c)| && (WarmMerges(b) <==> WarmMerges(c))
  {
    match b
    case Fresh =>
    case Fed(prev, _) => ShapeKeepsCounts(prev, c.prev);
    case Joined(l, r) =>
      ShapeKeepsCounts(l, c.left);
      ShapeKeepsCounts(r, c.right);
  }

  lemma {:induction false} TensShape(b: Build)
    ensures SameShape(b, Tens(b)) && Samples(Tens(b)) == Repeat(10.0, |Samples(b)|)
  {
    match b
    case Fresh =>
    case Fed(prev, _) => TensShape(prev);
    case Joined(l, r) =>
      TensShape(l);
      TensShape(r);
      RepeatJoin(|Samples(l)|, |Samples(r)|);
  }

  lemma {:induction false} WarmIsBuilt(b: Build, p: real)
    requires WarmMerges(b)
    ensures Built(b, p) == Some(Run(b, p))
  {
    match b
    case Fresh =>
    case Fed(prev, v) =>
      WarmIsBuilt(prev, p);
      SampleKeepsBounded(Run(prev, p), p, Samples(prev), v);
    case Joined(l, r) =>
      WarmIsBuilt(l, p);
      WarmIsBuilt(r, p);
  }

  lemma {:induction false} WarmIsSafe(b: Build, p: real)
    requires WarmMerges(b)
    ensures SafeThroughout(b, p)
  {
    WarmIsBuilt(b, p);
    BoundedServes(Run(b, p), p, Samples(b));
    match b
    case Fresh =>
    case Fed(prev, _) => WarmIsSafe(prev, p);
    case Joined(l, r) =>
      WarmIsSafe(l, p);
      WarmIsSafe(r, p);
  }

  lemma {:induction false} ColdIsBlank(b: Build, p: real)
    requires WarmMerges(b) && |Samples(b)| < 5
    ensures Run(b, p).markers == Blank().markers
  {
    match b
    case Fresh =>
    case Fed(prev, v) =>
      ColdIsBlank(prev, p);
      SampleKeepsBounded(Run(prev, p), p, Samples(prev), v);
    case Joined(l, r) =>
      ColdIsBlank(l, p);
      ColdIsBlank(r, p);
  }

  lemma BuiltSawTens(b: Build, p: real)
    requires WarmMerges(b)
    ensures WarmMerges(Tens(b)) && Built(Tens(b), p).Some? && SawTens(Built(Tens(b), p).value, |Samples(b)|)
  {
    TensShape(b);
    ShapeKeepsCounts(b, Tens(b));
    WarmIsBuilt(Tens(b), p);
    if |Samples(b)| < 5 { ColdIsBlank(Tens(b), p); }
  }

  lemma TensJoined(l: Build, r: Build, p: real)
    requires Built(Tens(l), p).Some? && Built(Tens(r), p).Some?
    ensures Built(Tens(Joined(l, r)), p) == Some(MergeSlots(Built(Tens(l), p).value, Built(Tens(r), p).value))
  {
  }

  lemma ColdJoinUnsafe(l: Build, r: Build, p: real)
    requires WarmMerges(l) && WarmMerges(r) && !WarmMerges(Joined(l, r))
    ensures !SafeThroughout(Tens(Joined(l, r)), p)
  {
    hide Serves, SawTens, MergeSlots, Built, Tens, Formed;
    var b := Joined(l, r);
    BuiltSawTens(l, p);
    BuiltSawTens(r, p);
    TensJoined(l, r, p);
    TensShape(b);
    ColdJoinFails(Built(Tens(l), p).value, |Samples(l)|, Built(Tens(r), p).value, |Samples(r)|, p, Samples(Tens(b)));
  }

  lemma {:induction false} ColdIsUnsafe(b: Build, p: real)
    requires !WarmMerges(b)
    ensures !SafeThroughout(Tens(b), p)
  {
    match b
    case Fresh =>
    case Fed(prev, _) => ColdIsUnsafe(prev, p);
    case Joined(l, r) =>
      if !WarmMerges(l) {
        ColdIsUnsafe(l, p);
      } else if !WarmMerges(r) {
        ColdIsUnsafe(r, p);
      } else {
        ColdJoinUnsafe(l, r, p);
      }
  }

  /** A way of building an estimator is safe at every stage and for every choice of values if
      and only if each of its merges joins two warmed-up estimators or involves an empty one. */
  lemma BuildSafeExactly(b: Build, p: real)
    ensures (forall c :: SameShape(b, c) ==> SafeThroughout(c, p)) <==> WarmMerges(b)
  {
    if WarmMerges(b) {
      forall c | SameShape(b, c) ensures SafeThroughout(c, p) {
        ShapeKeepsCounts(b, c);
        WarmIsSafe(c, p);
      }
    } else {
      ColdIsUnsafe(b, p);
      TensShape(b);
    }
  }

  lemma MergedEstimate(e: Slot, o: Slot, q: real)
    requires Formed(e) && Formed(o) && e.count > 0 && o.count > 0 && e.count + o.count >= 5
    ensures Estimate(MergeSlots(e, o), q) == Mean(e.markers[2].height, e.count, o.markers[2].height, o.count)
  {
  }

  lemma ColdMeanBelow(a: real, n: nat, b: real, m: nat)
    requires n > 0 && m > 0
    requires a == (if n < 5 then 0.0 else 10.0) && b == (if m < 5 then 0.0 else 10.0) && (n < 5 || m < 5)
    ensures Mean(a, n, b, m) < 10.0
  {
    var t := (n + m) as real;
    var x := a * n as real + b * m as real;
    assert x < 10.0 * t;
    assert x / t < 10.0;
  }

  // ---------- The estimator object ----------

  /** The tracked level nearest to q: levels further than 1 from q never replace slot 0. */
  method NearestQuantileIndex(q: real) returns (best: nat)
    ensures best < 3
    ensures forall i :: 0 <= i < 3 && Gap(i, q) < 1.0 ==> Gap(best, q) <= Gap(i, q)
    ensures forall i :: 0 <= i < best ==> Gap(best, q) < Gap(i, q)
    ensures (forall i :: 0 <= i < 3 ==> Gap(i, q) >= 1.0) ==> best == 0
  {
    best := 0;
    var bestD := 1.0;
    for i := 0 to 3
      invariant best < 3 && (best == 0 || best < i)
      invariant bestD == (if Gap(best, q) < 1.0 && i > 0 then Gap(best, q) else 1.0)
      invariant forall k :: 0 <= k < i && Gap(k, q) < 1.0 ==> bestD <= Gap(k, q)
      invariant forall k :: 0 <= k < best ==> Gap(best, q) < Gap(k, q)
      invariant best > 0 ==> Gap(best, q) < 1.0
    {
      var d := TRACKED[i] - q;
      if d < 0.0 {
        d := -d;
      }
      if d < bestD {
        bestD := d;
        best := i;
      }
    }
  }

  /** How far the level is from q. */
  function Gap(i: nat, q: real): (r: real)
    requires i < 3
    ensures r >= 0.0 && (q == TRACKED[i] + r || q == TRACKED[i] - r)
  {
    if TRACKED[i] - q < 0.0 then -(TRACKED[i] - q) else TRACKED[i] - q
  }

  class P2Estimator {
    var markers: seq<seq<Marker>>
    var np: seq<seq<real>>
    var count: seq<nat>
    var init: seq<seq<real>>

    ghost predicate Valid()
      reads this
    {
      && |markers| == 3 && |np| == 3 && |count| == 3 && |init| == 3
      && forall qi :: 0 <= qi < 3 ==> Formed(SlotAt(qi))
    }

    ghost function SlotAt(qi: nat): Slot
      requires |markers| == 3 && |np| == 3 && |count| == 3 && |init| == 3 && qi < 3
      reads this
    {
      Slot(markers[qi], np[qi], count[qi], init[qi])
    }

    constructor ()
      ensures Valid() && forall qi :: 0 <= qi < 3 ==> SlotAt(qi) == Blank()
    {
      markers := seq(3, _ => Blank().markers);
      np := seq(3, _ => Blank().np);
      count := [0, 0, 0];
      init := [[], [], []];
    }

    /** Feeds every tracked level in turn; stops where one of them panics. */
    method Add(v: real) returns (panicked: bool)
      requires Valid()
      modifies this
      ensures panicked <==> exists qi :: 0 <= qi < 3 && old(Panics(SlotAt(qi)))
      ensures !panicked ==> Valid()
      ensures !panicked ==> forall qi :: 0 <= qi < 3 ==> SlotAt(qi) == AddSample(old(SlotAt(qi)), TRACKED[qi], v)
    {
      for qi := 0 to 3
        invariant Valid()
        invariant forall k :: 0 <= k < qi ==> !old(Panics(SlotAt(k)))
        invariant forall k :: 0 <= k < qi ==> SlotAt(k) == AddSample(old(SlotAt(k)), TRACKED[k], v)
        invariant forall k :: qi <= k < 3 ==> SlotAt(k) == old(SlotAt(k))
      {
        panicked := AddOne(qi, TRACKED[qi], v);
        if panicked { return; }
      }
      panicked := false;
    }

    method AddOne(qi: nat, p: real, v: real) returns (panicked: bool)
      requires Valid() && qi < 3
      modifies this
      ensures panicked == old(Panics(SlotAt(qi)))
      ensures !panicked ==> Valid() && SlotAt(qi) == AddSample(old(SlotAt(qi)), p, v)
      ensures !panicked ==> forall k :: 0 <= k < 3 && k != qi ==> SlotAt(k) == old(SlotAt(k))
    {
      assert Formed(SlotAt(qi));
      if count[qi] < 5 {
        panicked := AddEarly(qi, p, v);
        return;
      }
      panicked := false;
      ghost var s := SlotAt(qi);
      var m := PlaceObservation(markers[qi], v);
      var desired := MoveDesired(np[qi], p);
      m := AdjustInner(m, desired);
      assert Slot(m, desired, s.count + 1, s.init) == AddSample(s, p, v);
      markers, np := markers[qi := m], np[qi := desired];
      count := count[qi := count[qi] + 1];
      assert SlotAt(qi) == Slot(m, desired, s.count + 1, s.init);
      assert forall k :: 0 <= k < 3 && k != qi ==> SlotAt(k) == old(SlotAt(k));
    }

    method AddEarly(qi: nat, p: real, v: real) returns (panicked: bool)
      requires Valid() && qi < 3 && count[qi] < 5
      modifies this
      ensures panicked == old(Panics(SlotAt(qi)))
      ensures !panicked ==> Valid() && SlotAt(qi) == AddSample(old(SlotAt(qi)), p, v)
      ensures !panicked ==> forall k :: 0 <= k < 3 && k != qi ==> SlotAt(k) == old(SlotAt(k))
    {
      assert Formed(SlotAt(qi));
      panicked := false;
      init := init[qi := init[qi] + [v]];
      count := count[qi := count[qi] + 1];
      if count[qi] == 5 {
        if |init[qi]| < 5 {
          return true;
        }
        StartMarkers(qi, p);
      }
      assert SlotAt(qi) == AddSample(old(SlotAt(qi)), p, v);
      assert forall k :: 0 <= k < 3 && k != qi ==> SlotAt(k) == old(SlotAt(k));
    }

    static method MoveDesired(np0: seq<real>, p: real) returns (desired: seq<real>)
      requires |np0| == 5
      ensures desired == Advance(np0, p)
    {
      var dn := Increments(p);
      desired := np0;
      for i := 0 to 5
        invariant |desired| == 5
        invariant forall k :: 0 <= k < 5 ==> desired[k] == if k < i then np0[k] + dn[k] else np0[k]
      {
        desired := desired[i := desired[i] + dn[i]];
      }
    }

    static method AdjustInner(m0: seq<Marker>, desired: seq<real>) returns (m: seq<Marker>)
      requires |m0| == 5 && |desired| == 5
      ensures m == AdjustTo(m0, desired, 4)
    {
      m := m0;
      for i := 1 to 4
        invariant m == AdjustTo(m0, desired, i)
      {
        m := Adjust(m, desired[i], i);
      }
    }

    method StartMarkers(qi: nat, p: real)
      requires |markers| == 3 && |np| == 3 && |count| == 3 && |init| == 3 && qi < 3 && |init[qi]| >= 5
      requires |markers[qi]| == 5
      modifies this`markers, this`np
      ensures markers == old(markers)[qi := FirstMarkers(init[qi])]
      ensures np == old(np)[qi := FirstDesired(p)]
    {
      var buf, m := SortReals(init[qi]), markers[qi];
      for i := 0 to 5
        invariant |m| == 5 && forall k :: 0 <= k < i ==> m[k] == Marker((k + 1) as real, buf[k])
      {
        m := m[i := Marker((i + 1) as real, buf[i])];
      }
      assert m == FirstMarkers(init[qi]);
      markers, np := markers[qi := m], np[qi := [1.0, 1.0 + 2.0 * p, 1.0 + 4.0 * p, 3.0 + 2.0 * p, 5.0]];
    }

    static method PlaceObservation(m0: seq<Marker>, v: real) returns (m: seq<Marker>)
      requires |m0| == 5
      ensures m == Absorb(m0, v)
    {
      var k := 0;
      m := m0;
      if v < m[0].height {
        m := m[0 := m[0].(height := v)];
      } else if v >= m[4].height {
        m := m[4 := m[4].(height := v)];
        k := 3;
      } else {
        for i := 0 to 4
          invariant k == 0 && forall j :: 1 <= j <= i ==> v >= m[j].height
        {
          if v < m[i + 1].height {
            k := i;
            break;
          }
        }
      }
      assert k == Cell(m0, v);
      m := ShiftFrom(m, k + 1);
    }

    static method ShiftFrom(m0: seq<Marker>, first: nat) returns (m: seq<Marker>)
      requires |m0| == 5 && first <= 5
      ensures |m| == 5 && forall j :: 0 <= j < 5 ==>
        m[j] == if j >= first then m0[j].(position := m0[j].position + 1.0) else m0[j]
    {
      m := m0;
      for i := first to 5
        invariant |m| == 5
        invariant forall j :: 0 <= j < 5 ==>
          m[j] == if first <= j < i then m0[j].(position := m0[j].position + 1.0) else m0[j]
      {
        m := m[i := m[i].(position := m[i].position + 1.0)];
      }
    }

    method Quantile(q: real) returns (r: real)
      requires Valid()
      ensures exists qi :: 0 <= qi < 3 && r == Estimate(SlotAt(qi), q) &&
                (forall i :: 0 <= i < 3 && Gap(i, q) < 1.0 ==> Gap(qi, q) <= Gap(i, q))
    {
      var qi := NearestQuantileIndex(q);
      assert Formed(SlotAt(qi));
      if count[qi] < 5 {
        if count[qi] == 0 {
          return 0.0;
        }
        var buf := SortReals(init[qi]);
        return buf[QuantileIndex(q, |buf|)];
      }
      return markers[qi][2].height;
    }

    method Merge(o: P2Estimator)
      requires Valid() && o.Valid()
      modifies this
      ensures Valid()
      ensures forall qi :: 0 <= qi < 3 ==> SlotAt(qi) == MergeSlots(old(SlotAt(qi)), old(o.SlotAt(qi)))
    {
      for qi := 0 to 3
        invariant Valid() && o.Valid()
        invariant forall k :: 0 <= k < qi ==> SlotAt(k) == MergeSlots(old(SlotAt(k)), old(o.SlotAt(k)))
        invariant forall k :: qi <= k < 3 ==> SlotAt(k) == old(SlotAt(k)) && o.SlotAt(k) == old(o.SlotAt(k))
      {
        MergeOne(qi, o);
      }
    }

    method MergeOne(qi: nat, o: P2Estimator)
      requires Valid() && o.Valid() && qi < 3
      modifies this
      ensures Valid() && o.Valid()
      ensures SlotAt(qi) == MergeSlots(old(SlotAt(qi)), old(o.SlotAt(qi)))
      ensures forall k :: 0 <= k < 3 && k != qi ==> SlotAt(k) == old(SlotAt(k)) && o.SlotAt(k) == old(o.SlotAt(k))
    {
      assert Formed(SlotAt(qi)) && Formed(o.SlotAt(qi));
      if o.count[qi] == 0 {
        return;
      }
      if count[qi] == 0 {
        markers, np := markers[qi := o.markers[qi]], np[qi := o.np[qi]];
        count, init := count[qi := o.count[qi]], init[qi := o.init[qi]];
      } else {
        var m := MeanMarkers(markers[qi], count[qi], o.markers[qi], o.count[qi]);
        markers := markers[qi := m];
        count := count[qi := count[qi] + o.count[qi]];
      }
      assert SlotAt(qi) == MergeSlots(old(SlotAt(qi)), old(o.SlotAt(qi)));
      assert forall k :: 0 <= k < 3 && k != qi ==> SlotAt(k) == old(SlotAt(k));
    }

    static method MeanMarkers(e: seq<Marker>, n: nat, o: seq<Marker>, k: nat) returns (m: seq<Marker>)
      requires |e| == 5 && |o| == 5 && n + k > 0
      ensures |m| == 5
      ensures forall i :: 0 <= i < 5 ==> m[i] == Marker(e[i].position, Mean(e[i].height, n, o[i].height, k))
    {
      m := e;
      var total := (n + k) as real;
      for i := 0 to 5
        invariant |m| == 5
        invariant forall j :: 0 <= j < i ==> m[j] == Marker(e[j].position, Mean(e[j].height, n, o[j].height, k))
        invariant forall j :: i <= j < 5 ==> m[j] == e[j]
      {
        m := m[i := m[i].(height := (m[i].height * n as real + o[i].height * k as real) / total)];
      }
    }
  }
}
