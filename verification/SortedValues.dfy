/** Ordered sequences of observations, shared by the two quantile estimators. */
module SortedValues {

  predicate Sorted(s: seq<real>) {
    forall i, j :: 0 <= i < j < |s| ==> s[i] <= s[j]
  }

  /** The float-to-int conversion: truncation toward zero. */
  function Trunc(x: real): int {
    if x >= 0.0 then x.Floor else -(-x).Floor
  }

  /** The index a quantile query reads in a list of n ordered values, clamped to the list. */
  function QuantileIndex(q: real, n: nat): (i: nat)
    requires n > 0
    ensures i < n
  {
    var i := Trunc(q * (n - 1) as real);
    if i < 0 then 0 else if i >= n then n - 1 else i
  }

  /** The least index whose value is at least v. */
  function Search(s: seq<real>, v: real): (i: nat)
    ensures i <= |s|
    ensures forall k :: 0 <= k < i ==> s[k] < v
    ensures i < |s| ==> s[i] >= v
  {
    if s == [] || s[0] >= v then 0 else 1 + Search(s[1..], v)
  }

  function InsertSorted(s: seq<real>, v: real): seq<real> {
    s[..Search(s, v)] + [v] + s[Search(s, v)..]
  }

  lemma InsertKeeps(s: seq<real>, v: real)
    requires Sorted(s)
    ensures Sorted(InsertSorted(s, v))
    ensures multiset(InsertSorted(s, v)) == multiset(s) + multiset{v}
  {
    var i := Search(s, v);
    assert s == s[..i] + s[i..];
  }

  function SortReals(s: seq<real>): (r: seq<real>)
    ensures |r| == |s|
  {
    if s == [] then [] else InsertSorted(SortReals(s[..|s| - 1]), s[|s| - 1])
  }

  lemma {:induction false} SortRealsCorrect(s: seq<real>)
    ensures Sorted(SortReals(s)) && multiset(SortReals(s)) == multiset(s)
  {
    hide InsertSorted;
    if s != [] {
      SortRealsCorrect(s[..|s| - 1]);
      InsertKeeps(SortReals(s[..|s| - 1]), s[|s| - 1]);
      assert s == s[..|s| - 1] + [s[|s| - 1]];
    }
  }

  lemma HeadsAgree(a: seq<real>, b: seq<real>)
    requires a != [] && Sorted(a) && Sorted(b) && multiset(a) == multiset(b)
    ensures b != [] && a[0] == b[0]
  {
    assert |multiset(a)| == |a| && |multiset(b)| == |b|;
    assert a[0] in multiset(b);
    assert b[0] in multiset(a);
  }

  /** Every sorting routine computes SortReals: ordered rearrangements are unique. */
  lemma {:induction false} SortedIsUnique(a: seq<real>, b: seq<real>)
    requires Sorted(a) && Sorted(b) && multiset(a) == multiset(b)
    ensures a == b
    decreases |a|
  {
    assert |multiset(a)| == |a| && |multiset(b)| == |b|;
    if a != [] {
      HeadsAgree(a, b);
      assert a == [a[0]] + a[1..] && b == [b[0]] + b[1..];
      assert multiset(a[1..]) == multiset(a) - multiset{a[0]};
      assert multiset(b[1..]) == multiset(b) - multiset{b[0]};
      SortedIsUnique(a[1..], b[1..]);
    }
  }

  function Min(s: seq<real>): real
    requires s != []
  {
    if |s| == 1 then s[0] else
      var m := Min(s[..|s| - 1]);
      if s[|s| - 1] < m then s[|s| - 1] else m
  }

  function Max(s: seq<real>): real
    requires s != []
  {
    if |s| == 1 then s[0] else
      var m := Max(s[..|s| - 1]);
      if s[|s| - 1] > m then s[|s| - 1] else m
  }

  lemma {:induction false} MinMaxBound(s: seq<real>)
    requires s != []
    ensures Min(s) in s && Max(s) in s
    ensures forall x :: x in s ==> Min(s) <= x <= Max(s)
  {
    if |s| > 1 {
      MinMaxBound(s[..|s| - 1]);
      assert s == s[..|s| - 1] + [s[|s| - 1]];
    }
  }

  /** After sorting, the ends are the least and the greatest value. */
  lemma SortedEnds(s: seq<real>)
    requires s != []
    ensures var r := SortReals(s);
            r[0] == Min(s) && r[|r| - 1] == Max(s) &&
            forall i :: 0 <= i < |r| ==> Min(s) <= r[i] <= Max(s)
  {
    hide SortReals, Min, Max;
    SortRealsCorrect(s);
    MinMaxBound(s);
    EndsBound(s, SortReals(s), Min(s), Max(s));
  }

  lemma EndsBound(s: seq<real>, r: seq<real>, min: real, max: real)
    requires s != [] && |r| == |s| && Sorted(r) && multiset(r) == multiset(s)
    requires min in s && max in s && forall x :: x in s ==> min <= x <= max
    ensures r[0] == min && r[|r| - 1] == max && forall i :: 0 <= i < |r| ==> min <= r[i] <= max
  {
    forall i | 0 <= i < |r| ensures min <= r[i] <= max {
      assert r[i] in multiset(r) && r[i] in multiset(s) && r[i] in s;
    }
    assert min in multiset(r) && max in multiset(r);
    var lo :| 0 <= lo < |r| && r[lo] == min;
    var hi :| 0 <= hi < |r| && r[hi] == max;
  }
}
