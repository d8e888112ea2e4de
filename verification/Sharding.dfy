/** Rendezvous hashing: a trace belongs to the ring member with the highest score. */
module Sharding {

  type Member = string
  type TraceID = string

  /** The hash of a member's name followed by a trace id. */
  type Score = (Member, TraceID) -> nat

  /** Index i holds the highest score, and no earlier index reaches it. */
  ghost predicate IsOwner(score: Score, members: seq<Member>, id: TraceID, i: int) {
    0 <= i < |members| &&
    (forall j :: 0 <= j < |members| ==> score(members[j], id) <= score(members[i], id)) &&
    forall j :: 0 <= j < i ==> score(members[j], id) < score(members[i], id)
  }

  function Owner(score: Score, members: seq<Member>, id: TraceID): (r: int)
    ensures if members == [] then r == -1 else IsOwner(score, members, id, r)
  {
    if members == [] then -1
    else
      var n := |members| - 1;
      var r := Owner(score, members[..n], id);
      if r == -1 || score(members[n], id) > score(members[r], id) then n else r
  }

  lemma OwnerUnique(score: Score, members: seq<Member>, id: TraceID, i: int)
    requires IsOwner(score, members, id, i)
    ensures i == Owner(score, members, id)
  {
    var r := Owner(score, members, id);
    assert score(members[r], id) <= score(members[i], id);
  }

  method ShardFor(score: Score, members: seq<Member>, id: TraceID) returns (best: int)
    ensures best == Owner(score, members, id)
    ensures -1 <= best < |members| && (best == -1 <==> members == [])
  {
    best := -1;
    var bestScore := 0;
    for i := 0 to |members|
      invariant best == Owner(score, members[..i], id)
      invariant best != -1 ==> bestScore == score(members[best], id)
    {
      assert members[..i + 1][..i] == members[..i];
      var s := score(members[i], id);
      if best == -1 || s > bestScore {
        best, bestScore := i, s;
      }
    }
    assert members[..|members|] == members;
  }

  function Without(members: seq<Member>, r: nat): seq<Member>
    requires r < |members|
  {
    members[..r] + members[r + 1..]
  }

  /** Removing a member moves only its own traces; equally, adding one moves traces only to it. */
  lemma ResizeMovesOnlyItsOwn(score: Score, members: seq<Member>, id: TraceID, r: nat)
    requires r < |members|
    ensures var rest := Without(members, r);
            Owner(score, members, id) != r ==>
              rest != [] && rest[Owner(score, rest, id)] == members[Owner(score, members, id)]
  {
    var rest, o := Without(members, r), Owner(score, members, id);
    if o != r {
      var i := if o < r then o else o - 1;
      assert rest[i] == members[o];
      assert forall j :: 0 <= j < |rest| ==> rest[j] == members[if j < r then j else j + 1];
      assert IsOwner(score, rest, id, i);
      OwnerUnique(score, rest, id, i);
    }
  }
}
