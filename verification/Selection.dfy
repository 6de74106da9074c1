/** Weighted choice of one validator and of a committee (internal/rating/registry.go). */
module Selection {
  import opened Sequences

  /** What the registry says of a node: suspended or not, and its positive selection weight. */
  datatype Standing = Standing(suspended: string -> bool, weight: string -> int)

  function Sum(weights: seq<nat>): nat {
    if weights == [] then 0 else Sum(weights[..|weights| - 1]) + weights[|weights| - 1]
  }

  lemma {:induction false} SumPrefix(weights: seq<nat>, i: nat, j: nat)
    requires i <= j <= |weights|
    ensures Sum(weights[..i]) <= Sum(weights[..j])
    decreases j
  {
    if i < j {
      assert weights[..j][..j - 1] == weights[..j - 1];
      SumPrefix(weights, i, j - 1);
    }
  }

  /** The roll falls in the i-th candidate's stretch of the weights laid end to end. */
  ghost predicate Hits(weights: seq<nat>, roll: nat, i: nat) {
    i < |weights| && Sum(weights[..i]) <= roll < Sum(weights[..i + 1])
  }

  lemma HitsOne(weights: seq<nat>, roll: nat, i: nat, j: nat)
    requires Hits(weights, roll, i) && Hits(weights, roll, j)
    ensures i == j
  {
    if i < j {
      SumPrefix(weights, i + 1, j);
    } else if j < i {
      SumPrefix(weights, j + 1, i);
    }
  }

  /** The running-sum loop. Its fallback after the loop is never reached. */
  method Choose(weights: seq<nat>, roll: nat) returns (i: nat)
    requires roll < Sum(weights)
    ensures Hits(weights, roll, i)
  {
    var sum := 0;
    i := 0;
    assert weights[..|weights|] == weights;
    while i < |weights|
      invariant 0 <= i <= |weights|
      invariant sum == Sum(weights[..i]) <= roll
    {
      assert weights[..i + 1][..i] == weights[..i];
      sum := sum + weights[i];
      if roll < sum {
        return;
      }
      i := i + 1;
    }
    assert false;
  }

  /** The rolls below the total that choose the i-th candidate. */
  ghost function RollsFor(weights: seq<nat>, i: nat): set<int> {
    set roll: int | 0 <= roll < Sum(weights) && Hits(weights, roll, i)
  }

  /** Over all rolls, each candidate is chosen by exactly as many as its weight. */
  lemma ExactlyProportional(weights: seq<nat>, i: nat)
    requires i < |weights|
    ensures |RollsFor(weights, i)| == weights[i]
  {
    var low, high := Sum(weights[..i]), Sum(weights[..i + 1]);
    assert weights[..i + 1][..i] == weights[..i];
    SumPrefix(weights, i + 1, |weights|);
    assert weights[..|weights|] == weights;
    assert RollsFor(weights, i) == Stretch(low, high);
    StretchSize(low, high);
  }

  ghost function Stretch(low: int, high: int): set<int> {
    set x: int | low <= x < high && Within(low, x, high)
  }

  predicate Within(low: int, x: int, high: int) {
    low <= x < high
  }

  lemma {:induction false} StretchSize(low: int, high: int)
    requires low <= high
    ensures |Stretch(low, high)| == high - low
    decreases high - low
  {
    if low < high {
      StretchSize(low, high - 1);
      assert Stretch(low, high) == Stretch(low, high - 1) + {high - 1};
    } else {
      assert Stretch(low, high) == {};
    }
  }

  // ----- one choice -----

  function Eligible(s: Standing, candidates: seq<string>): seq<string> {
    if candidates == [] then []
    else
      var before, id := Eligible(s, candidates[..|candidates| - 1]), candidates[|candidates| - 1];
      if s.suspended(id) then before else before + [id]
  }

  function Weight(s: Standing, id: string): nat {
    if s.weight(id) <= 0 then 1 else s.weight(id)
  }

  function Weights(s: Standing, ids: seq<string>): seq<nat> {
    seq(|ids|, i requires 0 <= i < |ids| => Weight(s, ids[i]))
  }

  lemma {:induction false} EligibleMembers(s: Standing, candidates: seq<string>)
    ensures forall id :: id in Eligible(s, candidates) <==> id in candidates && !s.suspended(id)
    ensures Distinct(candidates) ==> Distinct(Eligible(s, candidates))
    decreases |candidates|
  {
    if candidates != [] {
      var n := |candidates| - 1;
      EligibleMembers(s, candidates[..n]);
      assert candidates == candidates[..n] + [candidates[n]];
    }
  }

  lemma {:induction false} WeightsAddUp(s: Standing, ids: seq<string>)
    ensures Sum(Weights(s, ids)) >= |ids|
    decreases |ids|
  {
    if ids != [] {
      var n := |ids| - 1;
      WeightsAddUp(s, ids[..n]);
      assert Weights(s, ids)[..n] == Weights(s, ids[..n]);
    }
  }

  method FilterEligible(s: Standing, candidates: seq<string>) returns (out: seq<string>)
    ensures out == Eligible(s, candidates)
  {
    out := [];
    var i := 0;
    while i < |candidates|
      invariant 0 <= i <= |candidates|
      invariant out == Eligible(s, candidates[..i])
    {
      assert candidates[..i + 1][..i] == candidates[..i];
      if !s.suspended(candidates[i]) {
        out := out + [candidates[i]];
      }
      i := i + 1;
    }
    assert candidates[..|candidates|] == candidates;
  }

  /** The random number below the total. */
  function Rolled(roll: nat, total: nat): nat {
    if total == 0 then 0 else roll % total
  }

  /** The only eligible candidate, or the one the roll hits. */
  ghost predicate PickedFrom(eligible: seq<string>, weights: seq<nat>, roll: nat, picked: string) {
    exists i :: 0 <= i < |eligible| && picked == eligible[i] && (|eligible| == 1 || Hits(weights, roll, i))
  }

  lemma PickedFromIsHits(eligible: seq<string>, weights: seq<nat>, roll: nat, i: nat)
    requires Distinct(eligible) && |eligible| > 1 && i < |eligible|
    ensures PickedFrom(eligible, weights, roll, eligible[i]) <==> Hits(weights, roll, i)
  {
  }

  /** SelectByWeight's answer for one roll: none, the only candidate, or the eligible one the roll hits. */
  ghost predicate Selects(s: Standing, candidates: seq<string>, roll: nat, picked: string) {
    var eligible := Eligible(s, candidates);
    if candidates == [] then picked == ""
    else if |candidates| == 1 then picked == candidates[0]
    else if eligible == [] then picked == ""
    else PickedFrom(eligible, Weights(s, eligible), Rolled(roll, Sum(Weights(s, eligible))), picked)
  }

  method SelectByWeight(s: Standing, candidates: seq<string>, roll: nat) returns (picked: string)
    ensures Selects(s, candidates, roll, picked)
  {
    if |candidates| == 0 {
      return "";
    }
    if |candidates| == 1 {
      return candidates[0];
    }
    var eligible := FilterEligible(s, candidates);
    if |eligible| == 0 {
      return "";
    }
    if |eligible| == 1 {
      return eligible[0];
    }
    var weights := Weights(s, eligible);
    WeightsAddUp(s, eligible);
    var total := SumOf(weights);
    var i := Choose(weights, Rolled(roll, total));
    picked := eligible[i];
  }

  method SumOf(weights: seq<nat>) returns (total: nat)
    ensures total == Sum(weights)
  {
    total := 0;
    var i := 0;
    while i < |weights|
      invariant 0 <= i <= |weights|
      invariant total == Sum(weights[..i])
    {
      assert weights[..i + 1][..i] == weights[..i];
      total := total + weights[i];
      i := i + 1;
    }
    assert weights[..|weights|] == weights;
  }

  /** A roll leaves no choice: the answer is a function of the candidates and the roll. */
  lemma SelectsOne(s: Standing, candidates: seq<string>, roll: nat, p: string, q: string)
    requires Selects(s, candidates, roll, p) && Selects(s, candidates, roll, q)
    ensures p == q
  {
    var eligible := Eligible(s, candidates);
    if |candidates| > 1 && |eligible| > 1 {
      PickedOne(eligible, Weights(s, eligible), Rolled(roll, Sum(Weights(s, eligible))), p, q);
    }
  }

  lemma PickedOne(eligible: seq<string>, weights: seq<nat>, roll: nat, p: string, q: string)
    requires |eligible| > 1 && PickedFrom(eligible, weights, roll, p) && PickedFrom(eligible, weights, roll, q)
    ensures p == q
  {
    var i :| 0 <= i < |eligible| && p == eligible[i] && Hits(weights, roll, i);
    var j :| 0 <= j < |eligible| && q == eligible[j] && Hits(weights, roll, j);
    HitsOne(weights, roll, i, j);
  }

  /** A suspended node is chosen exactly when it is the only candidate offered. */
  lemma SuspendedOnlyIfAlone(s: Standing, candidates: seq<string>, roll: nat, picked: string)
    requires Selects(s, candidates, roll, picked) && candidates != []
    requires forall i :: 0 <= i < |candidates| ==> candidates[i] != ""
    ensures picked in candidates && s.suspended(picked) <==> |candidates| == 1 && s.suspended(candidates[0])
    ensures picked == "" <==> |candidates| > 1 && forall id :: id in candidates ==> s.suspended(id)
  {
    EligibleMembers(s, candidates);
    if |candidates| == 1 {
      assert candidates[0] in candidates;
    }
  }

  /** The rolls for which SelectByWeight picks this name. */
  ghost function RollsPicking(s: Standing, candidates: seq<string>, picked: string): set<int> {
    set roll: int | 0 <= roll < Sum(Weights(s, Eligible(s, candidates))) && Selects(s, candidates, roll, picked)
  }

  /** With two or more eligible candidates, each is picked by exactly as many rolls as its weight. */
  lemma PickedByItsWeight(s: Standing, candidates: seq<string>, i: nat)
    requires Distinct(candidates) && |Eligible(s, candidates)| > 1 && i < |Eligible(s, candidates)|
    ensures |RollsPicking(s, candidates, Eligible(s, candidates)[i])| == Weight(s, Eligible(s, candidates)[i])
  {
    var eligible := Eligible(s, candidates);
    EligibleMembers(s, candidates);
    MoreThanOne(s, candidates);
    var weights := Weights(s, eligible);
    forall roll: int | 0 <= roll < Sum(weights)
      ensures Selects(s, candidates, roll, eligible[i]) <==> Hits(weights, roll, i)
    {
      SelectsIsHits(s, candidates, eligible, weights, roll, i);
    }
    assert RollsPicking(s, candidates, eligible[i]) == RollsFor(weights, i);
    ExactlyProportional(weights, i);
  }

  lemma SelectsIsHits(s: Standing, candidates: seq<string>, eligible: seq<string>, weights: seq<nat>, roll: nat, i: nat)
    requires eligible == Eligible(s, candidates) && Distinct(eligible) && weights == Weights(s, eligible)
    requires |candidates| > 1 && |eligible| > 1 && i < |eligible| && roll < Sum(weights)
    ensures Selects(s, candidates, roll, eligible[i]) <==> Hits(weights, roll, i)
  {
    RolledBelow(roll, Sum(weights));
    PickedFromIsHits(eligible, weights, roll, i);
  }

  lemma RolledBelow(roll: nat, total: nat)
    requires roll < total
    ensures Rolled(roll, total) == roll
  {
  }

  lemma {:induction false} MoreThanOne(s: Standing, candidates: seq<string>)
    ensures |Eligible(s, candidates)| <= |candidates|
    decreases |candidates|
  {
    if candidates != [] {
      MoreThanOne(s, candidates[..|candidates| - 1]);
    }
  }

  // ----- a committee -----

  function Removed(ids: seq<string>, gone: string): seq<string> {
    if ids == [] then []
    else
      var before := Removed(ids[..|ids| - 1], gone);
      if ids[|ids| - 1] == gone then before else before + [ids[|ids| - 1]]
  }

  lemma {:induction false} RemovedMembers(ids: seq<string>, gone: string)
    ensures forall id :: id in Removed(ids, gone) <==> id in ids && id != gone
    ensures |Removed(ids, gone)| <= |ids|
    ensures gone in ids ==> |Removed(ids, gone)| < |ids|
    ensures Distinct(ids) ==> Distinct(Removed(ids, gone))
    ensures Distinct(ids) && gone in ids ==> |Removed(ids, gone)| == |ids| - 1
    ensures gone !in ids ==> |Removed(ids, gone)| == |ids|
    decreases |ids|
  {
    if ids != [] {
      var n := |ids| - 1;
      RemovedMembers(ids[..n], gone);
      assert ids == ids[..n] + [ids[n]];
      assert Distinct(ids) ==> ids[n] !in ids[..n];
    }
  }

  method Remove(ids: seq<string>, gone: string) returns (out: seq<string>)
    ensures out == Removed(ids, gone)
  {
    out := [];
    var i := 0;
    while i < |ids|
      invariant 0 <= i <= |ids|
      invariant out == Removed(ids[..i], gone)
    {
      assert ids[..i + 1][..i] == ids[..i];
      if ids[i] != gone {
        out := out + [ids[i]];
      }
      i := i + 1;
    }
    assert ids[..|ids|] == ids;
  }

  function Min(a: int, b: int): int {
    if a < b then a else b
  }

  /** Distinct, non-empty names: what the callers offer. */
  ghost predicate ProperNames(candidates: seq<string>) {
    Distinct(candidates) && "" !in candidates
  }

  /** Drawing without replacement from eligible candidates. */
  method DrawCommittee(s: Standing, eligible: seq<string>, count: nat, rolls: nat -> nat) returns (result: seq<string>)
    requires count < |eligible| && forall id :: id in eligible ==> !s.suspended(id)
    ensures Distinct(result) && |result| <= count
    ensures forall id :: id in result ==> id in eligible
    ensures ProperNames(eligible) ==> |result| == count
  {
    var remaining := eligible;
    result := [];
    while |result| < count && |remaining| > 0
      invariant Distinct(result) && |result| <= count
      invariant forall id :: id in result ==> id in eligible
      invariant forall id :: id in remaining <==> id in eligible && id !in result
      invariant ProperNames(eligible) ==> ProperNames(remaining) && |remaining| == |eligible| - |result|
      decreases |remaining|
    {
      var picked := SelectByWeight(s, remaining, rolls(|result|));
      PickedIsRemaining(s, remaining, rolls(|result|), picked);
      if picked == "" {
        break;
      }
      RemovedMembers(remaining, picked);
      remaining := Remove(remaining, picked);
      result := result + [picked];
    }
  }

  lemma PickedIsRemaining(s: Standing, remaining: seq<string>, roll: nat, picked: string)
    requires Selects(s, remaining, roll, picked) && remaining != []
    requires forall id :: id in remaining ==> !s.suspended(id)
    ensures picked in remaining
  {
    EligibleMembers(s, remaining);
    assert remaining[0] in Eligible(s, remaining);
  }

  /** Non-suspended candidates only; for distinct non-empty names, as many as asked for or as there are, each once. */
  method SelectCommittee(s: Standing, candidates: seq<string>, count: int, rolls: nat -> nat)
    returns (result: seq<string>)
    ensures forall id :: id in result ==> id in candidates && !s.suspended(id)
    ensures count <= 0 ==> result == []
    ensures ProperNames(candidates) && count > 0 ==>
      Distinct(result) && |result| == Min(count, |Eligible(s, candidates)|)
  {
    var eligible := FilterEligible(s, candidates);
    EligibleMembers(s, candidates);
    if count <= 0 || |eligible| == 0 {
      return [];
    }
    if count >= |eligible| {
      return eligible;
    }
    result := DrawCommittee(s, eligible, count, rolls);
  }
}
