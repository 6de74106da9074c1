/** Splitting a block's fees and paying the voters (internal/rewards/rewards.go, internal/handlers/handlers.go). */
module Rewards {
  import opened Sequences
  import opened Arithmetic
  import VoteRound

  /** Percentages of burn, treasury and the two voter pools; the source reads them as non-negative. */
  datatype Config = Config(burn: nat, treasury: nat, l1: nat, l2: nat)

  datatype Split = Split(burn: int, treasury: int, l1: int, l2: int)

  function Parts(c: Config): nat {
    var sum := c.burn + c.treasury + c.l1 + c.l2;
    if sum == 0 then 100 else sum
  }

  /** Each part is rounded down; what rounding leaves goes to the treasury. */
  function SplitBlockFees(c: Config, fees: int): Split {
    if fees <= 0 then Split(0, 0, 0, 0)
    else
      var burn := fees * c.burn / Parts(c);
      var treasury := fees * c.treasury / Parts(c);
      var l1 := fees * c.l1 / Parts(c);
      var l2 := fees * c.l2 / Parts(c);
      Split(burn, treasury + (fees - burn - treasury - l1 - l2), l1, l2)
  }

  /** Nothing is lost in the split, no part is negative, and rounding moves fewer than four units. */
  lemma SplitConserves(c: Config, fees: int)
    ensures var s := SplitBlockFees(c, fees);
            && s.burn + s.treasury + s.l1 + s.l2 == (if fees <= 0 then 0 else fees)
            && s.burn >= 0 && s.treasury >= 0 && s.l1 >= 0 && s.l2 >= 0
  {
    if fees > 0 {
      var p := Parts(c);
      Floor(fees, c.burn, p);
      Floor(fees, c.treasury, p);
      Floor(fees, c.l1, p);
      Floor(fees, c.l2, p);
      var a, b, d, e := fees * c.burn / p, fees * c.treasury / p, fees * c.l1 / p, fees * c.l2 / p;
      FloorsFit(fees, c, p, a, b, d, e);
    }
  }

  /**
   Each pool and the burn are their exact shares rounded down; the treasury has its own and at most
   three units more.
   */
  lemma SplitIsProportional(c: Config, fees: int)
    requires fees > 0 && c.burn + c.treasury + c.l1 + c.l2 > 0
    ensures var s, p := SplitBlockFees(c, fees), Parts(c);
            && fees * c.burn - p < p * s.burn <= fees * c.burn
            && fees * c.l1 - p < p * s.l1 <= fees * c.l1
            && fees * c.l2 - p < p * s.l2 <= fees * c.l2
            && fees * c.treasury - p < p * s.treasury < fees * c.treasury + 4 * p
  {
    var p := Parts(c);
    Floor(fees, c.burn, p);
    Floor(fees, c.treasury, p);
    Floor(fees, c.l1, p);
    Floor(fees, c.l2, p);
    var a, b, d, e := fees * c.burn / p, fees * c.treasury / p, fees * c.l1 / p, fees * c.l2 / p;
    FloorsFit(fees, c, p, a, b, d, e);
    Distribute(fees, c.burn, c.treasury, c.l1, c.l2);
    Distribute(p, a, b, d, e);
    TreasuryShare(p, fees, b, a + b + d + e, p * (a + b + d + e), fees * c.treasury);
  }

  lemma TreasuryShare(p: nat, fees: nat, own: int, all: int, product: int, exact: int)
    requires p > 0 && product == p * all && fees * p - 4 * p < product && all <= fees
    requires exact - p < p * own <= exact
    ensures exact - p < p * (own + (fees - all)) < exact + 4 * p
  {
    assert p * (own + (fees - all)) == p * own + fees * p - p * all;
    Times(p, all, fees);
  }

  lemma FloorsFit(fees: nat, c: Config, p: nat, a: int, b: int, d: int, e: int)
    requires p == Parts(c)
    requires p * a <= fees * c.burn && p * b <= fees * c.treasury && p * d <= fees * c.l1 && p * e <= fees * c.l2
    ensures a + b + d + e <= fees
  {
    Distribute(p, a, b, d, e);
    Distribute(fees, c.burn, c.treasury, c.l1, c.l2);
    Times(fees, c.burn + c.treasury + c.l1 + c.l2, p);
    SumFits(p * (a + b + d + e), fees * (c.burn + c.treasury + c.l1 + c.l2), fees * p, p, a + b + d + e, fees);
  }

  lemma Distribute(p: int, a: int, b: int, d: int, e: int)
    ensures p * (a + b + d + e) == p * a + p * b + p * d + p * e
  {
  }

  lemma SumFits(low: int, middle: int, high: int, p: nat, x: int, fees: int)
    requires low == p * x && high == fees * p && low <= middle <= high && p > 0
    ensures x <= fees
  {
    DivUp(x, fees, p);
  }

  // ----- sums over a map -----

  ghost function Total(m: map<string, int>): int {
    if m == map[] then 0
    else
      var k :| k in m;
      m[k] + Total(m - {k})
  }

  lemma {:induction false} TotalTake(m: map<string, int>, k: string)
    requires k in m
    ensures Total(m) == m[k] + Total(m - {k})
    decreases |m|
  {
    var j :| j in m && Total(m) == m[j] + Total(m - {j});
    if j != k {
      TotalTake(m - {j}, k);
      TotalTake(m - {k}, j);
      assert m - {j} - {k} == m - {k} - {j};
    }
  }

  // ----- paying a pool -----

  function Weight(raw: string -> int, id: string): int {
    if raw(id) <= 0 then 1 else raw(id)
  }

  function WeightSum(raw: string -> int, ids: seq<string>): int {
    if ids == [] then 0 else WeightSum(raw, ids[..|ids| - 1]) + Weight(raw, ids[|ids| - 1])
  }

  function PartSum(part: string -> int, ids: seq<string>): int {
    if ids == [] then 0 else PartSum(part, ids[..|ids| - 1]) + part(ids[|ids| - 1])
  }

  /** A voter's share of the rest, rounded down. */
  function Floors(raw: string -> int, rest: int, total: int): string -> int
    requires total > 0
  {
    id => rest * Weight(raw, id) / total
  }

  lemma {:induction false} WeightSumAtLeast(raw: string -> int, ids: seq<string>)
    ensures WeightSum(raw, ids) >= |ids|
    decreases |ids|
  {
    if ids != [] {
      WeightSumAtLeast(raw, ids[..|ids| - 1]);
    }
  }

  /** The rounded shares fall short of the exact ones by less than one unit each. */
  lemma {:induction false} FloorSumBounds(raw: string -> int, ids: seq<string>, rest: nat, total: nat)
    requires total > 0
    ensures total * PartSum(Floors(raw, rest, total), ids) <= rest * WeightSum(raw, ids)
    ensures rest * WeightSum(raw, ids) - total * PartSum(Floors(raw, rest, total), ids) <= |ids| * (total - 1)
    decreases |ids|
  {
    if ids != [] {
      var n := |ids| - 1;
      FloorSumBounds(raw, ids[..n], rest, total);
      var w := Weight(raw, ids[n]);
      Floor(rest, w, total);
      OneMoreFloor(total, rest, PartSum(Floors(raw, rest, total), ids[..n]), WeightSum(raw, ids[..n]), w,
                   rest * w / total, n);
    }
  }

  lemma OneMoreFloor(total: int, rest: int, f: int, s: int, w: int, x: int, n: int)
    requires total * f <= rest * s && rest * s - total * f <= n * (total - 1)
    requires rest * w - total < total * x <= rest * w
    ensures total * (f + x) <= rest * (s + w)
    ensures rest * (s + w) - total * (f + x) <= (n + 1) * (total - 1)
  {
    assert total * (f + x) == total * f + total * x;
    assert rest * (s + w) == rest * s + rest * w;
    assert (n + 1) * (total - 1) == n * (total - 1) + (total - 1);
  }

  /** What rounding leaves over is non-negative and less than one unit per voter. */
  lemma LeftoverIsSmall(raw: string -> int, ids: seq<string>, rest: nat)
    requires ids != []
    ensures WeightSum(raw, ids) > 0
    ensures 0 <= rest - PartSum(Floors(raw, rest, WeightSum(raw, ids)), ids) < |ids|
  {
    WeightSumAtLeast(raw, ids);
    var total := WeightSum(raw, ids);
    FloorSumBounds(raw, ids, rest, total);
    SmallLeftover(total, PartSum(Floors(raw, rest, total), ids), rest, |ids|);
  }

  lemma SmallLeftover(total: nat, f: int, rest: int, n: nat)
    requires total > 0 && n > 0 && total * f <= rest * total && rest * total - total * f <= n * (total - 1)
    ensures 0 <= rest - f < n
  {
    DivUp(f, rest, total);
    assert total * (rest - f) == total * rest - total * f;
    DivBelow(rest - f, n, total);
  }

  /** The unit each voter is guaranteed when the pool covers them, and what is then left. */
  function Base(pool: int, n: nat): int {
    if pool >= n then 1 else 0
  }

  function Rest(pool: int, n: nat): int {
    if pool >= n then pool - n else pool
  }

  /**
   Every YES voter has the guaranteed unit, when the pool covers the voters, and its rounded
   share of the rest; one of them also has what rounding left over.
   */
  ghost predicate Paid(pool: int, raw: string -> int, ids: seq<string>, shares: map<string, int>)
    requires ids != []
  {
    WeightSumAtLeast(raw, ids);
    var rest := Rest(pool, |ids|);
    PaidParts(Base(pool, |ids|), Floors(raw, rest, WeightSum(raw, ids)), rest, ids, shares)
  }

  ghost predicate PaidParts(base: int, part: string -> int, rest: int, ids: seq<string>, shares: map<string, int>) {
    && (forall id :: id in shares <==> id in ids)
    && forall i :: 0 <= i < |ids| ==>
         shares[ids[i]] == base + part(ids[i]) + if i == 0 then rest - PartSum(part, ids) else 0
  }

  method YesInSomeOrder(voters: map<string, bool>) returns (ids: seq<string>)
    ensures Distinct(ids) && Elements(ids) == VoteRound.Yes(voters)
  {
    ids := [];
    var todo := voters.Keys;
    while todo != {}
      invariant todo <= voters.Keys
      invariant Distinct(ids)
      invariant forall id :: id in ids <==> id in VoteRound.Yes(voters) && id !in todo
      decreases todo
    {
      var k :| k in todo;
      if voters[k] {
        ids := ids + [k];
      }
      todo := todo - {k};
    }
  }

  method SumWeights(raw: string -> int, ids: seq<string>) returns (total: int)
    ensures total == WeightSum(raw, ids)
  {
    total := 0;
    var i := 0;
    while i < |ids|
      invariant 0 <= i <= |ids|
      invariant total == WeightSum(raw, ids[..i])
    {
      assert ids[..i + 1][..i] == ids[..i];
      total := total + Weight(raw, ids[i]);
      i := i + 1;
    }
    assert ids[..|ids|] == ids;
  }

  method OneEach(ids: seq<string>) returns (shares: map<string, int>)
    ensures forall id :: id in shares <==> id in ids
    ensures forall id :: id in shares ==> shares[id] == 1
  {
    shares := map[];
    var i := 0;
    while i < |ids|
      invariant 0 <= i <= |ids|
      invariant forall id :: id in shares <==> id in ids[..i]
      invariant forall id :: id in shares ==> shares[id] == 1
    {
      shares := shares[ids[i] := 1];
      i := i + 1;
    }
  }

  function Held(shares: map<string, int>, id: string): int {
    if id in shares then shares[id] else 0
  }

  /** The first `n` voters have had their parts added to what they held at the start. */
  ghost predicate Added(start: map<string, int>, part: string -> int, ids: seq<string>, n: nat, shares: map<string,
                        int>)
    requires n <= |ids|
  {
    && (forall id :: id in shares <==> id in start || id in ids[..n])
    && (forall k :: 0 <= k < n ==> shares[ids[k]] == Held(start, ids[k]) + part(ids[k]))
    && (forall k :: n <= k < |ids| ==> Held(shares, ids[k]) == Held(start, ids[k]))
  }

  /** Each voter's part added, one voter after another. */
  function AddEach(start: map<string, int>, part: string -> int, ids: seq<string>): map<string, int> {
    if ids == [] then start
    else
      var n := |ids| - 1;
      var m := AddEach(start, part, ids[..n]);
      m[ids[n] := Held(m, ids[n]) + part(ids[n])]
  }

  lemma {:induction false} AddedEach(start: map<string, int>, part: string -> int, ids: seq<string>, n: nat)
    requires Distinct(ids) && n <= |ids|
    ensures Added(start, part, ids, n, AddEach(start, part, ids[..n]))
    decreases n
  {
    if n > 0 {
      AddedEach(start, part, ids, n - 1);
      AddEachNext(start, part, ids, n - 1);
      AddedOne(start, part, ids, n - 1, AddEach(start, part, ids[..n - 1]));
    }
  }

  lemma AddEachNext(start: map<string, int>, part: string -> int, ids: seq<string>, n: nat)
    requires n < |ids|
    ensures var m := AddEach(start, part, ids[..n]);
            AddEach(start, part, ids[..n + 1]) == m[ids[n] := Held(m, ids[n]) + part(ids[n])]
  {
    assert ids[..n + 1][..n] == ids[..n];
  }

  lemma AddedOne(start: map<string, int>, part: string -> int, ids: seq<string>, n: nat, shares: map<string, int>)
    requires n < |ids| && Distinct(ids) && Added(start, part, ids, n, shares)
    ensures Added(start, part, ids, n + 1, shares[ids[n] := Held(shares, ids[n]) + part(ids[n])])
  {
    var more := shares[ids[n] := Held(shares, ids[n]) + part(ids[n])];
    assert ids[..n + 1] == ids[..n] + [ids[n]];
    forall k | 0 <= k < |ids| && k != n ensures Held(more, ids[k]) == Held(shares, ids[k]) {
      assert ids[k] != ids[n];
    }
  }

  method AddParts(start: map<string, int>, part: string -> int, ids: seq<string>)
    returns (shares: map<string, int>, distributed: int)
    ensures shares == AddEach(start, part, ids)
    ensures distributed == PartSum(part, ids)
  {
    shares, distributed := start, 0;
    var i := 0;
    while i < |ids|
      invariant 0 <= i <= |ids|
      invariant shares == AddEach(start, part, ids[..i])
      invariant distributed == PartSum(part, ids[..i])
    {
      assert ids[..i + 1][..i] == ids[..i];
      var s := part(ids[i]);
      shares := shares[ids[i] := Held(shares, ids[i]) + s];
      distributed := distributed + s;
      i := i + 1;
    }
    assert ids[..|ids|] == ids;
  }

  /** The proportional part of the payment, on top of the guaranteed units. */
  method PayRest(start: map<string, int>, base: int, part: string -> int, rest: int, ids: seq<string>)
    returns (shares: map<string, int>)
    requires ids != [] && Distinct(ids) && PartSum(part, ids) <= rest
    requires forall id :: id in start ==> id in ids
    requires forall i :: 0 <= i < |ids| ==> Held(start, ids[i]) == base
    ensures PaidParts(base, part, rest, ids, shares)
  {
    var distributed: int;
    shares, distributed := AddParts(start, part, ids);
    AddedEach(start, part, ids, |ids|);
    assert ids[..|ids|] == ids;
    if distributed < rest {
      shares := shares[ids[0] := shares[ids[0]] + (rest - distributed)];
    }
  }

  lemma PaidWithNothingLeft(pool: int, raw: string -> int, ids: seq<string>, shares: map<string, int>)
    requires pool == |ids| > 0 && forall id :: id in shares <==> id in ids
    requires forall id :: id in shares ==> shares[id] == 1
    ensures Paid(pool, raw, ids, shares)
  {
    WeightSumAtLeast(raw, ids);
    NothingToFloor(raw, ids, WeightSum(raw, ids));
  }

  method PayVoters(pool: int, raw: string -> int, ids: seq<string>) returns (shares: map<string, int>)
    requires pool > 0 && ids != [] && Distinct(ids)
    ensures Paid(pool, raw, ids, shares)
  {
    shares := map[];
    var total := SumWeights(raw, ids);
    WeightSumAtLeast(raw, ids);
    var rest := Rest(pool, |ids|);
    if pool >= |ids| {
      shares := OneEach(ids);
    }
    LeftoverIsSmall(raw, ids, rest);
    if rest <= 0 {
      PaidWithNothingLeft(pool, raw, ids, shares);
      return;
    }
    shares := PayRest(shares, Base(pool, |ids|), Floors(raw, rest, total), rest, ids);
  }

  function ValueSum(m: map<string, int>, ids: seq<string>): int {
    if ids == [] then 0 else ValueSum(m, ids[..|ids| - 1]) + Held(m, ids[|ids| - 1])
  }

  lemma {:induction false} ValueSumFrame(m: map<string, int>, k: string, ids: seq<string>)
    requires k !in ids
    ensures ValueSum(m - {k}, ids) == ValueSum(m, ids)
    decreases |ids|
  {
    if ids != [] {
      ValueSumFrame(m, k, ids[..|ids| - 1]);
    }
  }

  /** The total of a map is the sum along any listing of its keys. */
  lemma {:induction false} TotalAlong(m: map<string, int>, ids: seq<string>)
    requires Distinct(ids) && forall id :: id in m <==> id in ids
    ensures Total(m) == ValueSum(m, ids)
    decreases |ids|
  {
    if ids == [] {
      assert m == map[];
    } else {
      var n := |ids| - 1;
      var k := ids[n];
      TotalTake(m, k);
      TotalAlong(m - {k}, ids[..n]);
      ValueSumFrame(m, k, ids[..n]);
    }
  }

  lemma {:induction false} ValueSumPaid(base: int, part: string -> int, rest: int, ids: seq<string>,
                                        shares: map<string, int>, n: nat)
    requires 0 < n <= |ids| && PaidParts(base, part, rest, ids, shares) && (base == 0 || base == 1)
    ensures ValueSum(shares, ids[..n]) ==
            (if base == 1 then n else 0) + PartSum(part, ids[..n]) + (rest - PartSum(part, ids))
    decreases n
  {
    assert ids[..n][..n - 1] == ids[..n - 1];
    if n > 1 {
      ValueSumPaid(base, part, rest, ids, shares, n - 1);
    } else {
      assert ids[..0] == [];
    }
  }

  /** The shares add up to the pool. */
  lemma PaidInFull(pool: int, raw: string -> int, ids: seq<string>, shares: map<string, int>)
    requires pool > 0 && ids != [] && Distinct(ids) && Paid(pool, raw, ids, shares)
    ensures Total(shares) == pool
  {
    WeightSumAtLeast(raw, ids);
    var rest := Rest(pool, |ids|);
    PartsInFull(Base(pool, |ids|), Floors(raw, rest, WeightSum(raw, ids)), rest, ids, shares);
  }

  lemma PartsInFull(base: int, part: string -> int, rest: int, ids: seq<string>, shares: map<string, int>)
    requires ids != [] && Distinct(ids) && PaidParts(base, part, rest, ids, shares) && (base == 0 || base == 1)
    ensures Total(shares) == (if base == 1 then |ids| else 0) + rest
  {
    TotalAlong(shares, ids);
    ValueSumPaid(base, part, rest, ids, shares, |ids|);
    assert ids[..|ids|] == ids;
  }

  /** What a pool pays out in all: everything, unless nobody voted yes. */
  ghost predicate PaidOut(pool: int, voters: map<string, bool>, shares: map<string, int>) {
    Total(shares) == if pool > 0 && VoteRound.Yes(voters) != {} then pool else 0
  }

  method DistributePool(pool: int, voters: map<string, bool>, raw: string -> int)
    returns (shares: map<string, int>, ghost ids: seq<string>)
    ensures PaidOut(pool, voters, shares)
    ensures Distinct(ids) && Elements(ids) == VoteRound.Yes(voters)
    ensures pool > 0 && ids != [] ==> Paid(pool, raw, ids, shares)
    ensures pool <= 0 || ids == [] ==> shares == map[]
  {
    var yes := YesInSomeOrder(voters);
    ids := yes;
    assert yes == [] <==> Elements(yes) == {} by {
      if yes != [] {
        assert yes[0] in Elements(yes);
      }
    }
    if pool <= 0 || |yes| == 0 {
      return map[], ids;
    }
    shares := PayVoters(pool, raw, yes);
    PaidInFull(pool, raw, yes, shares);
  }

  lemma {:induction false} NothingToFloor(raw: string -> int, ids: seq<string>, total: int)
    requires total > 0
    ensures PartSum(Floors(raw, 0, total), ids) == 0
    decreases |ids|
  {
    if ids != [] {
      NothingToFloor(raw, ids[..|ids| - 1], total);
    }
  }

  /**
   No share is negative; every YES voter has at least one unit when the pool covers the voters;
   a heavier voter has at least what a lighter one has, but for the leftover of fewer than one
   unit per voter.
   */
  lemma FairShares(pool: int, raw: string -> int, ids: seq<string>, shares: map<string, int>, i: nat, j: nat)
    requires pool > 0 && Distinct(ids) && i < |ids| && j < |ids| && Paid(pool, raw, ids, shares)
    ensures shares[ids[i]] >= Base(pool, |ids|)
    ensures Weight(raw, ids[i]) <= Weight(raw, ids[j]) ==> shares[ids[i]] < shares[ids[j]] + |ids|
  {
    var rest := Rest(pool, |ids|);
    LeftoverIsSmall(raw, ids, rest);
    var total := WeightSum(raw, ids);
    Floor(rest, Weight(raw, ids[i]), total);
    if Weight(raw, ids[i]) <= Weight(raw, ids[j]) {
      Times(rest, Weight(raw, ids[i]), Weight(raw, ids[j]));
      FloorMonotone(rest * Weight(raw, ids[i]), rest * Weight(raw, ids[j]), total);
      Floor(rest, Weight(raw, ids[j]), total);
    }
  }

  // ----- 64-bit arithmetic -----

  const MAX64 := 0x7FFF_FFFF_FFFF_FFFF
  const MAX_WEIGHT := 1_000_000

  predicate Int64(x: int) {
    -MAX64 - 1 <= x <= MAX64
  }

  function Wrap(x: int): int {
    (x + MAX64 + 1) % (2 * (MAX64 + 1)) - MAX64 - 1
  }

  /** No product of the rest with a weight overflows exactly up to 9,223,372,036,854. */
  lemma ProductsFit(rest: nat)
    ensures (forall w :: 1 <= w <= MAX_WEIGHT ==> Int64(rest * w)) <==> rest <= 9_223_372_036_854
  {
    if rest <= 9_223_372_036_854 {
      forall w | 1 <= w <= MAX_WEIGHT ensures Int64(rest * w) {
        Times(rest, w, MAX_WEIGHT);
      }
    } else {
      assert !Int64(rest * MAX_WEIGHT);
    }
  }

  /** The first rest above the bound: the product of a full weight comes out negative. */
  lemma FirstOverflow()
    ensures Wrap(9_223_372_036_855 * MAX_WEIGHT) < 0
  {
  }

  lemma {:induction false} WeightSumFits(raw: string -> int, ids: seq<string>)
    requires forall i :: 0 <= i < |ids| ==> raw(ids[i]) <= MAX_WEIGHT
    ensures 0 <= WeightSum(raw, ids) <= MAX_WEIGHT * |ids|
    decreases |ids|
  {
    if ids != [] {
      WeightSumFits(raw, ids[..|ids| - 1]);
    }
  }

  lemma {:induction false} PartSumPrefix(part: string -> int, ids: seq<string>, i: nat)
    requires i <= |ids| && forall k :: 0 <= k < |ids| ==> part(ids[k]) >= 0
    ensures 0 <= PartSum(part, ids[..i]) <= PartSum(part, ids)
    decreases |ids|
  {
    if i == |ids| {
      assert ids[..i] == ids;
      if ids != [] {
        PartSumPrefix(part, ids[..|ids| - 1], |ids| - 1);
        assert ids[..|ids| - 1][..|ids| - 1] == ids[..|ids| - 1];
      }
    } else {
      PartSumPrefix(part, ids[..|ids| - 1], i);
      assert ids[..|ids| - 1][..i] == ids[..i];
    }
  }

  lemma PartsNotNegative(raw: string -> int, ids: seq<string>, rest: nat, total: nat)
    requires total > 0
    ensures forall k :: 0 <= k < |ids| ==> Floors(raw, rest, total)(ids[k]) >= 0
  {
    forall k | 0 <= k < |ids| ensures Floors(raw, rest, total)(ids[k]) >= 0 {
      Floor(rest, Weight(raw, ids[k]), total);
    }
  }

  /** The rest times a weight, for every voter. */
  ghost predicate FittingProducts(rest: int, raw: string -> int, ids: seq<string>) {
    forall i :: 0 <= i < |ids| ==> Int64(rest * Weight(raw, ids[i]))
  }

  lemma PoolProductsFit(rest: nat, raw: string -> int, ids: seq<string>)
    requires rest <= 9_223_372_036_854 && forall i :: 0 <= i < |ids| ==> raw(ids[i]) <= MAX_WEIGHT
    ensures FittingProducts(rest, raw, ids)
  {
    forall i | 0 <= i < |ids| ensures Int64(rest * Weight(raw, ids[i])) {
      Times(rest, Weight(raw, ids[i]), MAX_WEIGHT);
    }
  }

  /**
   Up to the bound neither a product, nor the weights summed so far, nor the shares distributed so far
   leave 64 bits.
   */
  lemma PoolFits(pool: int, raw: string -> int, ids: seq<string>, i: nat)
    requires 0 < pool <= 9_223_372_036_854 && 0 < |ids| <= 9_223_372_036_854 && i <= |ids|
    requires forall k :: 0 <= k < |ids| ==> raw(ids[k]) <= MAX_WEIGHT
    ensures FittingProducts(Rest(pool, |ids|), raw, ids)
    ensures Int64(WeightSum(raw, ids[..i])) && WeightSum(raw, ids) > 0
    ensures 0 <= PartSum(Floors(raw, Rest(pool, |ids|), WeightSum(raw, ids)), ids[..i]) <= pool
  {
    var rest := Rest(pool, |ids|);
    PoolProductsFit(rest, raw, ids);
    WeightSumAtLeast(raw, ids);
    WeightSumFits(raw, ids[..i]);
    LeftoverIsSmall(raw, ids, rest);
    PartsNotNegative(raw, ids, rest, WeightSum(raw, ids));
    PartSumPrefix(Floors(raw, rest, WeightSum(raw, ids)), ids, i);
  }

  function MaxPct(c: Config): nat {
    var a := if c.burn > c.treasury then c.burn else c.treasury;
    var b := if c.l1 > c.l2 then c.l1 else c.l2;
    if a > b then a else b
  }

  /** No product of the split overflows exactly when the fees times the largest percentage do not. */
  lemma SplitFits(c: Config, fees: nat)
    ensures Int64(fees * c.burn) && Int64(fees * c.treasury) && Int64(fees * c.l1) && Int64(fees * c.l2) <==>
            fees * MaxPct(c) <= MAX64
  {
    var m := MaxPct(c);
    ProductUpTo(fees, c.burn, m);
    ProductUpTo(fees, c.treasury, m);
    ProductUpTo(fees, c.l1, m);
    ProductUpTo(fees, c.l2, m);
    assert m == c.burn || m == c.treasury || m == c.l1 || m == c.l2;
  }

  lemma ProductUpTo(fees: nat, p: nat, m: nat)
    requires p <= m
    ensures 0 <= fees * p <= fees * m
  {
    Times(fees, 0, p);
    Times(fees, p, m);
  }

  // ----- the running totals -----

  datatype Sums = Sums(burned: int, treasury: int)

  function AddSplit(t: Sums, s: Split): Sums {
    Sums(t.burned + s.burn, t.treasury + s.treasury)
  }

  /** The totals after the blocks with these fees. */
  function Applied(c: Config, t: Sums, fees: seq<int>): Sums {
    if fees == [] then t
    else AddSplit(Applied(c, t, fees[..|fees| - 1]), SplitBlockFees(c, fees[|fees| - 1]))
  }

  lemma {:induction false} AppliedAdds(c: Config, t: Sums, fees: seq<int>)
    ensures var z := Applied(c, Sums(0, 0), fees);
            Applied(c, t, fees) == Sums(t.burned + z.burned, t.treasury + z.treasury)
            && z.burned >= 0 && z.treasury >= 0
    decreases |fees|
  {
    if fees != [] {
      AppliedAdds(c, t, fees[..|fees| - 1]);
      SplitConserves(c, fees[|fees| - 1]);
    }
  }

  lemma {:induction false} AppliedWithout(c: Config, fees: seq<int>, k: nat)
    requires k < |fees|
    ensures Applied(c, Sums(0, 0), fees) ==
            AddSplit(Applied(c, Sums(0, 0), RemoveAt(fees, k)), SplitBlockFees(c, fees[k]))
    decreases |fees|
  {
    var n := |fees| - 1;
    if k < n {
      AppliedWithout(c, fees[..n], k);
      assert RemoveAt(fees, k)[..n - 1] == RemoveAt(fees[..n], k);
    } else {
      assert RemoveAt(fees, k) == fees[..n];
    }
  }

  /** The totals do not depend on the order of the blocks. */
  lemma {:induction false} AppliedInAnyOrder(c: Config, a: seq<int>, b: seq<int>)
    requires multiset(a) == multiset(b)
    ensures Applied(c, Sums(0, 0), a) == Applied(c, Sums(0, 0), b)
    decreases |a|
  {
    assert |multiset(a)| == |a| && |multiset(b)| == |b|;
    if a != [] {
      var n := |a| - 1;
      assert a[n] in multiset(b);
      var k :| 0 <= k < |b| && b[k] == a[n];
      CancelOne(a, n, b, k);
      AppliedInAnyOrder(c, RemoveAt(a, n), RemoveAt(b, k));
      AppliedWithout(c, a, n);
      AppliedWithout(c, b, k);
    }
  }

  /** rebuildDistributorTotalsFromChain: the sums of the history, unless both are zero. */
  function Rebuilt(c: Config, t: Sums, history: seq<int>): Sums {
    var z := Applied(c, Sums(0, 0), history);
    if z.burned > 0 || z.treasury > 0 then z else t
  }

  /** A distributor that has applied exactly the blocks of the history is rebuilt to the same totals. */
  lemma RebuildKeepsTotals(c: Config, blocks: seq<int>, history: seq<int>)
    requires multiset(blocks) == multiset(history)
    ensures var live := Applied(c, Sums(0, 0), blocks); Rebuilt(c, live, history) == live
  {
    AppliedInAnyOrder(c, blocks, history);
    AppliedAdds(c, Sums(0, 0), blocks);
  }

  /**
   From any earlier totals, the rebuild gives the history's exactly when those are not all zero, or
   were held already.
   */
  lemma RebuildIsExact(c: Config, t: Sums, history: seq<int>)
    ensures var z := Applied(c, Sums(0, 0), history);
            Rebuilt(c, t, history) == z <==> z != Sums(0, 0) || t == Sums(0, 0)
  {
    AppliedAdds(c, Sums(0, 0), history);
  }

  class Distributor {
    var config: Config
    var totalBurned: int
    var totalTreasury: int

    ghost function Now(): Sums
      reads this
    {
      Sums(totalBurned, totalTreasury)
    }

    constructor (c: Config)
      ensures config == c && Now() == Sums(0, 0)
    {
      config, totalBurned, totalTreasury := c, 0, 0;
    }

    method ApplyBlock(fees: int) returns (l1Pool: int, l2Pool: int)
      modifies this
      ensures config == old(config) && Now() == Applied(config, old(Now()), [fees])
      ensures l1Pool == SplitBlockFees(config, fees).l1 && l2Pool == SplitBlockFees(config, fees).l2
    {
      var s := SplitBlockFees(config, fees);
      totalBurned := totalBurned + s.burn;
      totalTreasury := totalTreasury + s.treasury;
      l1Pool, l2Pool := s.l1, s.l2;
    }

    method SetTotals(burned: int, treasury: int)
      modifies this
      ensures config == old(config)
      ensures Now() == Sums(if burned < 0 then 0 else burned, if treasury < 0 then 0 else treasury)
    {
      totalBurned := if burned < 0 then 0 else burned;
      totalTreasury := if treasury < 0 then 0 else treasury;
    }

    method RebuildFromChain(history: seq<int>)
      modifies this
      ensures config == old(config) && Now() == Rebuilt(config, old(Now()), history)
    {
      var z := SumHistory(config, history);
      AppliedAdds(config, Sums(0, 0), history);
      if z.burned > 0 || z.treasury > 0 {
        SetTotals(z.burned, z.treasury);
      }
    }

    /** One confirmed block: the totals move and both voter pools are paid. */
    method PayBlock(fees: int, l1Voters: map<string, bool>, l2Voters: map<string, bool>, raw: string -> int)
      returns (l1: map<string, int>, l2: map<string, int>)
      requires fees > 0
      modifies this
      ensures Now() == Applied(config, old(Now()), [fees]) && config == old(config)
      ensures var s := SplitBlockFees(config, fees);
              (s.burn + s.treasury + Total(l1) + Total(l2) == fees <==>
               (s.l1 == 0 || VoteRound.Yes(l1Voters) != {}) && (s.l2 == 0 || VoteRound.Yes(l2Voters) != {}))
    {
      var l1Pool, l2Pool := ApplyBlock(fees);
      SplitConserves(config, fees);
      ghost var ids: seq<string>;
      l1, ids := DistributePool(l1Pool, l1Voters, raw);
      l2, ids := DistributePool(l2Pool, l2Voters, raw);
    }
  }

  lemma AppliedNext(c: Config, t: Sums, fees: seq<int>, i: nat)
    requires i < |fees|
    ensures Applied(c, t, fees[..i + 1]) == AddSplit(Applied(c, t, fees[..i]), SplitBlockFees(c, fees[i]))
  {
    assert fees[..i + 1][..i] == fees[..i];
  }

  /** The loop over the history, which skips blocks without fees. */
  method SumHistory(c: Config, history: seq<int>) returns (z: Sums)
    ensures z == Applied(c, Sums(0, 0), history)
  {
    z := Sums(0, 0);
    var i := 0;
    while i < |history|
      invariant 0 <= i <= |history|
      invariant z == Applied(c, Sums(0, 0), history[..i])
    {
      AppliedNext(c, Sums(0, 0), history, i);
      z := SumBlock(c, z, history[i]);
      i := i + 1;
    }
    assert history[..|history|] == history;
  }

  /** One block of the replay; without fees it is skipped, which its split would not change either. */
  method SumBlock(c: Config, z: Sums, fees: int) returns (r: Sums)
    ensures r == AddSplit(z, SplitBlockFees(c, fees))
  {
    r := z;
    if fees > 0 {
      r := AddSplit(z, SplitBlockFees(c, fees));
    }
  }
}
