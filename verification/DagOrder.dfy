/**
 Digest-driven ordering of a block's transactions before Core applies them
 (internal/core/dag.go, internal/blockchain/blockchain.go).
 */
module DagOrder {
  import opened Sequences

  function HashesOf<T>(items: seq<T>, hashOf: T -> string): (hs: seq<string>)
    ensures |hs| == |items|
  {
    seq(|items|, i requires 0 <= i < |items| => hashOf(items[i]))
  }

  /** Least position of h, or -1. */
  function Position(hs: seq<string>, h: string): (i: int)
    ensures i == -1 ==> h !in hs
    ensures i != -1 ==> 0 <= i < |hs| && hs[i] == h
    ensures forall k :: 0 <= k < i ==> hs[k] != h
  {
    if hs == [] then -1
    else
      var before := Position(hs[..|hs| - 1], h);
      if before != -1 then before
      else if hs[|hs| - 1] == h then |hs| - 1
      else -1
  }

  /** Positions taken by the digest list, in the order it names them. */
  function Picks(digests: seq<string>, hs: seq<string>): (p: seq<nat>)
    ensures Below(p, |hs|)
    decreases |digests|
  {
    if digests == [] then []
    else
      var before := Picks(digests[..|digests| - 1], hs);
      var d := digests[|digests| - 1];
      var i := Position(hs, d);
      if d != "" && i != -1 && i !in before then before + [i] else before
  }

  /** Positions below n that were not taken, ascending. */
  function Leftover(n: nat, taken: seq<nat>): (r: seq<nat>)
    ensures forall i :: i in r <==> 0 <= i < n && i !in taken
    ensures Below(r, n)
    ensures forall a, b :: 0 <= a < b < |r| ==> r[a] < r[b]
  {
    if n == 0 then []
    else Leftover(n - 1, taken) + (if n - 1 in taken then [] else [n - 1])
  }

  function Order(digests: seq<string>, hs: seq<string>): (r: seq<nat>)
    ensures Below(r, |hs|)
  {
    Picks(digests, hs) + Leftover(|hs|, Picks(digests, hs))
  }

  function Permuted<T>(digests: seq<string>, items: seq<T>, hashOf: T -> string): seq<T> {
    Gather(items, Order(digests, HashesOf(items, hashOf)))
  }

  /**
   Where an item belongs: an item whose non-empty hash is named by the digests,
   and which is the first to carry it, sits at the digest's place; every other
   item comes after all of those, at its own place.
   */
  function Rank(digests: seq<string>, hs: seq<string>, i: nat): nat
    requires i < |hs|
  {
    if hs[i] != "" && hs[i] in digests && Position(hs, hs[i]) == i
    then Position(digests, hs[i])
    else |digests| + i
  }

  /** Picks names exactly the listed first carriers, in increasing digest place. */
  lemma {:induction false} PicksSorted(digests: seq<string>, hs: seq<string>)
    ensures forall a, b :: 0 <= a < b < |Picks(digests, hs)| ==>
              Position(digests, hs[Picks(digests, hs)[a]]) < Position(digests, hs[Picks(digests, hs)[b]])
    ensures forall i :: i in Picks(digests, hs) <==>
              0 <= i < |hs| && hs[i] != "" && hs[i] in digests && Position(hs, hs[i]) == i
    decreases |digests|
  {
    if digests != [] {
      var n := |digests| - 1;
      var front, d := digests[..n], digests[n];
      PicksSorted(front, hs);
      assert digests == front + [d];
      forall h | h in front
        ensures Position(digests, h) == Position(front, h) < n
      {
      }
      var before, all := Picks(front, hs), Picks(digests, hs);
      var i := Position(hs, d);
      if d != "" && i != -1 && i !in before {
        assert all == before + [i];
        assert d !in front;
        assert Position(digests, d) == n;
      }
    }
  }

  function Ranks(digests: seq<string>, hs: seq<string>): (r: seq<nat>)
    ensures |r| == |hs|
  {
    seq(|hs|, i requires 0 <= i < |hs| => Rank(digests, hs, i))
  }

  /** The positions come by strictly increasing rank. */
  ghost predicate SortedBy(ranks: seq<nat>, positions: seq<nat>) {
    && Below(positions, |ranks|)
    && forall a, b :: 0 <= a < b < |positions| ==> ranks[positions[a]] < ranks[positions[b]]
  }

  ghost predicate Enumerates(positions: seq<nat>, n: nat) {
    && |positions| == n
    && forall i :: i in positions <==> 0 <= i < n
  }

  /** The chosen order visits every position once, by strictly increasing rank. */
  lemma OrderIsRankSort(digests: seq<string>, hs: seq<string>)
    ensures SortedBy(Ranks(digests, hs), Order(digests, hs))
    ensures Enumerates(Order(digests, hs), |hs|)
    ensures Distinct(Order(digests, hs))
  {
    PicksSorted(digests, hs);
    var p, o := Picks(digests, hs), Order(digests, hs);
    var ranks := Ranks(digests, hs);
    forall a, b | 0 <= a < b < |o|
      ensures ranks[o[a]] < ranks[o[b]]
    {
      assert a < |p| ==> o[a] in p;
      assert b < |p| ==> o[b] in p;
      assert a >= |p| ==> o[a] in Leftover(|hs|, p);
      assert b >= |p| ==> o[b] in Leftover(|hs|, p);
    }
    Covers(o, |hs|);
  }

  /** A distinct sequence holding every position below n has n of them. */
  lemma Covers(positions: seq<nat>, n: nat)
    requires Distinct(positions)
    requires forall i :: i in positions <==> 0 <= i < n
    ensures |positions| == n
  {
    DistinctSize(positions);
    var ascending := Identity(n);
    DistinctSize(ascending);
    assert Elements(positions) == Elements(ascending);
  }

  /** Enumerations sorted by the same ranks are the same enumeration. */
  lemma {:induction false} RankSortUnique(ranks: seq<nat>, a: seq<nat>, b: seq<nat>)
    requires |a| == |b|
    requires forall i :: i in a <==> i in b
    requires SortedBy(ranks, a) && SortedBy(ranks, b)
    ensures a == b
    decreases |a|
  {
    if a != [] {
      var n := |a| - 1;
      assert a[n] in b;
      assert b[n] in a;
      assert a[n] == b[n];
      var a', b' := a[..n], b[..n];
      forall i | i in a' ensures i in b' { assert i in b; }
      forall i | i in b' ensures i in a' { assert i in a; }
      RankSortUnique(ranks, a', b');
      assert a == a' + [a[n]];
      assert b == b' + [b[n]];
    }
  }

  /** Reordering never loses, invents or repeats an item. */
  lemma PermutedIsPermutation<T>(digests: seq<string>, items: seq<T>, hashOf: T -> string)
    ensures multiset(Permuted(digests, items, hashOf)) == multiset(items)
  {
    var hs := HashesOf(items, hashOf);
    OrderIsRankSort(digests, hs);
    GatherIsPermutation(items, Order(digests, hs));
  }

  /** Once reordered, an item's rank is its own place among the listed, or after them. */
  lemma RankAfterOrder(digests: seq<string>, hs: seq<string>, hs': seq<string>, a: nat)
    requires |hs'| == |hs| == |Order(digests, hs)|
    requires forall i :: 0 <= i < |hs| ==> hs'[i] == hs[Order(digests, hs)[i]]
    requires a < |hs|
    ensures Rank(digests, hs', a) ==
            if a < |Picks(digests, hs)| then Position(digests, hs[Picks(digests, hs)[a]]) else |digests| + a
  {
    PicksSorted(digests, hs);
    var o, p := Order(digests, hs), Picks(digests, hs);
    var first := Position(hs', hs'[a]);
    assert first <= a;
    if a < |p| {
      assert o[first] == p[first] && o[a] == p[a];
      assert p[a] in p;
    } else if hs'[a] != "" && hs'[a] in digests {
      assert o[a] in Leftover(|hs|, p);
      var i := Position(hs, hs[o[a]]);
      assert i in p;
      var k :| 0 <= k < |p| && p[k] == i;
      assert hs'[k] == hs'[a];
    }
  }

  /** What has been ordered once already stands by increasing rank. */
  lemma RanksAfterOrder(digests: seq<string>, hs: seq<string>, hs': seq<string>)
    requires |hs'| == |hs| == |Order(digests, hs)|
    requires forall i :: 0 <= i < |hs| ==> hs'[i] == hs[Order(digests, hs)[i]]
    ensures forall i, j :: 0 <= i < j < |hs| ==> Ranks(digests, hs')[i] < Ranks(digests, hs')[j]
  {
    PicksSorted(digests, hs);
    var p := Picks(digests, hs);
    forall i, j | 0 <= i < j < |hs|
      ensures Ranks(digests, hs')[i] < Ranks(digests, hs')[j]
    {
      RankAfterOrder(digests, hs, hs', i);
      RankAfterOrder(digests, hs, hs', j);
      if i < |p| {
        assert p[i] in p;
      }
    }
  }

  /** A second reordering by the same digests changes nothing. */
  lemma PermutedTwice<T>(digests: seq<string>, items: seq<T>, hashOf: T -> string)
    ensures Permuted(digests, Permuted(digests, items, hashOf), hashOf) == Permuted(digests, items, hashOf)
  {
    var hs := HashesOf(items, hashOf);
    OrderIsRankSort(digests, hs);
    var out := Permuted(digests, items, hashOf);
    var hs' := HashesOf(out, hashOf);
    RanksAfterOrder(digests, hs, hs');
    OrderIsRankSort(digests, hs');
    IdentityOrder(Ranks(digests, hs'), Order(digests, hs'));
    assert Gather(out, Order(digests, hs')) == out;
  }

  lemma IdentityOrder(ranks: seq<nat>, o: seq<nat>)
    requires SortedBy(ranks, o) && Enumerates(o, |ranks|)
    requires forall i, j :: 0 <= i < j < |ranks| ==> ranks[i] < ranks[j]
    ensures forall i :: 0 <= i < |o| ==> o[i] == i
  {
    var same := Identity(|ranks|);
    RankSortUnique(ranks, o, same);
  }

  /**
   Two arrangements of the same transactions, with distinct non-empty hashes
   that the digests all name, come out in one and the same order.
   */
  lemma PermutedIsCanonical<T>(digests: seq<string>, a: seq<T>, b: seq<T>, hashOf: T -> string)
    requires multiset(a) == multiset(b)
    requires Distinct(HashesOf(a, hashOf))
    requires Named(digests, HashesOf(a, hashOf))
    ensures Permuted(digests, a, hashOf) == Permuted(digests, b, hashOf)
  {
    SameHashes(a, b, hashOf);
    SubDistinct(HashesOf(a, hashOf), HashesOf(b, hashOf));
    RearrangedNamed(digests, HashesOf(a, hashOf), HashesOf(b, hashOf));
    PermutedIsPermutation(digests, a, hashOf);
    PermutedIsPermutation(digests, b, hashOf);
    var place := (t: T) => Position(digests, hashOf(t));
    ListedSort(digests, a, hashOf, place);
    ListedSort(digests, b, hashOf, place);
    PlaceSortUnique(Permuted(digests, a, hashOf), Permuted(digests, b, hashOf), place);
  }

  /** Every hash is non-empty and named by the digests. */
  ghost predicate Named(digests: seq<string>, hs: seq<string>) {
    forall i :: 0 <= i < |hs| ==> hs[i] != "" && hs[i] in digests
  }

  lemma RearrangedNamed(digests: seq<string>, hs: seq<string>, hs': seq<string>)
    requires multiset(hs) == multiset(hs')
    requires Named(digests, hs)
    ensures Named(digests, hs')
  {
    forall i | 0 <= i < |hs'|
      ensures hs'[i] != "" && hs'[i] in digests
    {
      assert hs'[i] in multiset(hs);
    }
  }

  ghost predicate InPlace<T>(items: seq<T>, place: T -> int) {
    forall i, j :: 0 <= i < j < |items| ==> place(items[i]) < place(items[j])
  }

  /** Fully named items stand by strictly increasing place of their hash in the digests. */
  lemma ListedSort<T>(digests: seq<string>, items: seq<T>, hashOf: T -> string, place: T -> int)
    requires forall t :: t in items ==> place(t) == Position(digests, hashOf(t))
    requires Distinct(HashesOf(items, hashOf))
    requires Named(digests, HashesOf(items, hashOf))
    ensures InPlace(Permuted(digests, items, hashOf), place)
  {
    var hs := HashesOf(items, hashOf);
    OrderIsRankSort(digests, hs);
    var o, x := Order(digests, hs), Permuted(digests, items, hashOf);
    forall i | 0 <= i < |hs|
      ensures Ranks(digests, hs)[i] == Position(digests, hs[i])
    {
    }
    forall i, j | 0 <= i < j < |x|
      ensures place(x[i]) < place(x[j])
    {
      assert Ranks(digests, hs)[o[i]] < Ranks(digests, hs)[o[j]];
      assert hashOf(x[i]) == hs[o[i]] && hashOf(x[j]) == hs[o[j]];
    }
  }

  /** The same items carry the same hashes, however arranged. */
  lemma {:induction false} SameHashes<T>(a: seq<T>, b: seq<T>, hashOf: T -> string)
    requires multiset(a) == multiset(b)
    ensures multiset(HashesOf(a, hashOf)) == multiset(HashesOf(b, hashOf))
    decreases |a|
  {
    assert |a| == |multiset(a)| == |multiset(b)| == |b|;
    var ha, hb := HashesOf(a, hashOf), HashesOf(b, hashOf);
    if a != [] {
      assert a[0] in multiset(b);
      var k :| 0 <= k < |b| && b[k] == a[0];
      var a', b' := RemoveAt(a, 0), RemoveAt(b, k);
      CancelOne(a, 0, b, k);
      SameHashes(a', b', hashOf);
      assert HashesOf(a', hashOf) == RemoveAt(ha, 0);
      assert HashesOf(b', hashOf) == RemoveAt(hb, k);
      CancelOne(ha, 0, hb, k);
    }
  }

  lemma {:induction false} PlaceSortUnique<T>(x: seq<T>, y: seq<T>, place: T -> int)
    requires multiset(x) == multiset(y)
    requires InPlace(x, place) && InPlace(y, place)
    ensures x == y
    decreases |x|
  {
    assert |x| == |multiset(x)| == |multiset(y)| == |y|;
    if x != [] {
      var n := |x| - 1;
      assert x[n] in multiset(y) && y[n] in multiset(x);
      assert x[n] == y[n];
      CancelOne(x, n, y, n);
      assert RemoveAt(x, n) == x[..n] && RemoveAt(y, n) == y[..n];
      PlaceSortUnique(x[..n], y[..n], place);
      assert x == x[..n] + [x[n]] && y == y[..n] + [y[n]];
    }
  }

  /** The first position of every non-empty hash. */
  method FirstPositions<T>(items: seq<T>, hashOf: T -> string) returns (index: map<string, nat>)
    ensures forall h :: h in index <==> h != "" && h in HashesOf(items, hashOf)
    ensures forall h :: h in index ==> index[h] == Position(HashesOf(items, hashOf), h)
  {
    ghost var hs := HashesOf(items, hashOf);
    index := map[];
    for i := 0 to |items|
      invariant forall h :: h in index ==> h != "" && index[h] == Position(hs, h)
      invariant forall k :: 0 <= k < i && hs[k] != "" ==> hs[k] in index
      invariant forall h :: h in index ==> h in hs
    {
      var h := hashOf(items[i]);
      assert hs[i] == h;
      if h != "" && h !in index {
        index := index[h := i];
      }
    }
  }

  /** The fast form: one pass to index the hashes, one over the digests, one over the rest. */
  method PermuteByDigests<T>(digests: seq<string>, items: seq<T>, hashOf: T -> string) returns (out: seq<T>)
    ensures out == Permuted(digests, items, hashOf)
    ensures multiset(out) == multiset(items)
  {
    ghost var hs := HashesOf(items, hashOf);
    if |items| <= 1 || |digests| == 0 {
      OrderIsRankSort(digests, hs);
      IdentityOrder(Ranks(digests, hs), Order(digests, hs));
      return items;
    }
    var index := FirstPositions(items, hashOf);
    var used := new bool[|items|](_ => false);
    out := [];
    ghost var taken: seq<nat> := [];
    for k := 0 to |digests|
      invariant taken == Picks(digests[..k], hs)
      invariant forall i :: 0 <= i < |items| ==> (used[i] <==> i in taken)
      invariant out == Gather(items, taken)
    {
      PickStep(digests, k, hs);
      var d := digests[k];
      if d in index && !used[index[d]] {
        GatherAppend(items, taken, index[d]);
        out := out + [items[index[d]]];
        used[index[d]] := true;
        taken := taken + [index[d]];
      }
    }
    assert digests[..|digests|] == digests;
    out := AppendUnused(items, used, taken, out);
    PermutedIsPermutation(digests, items, hashOf);
  }

  method AppendUnused<T>(items: seq<T>, used: array<bool>, ghost taken: seq<nat>, listed: seq<T>) returns (out: seq<T>)
    requires used.Length == |items| && Below(taken, |items|)
    requires forall i :: 0 <= i < |items| ==> (used[i] <==> i in taken)
    requires listed == Gather(items, taken)
    ensures out == Gather(items, taken + Leftover(|items|, taken))
  {
    out := listed;
    ghost var rest: seq<nat> := [];
    assert taken + rest == taken;
    for i := 0 to |items|
      invariant rest == Leftover(i, taken)
      invariant out == Gather(items, taken + rest)
    {
      if !used[i] {
        GatherAppend(items, taken + rest, i);
        assert taken + (rest + [i]) == taken + rest + [i];
        rest := rest + [i];
        out := out + [items[i]];
      }
    }
  }

  lemma PickStep(digests: seq<string>, k: nat, hs: seq<string>)
    requires k < |digests|
    ensures var before, i := Picks(digests[..k], hs), Position(hs, digests[k]);
            Picks(digests[..k + 1], hs) ==
            if digests[k] != "" && i != -1 && i !in before then before + [i] else before
  {
    assert digests[..k + 1][..k] == digests[..k];
  }

  lemma GatherAppend<T>(items: seq<T>, positions: seq<nat>, i: nat)
    requires Below(positions, |items|) && i < |items|
    ensures Gather(items, positions + [i]) == Gather(items, positions) + [items[i]]
  {
  }
}
