/** Small facts about sequences that several components share. */
module Sequences {

  datatype Option<+T> = None | Some(value: T)

  ghost predicate Distinct<T>(s: seq<T>) {
    forall i, j :: 0 <= i < j < |s| ==> s[i] != s[j]
  }

  /** Every position is below n. */
  predicate Below(positions: seq<nat>, n: nat) {
    forall k :: 0 <= k < |positions| ==> positions[k] < n
  }

  /** 0, 1, ..., n - 1. */
  function Identity(n: nat): (r: seq<nat>)
    ensures |r| == n
    ensures forall i :: 0 <= i < n ==> r[i] == i
    ensures forall i :: i in r <==> 0 <= i < n
  {
    if n == 0 then [] else Identity(n - 1) + [n - 1]
  }

  function Elements<T>(s: seq<T>): set<T> {
    set x | x in s
  }

  /** The items found at the given positions, in that order. */
  function Gather<T>(items: seq<T>, positions: seq<nat>): (r: seq<T>)
    requires Below(positions, |items|)
    ensures |r| == |positions|
  {
    seq(|positions|, i requires 0 <= i < |positions| => items[positions[i]])
  }

  function RemoveAt<T>(s: seq<T>, k: nat): (r: seq<T>)
    requires k < |s|
    ensures |r| == |s| - 1
  {
    s[..k] + s[k + 1..]
  }

  /** Taking one item out of a sequence takes one copy of it out of its multiset. */
  lemma WithoutOne<T>(s: seq<T>, k: nat)
    requires k < |s|
    ensures multiset(RemoveAt(s, k)) == multiset(s) - multiset{s[k]}
    ensures multiset(s) == multiset(RemoveAt(s, k)) + multiset{s[k]}
  {
    assert s == s[..k] + [s[k]] + s[k + 1..];
  }

  /** Equal multisets stay equal when one equal item is taken out of, or put back into, both. */
  lemma CancelOne<T>(a: seq<T>, i: nat, b: seq<T>, j: nat)
    requires i < |a| && j < |b| && a[i] == b[j]
    ensures multiset(a) == multiset(b) <==> multiset(RemoveAt(a, i)) == multiset(RemoveAt(b, j))
  {
    WithoutOne(a, i);
    WithoutOne(b, j);
  }

  /** Positions that hit every index exactly once only rearrange the items. */
  lemma {:induction false} GatherIsPermutation<T>(items: seq<T>, positions: seq<nat>)
    requires |positions| == |items|
    requires Distinct(positions)
    requires Below(positions, |items|)
    ensures multiset(Gather(items, positions)) == multiset(items)
    decreases |items|
  {
    var all := Gather(items, positions);
    if items == [] {
      assert all == [];
    } else {
      var n := |items| - 1;
      PigeonholeHit(positions, n);
      var k :| 0 <= k < |positions| && positions[k] == n;
      var rest := RemoveAt(positions, k);
      GatherIsPermutation(items[..n], rest);
      assert Gather(items[..n], rest) == RemoveAt(all, k);
      assert RemoveAt(items, n) == items[..n];
      CancelOne(all, k, items, n);
    }
  }

  /** n + 1 distinct positions below n + 1 include n. */
  lemma PigeonholeHit(positions: seq<nat>, n: nat)
    requires |positions| == n + 1
    requires Distinct(positions)
    requires Below(positions, n + 1)
    ensures exists k :: 0 <= k < |positions| && positions[k] == n
  {
    if n !in positions {
      DistinctBelow(positions, n);
    }
  }

  /** Distinct naturals below a bound are at most that many. */
  lemma {:induction false} DistinctBelow(positions: seq<nat>, bound: nat)
    requires Distinct(positions)
    requires Below(positions, bound)
    ensures |positions| <= bound
    decreases bound
  {
    if positions != [] {
      assert positions[0] < bound;
      var top := bound - 1;
      if top in positions {
        var k :| 0 <= k < |positions| && positions[k] == top;
        var rest := positions[..k] + positions[k + 1..];
        DistinctBelow(rest, top);
      } else {
        DistinctBelow(positions, top);
      }
    }
  }

  /** A distinct sequence has as many items as its set of elements. */
  lemma {:induction false} DistinctSize<T>(s: seq<T>)
    requires Distinct(s)
    ensures |Elements(s)| == |s|
    decreases |s|
  {
    if s == [] {
      assert Elements(s) == {};
    } else {
      var n := |s| - 1;
      DistinctSize(s[..n]);
      assert Elements(s) == Elements(s[..n]) + {s[n]};
      assert s[n] !in s[..n];
    }
  }

  /** A sequence is distinct exactly when its multiset holds nothing twice. */
  lemma {:induction false} DistinctCounts<T>(s: seq<T>)
    ensures Distinct(s) <==> forall x :: multiset(s)[x] <= 1
    decreases |s|
  {
    if s != [] {
      var n := |s| - 1;
      DistinctCounts(s[..n]);
      assert s == s[..n] + [s[n]];
      assert multiset(s) == multiset(s[..n]) + multiset{s[n]};
      assert Distinct(s) <==> Distinct(s[..n]) && s[n] !in s[..n] by {
        if Distinct(s[..n]) && s[n] !in s[..n] {
          assert forall i :: 0 <= i < n ==> s[i] in s[..n];
        }
        if Distinct(s) {
          assert forall i, j :: 0 <= i < j < n ==> s[..n][i] != s[..n][j];
        }
      }
      assert forall x :: multiset(s[..n])[x] <= multiset(s)[x];
      assert s[n] in s[..n] <==> multiset(s)[s[n]] > 1;
    }
  }

  /** Rearranging or picking some of the items of a distinct sequence gives a distinct sequence. */
  lemma SubDistinct<T>(s: seq<T>, t: seq<T>)
    requires Distinct(s) && multiset(t) <= multiset(s)
    ensures Distinct(t)
  {
    DistinctCounts(s);
    DistinctCounts(t);
  }

  lemma {:induction false} SubsetSize<T>(a: set<T>, b: set<T>)
    requires a <= b
    ensures |a| <= |b|
    ensures |a| == |b| ==> a == b
    decreases a
  {
    if a != {} {
      var x :| x in a;
      SubsetSize(a - {x}, b - {x});
    }
  }

  /** One more member looked at counts when it is in the set. */
  lemma MeetOne<T>(p: set<T>, seen: set<T>, x: T)
    requires x !in seen
    ensures |p * (seen + {x})| == |p * seen| + if x in p then 1 else 0
  {
    if x in p {
      assert p * (seen + {x}) == p * seen + {x};
    } else {
      assert p * (seen + {x}) == p * seen;
    }
  }
}
