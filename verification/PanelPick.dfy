/** Seating the five volunteers of a dispute panel (internal/deals/book.go, PickFive). */
module PanelPick {
  import opened Sequences
  import opened Text

  /** Who may be seated: the bonded addresses that are neither empty nor excluded. */
  function Allowed(bonded: seq<string>, exclude: seq<string>): set<string> {
    set a | a in bonded && a != "" && a !in exclude
  }

  ghost predicate Ascending(s: seq<string>) {
    forall i, j :: 0 <= i < j < |s| ==> Less(s[i], s[j])
  }

  /** `s` lists exactly the members of `who`, smallest first. */
  ghost predicate Lists(s: seq<string>, who: set<string>) {
    Ascending(s) && forall a :: a in s <==> a in who
  }

  /** The seats drawn from those remaining: each seat takes a digest's remainder out of the list. */
  function Drawn(remaining: seq<string>, digest: nat -> nat, seat: nat, seats: nat): (r: seq<string>)
    requires seats <= |remaining|
    ensures |r| == seats
    decreases seats
  {
    if seats == 0 then []
    else
      var k := digest(seat) % |remaining|;
      [remaining[k]] + Drawn(RemoveAt(remaining, k), digest, seat + 1, seats - 1)
  }

  /** `panel` is what the digests draw from the ascending list of `who`. */
  ghost predicate IsPanel(panel: seq<string>, who: set<string>, digest: nat -> nat) {
    exists s :: Lists(s, who) && |s| >= 5 && panel == Drawn(s, digest, 0, 5)
  }

  /** The panel of a set, when it has one. */
  ghost function Seated(who: set<string>, digest: nat -> nat): Option<seq<string>> {
    if exists p :: IsPanel(p, who, digest) then
      var p :| IsPanel(p, who, digest);
      Some(p)
    else None
  }

  // ----- the ascending list of a set is unique -----

  lemma AscendingIsDistinct(s: seq<string>)
    requires Ascending(s)
    ensures Distinct(s)
  {
    forall i, j | 0 <= i < j < |s| ensures s[i] != s[j] {
      LessIrreflexive(s[i]);
    }
  }

  lemma {:induction false} AscendingUnique(s: seq<string>, t: seq<string>, who: set<string>)
    requires Lists(s, who) && Lists(t, who)
    ensures s == t
    decreases |s|
  {
    AscendingIsDistinct(s);
    AscendingIsDistinct(t);
    ListSize(s, who);
    ListSize(t, who);
    if s != [] {
      SameFirst(s, t, who);
      LaterElements(s, who);
      LaterElements(t, who);
      AscendingUnique(s[1..], t[1..], who - {s[0]});
      assert s == [s[0]] + s[1..] && t == [t[0]] + t[1..];
    }
  }

  lemma SameFirst(s: seq<string>, t: seq<string>, who: set<string>)
    requires s != [] && t != [] && Lists(s, who) && Lists(t, who)
    ensures s[0] == t[0]
  {
    assert s[0] in t && t[0] in s;
    var i :| 0 <= i < |t| && t[i] == s[0];
    var j :| 0 <= j < |s| && s[j] == t[0];
    if i > 0 && j > 0 {
      LessTransitive(s[0], t[0], s[0]);
      LessIrreflexive(s[0]);
    }
  }

  lemma LaterElements(s: seq<string>, who: set<string>)
    requires s != [] && Lists(s, who) && Distinct(s)
    ensures Lists(s[1..], who - {s[0]})
  {
    forall a ensures a in s[1..] <==> a in who - {s[0]} {
      if a in s[1..] {
        var i :| 0 <= i < |s[1..]| && s[1..][i] == a;
        assert s[i + 1] == a;
      }
      if a in who && a != s[0] {
        assert a in s;
        var i :| 0 <= i < |s| && s[i] == a;
        assert s[1..][i - 1] == a;
      }
    }
  }

  lemma ListSize(s: seq<string>, who: set<string>)
    requires Lists(s, who)
    ensures |s| == |who|
  {
    AscendingIsDistinct(s);
    DistinctSize(s);
    assert Elements(s) == who;
  }

  // ----- the draw -----

  lemma {:induction false} DrawnAreDistinct(remaining: seq<string>, digest: nat -> nat, seat: nat, seats: nat)
    requires Distinct(remaining) && seats <= |remaining|
    ensures Distinct(Drawn(remaining, digest, seat, seats))
    ensures forall a :: a in Drawn(remaining, digest, seat, seats) ==> a in remaining
    decreases seats
  {
    if seats > 0 {
      var k := digest(seat) % |remaining|;
      var rest := RemoveAt(remaining, k);
      assert remaining[k] !in rest;
      assert forall a :: a in rest ==> a in remaining;
      DrawnAreDistinct(rest, digest, seat + 1, seats - 1);
    }
  }

  /** A draw that has begun continues from the list that is left. */
  lemma {:induction false} DrawnStep(remaining: seq<string>, digest: nat -> nat, seat: nat, seats: nat,
                                     picked: seq<string>)
    requires 0 < seats <= |remaining|
    ensures var k := digest(seat) % |remaining|;
            picked + Drawn(remaining, digest, seat, seats) ==
            (picked + [remaining[k]]) + Drawn(RemoveAt(remaining, k), digest, seat + 1, seats - 1)
  {
    var k := digest(seat) % |remaining|;
    assert picked + ([remaining[k]] + Drawn(RemoveAt(remaining, k), digest, seat + 1, seats - 1)) ==
           (picked + [remaining[k]]) + Drawn(RemoveAt(remaining, k), digest, seat + 1, seats - 1);
  }

  /** A set of five or more has exactly one panel: five distinct members of it. */
  lemma PanelOfASet(who: set<string>, digest: nat -> nat, p: seq<string>, q: seq<string>)
    requires IsPanel(p, who, digest) && IsPanel(q, who, digest)
    ensures p == q
    ensures |p| == 5 && Distinct(p) && forall a :: a in p ==> a in who
  {
    var s :| Lists(s, who) && |s| >= 5 && p == Drawn(s, digest, 0, 5);
    var t :| Lists(t, who) && |t| >= 5 && q == Drawn(t, digest, 0, 5);
    AscendingUnique(s, t, who);
    AscendingIsDistinct(s);
    DrawnAreDistinct(s, digest, 0, 5);
  }

  lemma TooFewToSeat(who: set<string>, digest: nat -> nat)
    requires |who| < 5
    ensures Seated(who, digest).None?
  {
    if p :| IsPanel(p, who, digest) {
      var s :| Lists(s, who) && |s| >= 5 && p == Drawn(s, digest, 0, 5);
      ListSize(s, who);
    }
  }

  lemma SeatedIsThePanel(who: set<string>, digest: nat -> nat, p: seq<string>)
    requires IsPanel(p, who, digest)
    ensures Seated(who, digest) == Some(p)
  {
    PanelOfASet(who, digest, p, Seated(who, digest).value);
  }

  lemma SeatedAreFive(who: set<string>, digest: nat -> nat)
    requires Seated(who, digest).Some?
    ensures var p := Seated(who, digest).value;
            |p| == 5 && Distinct(p) && forall a :: a in p ==> a in who
  {
    var p := Seated(who, digest).value;
    PanelOfASet(who, digest, p, p);
  }

  // ----- the loops -----

  /** Bonded addresses that may sit, the first of each kept in order. */
  method Eligible(bonded: seq<string>, exclude: seq<string>) returns (eligible: seq<string>)
    ensures Distinct(eligible)
    ensures forall a :: a in eligible <==> a in Allowed(bonded, exclude)
  {
    eligible := [];
    var i := 0;
    while i < |bonded|
      invariant 0 <= i <= |bonded|
      invariant Distinct(eligible)
      invariant forall a :: a in eligible <==> a in Allowed(bonded[..i], exclude)
    {
      var a := bonded[i];
      assert bonded[..i + 1] == bonded[..i] + [a];
      if a != "" && a !in exclude && a !in eligible {
        eligible := eligible + [a];
      }
      i := i + 1;
    }
    assert bonded[..|bonded|] == bonded;
  }

  method SortStrings(s: seq<string>) returns (r: seq<string>)
    requires Distinct(s)
    ensures Lists(r, Elements(s))
  {
    r := [];
    var i := 0;
    while i < |s|
      invariant 0 <= i <= |s|
      invariant Lists(r, Elements(s[..i]))
    {
      assert s[i] !in s[..i];
      var more := InsertSorted(r, s[i], Elements(s[..i]));
      assert Elements(s[..i + 1]) == Elements(s[..i]) + {s[i]};
      r := more;
      i := i + 1;
    }
    assert s[..|s|] == s;
  }

  method InsertSorted(s: seq<string>, a: string, ghost who: set<string>) returns (r: seq<string>)
    requires Lists(s, who) && a !in who
    ensures Lists(r, who + {a})
  {
    var k := 0;
    while k < |s| && Less(s[k], a)
      invariant 0 <= k <= |s|
      invariant forall i :: 0 <= i < k ==> Less(s[i], a)
    {
      k := k + 1;
    }
    r := s[..k] + [a] + s[k..];
    AboveFrom(s, k, a);
    InsertedAscending(s, k, a, r);
    InsertedElements(s, k, a, r, who);
  }

  lemma AboveFrom(s: seq<string>, k: nat, a: string)
    requires Ascending(s) && a !in s && k <= |s| && (k < |s| ==> !Less(s[k], a))
    ensures forall i :: k <= i < |s| ==> Less(a, s[i])
  {
    if k < |s| {
      LessConnected(s[k], a);
      forall i | k <= i < |s| ensures Less(a, s[i]) {
        if i > k {
          LessTransitive(a, s[k], s[i]);
        }
      }
    }
  }

  lemma InsertedAscending(s: seq<string>, k: nat, a: string, r: seq<string>)
    requires k <= |s| && Ascending(s) && r == s[..k] + [a] + s[k..]
    requires forall i :: 0 <= i < k ==> Less(s[i], a)
    requires forall i :: k <= i < |s| ==> Less(a, s[i])
    ensures Ascending(r)
  {
    forall i, j | 0 <= i < j < |r| ensures Less(r[i], r[j]) {
      assert r[i] == if i < k then s[i] else if i == k then a else s[i - 1];
      assert r[j] == if j < k then s[j] else if j == k then a else s[j - 1];
    }
  }

  lemma InsertedElements(s: seq<string>, k: nat, a: string, r: seq<string>, who: set<string>)
    requires k <= |s| && r == s[..k] + [a] + s[k..]
    requires forall x :: x in s <==> x in who
    ensures forall x :: x in r <==> x in who + {a}
  {
    assert s == s[..k] + s[k..];
  }

  method DrawFive(eligible: seq<string>, digest: nat -> nat) returns (picked: seq<string>)
    requires |eligible| >= 5
    ensures picked == Drawn(eligible, digest, 0, 5)
  {
    var remaining, seat := eligible, 0;
    picked := [];
    while seat < 5
      invariant 0 <= seat <= 5 && |remaining| == |eligible| - seat
      invariant picked + Drawn(remaining, digest, seat, 5 - seat) == Drawn(eligible, digest, 0, 5)
    {
      DrawnStep(remaining, digest, seat, 5 - seat, picked);
      var k := digest(seat) % |remaining|;
      picked := picked + [remaining[k]];
      remaining := RemoveAt(remaining, k);
      seat := seat + 1;
    }
  }

  /** PickFive: an error when fewer than five may sit, else the panel of the set of those who may. */
  method PickFive(digest: nat -> nat, bonded: seq<string>, exclude: seq<string>) returns (r: Option<seq<string>>)
    ensures r.None? <==> |Allowed(bonded, exclude)| < 5
    ensures r.Some? ==> IsPanel(r.value, Allowed(bonded, exclude), digest)
    ensures r == Seated(Allowed(bonded, exclude), digest)
  {
    var eligible := Eligible(bonded, exclude);
    assert Elements(eligible) == Allowed(bonded, exclude);
    var sorted := SortStrings(eligible);
    ListSize(sorted, Allowed(bonded, exclude));
    if |sorted| < 5 {
      TooFewToSeat(Allowed(bonded, exclude), digest);
      return None;
    }
    var picked := DrawFive(sorted, digest);
    SeatedIsThePanel(Allowed(bonded, exclude), digest, picked);
    r := Some(picked);
  }
}
