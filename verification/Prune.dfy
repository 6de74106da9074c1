/** What PruneMempool keeps, as a filter over the pool (internal/blockchain/mempool_prune.go). */
module Prune {
  import opened Sequences
  import opened Ledger

  const MAX_NONCE_GAP := 64
  const FUTURE_MAX_AGE := 6 * 3600

  /**
   What one prune sees: hashes confirmed or already pending, the account nonces
   the ledger answered for, and the clock.
   */
  datatype View = View(settled: set<string>, nonces: map<string, nat>, now: int)

  predicate SameSlot(a: Tx, b: Tx) {
    a.from == b.from && a.nonce == b.nonce
  }

  predicate Eligible(v: View, t: Tx) {
    && t.hash != ""
    && t.from != FAUCET && t.kind != "faucet"
    && t.hash !in v.settled
    && !(t.from != "" && t.from in v.nonces && t.nonce < v.nonces[t.from])
  }

  /** A later arrival takes over a slot only with a smaller positive timestamp than a positive one. */
  predicate TakesOver(t: Tx, held: Tx) {
    t.timestamp > 0 && held.timestamp > 0 && t.timestamp < held.timestamp
  }

  /** Least position holding the same sender and nonce, or -1. */
  function SlotAt(kept: seq<Tx>, t: Tx): (j: int)
    ensures j == -1 ==> forall k :: 0 <= k < |kept| ==> !SameSlot(kept[k], t)
    ensures j != -1 ==> 0 <= j < |kept| && SameSlot(kept[j], t)
  {
    if kept == [] then -1
    else
      var before := SlotAt(kept[..|kept| - 1], t);
      if before != -1 then before else if SameSlot(kept[|kept| - 1], t) then |kept| - 1 else -1
  }

  /** First pass: eligible entries, one per sender and nonce. */
  function Admit(v: View, kept: seq<Tx>, t: Tx): seq<Tx> {
    if !Eligible(v, t) then kept
    else if t.from == "" then kept + [t]
    else
      var j := SlotAt(kept, t);
      if j == -1 then kept + [t]
      else if TakesOver(t, kept[j]) then kept[j := t]
      else kept
  }

  function FirstPass(v: View, txs: seq<Tx>): seq<Tx> {
    if txs == [] then [] else Admit(v, FirstPass(v, txs[..|txs| - 1]), txs[|txs| - 1])
  }

  function NextNonce(v: View, from: string): nat {
    if from in v.nonces then v.nonces[from] else 0
  }

  predicate OutOfWindow(v: View, t: Tx) {
    && t.from != ""
    && var want := NextNonce(v, t.from);
       || t.nonce < want
       || t.nonce > want + MAX_NONCE_GAP
       || (t.nonce != want && t.timestamp > 0 && v.now - t.timestamp > FUTURE_MAX_AGE)
  }

  /** Second pass, only when the ledger answered for someone: hashes to drop. */
  function Doomed(v: View, kept: seq<Tx>): set<string> {
    if v.nonces == map[] then {} else set t | t in kept && OutOfWindow(v, t) :: t.hash
  }

  function Pruned(v: View, txs: seq<Tx>): seq<Tx> {
    Without(FirstPass(v, txs), Doomed(v, FirstPass(v, txs)))
  }

  // ----- the filter, declaratively -----

  /** The eligible entries that share t's sender and nonce, in arrival order. */
  function Rivals(v: View, txs: seq<Tx>, t: Tx): seq<Tx> {
    if txs == [] then []
    else
      var x := txs[|txs| - 1];
      Rivals(v, txs[..|txs| - 1], t) + (if SameSlot(x, t) && Eligible(v, x) then [x] else [])
  }

  /**
   The winner of a slot: the first arrival when that one carries no positive
   time, otherwise the smallest positive time, the earlier arrival breaking ties.
   */
  ghost predicate WinsAt(rivals: seq<Tx>, i: nat)
    requires i < |rivals|
  {
    if rivals[0].timestamp <= 0 then i == 0
    else
      && rivals[i].timestamp > 0
      && forall j :: 0 <= j < |rivals| && rivals[j].timestamp > 0 ==>
           && rivals[i].timestamp <= rivals[j].timestamp
           && (j < i ==> rivals[i].timestamp < rivals[j].timestamp)
  }

  ghost predicate Wins(rivals: seq<Tx>, t: Tx) {
    exists i :: 0 <= i < |rivals| && WinsAt(rivals, i) && rivals[i] == t
  }

  /** One entry per sender and nonce; entries without a sender are not compared. */
  ghost predicate UniqueSlots(txs: seq<Tx>) {
    forall i, j :: 0 <= i < j < |txs| && txs[i].from != "" ==> !SameSlot(txs[i], txs[j])
  }

  lemma {:induction false} FirstPassUnique(v: View, txs: seq<Tx>)
    ensures UniqueSlots(FirstPass(v, txs))
    decreases |txs|
  {
    if txs != [] {
      FirstPassUnique(v, txs[..|txs| - 1]);
    }
  }

  /** The first pass only ever keeps eligible entries of the pool. */
  lemma {:induction false} FirstPassMembers(v: View, txs: seq<Tx>)
    ensures forall t :: t in FirstPass(v, txs) ==> t in txs && Eligible(v, t)
    decreases |txs|
  {
    if txs != [] {
      var k := |txs| - 1;
      FirstPassMembers(v, txs[..k]);
      assert txs == txs[..k] + [txs[k]];
      forall i | 0 <= i < |FirstPass(v, txs)|
        ensures FirstPass(v, txs)[i] in txs && Eligible(v, FirstPass(v, txs)[i])
      {
        var kept := FirstPass(v, txs[..k]);
        assert FirstPass(v, txs)[i] == txs[k] || FirstPass(v, txs)[i] in kept;
      }
    }
  }

  /** Replacing one item by another leaves the membership of the rest alone. */
  lemma ReplaceMembers(kept: seq<Tx>, j: nat, x: Tx, t: Tx)
    requires j < |kept| && kept[j] != t && x != t
    ensures t in kept[j := x] <==> t in kept
  {
    if t in kept {
      var i :| 0 <= i < |kept| && kept[i] == t;
      assert kept[j := x][i] == t;
    }
  }

  lemma AdmitSenderless(v: View, kept: seq<Tx>, x: Tx, t: Tx)
    requires t.from == ""
    ensures t in Admit(v, kept, x) <==> t in kept || (x == t && Eligible(v, x))
  {
    var j := SlotAt(kept, x);
    if x.from != "" && j != -1 {
      ReplaceMembers(kept, j, x, t);
    }
  }

  /** The first pass keeps every eligible entry that names no sender. */
  lemma {:induction false} FirstPassSenderless(v: View, txs: seq<Tx>, t: Tx)
    requires t.from == ""
    ensures t in FirstPass(v, txs) <==> t in txs && Eligible(v, t)
    decreases |txs|
  {
    if txs != [] {
      var k := |txs| - 1;
      FirstPassSenderless(v, txs[..k], t);
      assert txs == txs[..k] + [txs[k]];
      AdmitSenderless(v, FirstPass(v, txs[..k]), txs[k], t);
    }
  }

  /** With unique slots, the entry found for a slot is the only one. */
  lemma SlotIs(kept: seq<Tx>, t: Tx, j: nat)
    requires UniqueSlots(kept) && t.from != ""
    requires j < |kept| && SameSlot(kept[j], t)
    ensures SlotAt(kept, t) == j
  {
  }

  /** After the first pass a slot is held exactly when it has rivals, and by their winner. */
  lemma {:induction false} SlotHolder(v: View, txs: seq<Tx>, t: Tx)
    requires t.from != ""
    ensures var kept, j := FirstPass(v, txs), SlotAt(FirstPass(v, txs), t);
            && (j == -1 <==> Rivals(v, txs, t) == [])
            && (j != -1 ==> Wins(Rivals(v, txs, t), kept[j]))
    decreases |txs|
  {
    if txs != [] {
      var n := |txs| - 1;
      var x, kept, rivals := txs[n], FirstPass(v, txs[..n]), Rivals(v, txs[..n], t);
      SlotHolder(v, txs[..n], t);
      FirstPassUnique(v, txs[..n]);
      FirstPassUnique(v, txs);
      var j, after := SlotAt(kept, t), FirstPass(v, txs);
      if SameSlot(x, t) && Eligible(v, x) {
        assert SlotAt(kept, x) == j by { if j != -1 { SlotIs(kept, x, j); } }
        assert Rivals(v, txs, t) == rivals + [x];
        if j == -1 {
          SlotIs(after, t, |kept|);
          assert rivals + [x] == [x] && WinsAt([x], 0);
        } else {
          SlotIs(after, t, j);
          NewRival(rivals, kept[j], x);
        }
      } else {
        assert Rivals(v, txs, t) == rivals;
        OtherSlot(v, kept, x, t);
      }
    }
  }

  /** An entry of another slot, or one that is not eligible, leaves the slot's holder alone. */
  lemma OtherSlot(v: View, kept: seq<Tx>, x: Tx, t: Tx)
    requires t.from != "" && UniqueSlots(kept)
    requires !SameSlot(x, t) || !Eligible(v, x)
    ensures SlotAt(Admit(v, kept, x), t) == SlotAt(kept, t)
    ensures SlotAt(kept, t) != -1 ==> Admit(v, kept, x)[SlotAt(kept, t)] == kept[SlotAt(kept, t)]
  {
    var after, j := Admit(v, kept, x), SlotAt(kept, t);
    if after != kept && j != -1 {
      AdmitUnique(v, kept, x);
      SlotIs(after, t, j);
    }
  }

  lemma AdmitUnique(v: View, kept: seq<Tx>, x: Tx)
    requires UniqueSlots(kept)
    ensures UniqueSlots(Admit(v, kept, x))
  {
  }

  /** One more rival either takes the slot over or leaves the winner standing. */
  lemma NewRival(rivals: seq<Tx>, held: Tx, x: Tx)
    requires Wins(rivals, held)
    ensures Wins(rivals + [x], if TakesOver(x, held) then x else held)
  {
    var i :| 0 <= i < |rivals| && WinsAt(rivals, i) && rivals[i] == held;
    var more := rivals + [x];
    assert more[0] == rivals[0];
    assert WinsAt(more, if TakesOver(x, held) then |rivals| else i);
  }

  /** Who survives the first pass: the winners of their slots, and nobody else. */
  lemma FirstPassKeepsWinners(v: View, txs: seq<Tx>, t: Tx)
    requires t.from != ""
    ensures t in FirstPass(v, txs) <==> Wins(Rivals(v, txs, t), t)
  {
    var kept, j := FirstPass(v, txs), SlotAt(FirstPass(v, txs), t);
    SlotHolder(v, txs, t);
    FirstPassUnique(v, txs);
    if t in kept {
      var i :| 0 <= i < |kept| && kept[i] == t;
      SlotIs(kept, t, i);
    }
    if Wins(Rivals(v, txs, t), t) {
      OneWinner(Rivals(v, txs, t), t, kept[j]);
    }
  }

  lemma OneWinner(rivals: seq<Tx>, a: Tx, b: Tx)
    requires Wins(rivals, a) && Wins(rivals, b)
    ensures a == b
  {
    var i :| 0 <= i < |rivals| && WinsAt(rivals, i) && rivals[i] == a;
    var j :| 0 <= j < |rivals| && WinsAt(rivals, j) && rivals[j] == b;
    assert i == j;
  }

  /**
   Pruning is a filter: an entry stays exactly when it is an eligible one without
   a sender or the winner of its slot, and no surviving holder of its hash is out
   of the nonce window.
   */
  lemma PrunedIsFilter(v: View, txs: seq<Tx>, t: Tx)
    ensures t in Pruned(v, txs) <==>
            && (if t.from == "" then t in txs && Eligible(v, t) else Wins(Rivals(v, txs, t), t))
            && t.hash !in Doomed(v, FirstPass(v, txs))
    ensures UniqueSlots(Pruned(v, txs))
  {
    var kept := FirstPass(v, txs);
    WithoutMembers(kept, Doomed(v, kept));
    if t.from == "" {
      FirstPassSenderless(v, txs, t);
    } else {
      FirstPassKeepsWinners(v, txs, t);
    }
    FirstPassUnique(v, txs);
    WithoutUniqueSlots(kept, Doomed(v, kept));
  }

  lemma {:induction false} WithoutUniqueSlots(txs: seq<Tx>, hs: set<string>)
    requires UniqueSlots(txs)
    ensures UniqueSlots(Without(txs, hs))
    decreases |txs|
  {
    if txs != [] {
      var k := |txs| - 1;
      WithoutUniqueSlots(txs[..k], hs);
      WithoutMembers(txs[..k], hs);
      assert forall i :: 0 <= i < |Without(txs[..k], hs)| ==> Without(txs[..k], hs)[i] in txs[..k];
    }
  }

  /** Once the ledger answered for anyone, every surviving sender's nonce is within the window. */
  lemma PrunedInWindow(v: View, txs: seq<Tx>, t: Tx)
    requires v.nonces != map[]
    requires t in Pruned(v, txs) && t.from != ""
    ensures NextNonce(v, t.from) <= t.nonce <= NextNonce(v, t.from) + MAX_NONCE_GAP
    ensures t.nonce != NextNonce(v, t.from) && t.timestamp > 0 ==> v.now - t.timestamp <= FUTURE_MAX_AGE
  {
    WithoutMembers(FirstPass(v, txs), Doomed(v, FirstPass(v, txs)));
  }

  /** Some survivor of the prune holds t's slot. */
  ghost predicate Represented(v: View, txs: seq<Tx>, t: Tx) {
    exists r :: r in Pruned(v, txs) && SameSlot(r, t)
  }

  /** The hash is carried by no survivor of the first pass that is out of the nonce window. */
  predicate Packable(v: View, txs: seq<Tx>, hash: string) {
    hash !in Doomed(v, FirstPass(v, txs))
  }

  /** A slot with an eligible entry keeps a holder exactly when the hash of its winner is packable. */
  lemma SlotSurvives(v: View, txs: seq<Tx>, t: Tx, winner: Tx)
    requires t in txs && Eligible(v, t) && t.from != "" && Wins(Rivals(v, txs, t), winner)
    ensures SameSlot(winner, t) && winner in txs
    ensures Represented(v, txs, t) <==> Packable(v, txs, winner.hash)
  {
    var kept, j := FirstPass(v, txs), SlotAt(FirstPass(v, txs), t);
    SlotHolder(v, txs, t);
    RivalsMember(v, txs, t);
    OneWinner(Rivals(v, txs, t), winner, kept[j]);
    FirstPassUnique(v, txs);
    FirstPassMembers(v, txs);
    WithoutMembers(kept, Doomed(v, kept));
    assert winner in kept;
    forall r | r in kept && SameSlot(r, t) ensures r == winner {
      var i :| 0 <= i < |kept| && kept[i] == r;
      SlotIs(kept, t, i);
    }
  }

  /** Every slot with an eligible entry has a winner. */
  lemma SlotHasWinner(v: View, txs: seq<Tx>, t: Tx)
    requires t in txs && Eligible(v, t) && t.from != ""
    ensures exists w :: Wins(Rivals(v, txs, t), w)
  {
    SlotHolder(v, txs, t);
    RivalsMember(v, txs, t);
  }

  /** The next nonce of a sender keeps a representative exactly when its winner's hash is packable. */
  lemma NextNonceSurvives(v: View, txs: seq<Tx>, t: Tx, winner: Tx)
    requires t in txs && Eligible(v, t) && t.from != "" && t.nonce == NextNonce(v, t.from)
    requires Wins(Rivals(v, txs, t), winner)
    ensures Represented(v, txs, t) <==>
            v.nonces == map[] ||
            forall u :: u in FirstPass(v, txs) && u.hash == winner.hash && u != winner ==> !OutOfWindow(v, u)
  {
    SlotSurvives(v, txs, t, winner);
    assert !OutOfWindow(v, winner);
  }

  /** With distinct hashes it always does. */
  lemma NextNonceAlwaysSurvives(v: View, txs: seq<Tx>, t: Tx)
    requires Distinct(Hashes(txs))
    requires t in txs && Eligible(v, t) && t.from != "" && t.nonce == NextNonce(v, t.from)
    ensures Represented(v, txs, t)
  {
    SlotHasWinner(v, txs, t);
    var w :| Wins(Rivals(v, txs, t), w);
    SlotSurvives(v, txs, t, w);
    NextNonceSurvives(v, txs, t, w);
    FirstPassMembers(v, txs);
    forall u | u in FirstPass(v, txs) && u.hash == w.hash ensures u == w {
      OneHolder(txs, u, w);
    }
  }

  lemma OneHolder(txs: seq<Tx>, t: Tx, u: Tx)
    requires Distinct(Hashes(txs)) && t in txs && u in txs && t.hash == u.hash
    ensures t == u
  {
    var i :| 0 <= i < |txs| && txs[i] == t;
    var j :| 0 <= j < |txs| && txs[j] == u;
    assert Hashes(txs)[i] == Hashes(txs)[j];
  }

  /** An unpackable entry takes down every holder of its hash, the sender's next nonce included. */
  lemma SharedHashLosesNextNonce(v: View, t: Tx, u: Tx)
    requires Eligible(v, t) && Eligible(v, u) && t.from != "" && u.from != "" && !SameSlot(t, u)
    requires t.nonce == NextNonce(v, t.from) && OutOfWindow(v, u) && u.hash == t.hash && v.nonces != map[]
    ensures Pruned(v, [t, u]) == []
  {
    var txs := [t, u];
    assert txs[..1] == [t] && [t][..0] == [];
    assert FirstPass(v, []) == [] && FirstPass(v, [t]) == [t];
    assert SlotAt([t], u) == -1;
    assert FirstPass(v, txs) == txs;
    assert u in txs && t.hash in Doomed(v, txs);
    WithoutAll(txs, Doomed(v, txs));
  }

  lemma {:induction false} RivalsMember(v: View, txs: seq<Tx>, t: Tx)
    requires t in txs && Eligible(v, t)
    ensures Rivals(v, txs, t) != []
    decreases |txs|
  {
    var k := |txs| - 1;
    if txs[k] != t {
      assert t in txs[..k];
      RivalsMember(v, txs[..k], t);
    }
  }

  lemma {:induction false} FirstPassFixed(v: View, txs: seq<Tx>)
    requires forall t :: t in txs ==> Eligible(v, t)
    requires UniqueSlots(txs)
    ensures FirstPass(v, txs) == txs
    decreases |txs|
  {
    if txs != [] {
      var k := |txs| - 1;
      FirstPassFixed(v, txs[..k]);
      assert txs == txs[..k] + [txs[k]];
    }
  }

  /** The later view asks about no new sender and reads the same nonces, settled hashes and clock. */
  ghost predicate SameLedger(v: View, later: View, txs: seq<Tx>) {
    && later.settled == v.settled && later.now == v.now
    && (forall a :: a in later.nonces ==> a in v.nonces && later.nonces[a] == v.nonces[a])
    && (forall t :: t in txs && t.from in v.nonces ==> t.from in later.nonces)
  }

  /** Pruning again at the same clock and ledger changes nothing. */
  lemma PruneTwice(v: View, later: View, txs: seq<Tx>)
    requires SameLedger(v, later, Pruned(v, txs))
    ensures Pruned(later, Pruned(v, txs)) == Pruned(v, txs)
  {
    var first, out := FirstPass(v, txs), Pruned(v, txs);
    FirstPassMembers(v, txs);
    FirstPassUnique(v, txs);
    WithoutMembers(first, Doomed(v, first));
    WithoutUniqueSlots(first, Doomed(v, first));
    FirstPassFixed(later, out);
    forall t | t in out && OutOfWindow(later, t) ensures v.nonces == map[] {
      assert NextNonce(later, t.from) == NextNonce(v, t.from);
    }
    WithoutNone(out, Doomed(later, out));
  }

  // ----- the loops -----

  /** The index the sweep keeps: where each sender and nonce sits. */
  ghost predicate Indexed(kept: seq<Tx>, seen: map<(string, int), nat>) {
    && (forall key :: key in seen ==> key.0 != "" && seen[key] < |kept| && SlotOf(kept[seen[key]]) == key)
    && (forall k :: 0 <= k < |kept| && kept[k].from != "" ==> SlotOf(kept[k]) in seen)
  }

  function SlotOf(t: Tx): (string, int) {
    (t.from, t.nonce)
  }

  lemma IndexedSenderless(kept: seq<Tx>, seen: map<(string, int), nat>, t: Tx)
    requires Indexed(kept, seen) && t.from == ""
    ensures Indexed(kept + [t], seen)
  {
  }

  lemma IndexedAppend(kept: seq<Tx>, seen: map<(string, int), nat>, t: Tx)
    requires Indexed(kept, seen) && t.from != "" && SlotOf(t) !in seen
    ensures Indexed(kept + [t], seen[SlotOf(t) := |kept|]) && SlotAt(kept, t) == -1
  {
    forall k | 0 <= k < |kept| ensures !SameSlot(kept[k], t) {
      assert kept[k].from != "" ==> SlotOf(kept[k]) in seen;
    }
  }

  lemma IndexedReplace(kept: seq<Tx>, seen: map<(string, int), nat>, t: Tx)
    requires Indexed(kept, seen) && UniqueSlots(kept) && t.from != "" && SlotOf(t) in seen
    ensures Indexed(kept[seen[SlotOf(t)] := t], seen) && SlotAt(kept, t) == seen[SlotOf(t)]
  {
    SlotIs(kept, t, seen[SlotOf(t)]);
  }

  /** One entry of the sweep: kept, put in the place of a later one, or removed. */
  method KeepOne(v: View, kept: seq<Tx>, seen: map<(string, int), nat>, t: Tx)
    returns (more: seq<Tx>, index: map<(string, int), nat>)
    requires Indexed(kept, seen) && UniqueSlots(kept)
    ensures more == Admit(v, kept, t) && Indexed(more, index)
  {
    more, index := kept, seen;
    if t.hash == "" || t.from == FAUCET || t.kind == "faucet" || t.hash in v.settled {
      return;
    }
    if t.from == "" {
      IndexedSenderless(kept, seen, t);
      more := kept + [t];
      return;
    }
    if t.from in v.nonces && t.nonce < v.nonces[t.from] {
      return;
    }
    if SlotOf(t) in seen {
      IndexedReplace(kept, seen, t);
      var j := seen[SlotOf(t)];
      if t.timestamp > 0 && kept[j].timestamp > 0 && t.timestamp < kept[j].timestamp {
        more := kept[j := t];
      }
      return;
    }
    IndexedAppend(kept, seen, t);
    more, index := kept + [t], seen[SlotOf(t) := |kept|];
  }

  /** The first pass in one sweep, remembering where each sender and nonce sits. */
  method KeepFirst(v: View, txs: seq<Tx>) returns (kept: seq<Tx>, removed: nat)
    ensures kept == FirstPass(v, txs)
    ensures removed == |txs| - |kept|
  {
    kept, removed := [], 0;
    var seen: map<(string, int), nat> := map[];
    for i := 0 to |txs|
      invariant kept == FirstPass(v, txs[..i]) && removed + |kept| == i
      invariant Indexed(kept, seen)
    {
      assert txs[..i + 1][..i] == txs[..i] && txs[..i + 1][i] == txs[i];
      FirstPassUnique(v, txs[..i]);
      var more, index := KeepOne(v, kept, seen, txs[i]);
      removed := removed + (1 - (|more| - |kept|));
      kept, seen := more, index;
    }
    assert txs[..|txs|] == txs;
  }

  /** The second pass: which hashes can never be packed, and what is left without them. */
  method DropUnpackable(v: View, kept: seq<Tx>) returns (left: seq<Tx>)
    ensures left == Without(kept, Doomed(v, kept))
  {
    var doomed: set<string> := {};
    if v.nonces != map[] {
      for i := 0 to |kept|
        invariant doomed == set t | t in kept[..i] && OutOfWindow(v, t) :: t.hash
      {
        var t := kept[i];
        assert kept[..i + 1] == kept[..i] + [t];
        if t.from != "" {
          var want := if t.from in v.nonces then v.nonces[t.from] else 0;
          if t.nonce < want || t.nonce > want + MAX_NONCE_GAP {
            doomed := doomed + {t.hash};
          } else if t.nonce != want && t.timestamp > 0 && v.now - t.timestamp > FUTURE_MAX_AGE {
            doomed := doomed + {t.hash};
          }
        }
      }
      assert kept[..|kept|] == kept;
    }
    left := [];
    for i := 0 to |kept|
      invariant left == Without(kept[..i], doomed)
    {
      assert kept[..i + 1][..i] == kept[..i];
      if kept[i].hash !in doomed {
        left := left + [kept[i]];
      }
    }
    assert kept[..|kept|] == kept;
  }

  /** The account nonces of the pool's senders, as far as the ledger answers. */
  function NoncesFor(ledger: map<string, nat>, txs: seq<Tx>): map<string, nat> {
    var senders := set t | t in txs && t.from != "" && t.from != FAUCET :: t.from;
    map a | a in senders && a in ledger :: ledger[a]
  }

  function ViewOf(s: State, ledger: map<string, nat>, rocksListed: set<string>, now: int): View {
    View(Listed(s.history) + rocksListed + HashSet(s.pending), NoncesFor(ledger, s.mempool), now)
  }

  /** Pruning the Blockchain's pool twice at one clock, ledger and history is pruning it once. */
  lemma PruneStateTwice(s: State, ledger: map<string, nat>, rocksListed: set<string>, now: int)
    ensures var once := s.(mempool := Pruned(ViewOf(s, ledger, rocksListed, now), s.mempool));
            Pruned(ViewOf(once, ledger, rocksListed, now), once.mempool) == once.mempool
  {
    var v := ViewOf(s, ledger, rocksListed, now);
    var once := s.(mempool := Pruned(v, s.mempool));
    FirstPassMembers(v, s.mempool);
    WithoutMembers(FirstPass(v, s.mempool), Doomed(v, FirstPass(v, s.mempool)));
    PruneTwice(v, ViewOf(once, ledger, rocksListed, now), s.mempool);
  }
}
