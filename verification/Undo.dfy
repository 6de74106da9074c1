/** When undoing a confirmed block gives back exactly what was there before it. */
module Undo {
  import opened Ledger

  /** Everything a confirm of the pending block and its undo are meant to leave alone. */
  ghost predicate SameExplorer(a: State, b: State) {
    && a.history == b.history
    && a.counter == b.counter
    && a.fees == b.fees
    && a.index == b.index
    && a.confirmed == b.confirmed
    && a.pending == b.pending
    && a.mempool == b.mempool
    && forall x :: At(a.byAddress, x) == At(b.byAddress, x)
  }

  function ConfirmThenUndo(s: State, clock: int): State {
    UndoExplorer(ConfirmExplorer(s, s.pending, clock), NextBlock(s, s.pending, clock), s.pending, ToPending)
  }

  /** Field by field, what confirming the pending block and undoing it leaves. */
  ghost predicate Leaves(s: State, r: State) {
    && r.history == s.history && r.counter == s.counter
    && r.pending == s.pending && r.mempool == s.mempool
    && r.fees == (if s.fees < 0 then 0 else s.fees)
    && r.index == s.index - HashSet(s.pending)
    && r.confirmed == s.confirmed - HashSet(s.pending)
    && r.byAddress == UntouchAll(TouchAll(s.byAddress, s.pending), s.pending)
  }

  lemma ConfirmThenUndoEffect(s: State, clock: int)
    ensures Leaves(s, ConfirmThenUndo(s, clock))
  {
    var c, b := ConfirmExplorer(s, s.pending, clock), NextBlock(s, s.pending, clock);
    assert c.history == s.history + [b];
    assert c.history[..|c.history| - 1] == s.history;
    IndexBack(s.index, s.pending);
    assert c.confirmed == s.confirmed + HashSet(s.pending);
  }

  /** What of it the pools and the history see. */
  lemma ConfirmThenUndoPlaces(s: State, clock: int)
    ensures var r := ConfirmThenUndo(s, clock);
            && r.history == s.history && r.pending == s.pending && r.mempool == s.mempool
            && r.confirmed == s.confirmed - HashSet(s.pending)
  {
    ConfirmThenUndoEffect(s, clock);
  }

  lemma IndexBack(index: Rows, txs: seq<Tx>)
    ensures IndexAll(index, txs) - HashSet(txs) == index - HashSet(txs)
  {
    IndexAllKeys(index, txs);
  }

  /** Nothing under these addresses carries the transaction's hash yet. */
  predicate NewUnder(byAddress: map<string, seq<Tx>>, t: Tx) {
    && t.hash != "" && t.from != "" && t.to != ""
    && (forall x :: x in At(byAddress, t.from) ==> x.hash != t.hash)
    && (forall x :: x in At(byAddress, t.to) ==> x.hash != t.hash)
  }

  /** Carries a hash and two addresses, and is neither indexed nor confirmed. */
  predicate Unindexed(s: State, t: Tx) {
    t.hash !in s.index && t.hash !in s.confirmed && NewUnder(s.byAddress, t)
  }

  /**
   Confirm then undo is the identity on the explorer exactly when every pending
   transaction was new to it; the fee total must not have been negative.
   */
  lemma UndoInvertsConfirm(s: State, clock: int)
    ensures SameExplorer(ConfirmThenUndo(s, clock), s) <==>
            s.fees >= 0 && forall t :: t in s.pending ==> Unindexed(s, t)
  {
    ConfirmThenUndoEffect(s, clock);
    LeavesSame(s, ConfirmThenUndo(s, clock));
  }

  lemma LeavesSame(s: State, r: State)
    requires Leaves(s, r)
    ensures SameExplorer(r, s) <==> s.fees >= 0 && forall t :: t in s.pending ==> Unindexed(s, t)
  {
    AddressesRestored(s.byAddress, s.pending);
    KeysRestored(s.index, s.pending);
    assert (s.confirmed - HashSet(s.pending) == s.confirmed) <==>
           (forall t :: t in s.pending ==> t.hash !in s.confirmed);
  }

  lemma KeysRestored(index: Rows, txs: seq<Tx>)
    ensures index - HashSet(txs) == index <==> forall t :: t in txs ==> t.hash !in index
  {
    if index - HashSet(txs) == index {
      forall t | t in txs ensures t.hash !in index {
        assert t.hash in HashSet(txs);
        assert t.hash !in index - HashSet(txs);
      }
    }
  }

  lemma AddressesRestored(byAddress: map<string, seq<Tx>>, txs: seq<Tx>)
    ensures (forall a :: At(UntouchAll(TouchAll(byAddress, txs), txs), a) == At(byAddress, a)) <==>
            (forall t :: t in txs ==> NewUnder(byAddress, t))
  {
    var back := UntouchAll(TouchAll(byAddress, txs), txs);
    if forall a :: At(back, a) == At(byAddress, a) {
      forall t | t in txs ensures NewUnder(byAddress, t) {
        AddressRestored(byAddress, txs, t.from);
        AddressRestored(byAddress, txs, t.to);
      }
    }
    if forall t :: t in txs ==> NewUnder(byAddress, t) {
      forall a ensures At(back, a) == At(byAddress, a) {
        AddressRestored(byAddress, txs, a);
      }
    }
  }

  /** One address's list comes back exactly when the undo scrubs all of what was added and nothing else. */
  lemma AddressRestored(byAddress: map<string, seq<Tx>>, txs: seq<Tx>, a: string)
    ensures At(UntouchAll(TouchAll(byAddress, txs), txs), a) == At(byAddress, a) <==>
            && (forall x :: x in At(byAddress, a) ==> x.hash !in Scrubbed(txs, a))
            && (forall t :: t in txs && (t.from == a || t.to == a) ==> a != "" && t.hash != "")
  {
    TouchAllAt(byAddress, txs, a);
    UntouchAllAt(TouchAll(byAddress, txs), txs, a);
    ListRestored(At(byAddress, a), Touched(txs, a), Scrubbed(txs, a));
    TouchedMembers(txs, a);
    forall t | t in Touched(txs, a)
      ensures t.hash in Scrubbed(txs, a) <==> a != "" && t.hash != ""
    {
    }
  }

  lemma ListRestored(list: seq<Tx>, added: seq<Tx>, hs: set<string>)
    ensures Without(list + added, hs) == list <==>
            (forall x :: x in list ==> x.hash !in hs) && (forall x :: x in added ==> x.hash in hs)
  {
    WithoutConcat(list, added, hs);
    WithoutMembers(list, hs);
    WithoutMembers(added, hs);
    if Without(list, hs) + Without(added, hs) == list {
      forall x | x in list ensures x.hash !in hs {
        assert x in Without(list, hs) + Without(added, hs);
      }
      WithoutNone(list, hs);
      assert |Without(added, hs)| == 0;
    }
    if (forall x :: x in list ==> x.hash !in hs) && (forall x :: x in added ==> x.hash in hs) {
      WithoutNone(list, hs);
      WithoutAll(added, hs);
    }
  }

  lemma {:induction false} TouchedMembers(txs: seq<Tx>, a: string)
    ensures forall t :: t in Touched(txs, a) <==> t in txs && (t.from == a || t.to == a)
    decreases |txs|
  {
    if txs != [] {
      var k := |txs| - 1;
      TouchedMembers(txs[..k], a);
      assert txs == txs[..k] + [txs[k]];
    }
  }
}
