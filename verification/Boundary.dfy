/** A confirm either happens everywhere or nowhere, whichever step fails. */
module Boundary {
  import opened Sequences
  import opened Ledger
  import opened Confirm
  import DagOrder

  /** Every recorded block is below the next number. */
  ghost predicate Ahead(s: State) {
    forall b :: b in s.history ==> b.number < s.counter
  }

  /** Core, history and the totals that go with them stand where they stood. */
  ghost predicate Untouched(s: State, s': State) {
    && s'.core == s.core && s'.backup.None?
    && s'.history == s.history && s'.counter == s.counter && s'.fees == s.fees
  }

  /** The record of the block that txs make when it is number n. */
  ghost predicate Records(b: Block, n: int, txs: seq<Tx>) {
    b.number == n && b.txHashes == Hashes(txs) && b.totalFees == SumFees(txs)
  }

  lemma UndoesLast(s: State, before: seq<Block>, last: Block, b: Block, moved: seq<Tx>)
    requires s.history == before + [last] && last.number == b.number && s.counter == b.number + 1
    requires b.totalFees <= s.fees
    ensures var u := UndoExplorer(s, b, moved, ToPending);
            && u.history == before && u.counter == b.number && u.fees == s.fees - b.totalFees
            && u.core == s.core && u.backup == s.backup
            && u.durableHead == s.durableHead && u.chainFile == s.chainFile && u.persistent == s.persistent
            && u.confirmed == s.confirmed - HashSet(moved)
  {
    assert s.history[..|s.history| - 1] == before;
  }

  /** What the lock-held half of an L2 confirm comes to. */
  lemma CommitEffect(s: State, txs: seq<Tx>, in_: L2Input)
    requires s.fees >= 0
    ensures var (s', r) := Commit(s, txs, in_);
            if r.Confirmed? then
              && r.moved == txs && Records(r.block, s.counter, txs)
              && s'.core == s.core && s'.backup == s.backup
              && s'.history == s.history + [r.block]
              && s'.counter == s.counter + 1 && s'.fees == s.fees + SumFees(txs)
              && s'.confirmed == s.confirmed + HashSet(txs)
            else
              && Untouched(RestoreCore(s), s')
              && s'.confirmed == (if r.PersistFailed? then s.confirmed - HashSet(txs) else s.confirmed)
  {
    var b, c := NextBlock(s, txs, in_.clock), ConfirmExplorer(s, txs, in_.clock);
    if Hashes(s.pending) == Hashes(txs) && !PersistSucceeds(c, in_.writeOk) {
      UndoesLast(RestoreCore(c), s.history, b, b, txs);
      assert c.confirmed - HashSet(txs) == s.confirmed - HashSet(txs);
    }
  }

  /** L2 confirm under any interference: the block is Core's batch, or nothing moved. */
  lemma L2Effect(s: State, in_: L2Input)
    requires s.fees >= 0 && s.backup.None?
    ensures var (s', r) := L2Confirm(s, in_);
            if r.Confirmed? then
              && r.moved == s.pending && Records(r.block, s.counter, s.pending)
              && multiset(s'.core) == multiset(s.core) + multiset(s.pending) && s.core <= s'.core
              && s'.backup == Some(s.core)
              && s'.history == s.history + [r.block]
              && s'.counter == s.counter + 1 && s'.fees == s.fees + SumFees(s.pending)
              && s'.confirmed == s.confirmed + HashSet(s.pending)
            else
              && Untouched(s, s')
              && s'.confirmed == (if r.PersistFailed? then s.confirmed - HashSet(s.pending) else s.confirmed)
  {
    if ApplySucceeds(s, s.pending, in_.apply) {
      ApplyOrderPermutes(in_.apply.dag, s.dagDigests, s.pending);
      CommitEffect(Disturb(Apply(s, s.pending, in_.apply), in_.during), s.pending, in_);
    }
  }

  lemma {:induction false} SetHashLast(before: seq<Block>, last: Block, hash: string)
    requires forall b :: b in before ==> b.number != last.number
    ensures SetHash(before + [last], last.number, hash) == before + [last.(blockHash := hash)]
    decreases |before|
  {
    if before == [] {
      assert before + [last] == [last];
      assert [last.(blockHash := hash)] + [last][1..] == [last.(blockHash := hash)];
    } else {
      SetHashLast(before[1..], last, hash);
      assert (before + [last])[1..] == before[1..] + [last];
      assert before + [last.(blockHash := hash)] == [before[0]] + (before[1..] + [last.(blockHash := hash)]);
    }
  }

  /** The tip is d over before, Core keeps the batch, and the backup is gone. */
  ghost predicate Stands(s: State, s': State, before: seq<Block>, d: Block) {
    && s'.history == before + [d] && s'.core == s.core && s'.backup.None?
    && s'.counter == s.counter && s'.fees == s.fees && s'.confirmed == s.confirmed
  }

  /** The tip b is gone again and Core is back at the given state. */
  ghost predicate TakenBack(s: State, s': State, before: seq<Block>, b: Block, moved: seq<Tx>, core: seq<Tx>) {
    && s'.history == before && s'.core == core && s'.backup.None?
    && s'.counter == b.number && s'.fees == s.fees - b.totalFees
    && s'.confirmed == s.confirmed - HashSet(moved)
  }

  /** The state right after the explorer took block b on top of before. */
  ghost predicate JustConfirmed(s: State, before: seq<Block>, b: Block, core: seq<Tx>) {
    && s.history == before + [b] && s.counter == b.number + 1 && b.totalFees <= s.fees
    && s.backup == Some(core)
  }

  lemma UndoTakesBack(s: State, before: seq<Block>, b: Block, moved: seq<Tx>, core: seq<Tx>, writeOk: bool)
    requires JustConfirmed(s, before, b, core)
    ensures TakenBack(s, UndoConfirmed(s, b, moved, writeOk), before, b, moved, core)
  {
    UndoesLast(RestoreCore(s), before, b, b, moved);
  }

  lemma HeaderStands(s: State, before: seq<Block>, b: Block, core: seq<Tx>, hash: string, writeOk: bool)
    requires JustConfirmed(s, before, b, core)
    requires forall x :: x in before ==> x.number < b.number
    ensures var h := ApplyHeader(s, b.number, hash, writeOk);
            && JustConfirmed(h, before, b.(blockHash := hash), core)
            && h.core == s.core && h.fees == s.fees && h.confirmed == s.confirmed
  {
    assert b in s.history;
    SetHashLast(before, b, hash);
  }

  /** Finalizing the block just confirmed either makes it durable or takes it back. */
  lemma FinalizeEffect(n: Node, before: seq<Block>, b: Block, moved: seq<Tx>, core: seq<Tx>, in_: FinalInput)
    requires JustConfirmed(n.s, before, b, core)
    requires forall x :: x in before ==> x.number < b.number
    ensures var (n', r) := Finalize(n, b, moved, in_);
            && n'.rocksOn == n.rocksOn
            && match r
               case Durable(d) =>
                 && d == b.(blockHash := d.blockHash) && Stands(n.s, n'.s, before, d)
                 && n'.rocks == (if n.rocksOn then n.rocks + [d] else n.rocks)
               case DurableWithoutHeader =>
                 !n.rocksOn && Stands(n.s, n'.s, before, b) && n'.rocks == n.rocks
               case _ =>
                 n.rocksOn && TakenBack(n.s, n'.s, before, b, moved, core) && n'.rocks == n.rocks
  {
    if in_.header.None? {
      UndoTakesBack(n.s, before, b, moved, core, in_.undoWriteOk);
    } else {
      HeaderStands(n.s, before, b, core, in_.header.value, in_.headerWriteOk);
      var h := Disturb(ApplyHeader(n.s, b.number, in_.header.value, in_.headerWriteOk), in_.between);
      UndoTakesBack(h, before, b.(blockHash := in_.header.value), moved, core, in_.undoWriteOk);
    }
  }

  /** The node after a confirm: everything advanced by the one block, or nothing did. */
  ghost predicate AllOrNothing(n: Node, n': Node, o: Outcome) {
    && n'.rocksOn == n.rocksOn
    && (o.Done? ==>
          && Records(o.block, n.s.counter, n.s.pending)
          && n.s.core <= n'.s.core && multiset(n'.s.core) == multiset(n.s.core) + multiset(n.s.pending)
          && n'.s.history == n.s.history + [o.block] && n'.s.backup.None?
          && n'.s.counter == n.s.counter + 1 && n'.s.fees == n.s.fees + SumFees(n.s.pending)
          && n'.s.confirmed == n.s.confirmed + HashSet(n.s.pending)
          && n'.rocks == (if n.rocksOn then n.rocks + [o.block] else n.rocks))
    && (o.Aborted? ==>
          && Untouched(n.s, n'.s) && n'.rocks == n.rocks
          && n'.s.confirmed == (if o.undone then n.s.confirmed - HashSet(n.s.pending) else n.s.confirmed))
  }

  /** An aborted confirm keeps the confirmed set exactly when nothing was undone or nothing pending was in it. */
  lemma AbortKeepsConfirmed(n: Node, n': Node, o: Outcome)
    requires AllOrNothing(n, n', o) && o.Aborted?
    ensures n'.s.confirmed == n.s.confirmed <==> !o.undone || n.s.confirmed !! HashSet(n.s.pending)
  {
    if o.undone && n'.s.confirmed == n.s.confirmed {
      forall h | h in n.s.confirmed ensures h !in HashSet(n.s.pending) {
        assert h in n'.s.confirmed;
      }
    }
  }

  /**
   Whatever fails (Core, its ordering, the fence, the chain file, the header or
   Rocks) and whatever other goroutines do to the pools meanwhile, Core state,
   history and Rocks advance together by a block of exactly the applied
   transactions, or all stay where they were.
   */
  lemma ConfirmIsAllOrNothing(n: Node, l2: L2Input, fin: FinalInput)
    requires Ahead(n.s) && n.s.fees >= 0 && n.s.backup.None?
    ensures AllOrNothing(n, Round(n, l2, fin).0, Round(n, l2, fin).1)
  {
    L2Effect(n.s, l2);
    var (s1, r1) := L2Confirm(n.s, l2);
    if r1.Confirmed? {
      var m := n.(s := Disturb(s1, fin.before));
      FinalizeEffect(m, n.s.history, r1.block, r1.moved, n.s.core, fin);
      assert n.s.confirmed + HashSet(n.s.pending) - HashSet(n.s.pending) == n.s.confirmed - HashSet(n.s.pending);
    }
  }

  // ----- the chain file -----

  /** The chain file never holds a head above the one remembered as durable. */
  ghost predicate FileKnown(s: State) {
    FileHead(s) <= s.durableHead
  }

  /** A step after which the file is still known and its head has not gone down. */
  ghost predicate FileGrows(s: State, s': State) {
    FileKnown(s) ==> FileKnown(s') && FileHead(s) <= FileHead(s')
  }

  ghost predicate SameFile(s: State, s': State) {
    s'.durableHead == s.durableHead && s'.chainFile == s.chainFile
  }

  lemma {:induction false} HeadAtLeast(blocks: seq<Block>)
    ensures HistoryHead(blocks) >= -1
    ensures forall b :: b in blocks ==> b.number <= HistoryHead(blocks)
    decreases |blocks|
  {
    if blocks != [] {
      var k := |blocks| - 1;
      HeadAtLeast(blocks[..k]);
      assert blocks == blocks[..k] + [blocks[k]];
    }
  }

  lemma PersistGrows(s: State, writeOk: bool)
    ensures FileGrows(s, Persist(s, writeOk))
  {
    HeadAtLeast(s.history);
    if s.chainFile.Some? {
      HeadAtLeast(s.chainFile.value.blocks);
    }
  }

  lemma SameFileGrows(s: State, c: State, s': State)
    requires SameFile(s, c) && FileGrows(c, s')
    ensures FileGrows(s, s')
  {
  }

  lemma CommitFileGrows(s: State, txs: seq<Tx>, in_: L2Input)
    ensures FileGrows(s, Commit(s, txs, in_).0)
  {
    var s' := Commit(s, txs, in_).0;
    if Commit(s, txs, in_).1.Confirmed? {
      ConfirmFileGrows(s, txs, in_.clock, in_.writeOk);
    } else {
      assert SameFile(s, s');
    }
  }

  lemma ConfirmFileGrows(s: State, txs: seq<Tx>, clock: int, writeOk: bool)
    ensures FileGrows(s, Persist(ConfirmExplorer(s, txs, clock), writeOk))
  {
    var c := ConfirmExplorer(s, txs, clock);
    PersistGrows(c, writeOk);
    SameFileGrows(s, c, Persist(c, writeOk));
  }

  lemma L2FileGrows(s: State, in_: L2Input)
    ensures FileGrows(s, L2Confirm(s, in_).0)
  {
    if ApplySucceeds(s, s.pending, in_.apply) {
      var d := Disturb(Apply(s, s.pending, in_.apply), in_.during);
      assert SameFile(s, d);
      CommitFileGrows(d, s.pending, in_);
    }
  }

  lemma UndoFileGrows(s: State, b: Block, moved: seq<Tx>, writeOk: bool)
    ensures FileGrows(s, UndoConfirmed(s, b, moved, writeOk))
  {
    var u := UndoExplorer(RestoreCore(s), b, moved, ToPending);
    assert SameFile(s, u);
    PersistGrows(u, writeOk);
  }

  lemma FinalizeFileGrows(n: Node, b: Block, moved: seq<Tx>, in_: FinalInput)
    ensures FileGrows(n.s, Finalize(n, b, moved, in_).0.s)
  {
    if in_.header.None? {
      UndoFileGrows(n.s, b, moved, in_.undoWriteOk);
      PersistGrows(n.s.(backup := None), in_.headerWriteOk);
    } else {
      var hash := in_.header.value;
      HeaderFileGrows(n, b, hash, in_);
      UndoFileGrows(Headed(n, b, hash, in_).s, b.(blockHash := hash), moved, in_.undoWriteOk);
    }
  }

  lemma HeaderFileGrows(n: Node, b: Block, hash: string, in_: FinalInput)
    ensures FileGrows(n.s, Headed(n, b, hash, in_).s)
  {
    PersistGrows(n.s.(history := SetHash(n.s.history, b.number, hash)), in_.headerWriteOk);
  }

  // ----- runs of confirms -----

  function AllHashes(blocks: seq<Block>): seq<string> {
    if blocks == [] then [] else AllHashes(blocks[..|blocks| - 1]) + blocks[|blocks| - 1].txHashes
  }

  /**
   The stores agree: Core has applied what the history lists (beyond outside,
   credited before or beside it), Rocks holds the history, the fee total is the
   sum of the recorded fees, and no confirm is half done.
   */
  ghost predicate Consistent(n: Node, outside: multiset<string>) {
    && multiset(Hashes(n.s.core)) == outside + multiset(AllHashes(n.s.history))
    && (n.rocksOn ==> n.rocks == n.s.history)
    && n.s.fees == RecordedFees(n.s.history)
    && (forall b :: b in n.s.history ==> b.totalFees >= 0)
    && Ahead(n.s) && n.s.backup.None? && FileKnown(n.s)
  }

  /** One confirm attempt, after other goroutines have left the pools as they please. */
  datatype Turn = Turn(pools: Pools, l2: L2Input, fin: FinalInput)

  function Take(n: Node, t: Turn): Node {
    Round(n.(s := Disturb(n.s, t.pools)), t.l2, t.fin).0
  }

  function TakeAll(n: Node, turns: seq<Turn>): Node {
    if turns == [] then n else Take(TakeAll(n, turns[..|turns| - 1]), turns[|turns| - 1])
  }

  lemma {:induction false} FeesNonNegative(blocks: seq<Block>)
    requires forall b :: b in blocks ==> b.totalFees >= 0
    ensures RecordedFees(blocks) >= 0
    decreases |blocks|
  {
    if blocks != [] {
      FeesNonNegative(blocks[..|blocks| - 1]);
    }
  }

  lemma HashesAdd(core: seq<Tx>, more: seq<Tx>, txs: seq<Tx>)
    requires core <= more && multiset(more) == multiset(core) + multiset(txs)
    ensures multiset(Hashes(more)) == multiset(Hashes(core)) + multiset(Hashes(txs))
  {
    var rest := more[|core|..];
    assert more == core + rest;
    assert multiset(more) == multiset(core) + multiset(rest);
    assert multiset(rest) == multiset(more) - multiset(core) == multiset(txs);
    assert Hashes(more) == Hashes(core) + Hashes(rest);
    DagOrder.SameHashes(rest, txs, HashOf);
  }

  /** A confirmed block over agreeing stores leaves them agreeing. */
  lemma AllOrNothingKeeps(n: Node, n': Node, o: Outcome, outside: multiset<string>)
    requires Consistent(n, outside) && AllOrNothing(n, n', o) && FileKnown(n'.s)
    ensures Consistent(n', outside)
    ensures n.s.history <= n'.s.history && n.s.core <= n'.s.core
  {
    if o.Done? {
      HashesAdd(n.s.core, n'.s.core, n.s.pending);
      OneMoreBlock(n.s.history, o.block);
    }
  }

  lemma OneMoreBlock(history: seq<Block>, b: Block)
    ensures AllHashes(history + [b]) == AllHashes(history) + b.txHashes
    ensures RecordedFees(history + [b]) == RecordedFees(history) + b.totalFees
  {
    assert (history + [b])[..|history|] == history;
  }

  lemma TurnKeeps(n: Node, t: Turn, outside: multiset<string>)
    requires Consistent(n, outside)
    ensures Consistent(Take(n, t), outside)
    ensures n.s.history <= Take(n, t).s.history && n.s.core <= Take(n, t).s.core
    ensures FileHead(n.s) <= FileHead(Take(n, t).s)
  {
    var m := n.(s := Disturb(n.s, t.pools));
    FeesNonNegative(n.s.history);
    ConfirmIsAllOrNothing(m, t.l2, t.fin);
    RoundFileGrows(m, t.l2, t.fin);
    var (n', o) := Round(m, t.l2, t.fin);
    assert Consistent(m, outside);
    AllOrNothingKeeps(m, n', o, outside);
  }

  lemma RoundFileGrows(n: Node, l2: L2Input, fin: FinalInput)
    ensures FileGrows(n.s, Round(n, l2, fin).0.s)
  {
    L2FileGrows(n.s, l2);
    var (s1, r1) := L2Confirm(n.s, l2);
    if r1.Confirmed? {
      FinalizeFileGrows(n.(s := Disturb(s1, fin.before)), r1.block, r1.moved, fin);
    }
  }

  /**
   Over any number of confirm attempts, failing anywhere and disturbed anyhow,
   the stores stay in agreement, history and Core only ever grow, and the head
   in the chain file never goes down.
   */
  lemma {:induction false} EveryRunOfConfirms(n: Node, turns: seq<Turn>, outside: multiset<string>)
    requires Consistent(n, outside)
    ensures Consistent(TakeAll(n, turns), outside)
    ensures n.s.history <= TakeAll(n, turns).s.history && n.s.core <= TakeAll(n, turns).s.core
    ensures FileHead(n.s) <= FileHead(TakeAll(n, turns).s)
    decreases |turns|
  {
    if turns != [] {
      var k := |turns| - 1;
      EveryRunOfConfirms(n, turns[..k], outside);
      TurnKeeps(TakeAll(n, turns[..k]), turns[k], outside);
    }
  }
}
