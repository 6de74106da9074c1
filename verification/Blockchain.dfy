/** The Blockchain object itself: its methods change its fields the way Ledger, Pool, Confirm and Peers say. */
module BlockchainObject {
  import opened Sequences
  import opened Ledger
  import opened Pool
  import opened Confirm
  import Prune
  import Peers
  import Recovery
  import DagOrder

  /**
   The gateway's Blockchain object. now holds the struct's fields, and every
   method reassigns those it changes; pool is the durable transaction pool.
   */
  class Blockchain {
    var now: State
    var pool: Rows

    constructor ()
      ensures now == State([], [], map[], map[], None, map[], [], 0, 0, {}, -1, false, None, [], None, [])
      ensures pool == map[]
    {
      now := State([], [], map[], map[], None, map[], [], 0, 0, {}, -1, false, None, [], None, []);
      pool := map[];
    }

    // ----- pool operations -----

    method AddToMempool(t: Tx) returns (r: Admission)
      modifies this`now
      ensures r == Admitting(old(now), t)
      ensures now == Admit(old(now), t)
    {
      if t.hash == "" {
        return HashRequired;
      }
      if t.hash in now.confirmed {
        return AlreadyKnown;
      }
      var known := CheckClash(now.pending, now.mempool, t);
      if known != Admitted {
        return known;
      }
      now := now.(mempool := now.mempool + [t]);
      r := Admitted;
    }

    /** Whether a sender's nonce is already taken by something in flight. */
    method HasInFlightNonce(address: string, nonce: int) returns (r: bool)
      ensures r <==> exists t :: t in InFlight(now) && t.from == address && t.nonce == nonce
    {
      var mempool, pending := now.mempool, now.pending;
      for i := 0 to |mempool|
        invariant forall k :: 0 <= k < i ==> !(mempool[k].from == address && mempool[k].nonce == nonce)
      {
        if mempool[i].from == address && mempool[i].nonce == nonce {
          assert mempool[i] in InFlight(now);
          return true;
        }
      }
      for i := 0 to |pending|
        invariant forall k :: 0 <= k < i ==> !(pending[k].from == address && pending[k].nonce == nonce)
      {
        if pending[i].from == address && pending[i].nonce == nonce {
          assert pending[i] in InFlight(now);
          return true;
        }
      }
      r := false;
    }

    method RemoveFromMempool(hashes: seq<string>)
      modifies this`now
      ensures now == Remove(old(now), Elements(hashes))
    {
      var next, _, purge := SplitDropped(now.mempool, Elements(hashes), now.confirmed);
      now := now.(mempool := next, index := now.index - purge);
    }

    method AbandonPendingBlock(drop: seq<string>) returns (returned: nat, dropped: nat)
      modifies this`now
      ensures now == Abandon(old(now), Elements(drop) - {""})
      ensures returned == |now.mempool| - |old(now.mempool)|
      ensures returned + dropped == |Without(old(now.pending), {""})|
    {
      var dropSet := Elements(drop) - {""};
      var named, _, _ := SplitDropped(now.pending, {""}, now.confirmed);
      var keep, gone, purge := SplitDropped(named, dropSet, now.confirmed);
      WithoutTwice(now.pending, {""}, dropSet);
      assert {""} + dropSet == dropSet + {""};
      UnindexedNamed(now.pending, dropSet, now.confirmed);
      returned, dropped := |keep|, gone;
      now := now.(mempool := now.mempool + keep, index := now.index - purge, pending := []);
    }

    method L1CollectSelected(selected: seq<Tx>) returns (moved: seq<Tx>)
      modifies this`now
      ensures now == Collect(old(now), selected)
      ensures moved == if selected == [] then [] else now.pending
    {
      if |selected| == 0 {
        return [];
      }
      var remaining;
      moved, remaining := SplitCollected(now.mempool, HashSet(selected) - {""});
      now := now.(mempool := remaining, pending := moved);
    }

    method PruneMempool(ledger: map<string, nat>, rocksListed: set<string>, clock: int) returns (removed: nat)
      modifies this
      ensures now == PruneAt(old(now), Prune.ViewOf(old(now), ledger, rocksListed, clock))
      ensures removed == |old(now.mempool)| - |now.mempool|
      ensures pool == old(pool) - (HashSet(old(now.mempool)) - HashSet(now.mempool) - {""})
    {
      var before := now.mempool;
      var v := Prune.View(Listed(now.history) + rocksListed + HashSet(now.pending),
                          Prune.NoncesFor(ledger, before), clock);
      var kept, gone := Prune.KeepFirst(v, before);
      var left := Prune.DropUnpackable(v, kept);
      PrunedNothing(v, before);
      removed := gone + (|kept| - |left|);
      if removed > 0 {
        now := now.(mempool := left);
      }
      pool := pool - (HashSet(before) - HashSet(left) - {""});
    }

    // ----- the chain file -----

    method PersistChain(writeOk: bool) returns (ok: bool)
      modifies this`now
      ensures ok == PersistSucceeds(old(now), writeOk)
      ensures now == Persist(old(now), writeOk)
    {
      if !now.persistent {
        return true;
      }
      var nextHead := Recovery.MaxNumber(now.history);
      if now.durableHead >= 0 && nextHead < now.durableHead {
        return false;
      }
      if !writeOk {
        return false;
      }
      now := now.(chainFile := Some(ChainFile(now.counter, now.fees, now.history, now.index, now.blockOf)));
      if nextHead > now.durableHead {
        now := now.(durableHead := nextHead);
      }
      ok := true;
    }

    // ----- confirming and undoing in the explorer -----

    method PostBatch(txs: seq<Tx>, n: int)
      modifies this`now
      ensures now == PostAll(old(now), txs, n)
    {
      var total, _, _ := Summarize(txs);
      var rows, stamps, hashes := FileRows(now.index, now.blockOf, txs, n);
      var lists := FileUnderAddresses(now.byAddress, txs);
      var last := if |txs| > 0 then Some(txs[|txs| - 1]) else now.lastTx;
      now := now.(fees := now.fees + total, index := rows, blockOf := stamps, byAddress := lists,
                  lastTx := last, confirmed := now.confirmed + hashes);
    }

    method ConfirmBatch(txs: seq<Tx>, clock: int) returns (b: Block)
      modifies this`now
      ensures b == NextBlock(old(now), txs, clock)
      ensures now == ConfirmExplorer(old(now), txs, clock)
    {
      var number := now.counter;
      var total, hashes, stamp := Summarize(txs);
      PostBatch(txs, number);
      if stamp == 0 {
        stamp := if now.lastTx.Some? then now.lastTx.value.timestamp else clock;
      }
      b := Block(number, stamp, hashes, total, "", 0, 0, map[], map[]);
      now := now.(counter := now.counter + 1, pending := [], history := now.history + [b]);
    }

    method UndoExplorerConfirm(b: Block, moved: seq<Tx>, requeue: Requeue)
      modifies this`now
      ensures now == UndoExplorer(old(now), b, moved, requeue)
    {
      DropTipRecord(b);
      var left := now.fees - b.totalFees;
      now := now.(fees := if left < 0 then 0 else left);
      UnpostBatch(moved, requeue);
    }

    method DropTipRecord(b: Block)
      modifies this`now
      ensures now == DropTip(old(now), b)
    {
      var n := |now.history|;
      if n > 0 && now.history[n - 1].number == b.number {
        now := now.(history := now.history[..n - 1],
                    counter := if now.counter == b.number + 1 then b.number else now.counter);
      }
    }

    method UnpostBatch(moved: seq<Tx>, requeue: Requeue)
      modifies this`now
      ensures now == UnpostAll(old(now), moved, requeue)
    {
      var _, stamps, hashes := FileRows(map[], now.blockOf, moved, 0);
      var lists := ScrubAddresses(now.byAddress, moved);
      now := now.(index := now.index - hashes, confirmed := now.confirmed - hashes, byAddress := lists,
                  blockOf := stamps,
                  lastTx := if now.lastTx.Some? && now.lastTx.value.hash in hashes then None else now.lastTx);
      match requeue {
        case ToMempool => now := now.(mempool := now.mempool + moved);
        case ToPending => now := now.(pending := now.pending + moved);
      }
    }

    // ----- Core apply -----

    /** Applies a batch through Core under a state backup; the order may come from a DAG commit. */
    method ApplyConfirmedTransactions(txs: seq<Tx>, in_: ApplyInput) returns (ok: bool)
      modifies this`now
      ensures ok == ApplySucceeds(old(now), txs, in_)
      ensures now == Apply(old(now), txs, in_)
    {
      if in_.run == NoSnapshot {
        return false;
      }
      var start := now.core;
      now := now.(backup := Some(start));
      var order := MaybeDagReorder(txs, in_.dag);
      if order.None? {
        now := now.(core := start, backup := None);
        return false;
      }
      if in_.run.StopsAfter? {
        var taken := if in_.run.taken < |order.value| then in_.run.taken else |order.value|;
        now := now.(core := start + order.value[..taken]);
        now := now.(core := start, backup := None);
        return false;
      }
      now := now.(core := start + order.value);
      ok := true;
    }

    method MaybeDagReorder(txs: seq<Tx>, dag: DagInput) returns (order: Option<seq<Tx>>)
      modifies this`now
      ensures order == ApplyOrder(dag, old(now.dagDigests), txs)
      ensures now == old(now).(dagDigests := CacheLeft(dag, old(now.dagDigests), txs))
    {
      if !WantsOrder(dag, txs) {
        return Some(txs);
      }
      var cached := now.dagDigests;
      var overlap := OverlapCount(cached, txs);
      if overlap > 0 {
        var sorted := DagOrder.PermuteByDigests(cached, txs, HashOf);
        now := now.(dagDigests := []);
        return Some(sorted);
      }
      match dag.answer {
        case OrderError => return None;
        case NoOrder => return Some(txs);
        case Ordered(digests) =>
          if |digests| == 0 {
            return Some(txs);
          }
          var sorted := DagOrder.PermuteByDigests(digests, txs, HashOf);
          return Some(sorted);
      }
    }

    // ----- L2 confirm and peers -----

    /** The pool fields as other goroutines leave them while the lock is free. */
    method Unlocked(p: Pools)
      modifies this`now
      ensures now == Disturb(old(now), p)
    {
      now := now.(mempool := p.mempool, pending := p.pending, index := p.index,
                  byAddress := p.byAddress, lastTx := p.lastTx);
    }

    method L2ConfirmBlock(in_: L2Input) returns (r: L2Result)
      modifies this`now
      ensures (now, r) == L2Confirm(old(now), in_)
    {
      var txs := now.pending;
      var applied := ApplyConfirmedTransactions(txs, in_.apply);
      if !applied {
        return ApplyFailed;
      }
      Unlocked(in_.during);
      var same := SameHashesInOrder(now.pending, txs);
      if !same {
        now := RestoreCore(now).(pending := []);
        return Fenced;
      }
      var b := ConfirmBatch(txs, in_.clock);
      var ok := PersistChain(in_.writeOk);
      if !ok {
        now := RestoreCore(now);
        UndoExplorerConfirm(b, txs, ToPending);
        return PersistFailed;
      }
      r := Confirmed(txs, b);
    }

    method UndoLastConfirmedBlock(b: Block, moved: seq<Tx>, writeOk: bool)
      modifies this`now
      ensures now == UndoConfirmed(old(now), b, moved, writeOk)
    {
      var kept := now.backup.Some?;
      now := RestoreCore(now);
      UndoExplorerConfirm(b, moved, ToPending);
      if kept {
        var _ := PersistChain(writeOk);
      }
    }

    method ApplyBlockHeader(n: int, hash: string, writeOk: bool)
      modifies this`now
      ensures now == ApplyHeader(old(now), n, hash, writeOk)
    {
      var blocks := now.history;
      for i := 0 to |blocks|
        invariant now == old(now)
        invariant forall k :: 0 <= k < i ==> blocks[k].number != n
      {
        if blocks[i].number == n {
          assert blocks[i] in blocks;
          SetHashAt(blocks, i, hash);
          now := now.(history := blocks[i := blocks[i].(blockHash := hash)]);
          var _ := PersistChain(writeOk);
          return;
        }
      }
    }

    method AddConfirmedBlock(b: Block, txs: seq<Tx>, apply: ApplyInput, during: Option<Pools>, writeOk: bool)
      returns (r: Peers.PeerResult)
      modifies this`now
      ensures (now, r) == Peers.AddConfirmed(old(now), b, txs, apply, during, writeOk)
    {
      var held := FindHeight(now.history, b.number);
      if held.Some? {
        if held.value.blockHash == b.blockHash {
          return Peers.Known;
        }
        return Peers.ForkConflict(Peers.PreferBlock(held.value, b));
      }
      var applied := ApplyConfirmedTransactions(txs, apply);
      if !applied {
        return Peers.PeerApplyFailed;
      }
      PerhapsUnlocked(during);
      TakePeerBlock(b, txs);
      r := WriteOrUndo(b, txs, writeOk);
    }

    method PerhapsUnlocked(p: Option<Pools>)
      modifies this`now
      ensures now == Peers.Meanwhile(old(now), p)
    {
      if p.Some? {
        Unlocked(p.value);
      }
    }

    /** The explorer takes the block in, and its hashes leave the pools. */
    method TakePeerBlock(b: Block, txs: seq<Tx>)
      modifies this`now
      ensures now == Peers.TakeIn(old(now), b, txs)
    {
      var raised := if b.number >= 0 && b.number + 1 > now.counter then b.number + 1 else now.counter;
      PostBatch(txs, b.number);
      var mempool, _, _ := SplitDropped(now.mempool, HashSet(txs), {});
      var pending, _, _ := SplitDropped(now.pending, HashSet(txs), {});
      now := now.(counter := raised, confirmed := now.confirmed + (Elements(b.txHashes) - {""}),
                  mempool := mempool, pending := pending, history := now.history + [b]);
    }

    method WriteOrUndo(b: Block, txs: seq<Tx>, writeOk: bool) returns (r: Peers.PeerResult)
      modifies this`now
      ensures (now, r) == Peers.TakeOrUndo(old(now), b, txs, writeOk)
    {
      var ok := PersistChain(writeOk);
      if ok {
        return Peers.Added;
      }
      now := RestoreCore(now);
      UndoExplorerConfirm(b, txs, ToMempool);
      r := Peers.PeerPersistFailed;
    }

    // ----- starting again -----

    /** Reads the chain file back; rows meet no order, so the address lists follow some enumeration of them. */
    method LoadChainFile() returns (ghost rows: seq<Tx>)
      modifies this`now
      ensures old(now.chainFile).None? ==> now == old(now)
      ensures old(now.chainFile).Some? ==>
                && Recovery.Loaded(old(now), old(now.chainFile).value, now)
                && now.byAddress == TouchAll(map[], rows) && now.lastTx == LastOf(rows, old(now.lastTx))
      ensures forall t :: t in rows ==> exists h :: h in now.index && now.index[h] == t
    {
      rows := [];
      if now.chainFile.None? {
        return;
      }
      var file := now.chainFile.value;
      var index := file.index - {""};
      var order := SomeOrder(index);
      rows := order;
      var lists := FileUnderAddresses(map[], order);
      var blocks, grew := Recovery.AttachConfirmedTxs(file.blocks, index, file.blockOf);
      var head := Recovery.MaxNumber(blocks);
      var confirmed := set h | h in index && Recovery.BlockOf(file.blockOf, h) >= 0;
      now := now.(index := index, blockOf := file.blockOf, fees := file.fees, byAddress := lists,
                  lastTx := if |order| > 0 then Some(order[|order| - 1]) else now.lastTx, confirmed := confirmed,
                  history := blocks, persistent := true,
                  counter := if grew && head >= 0 && file.counter <= head then head + 1 else file.counter,
                  durableHead := if head > now.durableHead then head else now.durableHead);
    }

    /** Drops blocks Rocks never committed and puts their transactions, and the pooled ones, back in the mempool. */
    method RestoreDurableTxs(rocks: Option<int>, writeOk: bool)
      returns (restored: nat, ghost order: seq<Tx>, ghost before: State)
      modifies this
      ensures Recovery.Restored(old(now), old(pool), rocks, before, pool, order)
      ensures now == if Recovery.DropsLead(old(now.history), rocks) then Persist(before, writeOk) else before
      ensures restored == |Recovery.Returning(old(now), old(pool), rocks)|
    {
      var after, left, dropped;
      after, left, dropped, restored, order := Recovery.RestoreValues(now, pool, rocks);
      now, pool, before := after, left, after;
      if dropped {
        var _ := PersistChain(writeOk);
      }
    }
  }

  /** Scans the pending block, then the mempool, for the first entry sharing t's hash or slot. */
  method CheckClash(pending: seq<Tx>, mempool: seq<Tx>, t: Tx) returns (r: Admission)
    ensures var clash := FirstClash(pending + mempool, t);
            r == if clash.None? then Admitted else if clash.value.hash == t.hash then AlreadyKnown else NonceTaken
  {
    var all := pending + mempool;
    for i := 0 to |all|
      invariant forall k :: 0 <= k < i ==> !Clash(all[k], t)
    {
      var x := all[i];
      if x.hash == t.hash {
        FirstClashAt(all, t, i);
        return AlreadyKnown;
      }
      if x.from == t.from && x.nonce == t.nonce {
        FirstClashAt(all, t, i);
        return NonceTaken;
      }
    }
    r := Admitted;
  }

  function Named(cached: seq<string>, batch: set<string>): seq<string> {
    if cached == [] then []
    else Named(cached[..|cached| - 1], batch) + if cached[|cached| - 1] in batch then [cached[|cached| - 1]] else []
  }

  lemma {:induction false} NamedMembers(cached: seq<string>, batch: set<string>)
    ensures forall d :: d in Named(cached, batch) <==> d in cached && d in batch
    decreases |cached|
  {
    if cached != [] {
      NamedMembers(cached[..|cached| - 1], batch);
      assert cached == cached[..|cached| - 1] + [cached[|cached| - 1]];
    }
  }

  /** How many cached digests name a transaction of the batch. */
  method OverlapCount(cached: seq<string>, txs: seq<Tx>) returns (n: nat)
    ensures n == |Named(cached, HashSet(txs) - {""})|
    ensures n > 0 <==> Overlaps(cached, txs)
  {
    n := 0;
    var batch := HashSet(txs) - {""};
    for i := 0 to |cached|
      invariant n == |Named(cached[..i], batch)|
    {
      assert cached[..i + 1][..i] == cached[..i];
      if cached[i] in batch {
        n := n + 1;
      }
    }
    assert cached[..|cached|] == cached;
    NamesSomething(cached, txs);
  }

  lemma NamesSomething(cached: seq<string>, txs: seq<Tx>)
    ensures Named(cached, HashSet(txs) - {""}) != [] <==> Overlaps(cached, txs)
  {
    NamedMembers(cached, HashSet(txs) - {""});
    var named := Named(cached, HashSet(txs) - {""});
    if named != [] {
      assert named[0] in named;
    }
  }

  /** The fence: equal length and equal hashes, place by place. */
  method SameHashesInOrder(a: seq<Tx>, b: seq<Tx>) returns (same: bool)
    ensures same <==> Hashes(a) == Hashes(b)
  {
    if |a| != |b| {
      return false;
    }
    for i := 0 to |a|
      invariant forall k :: 0 <= k < i ==> a[k].hash == b[k].hash
    {
      if a[i].hash != b[i].hash {
        assert Hashes(a)[i] != Hashes(b)[i];
        return false;
      }
    }
    same := true;
  }

  method FindHeight(blocks: seq<Block>, n: int) returns (r: Option<Block>)
    ensures r == Peers.AtHeight(blocks, n)
  {
    for i := 0 to |blocks|
      invariant Peers.AtHeight(blocks, n) == Peers.AtHeight(blocks[i..], n)
    {
      if blocks[i].number == n {
        return Some(blocks[i]);
      }
    }
    r := None;
  }

  lemma {:induction false} SetHashAt(blocks: seq<Block>, i: nat, hash: string)
    requires i < |blocks| && forall k :: 0 <= k < i ==> blocks[k].number != blocks[i].number
    ensures SetHash(blocks, blocks[i].number, hash) == blocks[i := blocks[i].(blockHash := hash)]
    decreases |blocks|
  {
    var b := blocks[i].(blockHash := hash);
    if i == 0 {
      assert blocks[0 := b] == [b] + blocks[1..];
    } else {
      SetHashAt(blocks[1..], i - 1, hash);
      assert blocks[i := b] == [blocks[0]] + blocks[1..][i - 1 := b];
    }
  }

  /** When nothing was removed, nothing was replaced or moved either. */
  lemma PrunedNothing(v: Prune.View, txs: seq<Tx>)
    ensures |Prune.Pruned(v, txs)| <= |Prune.FirstPass(v, txs)| <= |txs|
    ensures |Prune.Pruned(v, txs)| == |txs| ==> Prune.Pruned(v, txs) == txs
  {
    var first := Prune.FirstPass(v, txs);
    FirstPassLength(v, txs);
    WithoutLength(first, Prune.Doomed(v, first));
  }

  lemma {:induction false} FirstPassLength(v: Prune.View, txs: seq<Tx>)
    ensures |Prune.FirstPass(v, txs)| <= |txs|
    ensures |Prune.FirstPass(v, txs)| == |txs| ==> Prune.FirstPass(v, txs) == txs
    decreases |txs|
  {
    if txs != [] {
      var k := |txs| - 1;
      FirstPassLength(v, txs[..k]);
      assert txs == txs[..k] + [txs[k]];
    }
  }

  lemma {:induction false} WithoutLength(txs: seq<Tx>, hs: set<string>)
    ensures |Without(txs, hs)| <= |txs|
    ensures |Without(txs, hs)| == |txs| ==> Without(txs, hs) == txs
    decreases |txs|
  {
    if txs != [] {
      var k := |txs| - 1;
      WithoutLength(txs[..k], hs);
      assert txs == txs[..k] + [txs[k]];
    }
  }

  method RemoveFromAddressIndex(list: seq<Tx>, hash: string) returns (out: seq<Tx>)
    ensures out == Unlist(list, hash)
  {
    if |list| == 0 || hash == "" {
      return list;
    }
    out := [];
    for i := 0 to |list|
      invariant out == Without(list[..i], {hash})
    {
      assert list[..i + 1][..i] == list[..i];
      if list[i].hash != hash {
        out := out + [list[i]];
      }
    }
    assert list[..|list|] == list;
  }

  /** Files every transaction under its hash, with its block number. */
  method FileRows(index: Rows, blockOf: map<string, int>, txs: seq<Tx>, n: int)
    returns (rows: Rows, stamps: map<string, int>, hashes: set<string>)
    ensures rows == IndexAll(index, txs) && stamps == StampAll(blockOf, txs, n) && hashes == HashSet(txs)
  {
    rows, stamps, hashes := index, blockOf, {};
    for i := 0 to |txs|
      invariant rows == IndexAll(index, txs[..i]) && stamps == StampAll(blockOf, txs[..i], n)
      invariant hashes == HashSet(txs[..i])
    {
      RowsStep(index, blockOf, txs, i, n);
      HashSetStep(txs, i);
      rows, stamps, hashes := rows[txs[i].hash := txs[i]], stamps[txs[i].hash := n], hashes + {txs[i].hash};
    }
    assert txs[..|txs|] == txs;
  }

  lemma RowsStep(index: Rows, blockOf: map<string, int>, txs: seq<Tx>, i: nat, n: int)
    requires i < |txs|
    ensures IndexAll(index, txs[..i + 1]) == IndexAll(index, txs[..i])[txs[i].hash := txs[i]]
    ensures StampAll(blockOf, txs[..i + 1], n) == StampAll(blockOf, txs[..i], n)[txs[i].hash := n]
  {
    assert txs[..i + 1][..i] == txs[..i];
  }

  /** Appends every transaction to the lists of its sender and its receiver. */
  method FileUnderAddresses(byAddress: map<string, seq<Tx>>, txs: seq<Tx>) returns (lists: map<string, seq<Tx>>)
    ensures lists == TouchAll(byAddress, txs)
  {
    lists := byAddress;
    for i := 0 to |txs|
      invariant lists == TouchAll(byAddress, txs[..i])
    {
      assert txs[..i + 1][..i] == txs[..i];
      var t := txs[i];
      lists := lists[t.from := At(lists, t.from) + [t]];
      lists := lists[t.to := At(lists, t.to) + [t]];
    }
    assert txs[..|txs|] == txs;
  }

  /** Takes every transaction off the lists of its two addresses. */
  method ScrubAddresses(byAddress: map<string, seq<Tx>>, moved: seq<Tx>) returns (lists: map<string, seq<Tx>>)
    ensures lists == UntouchAll(byAddress, moved)
  {
    lists := byAddress;
    for i := 0 to |moved|
      invariant lists == UntouchAll(byAddress, moved[..i])
    {
      assert moved[..i + 1][..i] == moved[..i];
      var t := moved[i];
      if t.from != "" {
        var list := RemoveFromAddressIndex(At(lists, t.from), t.hash);
        lists := lists[t.from := list];
      }
      if t.to != "" {
        var list := RemoveFromAddressIndex(At(lists, t.to), t.hash);
        lists := lists[t.to := list];
      }
    }
    assert moved[..|moved|] == moved;
  }

  /** The fee sum, the hashes and the time of the block that txs make. */
  method Summarize(txs: seq<Tx>) returns (total: nat, hashes: seq<string>, stamp: int)
    ensures total == SumFees(txs) && hashes == Hashes(txs) && stamp == BlockStamp(txs)
  {
    total, hashes, stamp := 0, [], 0;
    for i := 0 to |txs|
      invariant total == SumFees(txs[..i]) && hashes == Hashes(txs[..i]) && stamp == BlockStamp(txs[..i])
    {
      var t := txs[i];
      assert txs[..i + 1][..i] == txs[..i];
      var fee := t.feeText;
      if fee == 0 && t.feeUplp > 0 {
        fee := t.feeUplp;
      }
      total := total + fee;
      hashes := hashes + [t.hash];
      if stamp == 0 || t.timestamp > 0 {
        stamp := t.timestamp;
      }
      assert hashes == Hashes(txs[..i + 1]);
    }
    assert txs[..|txs|] == txs;
  }

  /** The rows of an index in some order. */
  method SomeOrder(index: Rows) returns (rows: seq<Tx>)
    ensures forall t :: t in rows ==> exists h :: h in index && index[h] == t
    ensures forall h :: h in index ==> index[h] in rows
  {
    rows := [];
    var todo := index.Keys;
    while todo != {}
      invariant todo <= index.Keys
      invariant forall t :: t in rows ==> exists h :: h in index && index[h] == t
      invariant forall h :: h in index && h !in todo ==> index[h] in rows
      decreases todo
    {
      var h :| h in todo;
      rows := rows + [index[h]];
      todo := todo - {h};
    }
  }

  /** The entries outside drop, how many were in it, and whose index rows go. */
  method SplitDropped(txs: seq<Tx>, drop: set<string>, confirmed: set<string>)
    returns (keep: seq<Tx>, gone: nat, purge: set<string>)
    ensures keep == Without(txs, drop)
    ensures gone == |txs| - |keep|
    ensures purge == Unindexed(txs, drop, confirmed)
  {
    keep, gone, purge := [], 0, {};
    for i := 0 to |txs|
      invariant keep == Without(txs[..i], drop) && gone + |keep| == i
      invariant purge == Unindexed(txs[..i], drop, confirmed)
    {
      var t := txs[i];
      assert txs[..i + 1][..i] == txs[..i];
      assert txs[..i + 1] == txs[..i] + [t];
      UnindexedStep(txs[..i], t, drop, confirmed);
      if t.hash !in drop {
        keep := keep + [t];
      } else {
        gone := gone + 1;
        if t.hash != "" && t.hash !in confirmed {
          purge := purge + {t.hash};
        }
      }
    }
    assert txs[..|txs|] == txs;
  }

  lemma UnindexedNamed(txs: seq<Tx>, drop: set<string>, confirmed: set<string>)
    ensures Unindexed(Without(txs, {""}), drop, confirmed) == Unindexed(txs, drop, confirmed)
  {
    WithoutMembers(txs, {""});
  }

  /** The first entry of each picked hash, and the rest. */
  method SplitCollected(txs: seq<Tx>, pick: set<string>) returns (moved: seq<Tx>, remaining: seq<Tx>)
    ensures moved == Collected(txs, pick) && remaining == Remaining(txs, pick)
  {
    var open := pick;
    moved, remaining := [], [];
    for i := 0 to |txs|
      invariant open == pick - HashSet(txs[..i])
      invariant moved == Collected(txs[..i], pick) && remaining == Remaining(txs[..i], pick)
    {
      var t := txs[i];
      assert txs[..i + 1][..i] == txs[..i];
      HashSetStep(txs, i);
      if t.hash in open {
        moved := moved + [t];
        open := open - {t.hash};
      } else {
        remaining := remaining + [t];
      }
    }
    assert txs[..|txs|] == txs;
  }

  lemma HashSetStep(txs: seq<Tx>, i: nat)
    requires i < |txs|
    ensures HashSet(txs[..i + 1]) == HashSet(txs[..i]) + {txs[i].hash}
  {
    assert txs[..i + 1] == txs[..i] + [txs[i]];
  }

  lemma {:induction false} FirstClashAt(txs: seq<Tx>, t: Tx, i: nat)
    requires i < |txs| && Clash(txs[i], t)
    requires forall k :: 0 <= k < i ==> !Clash(txs[k], t)
    ensures FirstClash(txs, t) == Some(txs[i])
    decreases |txs|
  {
    var n := |txs| - 1;
    if i < n {
      FirstClashAt(txs[..n], t, i);
    } else {
      assert forall x :: x in txs[..n] ==> !Clash(x, t);
    }
  }

  lemma UnindexedStep(txs: seq<Tx>, t: Tx, hs: set<string>, confirmed: set<string>)
    ensures Unindexed(txs + [t], hs, confirmed) ==
            Unindexed(txs, hs, confirmed) +
            if t.hash in hs && t.hash != "" && t.hash !in confirmed then {t.hash} else {}
  {
    assert forall x :: x in txs + [t] <==> x in txs || x == t;
  }
}
