/**
 The gateway's ledger front end as values: transactions, block records, the
 fields of the Blockchain object, and what each of its operations does to them.
 */
module Ledger {
  import opened Sequences
  import DagOrder

  const FAUCET := "faucet"

  /** feeText is the parsed decimal fee, feeUplp the fee in micro-units; signed: carries a main signature. */
  datatype Tx = Tx(hash: string, from: string, to: string, feeText: nat, feeUplp: nat, nonce: int,
                   timestamp: int, kind: string, signed: bool)
  {
    /** The fee a block records: the text, or the micro-unit fee when the text gives none. */
    function Fee(): nat {
      if feeText == 0 && feeUplp > 0 then feeUplp else feeText
    }
  }

  datatype Block = Block(number: int, timestamp: int, txHashes: seq<string>, totalFees: int, blockHash: string,
                         l1Yes: int, l2Yes: int, l1Votes: map<string, bool>, l2Votes: map<string, bool>)

  /** Rows are filed under their own hash. */
  predicate WellKeyed(rows: map<string, Tx>) {
    forall h :: h in rows ==> rows[h].hash == h
  }

  /** Transactions by hash, as every writer and every loader of the maps files them. */
  type Rows = rows: map<string, Tx> | WellKeyed(rows)

  /** The chain cache on disk. blockOf holds the block numbers of its rows. */
  datatype ChainFile = ChainFile(counter: int, fees: int, blocks: seq<Block>,
                                 index: Rows, blockOf: map<string, int>)

  /**
   The Blockchain object. core is Core's state, seen as the transactions it has
   applied; backup is the state copy kept while a confirm is not yet durable.
   */
  datatype State = State(
    mempool: seq<Tx>, pending: seq<Tx>,
    index: Rows, byAddress: map<string, seq<Tx>>, lastTx: Option<Tx>, blockOf: map<string, int>,
    history: seq<Block>, counter: int, fees: int, confirmed: set<string>,
    durableHead: int, persistent: bool, chainFile: Option<ChainFile>,
    core: seq<Tx>, backup: Option<seq<Tx>>, dagDigests: seq<string>)

  // ----- reading transactions and blocks -----

  function HashOf(t: Tx): string { t.hash }

  function Hashes(txs: seq<Tx>): (hs: seq<string>)
    ensures |hs| == |txs|
    ensures forall i :: 0 <= i < |txs| ==> hs[i] == txs[i].hash
  {
    DagOrder.HashesOf(txs, HashOf)
  }

  function HashSet(txs: seq<Tx>): set<string> {
    set t | t in txs :: t.hash
  }

  function SumFees(txs: seq<Tx>): nat {
    if txs == [] then 0 else SumFees(txs[..|txs| - 1]) + txs[|txs| - 1].Fee()
  }

  /** The running total of the fees recorded in a history. */
  function RecordedFees(blocks: seq<Block>): int {
    if blocks == [] then 0 else RecordedFees(blocks[..|blocks| - 1]) + blocks[|blocks| - 1].totalFees
  }

  /** Hashes listed by any block of a history. */
  function Listed(blocks: seq<Block>): set<string> {
    set b, h | b in blocks && h in b.txHashes :: h
  }

  /** Greatest block number, or -1 for an empty history. */
  function HistoryHead(blocks: seq<Block>): int {
    if blocks == [] then -1
    else
      var before := HistoryHead(blocks[..|blocks| - 1]);
      var n := blocks[|blocks| - 1].number;
      if n > before then n else before
  }

  /** The transactions whose hash is not in hs, in order. */
  function Without(txs: seq<Tx>, hs: set<string>): seq<Tx> {
    if txs == [] then []
    else
      var before := Without(txs[..|txs| - 1], hs);
      var t := txs[|txs| - 1];
      if t.hash in hs then before else before + [t]
  }

  function At(byAddress: map<string, seq<Tx>>, a: string): seq<Tx> {
    if a in byAddress then byAddress[a] else []
  }

  // ----- confirming in the explorer -----

  function Touch(byAddress: map<string, seq<Tx>>, a: string, t: Tx): map<string, seq<Tx>> {
    byAddress[a := At(byAddress, a) + [t]]
  }

  function TouchAll(byAddress: map<string, seq<Tx>>, txs: seq<Tx>): map<string, seq<Tx>> {
    if txs == [] then byAddress
    else
      var t := txs[|txs| - 1];
      Touch(Touch(TouchAll(byAddress, txs[..|txs| - 1]), t.from, t), t.to, t)
  }

  function IndexAll(index: Rows, txs: seq<Tx>): Rows {
    if txs == [] then index else IndexAll(index, txs[..|txs| - 1])[txs[|txs| - 1].hash := txs[|txs| - 1]]
  }

  function StampAll(blockOf: map<string, int>, txs: seq<Tx>, n: int): map<string, int> {
    if txs == [] then blockOf else StampAll(blockOf, txs[..|txs| - 1], n)[txs[|txs| - 1].hash := n]
  }

  function LastOf(txs: seq<Tx>, otherwise: Option<Tx>): Option<Tx> {
    if txs == [] then otherwise else Some(txs[|txs| - 1])
  }

  /** What confirming txs into block number n does to the indexes and totals. */
  function PostAll(s: State, txs: seq<Tx>, n: int): State {
    s.(fees := s.fees + SumFees(txs),
       blockOf := StampAll(s.blockOf, txs, n),
       index := IndexAll(s.index, txs),
       lastTx := LastOf(txs, s.lastTx),
       byAddress := TouchAll(s.byAddress, txs),
       confirmed := s.confirmed + HashSet(txs))
  }

  /** The last positive timestamp; the last timestamp while none is positive and none non-zero. */
  function BlockStamp(txs: seq<Tx>): int {
    if txs == [] then 0
    else
      var before := BlockStamp(txs[..|txs| - 1]);
      var ts := txs[|txs| - 1].timestamp;
      if before == 0 || ts > 0 then ts else before
  }

  /** The record of the next block over txs; clock stands in when nothing carries a time. */
  function NextBlock(s: State, txs: seq<Tx>, clock: int): Block {
    var stamp := BlockStamp(txs);
    var last := LastOf(txs, s.lastTx);
    Block(s.counter,
          if stamp != 0 then stamp else if last.Some? then last.value.timestamp else clock,
          Hashes(txs), SumFees(txs), "", 0, 0, map[], map[])
  }

  function ConfirmExplorer(s: State, txs: seq<Tx>, clock: int): State {
    PostAll(s, txs, s.counter).(
      counter := s.counter + 1,
      pending := [],
      history := s.history + [NextBlock(s, txs, clock)])
  }

  // ----- undoing a confirm in the explorer -----

  function Unlist(list: seq<Tx>, hash: string): seq<Tx> {
    if hash == "" then list else Without(list, {hash})
  }

  function Untouch(byAddress: map<string, seq<Tx>>, a: string, hash: string): map<string, seq<Tx>> {
    if a == "" then byAddress else byAddress[a := Unlist(At(byAddress, a), hash)]
  }

  function UntouchAll(byAddress: map<string, seq<Tx>>, moved: seq<Tx>): map<string, seq<Tx>> {
    if moved == [] then byAddress
    else
      var t := moved[|moved| - 1];
      Untouch(Untouch(UntouchAll(byAddress, moved[..|moved| - 1]), t.from, t.hash), t.to, t.hash)
  }

  datatype Requeue = ToPending | ToMempool

  function UnpostAll(s: State, moved: seq<Tx>, requeue: Requeue): State {
    s.(index := s.index - HashSet(moved),
       confirmed := s.confirmed - HashSet(moved),
       lastTx := if s.lastTx.Some? && s.lastTx.value.hash in HashSet(moved) then None else s.lastTx,
       byAddress := UntouchAll(s.byAddress, moved),
       blockOf := StampAll(s.blockOf, moved, 0),
       mempool := if requeue.ToMempool? then s.mempool + moved else s.mempool,
       pending := if requeue.ToPending? then s.pending + moved else s.pending)
  }

  predicate IsTip(s: State, b: Block) {
    s.history != [] && s.history[|s.history| - 1].number == b.number
  }

  function DropTip(s: State, b: Block): State {
    if IsTip(s, b)
    then s.(history := s.history[..|s.history| - 1],
            counter := if s.counter == b.number + 1 then b.number else s.counter)
    else s
  }

  function UndoExplorer(s: State, b: Block, moved: seq<Tx>, requeue: Requeue): State {
    var left := s.fees - b.totalFees;
    UnpostAll(DropTip(s, b).(fees := if left < 0 then 0 else left), moved, requeue)
  }

  // ----- the chain file -----

  function Snapshot(s: State): ChainFile {
    ChainFile(s.counter, s.fees, s.history, s.index, s.blockOf)
  }

  /** Writing is refused when it would lower the durable head, and may fail by itself. */
  predicate PersistSucceeds(s: State, writeOk: bool) {
    !s.persistent || (!(s.durableHead >= 0 && HistoryHead(s.history) < s.durableHead) && writeOk)
  }

  function Persist(s: State, writeOk: bool): State {
    if !s.persistent || !PersistSucceeds(s, writeOk) then s
    else
      var head := HistoryHead(s.history);
      s.(chainFile := Some(Snapshot(s)), durableHead := if head > s.durableHead then head else s.durableHead)
  }

  function FileHead(s: State): int {
    if s.chainFile.Some? then HistoryHead(s.chainFile.value.blocks) else -1
  }

  // ----- what the batch recursions add up to -----

  /** The entries a batch leaves under an address. */
  function Touched(txs: seq<Tx>, a: string): seq<Tx> {
    if txs == [] then []
    else
      var t := txs[|txs| - 1];
      Touched(txs[..|txs| - 1], a) + (if t.from == a then [t] else []) + (if t.to == a then [t] else [])
  }

  lemma {:induction false} TouchAllAt(byAddress: map<string, seq<Tx>>, txs: seq<Tx>, a: string)
    ensures At(TouchAll(byAddress, txs), a) == At(byAddress, a) + Touched(txs, a)
    decreases |txs|
  {
    if txs != [] {
      TouchAllAt(byAddress, txs[..|txs| - 1], a);
    }
  }

  lemma {:induction false} IndexAllKeys(index: Rows, txs: seq<Tx>)
    ensures IndexAll(index, txs).Keys == index.Keys + HashSet(txs)
    ensures forall h :: h in index && h !in HashSet(txs) ==> IndexAll(index, txs)[h] == index[h]
    decreases |txs|
  {
    if txs != [] {
      var k := |txs| - 1;
      IndexAllKeys(index, txs[..k]);
      assert HashSet(txs) == HashSet(txs[..k]) + {txs[k].hash};
    }
  }

  /** The hashes an undo scrubs from an address's list. */
  function Scrubbed(moved: seq<Tx>, a: string): set<string> {
    set t | t in moved && a != "" && t.hash != "" && (t.from == a || t.to == a) :: t.hash
  }

  lemma UntouchBoth(byAddress: map<string, seq<Tx>>, t: Tx, a: string)
    ensures At(Untouch(Untouch(byAddress, t.from, t.hash), t.to, t.hash), a) ==
            Without(At(byAddress, a), Scrubbed([t], a))
  {
    var list := At(byAddress, a);
    if a != "" && t.hash != "" && (t.from == a || t.to == a) {
      assert t in [t];
      assert Scrubbed([t], a) == {t.hash};
      if t.from == a && t.to == a {
        WithoutTwice(list, {t.hash}, {t.hash});
        assert {t.hash} + {t.hash} == {t.hash};
      }
    } else {
      assert Scrubbed([t], a) == {};
      WithoutNone(list, {});
    }
  }

  lemma {:induction false} UntouchAllAt(byAddress: map<string, seq<Tx>>, moved: seq<Tx>, a: string)
    ensures At(UntouchAll(byAddress, moved), a) == Without(At(byAddress, a), Scrubbed(moved, a))
    decreases |moved|
  {
    if moved == [] {
      WithoutNone(At(byAddress, a), {});
      assert Scrubbed(moved, a) == {};
    } else {
      var k := |moved| - 1;
      UntouchAllAt(byAddress, moved[..k], a);
      UntouchBoth(UntouchAll(byAddress, moved[..k]), moved[k], a);
      ScrubbedSplit(moved[..k], moved[k], a);
      assert moved == moved[..k] + [moved[k]];
      WithoutTwice(At(byAddress, a), Scrubbed(moved[..k], a), Scrubbed([moved[k]], a));
    }
  }

  lemma ScrubbedSplit(front: seq<Tx>, t: Tx, a: string)
    ensures Scrubbed(front + [t], a) == Scrubbed(front, a) + Scrubbed([t], a)
  {
  }

  // ----- filtering -----

  lemma {:induction false} WithoutMembers(txs: seq<Tx>, hs: set<string>)
    ensures forall t :: t in Without(txs, hs) <==> t in txs && t.hash !in hs
    ensures |Without(txs, hs)| <= |txs|
    decreases |txs|
  {
    if txs != [] {
      var k := |txs| - 1;
      WithoutMembers(txs[..k], hs);
      assert txs == txs[..k] + [txs[k]];
    }
  }

  lemma {:induction false} WithoutNone(txs: seq<Tx>, hs: set<string>)
    requires forall t :: t in txs ==> t.hash !in hs
    ensures Without(txs, hs) == txs
    decreases |txs|
  {
    if txs != [] {
      WithoutNone(txs[..|txs| - 1], hs);
    }
  }

  lemma {:induction false} WithoutAll(txs: seq<Tx>, hs: set<string>)
    requires forall t :: t in txs ==> t.hash in hs
    ensures Without(txs, hs) == []
    decreases |txs|
  {
    if txs != [] {
      WithoutAll(txs[..|txs| - 1], hs);
    }
  }

  lemma {:induction false} WithoutTwice(txs: seq<Tx>, hs: set<string>, more: set<string>)
    ensures Without(Without(txs, hs), more) == Without(txs, hs + more)
    decreases |txs|
  {
    if txs != [] {
      var k := |txs| - 1;
      WithoutTwice(txs[..k], hs, more);
      var before := Without(txs[..k], hs);
      assert (before + [txs[k]])[..|before|] == before;
    }
  }

  lemma {:induction false} WithoutConcat(a: seq<Tx>, b: seq<Tx>, hs: set<string>)
    ensures Without(a + b, hs) == Without(a, hs) + Without(b, hs)
    decreases |b|
  {
    if b == [] {
      assert a + b == a;
    } else {
      var k := |b| - 1;
      WithoutConcat(a, b[..k], hs);
      assert (a + b)[..|a + b| - 1] == a + b[..k];
    }
  }
}
