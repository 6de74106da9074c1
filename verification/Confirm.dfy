/**
 The confirm boundary: Core apply with a state backup, the explorer, the chain
 file and Rocks, with a compensating undo wherever a step fails
 (internal/blockchain/blockchain.go, internal/handlers/apply_confirmed_block.go).
 */
module Confirm {
  import opened Sequences
  import opened Ledger
  import DagOrder

  // ----- the order Core applies a block in -----

  /** What Core answers when asked to order the batch itself. */
  datatype CoreOrder = OrderError | NoOrder | Ordered(digests: seq<string>)

  datatype DagInput = DagInput(enabled: bool, answer: CoreOrder)

  predicate HasFaucet(txs: seq<Tx>) {
    exists t :: t in txs && t.from == FAUCET
  }

  predicate WantsOrder(dag: DagInput, txs: seq<Tx>) {
    dag.enabled && |txs| >= 2 && !HasFaucet(txs) && |Without(txs, {""})| >= 2
  }

  /** Some cached commit digest names a transaction of the batch. */
  predicate Overlaps(cached: seq<string>, txs: seq<Tx>) {
    exists d :: d in cached && d != "" && d in HashSet(txs)
  }

  /** The apply order, or None when Core's own ordering failed. */
  function ApplyOrder(dag: DagInput, cached: seq<string>, txs: seq<Tx>): Option<seq<Tx>> {
    if !WantsOrder(dag, txs) then Some(txs)
    else if Overlaps(cached, txs) then Some(DagOrder.Permuted(cached, txs, HashOf))
    else match dag.answer
      case OrderError => None
      case NoOrder => Some(txs)
      case Ordered(digests) => Some(if digests == [] then txs else DagOrder.Permuted(digests, txs, HashOf))
  }

  /** The cached digests are spent when they were used. */
  function CacheLeft(dag: DagInput, cached: seq<string>, txs: seq<Tx>): seq<string> {
    if WantsOrder(dag, txs) && Overlaps(cached, txs) then [] else cached
  }

  lemma ApplyOrderPermutes(dag: DagInput, cached: seq<string>, txs: seq<Tx>)
    ensures ApplyOrder(dag, cached, txs).Some? ==> multiset(ApplyOrder(dag, cached, txs).value) == multiset(txs)
  {
    DagOrder.PermutedIsPermutation(cached, txs, HashOf);
    if dag.answer.Ordered? {
      DagOrder.PermutedIsPermutation(dag.answer.digests, txs, HashOf);
    }
  }

  /**
   Two nodes that cached the same commit and hold the same distinct transactions,
   all named by it, apply them in one order exactly when they already held them
   in one order, or ordering is on and no faucet credit is among them.
   */
  lemma NodesAgree(dagA: DagInput, dagB: DagInput, cached: seq<string>, a: seq<Tx>, b: seq<Tx>)
    requires dagA.enabled == dagB.enabled
    requires multiset(a) == multiset(b) && Distinct(Hashes(a))
    requires forall t :: t in a ==> t.hash != "" && t.hash in cached
    ensures ApplyOrder(dagA, cached, a) == ApplyOrder(dagB, cached, b) <==>
            a == b || (dagA.enabled && !HasFaucet(a))
  {
    assert |a| == |multiset(a)| == |multiset(b)| == |b|;
    assert forall t :: t in a <==> t in multiset(a);
    assert forall t :: t in b <==> t in multiset(b);
    NamedOrder(dagA, cached, a);
    NamedOrder(dagB, cached, b);
    assert HasFaucet(a) <==> HasFaucet(b);
    if |a| < 2 {
      SmallPermutation(a, b);
    } else {
      SameSort(cached, a, b);
    }
  }

  /** A batch all named by the cached commit follows it, unless ordering is off or a faucet credit is in it. */
  lemma NamedOrder(dag: DagInput, cached: seq<string>, txs: seq<Tx>)
    requires forall t :: t in txs ==> t.hash != "" && t.hash in cached
    ensures ApplyOrder(dag, cached, txs) ==
            if dag.enabled && |txs| >= 2 && !HasFaucet(txs)
            then Some(DagOrder.Permuted(cached, txs, HashOf)) else Some(txs)
  {
    WithoutNone(txs, {""});
    if |txs| >= 2 {
      assert txs[0] in txs;
      assert txs[0].hash in HashSet(txs);
    }
  }

  lemma SameSort(cached: seq<string>, a: seq<Tx>, b: seq<Tx>)
    requires multiset(a) == multiset(b) && Distinct(Hashes(a))
    requires forall t :: t in a ==> t.hash != "" && t.hash in cached
    ensures DagOrder.Permuted(cached, a, HashOf) == DagOrder.Permuted(cached, b, HashOf)
  {
    forall i | 0 <= i < |a| ensures Hashes(a)[i] != "" && Hashes(a)[i] in cached {
      assert a[i] in a;
    }
    DagOrder.PermutedIsCanonical(cached, a, b, HashOf);
  }

  lemma SmallPermutation(a: seq<Tx>, b: seq<Tx>)
    requires multiset(a) == multiset(b) && |a| == |b| < 2
    ensures a == b
  {
    if |a| == 1 {
      assert a[0] in multiset(b);
    }
  }

  // ----- Core apply -----

  /** How the Core call goes: not started, stopped after some of the batch, or done. */
  datatype CoreRun = NoSnapshot | StopsAfter(taken: nat) | Completes

  datatype ApplyInput = ApplyInput(dag: DagInput, run: CoreRun)

  predicate ApplySucceeds(s: State, txs: seq<Tx>, in_: ApplyInput) {
    in_.run == Completes && ApplyOrder(in_.dag, s.dagDigests, txs).Some?
  }

  /** A failed apply is rolled back from the backup it took; a finished one keeps the backup. */
  function Apply(s: State, txs: seq<Tx>, in_: ApplyInput): State {
    if in_.run == NoSnapshot then s
    else
      var spent := s.(dagDigests := CacheLeft(in_.dag, s.dagDigests, txs));
      if ApplySucceeds(s, txs, in_)
      then spent.(core := s.core + ApplyOrder(in_.dag, s.dagDigests, txs).value, backup := Some(s.core))
      else spent.(backup := None)
  }

  // ----- other goroutines -----

  /** Whatever pool operations leave behind while no lock is held. */
  datatype Pools = Pools(mempool: seq<Tx>, pending: seq<Tx>, index: Rows,
                         byAddress: map<string, seq<Tx>>, lastTx: Option<Tx>)

  function Disturb(s: State, p: Pools): State {
    s.(mempool := p.mempool, pending := p.pending, index := p.index, byAddress := p.byAddress, lastTx := p.lastTx)
  }

  // ----- L2 confirm -----

  function RestoreCore(s: State): State {
    s.(core := if s.backup.Some? then s.backup.value else s.core, backup := None)
  }

  datatype L2Input = L2Input(apply: ApplyInput, during: Pools, writeOk: bool, clock: int)

  datatype L2Result = ApplyFailed | Fenced | PersistFailed | Confirmed(moved: seq<Tx>, block: Block)

  /** The second lock-held half: fence, explorer, chain file. txs is the copy that was applied. */
  function Commit(s: State, txs: seq<Tx>, in_: L2Input): (State, L2Result) {
    if Hashes(s.pending) != Hashes(txs) then (RestoreCore(s).(pending := []), Fenced)
    else
      var b, c := NextBlock(s, txs, in_.clock), ConfirmExplorer(s, txs, in_.clock);
      if PersistSucceeds(c, in_.writeOk) then (Persist(c, in_.writeOk), Confirmed(txs, b))
      else (UndoExplorer(RestoreCore(c), b, txs, ToPending), PersistFailed)
  }

  function L2Confirm(s: State, in_: L2Input): (State, L2Result) {
    var a := Apply(s, s.pending, in_.apply);
    if !ApplySucceeds(s, s.pending, in_.apply) then (a, ApplyFailed)
    else Commit(Disturb(a, in_.during), s.pending, in_)
  }

  // ----- finalize -----

  /** The node: the Blockchain object, the blocks Rocks has committed, and the durable pool. */
  datatype Node = Node(s: State, rocksOn: bool, rocks: seq<Block>, pool: Rows)

  datatype FinalInput = FinalInput(before: Pools, header: Option<string>, headerWriteOk: bool,
                                   between: Pools, rocksOk: bool, undoWriteOk: bool)

  datatype FinalResult = HeaderFailed | RocksFailed | Durable(block: Block) | DurableWithoutHeader

  /** Sets the assembled hash on the first record with that number. */
  function SetHash(blocks: seq<Block>, n: int, hash: string): seq<Block> {
    if blocks == [] then []
    else if blocks[0].number == n then [blocks[0].(blockHash := hash)] + blocks[1..]
    else [blocks[0]] + SetHash(blocks[1..], n, hash)
  }

  function ApplyHeader(s: State, n: int, hash: string, writeOk: bool): State {
    if exists b :: b in s.history && b.number == n
    then Persist(s.(history := SetHash(s.history, n, hash)), writeOk)
    else s
  }

  /** Undone with Core's state put back; when the backup is gone Core stays, and the file is not rewritten. */
  function UndoConfirmed(s: State, b: Block, moved: seq<Tx>, writeOk: bool): State {
    var u := UndoExplorer(RestoreCore(s), b, moved, ToPending);
    if s.backup.Some? then Persist(u, writeOk) else u
  }

  function DurableCommit(n: Node, b: Block, moved: seq<Tx>, rocksOk: bool, undoWriteOk: bool): (Node, FinalResult) {
    if n.rocksOn && !rocksOk then (n.(s := UndoConfirmed(n.s, b, moved, undoWriteOk)), RocksFailed)
    else
      (n.(s := n.s.(backup := None),
          rocks := if n.rocksOn then n.rocks + [b] else n.rocks,
          pool := n.pool - HashSet(moved)),
       Durable(b))
  }

  /** The end of a confirm whose header could not be assembled. */
  function WithoutHeader(n: Node, b: Block, moved: seq<Tx>, in_: FinalInput): (Node, FinalResult) {
    if n.rocksOn then (n.(s := UndoConfirmed(n.s, b, moved, in_.undoWriteOk)), HeaderFailed)
    else (n.(s := Persist(n.s.(backup := None), in_.headerWriteOk)), DurableWithoutHeader)
  }

  function Headed(n: Node, b: Block, hash: string, in_: FinalInput): Node {
    n.(s := Disturb(ApplyHeader(n.s, b.number, hash, in_.headerWriteOk), in_.between))
  }

  function Finalize(n: Node, b: Block, moved: seq<Tx>, in_: FinalInput): (Node, FinalResult) {
    if in_.header.None? then WithoutHeader(n, b, moved, in_)
    else
      var hash := in_.header.value;
      DurableCommit(Headed(n, b, hash, in_), b.(blockHash := hash), moved, in_.rocksOk, in_.undoWriteOk)
  }

  /** Stopped before the explorer took the block, or undone after it did; or done. */
  datatype Outcome = Aborted(undone: bool) | Done(block: Block)

  /** One whole confirm: apply, explorer, chain file, header and Rocks. */
  function Round(n: Node, l2: L2Input, fin: FinalInput): (Node, Outcome) {
    var (s1, r1) := L2Confirm(n.s, l2);
    if !r1.Confirmed? then (n.(s := s1), Aborted(r1.PersistFailed?))
    else
      var (n2, r2) := Finalize(n.(s := Disturb(s1, fin.before)), r1.block, r1.moved, fin);
      match r2
      case HeaderFailed => (n2, Aborted(true))
      case RocksFailed => (n2, Aborted(true))
      case Durable(b) => (n2, Done(b))
      case DurableWithoutHeader => (n2, Done(r1.block))
  }
}
