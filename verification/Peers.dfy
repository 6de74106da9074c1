/** Blocks received from peers (AddConfirmedBlock, ApplyPeerConfirmedBlock, PreferBlock). */
module Peers {
  import opened Sequences
  import opened Ledger
  import opened Confirm
  import Text
  import Boundary
  import VoteRound

  // ----- fork choice -----

  function YesCount(votes: map<string, bool>): nat {
    |VoteRound.Yes(votes)|
  }

  /** Whether the incoming block scores above the existing one. */
  predicate PreferBlock(existing: Block, incoming: Block) {
    if incoming.l2Yes != existing.l2Yes then incoming.l2Yes > existing.l2Yes
    else if YesCount(incoming.l2Votes) != YesCount(existing.l2Votes)
    then YesCount(incoming.l2Votes) > YesCount(existing.l2Votes)
    else if incoming.l1Yes != existing.l1Yes then incoming.l1Yes > existing.l1Yes
    else if YesCount(incoming.l1Votes) != YesCount(existing.l1Votes)
    then YesCount(incoming.l1Votes) > YesCount(existing.l1Votes)
    else Text.Less(existing.blockHash, incoming.blockHash)
  }

  /** On blocks with distinct hashes, preference is a strict total order. */
  lemma PreferenceIsStrictTotalOrder(a: Block, b: Block, c: Block)
    ensures !PreferBlock(a, a)
    ensures PreferBlock(a, b) ==> !PreferBlock(b, a)
    ensures PreferBlock(a, b) && PreferBlock(b, c) ==> PreferBlock(a, c)
    ensures a.blockHash != b.blockHash ==> PreferBlock(a, b) || PreferBlock(b, a)
  {
    Text.LessIrreflexive(a.blockHash);
    if Text.Less(a.blockHash, b.blockHash) && Text.Less(b.blockHash, a.blockHash) {
      Text.LessTransitive(a.blockHash, b.blockHash, a.blockHash);
    }
    if Text.Less(a.blockHash, b.blockHash) && Text.Less(b.blockHash, c.blockHash) {
      Text.LessTransitive(a.blockHash, b.blockHash, c.blockHash);
    }
    Text.LessConnected(a.blockHash, b.blockHash);
  }

  // ----- adding a peer block -----

  /** The first record at a height. */
  function AtHeight(blocks: seq<Block>, n: int): (r: Option<Block>)
    ensures r.None? <==> forall b :: b in blocks ==> b.number != n
    ensures r.Some? ==> r.value in blocks && r.value.number == n
  {
    if blocks == [] then None
    else if blocks[0].number == n then Some(blocks[0])
    else AtHeight(blocks[1..], n)
  }

  function Raised(counter: int, n: int): int {
    if n >= 0 && n + 1 > counter then n + 1 else counter
  }

  /** The explorer after taking in the block; its hashes leave the pools. */
  function TakeIn(s: State, b: Block, txs: seq<Tx>): State {
    PostAll(s, txs, b.number).(
      counter := Raised(s.counter, b.number),
      confirmed := s.confirmed + HashSet(txs) + (Elements(b.txHashes) - {""}),
      mempool := Without(s.mempool, HashSet(txs)),
      pending := Without(s.pending, HashSet(txs)),
      history := s.history + [b])
  }

  datatype PeerResult = Known | ForkConflict(peerPreferred: bool) | PeerApplyFailed | PeerPersistFailed | Added

  /** What other goroutines did to the pools while the lock was free, if anything. */
  function Meanwhile(s: State, p: Option<Pools>): State {
    if p.Some? then Disturb(s, p.value) else s
  }

  function AddConfirmed(s: State, b: Block, txs: seq<Tx>, apply: ApplyInput, during: Option<Pools>, writeOk: bool)
    : (State, PeerResult)
  {
    var held := AtHeight(s.history, b.number);
    if held.Some? then
      if held.value.blockHash == b.blockHash then (s, Known)
      else (s, ForkConflict(PreferBlock(held.value, b)))
    else if !ApplySucceeds(s, txs, apply) then (Apply(s, txs, apply), PeerApplyFailed)
    else TakeOrUndo(TakeIn(Meanwhile(Apply(s, txs, apply), during), b, txs), b, txs, writeOk)
  }

  /** The chain file decides whether the block just taken in stays. */
  function TakeOrUndo(c: State, b: Block, txs: seq<Tx>, writeOk: bool): (State, PeerResult) {
    if PersistSucceeds(c, writeOk) then (Persist(c, writeOk), Added)
    else (UndoExplorer(RestoreCore(c), b, txs, ToMempool), PeerPersistFailed)
  }

  datatype PeerInput = PeerInput(apply: ApplyInput, during: Option<Pools>, writeOk: bool,
                                 between: Option<Pools>, rocksOk: bool, undoWriteOk: bool)

  /** How a peer block ended. */
  datatype PeerEnd = Refused(why: PeerResult) | RocksRefused | Landed

  function ApplyPeer(n: Node, b: Block, txs: seq<Tx>, in_: PeerInput): (Node, PeerEnd) {
    var (s1, r) := AddConfirmed(n.s, b, txs, in_.apply, in_.during, in_.writeOk);
    if !r.Added? then (n.(s := s1), Refused(r))
    else
      var (n2, d) := DurableCommit(n.(s := Meanwhile(s1, in_.between)), b, txs, in_.rocksOk, in_.undoWriteOk);
      (n2, if d.Durable? then Landed else RocksRefused)
  }

  lemma UndoesPeerTip(s: State, before: seq<Block>, b: Block, moved: seq<Tx>, requeue: Requeue)
    requires s.history == before + [b]
    ensures var u := UndoExplorer(s, b, moved, requeue);
            && u.history == before && u.core == s.core && u.backup == s.backup
            && u.counter == (if s.counter == b.number + 1 then b.number else s.counter)
            && u.fees == (if s.fees < b.totalFees then 0 else s.fees - b.totalFees)
            && u.confirmed == s.confirmed - HashSet(moved)
            && u.persistent == s.persistent && u.durableHead == s.durableHead
  {
    assert s.history[..|s.history| - 1] == before;
  }

  /** The hashes a peer block marks as confirmed: those it carries and those it only lists. */
  function Marks(b: Block, txs: seq<Tx>): set<string> {
    HashSet(txs) + (Elements(b.txHashes) - {""})
  }

  /** What a peer block taken in and taken back leaves of the counter, the fee total and the confirmed set. */
  ghost predicate Withdrawn(s: State, s': State, b: Block, txs: seq<Tx>) {
    var raised, total := Raised(s.counter, b.number), s.fees + SumFees(txs);
    && s'.counter == (if raised == b.number + 1 then b.number else raised)
    && s'.fees == (if total < b.totalFees then 0 else total - b.totalFees)
    && s'.confirmed == (s.confirmed + Marks(b, txs)) - HashSet(txs)
  }

  /** Applying the block writes Core's state over whatever the backup path holds. */
  predicate Snaps(s: State, b: Block, apply: ApplyInput) {
    AtHeight(s.history, b.number).None? && !apply.run.NoSnapshot?
  }

  /** The backup once the block's own apply is over and done with. */
  function BackupLeft(s: State, b: Block, apply: ApplyInput): Option<seq<Tx>> {
    if Snaps(s, b, apply) then None else s.backup
  }

  /** Core, history and Rocks' share of the state as they were. */
  ghost predicate SameChain(s: State, s': State) {
    && s'.history == s.history && s'.core == s.core
    && s'.persistent == s.persistent && s'.durableHead == s.durableHead
  }

  /** The totals as they were. */
  ghost predicate SameTotals(s: State, s': State) {
    s'.counter == s.counter && s'.fees == s.fees && s'.confirmed == s.confirmed
  }

  /** The block is in, over a batch applied to Core. */
  ghost predicate TookIn(s: State, s': State, b: Block, txs: seq<Tx>) {
    && AtHeight(s.history, b.number).None?
    && s'.history == s.history + [b]
    && s.core <= s'.core && multiset(s'.core) == multiset(s.core) + multiset(txs)
    && s'.counter == Raised(s.counter, b.number) && s'.fees == s.fees + SumFees(txs)
    && s'.confirmed == s.confirmed + Marks(b, txs)
  }

  /**
   The explorer half, outcome by outcome: the block is in over Core's backup, it was taken out again,
   or it never came in.
   */
  lemma AddConfirmedEffect(s: State, b: Block, txs: seq<Tx>, apply: ApplyInput, during: Option<Pools>, writeOk: bool)
    ensures var (s', r) := AddConfirmed(s, b, txs, apply, during, writeOk);
            match r
            case Added => TookIn(s, s', b, txs) && s'.backup == Some(s.core) && Snaps(s, b, apply)
            case PeerPersistFailed =>
              SameChain(s, s') && Withdrawn(s, s', b, txs) && s'.backup.None? && Snaps(s, b, apply)
            case _ => SameChain(s, s') && SameTotals(s, s') && s'.backup == BackupLeft(s, b, apply)
  {
    if AtHeight(s.history, b.number).None? && ApplySucceeds(s, txs, apply) {
      ApplyOrderPermutes(apply.dag, s.dagDigests, txs);
      TakeInEffect(s, Meanwhile(Apply(s, txs, apply), during), b, txs, writeOk);
    }
  }

  /** Over an applied batch, the chain file decides whether the block stays. */
  lemma TakeInEffect(s: State, applied: State, b: Block, txs: seq<Tx>, writeOk: bool)
    requires applied.history == s.history && applied.backup == Some(s.core)
    requires applied.counter == s.counter && applied.fees == s.fees && applied.confirmed == s.confirmed
    requires applied.persistent == s.persistent && applied.durableHead == s.durableHead
    requires AtHeight(s.history, b.number).None?
    requires s.core <= applied.core && multiset(applied.core) == multiset(s.core) + multiset(txs)
    ensures var c := TakeIn(applied, b, txs);
            var kept, undone := Persist(c, writeOk), UndoExplorer(RestoreCore(c), b, txs, ToMempool);
            && TookIn(s, kept, b, txs) && kept.backup == Some(s.core)
            && SameChain(s, undone) && Withdrawn(s, undone, b, txs) && undone.backup.None?
  {
    var c := TakeIn(applied, b, txs);
    assert c.confirmed == s.confirmed + Marks(b, txs);
    UndoesPeerTip(RestoreCore(c), s.history, b, txs, ToMempool);
  }

  /**
   Where a peer block ended up: everywhere, or nowhere. A block the chain file or Rocks refused was
   taken in and taken back; one refused before that left no trace.
   */
  ghost predicate PeerAllOrNothing(n: Node, n': Node, b: Block, txs: seq<Tx>, end: PeerEnd) {
    && n'.rocksOn == n.rocksOn
    && match end
       case Landed => TookIn(n.s, n'.s, b, txs) && n'.rocks == (if n.rocksOn then n.rocks + [b] else n.rocks)
       case RocksRefused => n'.rocks == n.rocks && Unchained(n.s, n'.s) && Withdrawn(n.s, n'.s, b, txs)
       case Refused(why) =>
         && !why.Added? && n'.rocks == n.rocks && Unchained(n.s, n'.s)
         && if why.PeerPersistFailed? then Withdrawn(n.s, n'.s, b, txs) else SameTotals(n.s, n'.s)
  }

  /** Core and history as they were. */
  ghost predicate Unchained(s: State, s': State) {
    s'.history == s.history && s'.core == s.core
  }

  /**
   A peer block, too, lands in Core, history and Rocks together or in none. However it ends, a backup
   that was there before its apply is gone after it.
   */
  lemma PeerIsAllOrNothing(n: Node, b: Block, txs: seq<Tx>, in_: PeerInput)
    ensures var (n', end) := ApplyPeer(n, b, txs, in_);
            && PeerAllOrNothing(n, n', b, txs, end) && n'.s.backup == BackupLeft(n.s, b, in_.apply)
            && (end.Landed? || end.RocksRefused? ==> Snaps(n.s, b, in_.apply))
  {
    AddConfirmedEffect(n.s, b, txs, in_.apply, in_.during, in_.writeOk);
    var (s1, r) := AddConfirmed(n.s, b, txs, in_.apply, in_.during, in_.writeOk);
    if r.Added? {
      PeerDurable(n, Meanwhile(s1, in_.between), b, txs, in_.rocksOk, in_.undoWriteOk);
    }
  }

  lemma PeerDurable(n: Node, s: State, b: Block, txs: seq<Tx>, rocksOk: bool, undoWriteOk: bool)
    requires TookIn(n.s, s, b, txs) && s.backup == Some(n.s.core)
    ensures var (n', d) := DurableCommit(n.(s := s), b, txs, rocksOk, undoWriteOk);
            n'.s.backup.None? && PeerAllOrNothing(n, n', b, txs, if d.Durable? then Landed else RocksRefused)
  {
    UndoesPeerTip(RestoreCore(s), n.s.history, b, txs, ToPending);
  }

  // ----- the chain file on the peer path -----

  lemma TakeOrUndoFileGrows(s: State, c: State, b: Block, txs: seq<Tx>, writeOk: bool)
    requires Boundary.SameFile(s, c)
    ensures Boundary.FileGrows(s, TakeOrUndo(c, b, txs, writeOk).0)
  {
    Boundary.PersistGrows(c, writeOk);
    assert Boundary.SameFile(c, UndoExplorer(RestoreCore(c), b, txs, ToMempool));
  }

  lemma AddConfirmedFileGrows(s: State, b: Block, txs: seq<Tx>, apply: ApplyInput, during: Option<Pools>, writeOk: bool)
    ensures Boundary.FileGrows(s, AddConfirmed(s, b, txs, apply, during, writeOk).0)
  {
    if AtHeight(s.history, b.number).None? && ApplySucceeds(s, txs, apply) {
      TakeOrUndoFileGrows(s, TakeIn(Meanwhile(Apply(s, txs, apply), during), b, txs), b, txs, writeOk);
    }
  }

  /** No peer block, wherever it fails, lowers the head in the chain file. */
  lemma PeerFileGrows(n: Node, b: Block, txs: seq<Tx>, in_: PeerInput)
    ensures Boundary.FileGrows(n.s, ApplyPeer(n, b, txs, in_).0.s)
  {
    AddConfirmedFileGrows(n.s, b, txs, in_.apply, in_.during, in_.writeOk);
    var (s1, r) := AddConfirmed(n.s, b, txs, in_.apply, in_.during, in_.writeOk);
    if r.Added? {
      Boundary.UndoFileGrows(Meanwhile(s1, in_.between), b, txs, in_.undoWriteOk);
    }
  }

  /** A withdrawn peer block restores the counter exactly when it was not the last number used nor ahead of the next. */
  lemma WithdrawnCounter(s: State, s': State, b: Block, txs: seq<Tx>)
    requires Withdrawn(s, s', b, txs)
    ensures s'.counter == s.counter <==>
            s.counter != b.number + 1 && (b.number < 0 || b.number <= s.counter)
  {
  }

  /** It restores a non-negative fee total exactly when the block's recorded fees are its transactions' fees. */
  lemma WithdrawnFees(s: State, s': State, b: Block, txs: seq<Tx>)
    requires Withdrawn(s, s', b, txs) && s.fees >= 0
    ensures s'.fees == s.fees <==> b.totalFees == SumFees(txs) || (s.fees == 0 && SumFees(txs) <= b.totalFees)
  {
  }

  /**
   It restores the confirmed set exactly when nothing it carried was confirmed before and it listed
   nothing it did not carry, but for hashes confirmed already.
   */
  lemma WithdrawnConfirmed(s: State, s': State, b: Block, txs: seq<Tx>)
    requires Withdrawn(s, s', b, txs)
    ensures s'.confirmed == s.confirmed <==>
            HashSet(txs) !! s.confirmed && Elements(b.txHashes) - {""} <= s.confirmed + HashSet(txs)
  {
    var listed := Elements(b.txHashes) - {""};
    if s'.confirmed == s.confirmed {
      forall h | h in HashSet(txs) ensures h !in s.confirmed {
        assert h !in s'.confirmed;
      }
      forall h | h in listed ensures h in s.confirmed + HashSet(txs) {
        assert h in HashSet(txs) || h in s'.confirmed;
      }
    }
    if HashSet(txs) !! s.confirmed && listed <= s.confirmed + HashSet(txs) {
      assert s'.confirmed == s.confirmed;
    }
  }

  /** A block that lists a hash it does not carry, once withdrawn, leaves that hash confirmed and listed nowhere. */
  lemma ListedOnlyStaysConfirmed(s: State, s': State, b: Block, txs: seq<Tx>, h: string)
    requires Withdrawn(s, s', b, txs) && h in b.txHashes && h != "" && h !in HashSet(txs)
    ensures h in s'.confirmed
  {
  }

  // ----- convergence -----

  datatype Delivery = Delivery(block: Block, txs: seq<Tx>)

  /** A delivery reaching the node: the pools as found, if they changed, and how Core, disk and Rocks take it. */
  datatype Arrival = Arrival(d: Delivery, before: Option<Pools>, in_: PeerInput)

  function Receive(n: Node, a: Arrival): Node {
    ApplyPeer(n.(s := Meanwhile(n.s, a.before)), a.d.block, a.d.txs, a.in_).0
  }

  function ReceiveAll(n: Node, arrivals: seq<Arrival>): Node {
    if arrivals == [] then n else Receive(ReceiveAll(n, arrivals[..|arrivals| - 1]), arrivals[|arrivals| - 1])
  }

  /** Core applies it, the disk writes and Rocks commits. */
  predicate Smooth(a: Arrival) {
    a.in_.apply.run.Completes? && !a.in_.apply.dag.answer.OrderError? && a.in_.writeOk && a.in_.rocksOk
  }

  ghost predicate AllSmooth(arrivals: seq<Arrival>) {
    forall i :: 0 <= i < |arrivals| ==> Smooth(arrivals[i])
  }

  /** Nobody else touches the pools meanwhile. */
  predicate Undisturbed(a: Arrival) {
    a.before.None? && a.in_.during.None? && a.in_.between.None?
  }

  /** The chain file would not be lowered by a history that reaches the given height. */
  predicate FileTakes(s: State, height: int) {
    !s.persistent || s.durableHead < 0 || s.durableHead <= HistoryHead(s.history) || s.durableHead <= height
  }

  predicate FileOpen(s: State) {
    !s.persistent || s.durableHead <= HistoryHead(s.history)
  }

  lemma HeadOfAppend(blocks: seq<Block>, b: Block)
    ensures HistoryHead(blocks + [b]) == if b.number > HistoryHead(blocks) then b.number else HistoryHead(blocks)
  {
    assert (blocks + [b])[..|blocks|] == blocks;
  }

  /** Taking the block in can be written exactly when the file takes its height, and then the file is open. */
  lemma TakeInWrites(s: State, b: Block, txs: seq<Tx>)
    ensures PersistSucceeds(TakeIn(s, b, txs), true) <==> FileTakes(s, b.number)
    ensures FileTakes(s, b.number) ==> FileOpen(Persist(TakeIn(s, b, txs), true))
  {
    HeadOfAppend(s.history, b);
    Boundary.HeadAtLeast(s.history);
  }

  /** What one delivery leaves of a node when it is taken in. */
  ghost predicate TakesIn(n: Node, n': Node, d: Delivery, quiet: bool) {
    && TookIn(n.s, n'.s, d.block, d.txs) && n'.s.backup.None?
    && n'.rocksOn == n.rocksOn && n'.rocks == (if n.rocksOn then n.rocks + [d.block] else n.rocks)
    && FileOpen(n'.s)
    && (quiet ==> n'.s.mempool == Without(n.s.mempool, HashSet(d.txs))
                  && n'.s.pending == Without(n.s.pending, HashSet(d.txs)))
  }

  /** What one delivery leaves of a node when its height was filled or the file refused it. */
  ghost predicate PassesBy(n: Node, n': Node) {
    && Unchained(n.s, n'.s) && n'.s.backup.None?
    && n'.s.persistent == n.s.persistent && n'.s.durableHead == n.s.durableHead
    && n'.rocksOn == n.rocksOn && n'.rocks == n.rocks
  }

  lemma SmoothApplies(s: State, a: Arrival)
    requires Smooth(a)
    ensures ApplySucceeds(s, a.d.txs, a.in_.apply)
  {
  }

  /** The explorer half of a delivery that Core and the disk take. */
  lemma SmoothAdds(s: State, a: Arrival)
    requires Smooth(a) && AtHeight(s.history, a.d.block.number).None?
    ensures var (s', r) := AddConfirmed(s, a.d.block, a.d.txs, a.in_.apply, a.in_.during, true);
            && (r.Added? <==> FileTakes(s, a.d.block.number))
            && (r.Added? || r.PeerPersistFailed?)
            && (r.Added? ==> FileOpen(s'))
            && (r.Added? && a.in_.during.None? ==> s'.mempool == Without(s.mempool, HashSet(a.d.txs))
                                                   && s'.pending == Without(s.pending, HashSet(a.d.txs)))
  {
    SmoothApplies(s, a);
    var m := Meanwhile(Apply(s, a.d.txs, a.in_.apply), a.in_.during);
    TakeInWrites(m, a.d.block, a.d.txs);
  }

  lemma LandsSmoothly(n: Node, s: State, a: Arrival)
    requires Smooth(a) && FileOpen(s)
    ensures var m := n.(s := Meanwhile(s, a.in_.between));
            var (n', d) := DurableCommit(m, a.d.block, a.d.txs, true, a.in_.undoWriteOk);
            && d.Durable? && FileOpen(n'.s)
            && (a.in_.between.None? ==> n'.s.mempool == s.mempool && n'.s.pending == s.pending)
  {
  }

  lemma ReceiveNew(n: Node, a: Arrival)
    requires Smooth(a) && AtHeight(n.s.history, a.d.block.number).None?
    ensures if FileTakes(n.s, a.d.block.number) then TakesIn(n, Receive(n, a), a.d, Undisturbed(a))
            else PassesBy(n, Receive(n, a)) && Withdrawn(n.s, Receive(n, a).s, a.d.block, a.d.txs)
  {
    var m := n.(s := Meanwhile(n.s, a.before));
    SmoothAdds(m.s, a);
    if FileTakes(n.s, a.d.block.number) {
      SmoothLands(m, a);
    } else {
      SmoothRefused(m, a);
    }
  }

  lemma SmoothLands(m: Node, a: Arrival)
    requires Smooth(a) && AtHeight(m.s.history, a.d.block.number).None?
    requires FileTakes(m.s, a.d.block.number)
    ensures var calm := a.in_.during.None? && a.in_.between.None?;
            TakesIn(m, ApplyPeer(m, a.d.block, a.d.txs, a.in_).0, a.d, calm)
  {
    SmoothAdds(m.s, a);
    PeerIsAllOrNothing(m, a.d.block, a.d.txs, a.in_);
    var (s1, r) := AddConfirmed(m.s, a.d.block, a.d.txs, a.in_.apply, a.in_.during, true);
    LandsSmoothly(m, s1, a);
  }

  lemma SmoothRefused(m: Node, a: Arrival)
    requires Smooth(a) && AtHeight(m.s.history, a.d.block.number).None?
    requires !FileTakes(m.s, a.d.block.number)
    ensures var m' := ApplyPeer(m, a.d.block, a.d.txs, a.in_).0;
            PassesBy(m, m') && Withdrawn(m.s, m'.s, a.d.block, a.d.txs)
  {
    SmoothAdds(m.s, a);
    AddConfirmedEffect(m.s, a.d.block, a.d.txs, a.in_.apply, a.in_.during, true);
  }

  lemma ReceiveKnown(n: Node, a: Arrival)
    requires AtHeight(n.s.history, a.d.block.number).Some?
    ensures Receive(n, a) == n.(s := Meanwhile(n.s, a.before))
  {
  }

  // ----- what deliveries add up to -----

  function Deliveries(arrivals: seq<Arrival>): seq<Delivery> {
    seq(|arrivals|, i requires 0 <= i < |arrivals| => arrivals[i].d)
  }

  /** The deliveries that found their height empty, in order. */
  function Taken(n: Node, arrivals: seq<Arrival>): seq<Delivery> {
    if arrivals == [] then []
    else
      var k := |arrivals| - 1;
      var before, d := Taken(n, arrivals[..k]), arrivals[k].d;
      if AtHeight(ReceiveAll(n, arrivals[..k]).s.history, d.block.number).Some? then before else before + [d]
  }

  function Blocks(ds: seq<Delivery>): seq<Block> {
    seq(|ds|, i requires 0 <= i < |ds| => ds[i].block)
  }

  function FeesOf(ds: seq<Delivery>): nat {
    if ds == [] then 0 else FeesOf(ds[..|ds| - 1]) + SumFees(ds[|ds| - 1].txs)
  }

  function HashesIn(ds: set<Delivery>): set<string> {
    set d, h | d in ds && h in HashSet(d.txs) :: h
  }

  function Confirms(ds: set<Delivery>): set<string> {
    HashesIn(ds) + set d, h | d in ds && h in d.block.txHashes && h != "" :: h
  }

  /** c is the least counter that is at least start and above every height in ds. */
  ghost predicate IsCounter(c: int, start: int, ds: set<Delivery>) {
    && c >= start
    && (forall d :: d in ds && d.block.number >= 0 ==> d.block.number < c)
    && (c == start || exists d :: d in ds && d.block.number >= 0 && c == d.block.number + 1)
  }

  function TxsOf(ds: seq<Delivery>): multiset<Tx> {
    if ds == [] then multiset{} else TxsOf(ds[..|ds| - 1]) + multiset(ds[|ds| - 1].txs)
  }

  /** What any sequence of deliveries adds up to, in terms of those it took in. */
  ghost predicate AddsUp(n: Node, n': Node, taken: seq<Delivery>, quiet: bool) {
    && n'.s.history == n.s.history + Blocks(taken)
    && n'.s.fees == n.s.fees + FeesOf(taken)
    && n'.s.confirmed == n.s.confirmed + Confirms(Elements(taken))
    && IsCounter(n'.s.counter, n.s.counter, Elements(taken))
    && multiset(n'.s.core) == multiset(n.s.core) + TxsOf(taken)
    && n'.rocksOn == n.rocksOn && n'.rocks == n.rocks + (if n.rocksOn then Blocks(taken) else [])
    && (quiet ==> n'.s.mempool == Without(n.s.mempool, HashesIn(Elements(taken)))
                  && n'.s.pending == Without(n.s.pending, HashesIn(Elements(taken))))
  }

  lemma AddsNothing(n: Node, quiet: bool)
    ensures AddsUp(n, n, [], quiet)
  {
    assert HashesIn(Elements<Delivery>([])) == {};
    assert Confirms(Elements<Delivery>([])) == {};
    WithoutNone(n.s.mempool, {});
    WithoutNone(n.s.pending, {});
    assert n.s.history + Blocks([]) == n.s.history;
    assert n.rocks + Blocks([]) == n.rocks;
  }

  lemma BlocksOneMore(base: seq<Block>, taken: seq<Delivery>, d: Delivery)
    ensures base + Blocks(taken) + [d.block] == base + Blocks(taken + [d])
  {
    assert Blocks(taken + [d]) == Blocks(taken) + [d.block];
  }

  lemma SumsOneMore(taken: seq<Delivery>, d: Delivery)
    ensures FeesOf(taken + [d]) == FeesOf(taken) + SumFees(d.txs)
    ensures TxsOf(taken + [d]) == TxsOf(taken) + multiset(d.txs)
    ensures Elements(taken + [d]) == Elements(taken) + {d}
  {
    assert (taken + [d])[..|taken|] == taken;
  }

  lemma PoolOneMore(pool: seq<Tx>, taken: set<Delivery>, d: Delivery)
    ensures Without(Without(pool, HashesIn(taken)), HashSet(d.txs)) == Without(pool, HashesIn(taken + {d}))
  {
    HashesInOne(taken, d);
    WithoutTwice(pool, HashesIn(taken), HashSet(d.txs));
  }

  lemma AddsOne(n: Node, m: Node, n': Node, taken: seq<Delivery>, d: Delivery, quiet: bool, calm: bool)
    requires AddsUp(n, m, taken, quiet) && TakesIn(m, n', d, calm)
    ensures AddsUp(n, n', taken + [d], quiet && calm)
  {
    BlocksOneMore(n.s.history, taken, d);
    BlocksOneMore(n.rocks, taken, d);
    SumsOneMore(taken, d);
    PoolOneMore(n.s.mempool, Elements(taken), d);
    PoolOneMore(n.s.pending, Elements(taken), d);
    ConfirmsOne(Elements(taken), d);
    CounterOne(m.s.counter, n.s.counter, Elements(taken), d);
  }

  lemma CounterOne(c: int, start: int, ds: set<Delivery>, d: Delivery)
    requires IsCounter(c, start, ds)
    ensures IsCounter(Raised(c, d.block.number), start, ds + {d})
  {
    if Raised(c, d.block.number) != c {
      assert d in ds + {d};
    } else if c != start {
      var e :| e in ds && e.block.number >= 0 && c == e.block.number + 1;
      assert e in ds + {d};
    }
  }

  lemma HashesInOne(ds: set<Delivery>, d: Delivery)
    ensures HashesIn(ds + {d}) == HashesIn(ds) + HashSet(d.txs)
  {
  }

  lemma ConfirmsOne(ds: set<Delivery>, d: Delivery)
    ensures Confirms(ds + {d}) == Confirms(ds) + Marks(d.block, d.txs)
  {
  }

  ghost predicate AllUndisturbed(arrivals: seq<Arrival>) {
    forall i :: 0 <= i < |arrivals| ==> Undisturbed(arrivals[i])
  }

  /**
   Every new height the arrivals bring can be written whatever came before: the file is open, or none
   is below its head.
   */
  ghost predicate Welcomed(s: State, ds: set<Delivery>) {
    FileOpen(s) || forall d :: d in ds && AtHeight(s.history, d.block.number).None? ==> d.block.number >= s.durableHead
  }

  /** The file has been opened, or nothing was taken in yet. */
  ghost predicate StillWelcome(s: State, s': State) {
    FileOpen(s') || (s'.history == s.history && s'.persistent == s.persistent && s'.durableHead == s.durableHead)
  }

  lemma {:induction false} DeliveriesAddUp(n: Node, arrivals: seq<Arrival>)
    requires n.s.backup.None? && AllSmooth(arrivals) && Welcomed(n.s, Elements(Deliveries(arrivals)))
    ensures AddsUp(n, ReceiveAll(n, arrivals), Taken(n, arrivals), AllUndisturbed(arrivals))
    ensures ReceiveAll(n, arrivals).s.backup.None? && StillWelcome(n.s, ReceiveAll(n, arrivals).s)
    decreases |arrivals|
  {
    if arrivals == [] {
      AddsNothing(n, AllUndisturbed(arrivals));
    } else {
      var k := |arrivals| - 1;
      var a := arrivals[k];
      assert Deliveries(arrivals)[k] == a.d;
      FewerDeliveries(arrivals);
      DeliveriesAddUp(n, arrivals[..k]);
      OneDelivery(n, ReceiveAll(n, arrivals[..k]), a, Taken(n, arrivals[..k]), AllUndisturbed(arrivals[..k]));
    }
  }

  lemma OneDelivery(n: Node, m: Node, a: Arrival, taken: seq<Delivery>, quiet: bool)
    requires AddsUp(n, m, taken, quiet) && m.s.backup.None? && StillWelcome(n.s, m.s)
    requires Smooth(a) && Welcomed(n.s, {a.d})
    ensures var more := if AtHeight(m.s.history, a.d.block.number).Some? then taken else taken + [a.d];
            AddsUp(n, Receive(m, a), more, quiet && Undisturbed(a))
    ensures Receive(m, a).s.backup.None? && StillWelcome(n.s, Receive(m, a).s)
  {
    if AtHeight(m.s.history, a.d.block.number).Some? {
      ReceiveKnown(m, a);
    } else {
      assert a.d in {a.d};
      ReceiveNew(m, a);
      AddsOne(n, m, Receive(m, a), taken, a.d, quiet, Undisturbed(a));
    }
  }

  lemma FewerDeliveries(arrivals: seq<Arrival>)
    requires arrivals != []
    ensures var k := |arrivals| - 1;
            && Deliveries(arrivals) == Deliveries(arrivals[..k]) + [arrivals[k].d]
            && Elements(Deliveries(arrivals)) == Elements(Deliveries(arrivals[..k])) + {arrivals[k].d}
  {
    var k := |arrivals| - 1;
    assert Deliveries(arrivals) == Deliveries(arrivals[..k]) + [arrivals[k].d];
  }

  /** One block per height among the deliveries. */
  ghost predicate OnePerHeight(ds: set<Delivery>) {
    forall d, e :: d in ds && e in ds && d.block.number == e.block.number ==> d == e
  }

  /** Some delivery in ds is for height n. */
  ghost predicate ForHeight(ds: seq<Delivery>, n: int) {
    exists d :: d in ds && d.block.number == n
  }

  /** The deliveries taken in are those at heights the history lacked, once each. */
  lemma {:induction false} TakenAre(n: Node, arrivals: seq<Arrival>)
    requires n.s.backup.None? && AllSmooth(arrivals) && Welcomed(n.s, Elements(Deliveries(arrivals)))
    requires OnePerHeight(Elements(Deliveries(arrivals)))
    ensures Distinct(Taken(n, arrivals))
    ensures forall d :: d in Taken(n, arrivals) <==>
              d in Deliveries(arrivals) && AtHeight(n.s.history, d.block.number).None?
    decreases |arrivals|
  {
    if arrivals != [] {
      var k := |arrivals| - 1;
      var d, before := arrivals[k].d, Taken(n, arrivals[..k]);
      FewerDeliveries(arrivals);
      TakenAre(n, arrivals[..k]);
      DeliveriesAddUp(n, arrivals[..k]);
      HeightFilled(n.s.history, before, d.block.number);
      assert Taken(n, arrivals) ==
             if AtHeight(n.s.history, d.block.number).Some? || ForHeight(before, d.block.number)
             then before else before + [d];
      assert Deliveries(arrivals)[..k] == Deliveries(arrivals[..k]);
      TakenStep(n.s.history, Deliveries(arrivals), before);
    }
  }

  lemma TakenStep(history: seq<Block>, ds: seq<Delivery>, before: seq<Delivery>)
    requires ds != [] && OnePerHeight(Elements(ds)) && Distinct(before)
    requires forall d :: d in before <==> d in ds[..|ds| - 1] && AtHeight(history, d.block.number).None?
    ensures var d := ds[|ds| - 1];
            var after := if AtHeight(history, d.block.number).Some? || ForHeight(before, d.block.number)
                         then before else before + [d];
            && Distinct(after)
            && forall x :: x in after <==> x in ds && AtHeight(history, x.block.number).None?
  {
    var k := |ds| - 1;
    var d := ds[k];
    assert ds == ds[..k] + [d];
    if ForHeight(before, d.block.number) {
      var e :| e in before && e.block.number == d.block.number;
      assert e in Elements(ds) && d in Elements(ds);
    }
  }

  lemma HeightFilled(history: seq<Block>, taken: seq<Delivery>, n: int)
    ensures AtHeight(history + Blocks(taken), n).Some? <==>
            AtHeight(history, n).Some? || ForHeight(taken, n)
  {
    var all := history + Blocks(taken);
    if AtHeight(history, n).Some? {
      assert AtHeight(history, n).value in all;
    }
    if d :| d in taken && d.block.number == n {
      var i :| 0 <= i < |taken| && taken[i] == d;
      assert Blocks(taken)[i] in all;
    }
    if AtHeight(all, n).Some? && AtHeight(history, n).None? {
      var b := AtHeight(all, n).value;
      assert b in Blocks(taken);
      var i :| 0 <= i < |taken| && Blocks(taken)[i] == b;
      assert taken[i] in taken;
    }
  }

  /** A sum over deliveries, one number each. */
  function Weighed(f: Delivery -> nat, ds: seq<Delivery>): nat {
    if ds == [] then 0 else Weighed(f, ds[..|ds| - 1]) + f(ds[|ds| - 1])
  }

  lemma {:induction false} WeighedWithout(f: Delivery -> nat, ds: seq<Delivery>, k: nat)
    requires k < |ds|
    ensures Weighed(f, ds) == Weighed(f, RemoveAt(ds, k)) + f(ds[k])
    decreases |ds|
  {
    var n := |ds| - 1;
    if k == n {
      assert RemoveAt(ds, k) == ds[..n];
    } else {
      WeighedWithout(f, ds[..n], k);
      assert RemoveAt(ds, k)[..n - 1] == RemoveAt(ds[..n], k);
      assert RemoveAt(ds, k)[n - 1] == ds[n];
    }
  }

  lemma {:induction false} WeighedInAnyOrder(f: Delivery -> nat, a: seq<Delivery>, b: seq<Delivery>)
    requires multiset(a) == multiset(b)
    ensures Weighed(f, a) == Weighed(f, b)
    decreases |a|
  {
    assert |a| == |multiset(a)| == |multiset(b)| == |b|;
    if a != [] {
      var n := |a| - 1;
      assert a[n] in multiset(b);
      var k :| 0 <= k < |b| && b[k] == a[n];
      CancelOne(a, n, b, k);
      assert RemoveAt(a, n) == a[..n];
      WeighedInAnyOrder(f, a[..n], RemoveAt(b, k));
      WeighedWithout(f, b, k);
    }
  }

  function FeesIn(d: Delivery): nat {
    SumFees(d.txs)
  }

  function CountOf(t: Tx): Delivery -> nat {
    (d: Delivery) => multiset(d.txs)[t]
  }

  lemma {:induction false} FeesAreWeighed(ds: seq<Delivery>)
    ensures FeesOf(ds) == Weighed(FeesIn, ds)
    decreases |ds|
  {
    if ds != [] {
      FeesAreWeighed(ds[..|ds| - 1]);
    }
  }

  lemma {:induction false} TxsAreWeighed(ds: seq<Delivery>, t: Tx)
    ensures TxsOf(ds)[t] == Weighed(CountOf(t), ds)
    decreases |ds|
  {
    if ds != [] {
      TxsAreWeighed(ds[..|ds| - 1], t);
    }
  }

  lemma SumsInAnyOrder(a: seq<Delivery>, b: seq<Delivery>)
    requires multiset(a) == multiset(b)
    ensures FeesOf(a) == FeesOf(b) && TxsOf(a) == TxsOf(b)
  {
    FeesAreWeighed(a);
    FeesAreWeighed(b);
    WeighedInAnyOrder(FeesIn, a, b);
    forall t ensures TxsOf(a)[t] == TxsOf(b)[t] {
      TxsAreWeighed(a, t);
      TxsAreWeighed(b, t);
      WeighedInAnyOrder(CountOf(t), a, b);
    }
  }

  lemma SameElementsSameMultiset<T>(a: seq<T>, b: seq<T>)
    requires Distinct(a) && Distinct(b)
    requires forall x :: x in a <==> x in b
    ensures multiset(a) == multiset(b)
  {
    DistinctCounts(a);
    DistinctCounts(b);
    forall x ensures multiset(a)[x] == multiset(b)[x] {
      assert x in a <==> multiset(a)[x] > 0;
      assert x in b <==> multiset(b)[x] > 0;
    }
  }

  lemma {:induction false} BlocksRearrange(a: seq<Delivery>, b: seq<Delivery>)
    requires multiset(a) == multiset(b)
    ensures multiset(Blocks(a)) == multiset(Blocks(b))
    decreases |a|
  {
    assert |a| == |multiset(a)| == |multiset(b)| == |b|;
    if a != [] {
      assert a[0] in multiset(b);
      var k :| 0 <= k < |b| && b[k] == a[0];
      CancelOne(a, 0, b, k);
      BlocksRearrange(RemoveAt(a, 0), RemoveAt(b, k));
      assert Blocks(RemoveAt(a, 0)) == RemoveAt(Blocks(a), 0);
      assert Blocks(RemoveAt(b, k)) == RemoveAt(Blocks(b), k);
      CancelOne(Blocks(a), 0, Blocks(b), k);
    }
  }

  /** Two nodes that agree on everything but the order of their blocks. */
  ghost predicate Converged(a: Node, b: Node) {
    && multiset(a.s.history) == multiset(b.s.history) && multiset(a.rocks) == multiset(b.rocks)
    && multiset(a.s.core) == multiset(b.s.core)
    && a.s.confirmed == b.s.confirmed && a.s.fees == b.s.fees && a.s.counter == b.s.counter
  }

  lemma SameSums(n: Node, a: Node, b: Node, x: seq<Delivery>, y: seq<Delivery>, p: bool, q: bool)
    requires AddsUp(n, a, x, p) && AddsUp(n, b, y, q) && multiset(x) == multiset(y) && Elements(x) == Elements(y)
    ensures Converged(a, b)
    ensures p && q ==> a.s.mempool == b.s.mempool && a.s.pending == b.s.pending
  {
    SumsInAnyOrder(x, y);
    BlocksRearrange(x, y);
  }

  /**
   The same peer blocks, one per height, in any order and with any repetition and whatever happens
   to the pools meanwhile, lead to the same history set, Rocks set, Core batches, confirmed set, fee
   total and counter, when the chain file takes every new height; with the pools left alone they
   lead to the same pools too.
   */
  lemma PeersConverge(n: Node, xs: seq<Arrival>, ys: seq<Arrival>)
    requires n.s.backup.None? && AllSmooth(xs) && AllSmooth(ys)
    requires Elements(Deliveries(xs)) == Elements(Deliveries(ys)) && OnePerHeight(Elements(Deliveries(xs)))
    requires Welcomed(n.s, Elements(Deliveries(xs)))
    ensures Converged(ReceiveAll(n, xs), ReceiveAll(n, ys))
    ensures AllUndisturbed(xs) && AllUndisturbed(ys) ==>
      var a, b := ReceiveAll(n, xs).s, ReceiveAll(n, ys).s; a.mempool == b.mempool && a.pending == b.pending
  {
    DeliveriesAddUp(n, xs);
    DeliveriesAddUp(n, ys);
    SameTaken(n, xs, ys);
    SameSums(n, ReceiveAll(n, xs), ReceiveAll(n, ys), Taken(n, xs), Taken(n, ys),
             AllUndisturbed(xs), AllUndisturbed(ys));
  }

  lemma SameTaken(n: Node, xs: seq<Arrival>, ys: seq<Arrival>)
    requires n.s.backup.None? && AllSmooth(xs) && AllSmooth(ys)
    requires Elements(Deliveries(xs)) == Elements(Deliveries(ys)) && OnePerHeight(Elements(Deliveries(xs)))
    requires Welcomed(n.s, Elements(Deliveries(xs)))
    ensures multiset(Taken(n, xs)) == multiset(Taken(n, ys)) && Elements(Taken(n, xs)) == Elements(Taken(n, ys))
  {
    TakenAre(n, xs);
    TakenAre(n, ys);
    MembersOf(Deliveries(xs), Elements(Deliveries(xs)));
    MembersOf(Deliveries(ys), Elements(Deliveries(ys)));
    SameElementsSameMultiset(Taken(n, xs), Taken(n, ys));
  }

  // ----- when the chain file is ahead of history -----

  /** Deliveries below the file's head pass a history that has not reached it by. */
  lemma {:induction false} AllPassBy(n: Node, arrivals: seq<Arrival>)
    requires n.s.backup.None? && AllSmooth(arrivals) && !FileOpen(n.s)
    requires forall d :: d in Deliveries(arrivals) && AtHeight(n.s.history, d.block.number).None? ==>
               d.block.number < n.s.durableHead
    ensures PassesBy(n, ReceiveAll(n, arrivals))
    decreases |arrivals|
  {
    if arrivals != [] {
      var k := |arrivals| - 1;
      var a := arrivals[k];
      FewerDeliveries(arrivals);
      AllPassBy(n, arrivals[..k]);
      var m := ReceiveAll(n, arrivals[..k]);
      if AtHeight(m.s.history, a.d.block.number).Some? {
        ReceiveKnown(m, a);
      } else {
        assert a.d in Deliveries(arrivals);
        Boundary.HeadAtLeast(n.s.history);
        ReceiveNew(m, a);
      }
    }
  }

  lemma ReceiveLast(n: Node, all: seq<Arrival>, front: seq<Arrival>, a: Arrival)
    requires all == front + [a]
    ensures ReceiveAll(n, all) == Receive(ReceiveAll(n, front), a)
  {
    assert all[..|all| - 1] == front;
  }

  lemma SplitLast<T>(xs: seq<T>, ys: seq<T>)
    requires ys != []
    ensures var k := |ys| - 1; xs + ys == (xs + ys[..k]) + [ys[k]] && ys == ys[..k] + [ys[k]]
  {
  }

  lemma SameReceive(n: Node, all: seq<Arrival>, front: seq<Arrival>,
                    m: Node, later: seq<Arrival>, before: seq<Arrival>, a: Arrival)
    requires all == front + [a] && later == before + [a] && ReceiveAll(n, front) == ReceiveAll(m, before)
    ensures ReceiveAll(n, all) == ReceiveAll(m, later)
  {
    ReceiveLast(n, all, front, a);
    ReceiveLast(m, later, before, a);
  }

  lemma {:induction false} ReceiveSplit(n: Node, xs: seq<Arrival>, ys: seq<Arrival>)
    ensures ReceiveAll(n, xs + ys) == ReceiveAll(ReceiveAll(n, xs), ys)
    decreases |ys|
  {
    if ys == [] {
      assert xs + ys == xs;
    } else {
      var k := |ys| - 1;
      ReceiveSplit(n, xs, ys[..k]);
      SplitLast(xs, ys);
      SameReceive(n, xs + ys, xs + ys[..k], ReceiveAll(n, xs), ys, ys[..k], ys[k]);
    }
  }

  /** A delivery that meets no failure and no interference. */
  function Plain(d: Delivery): Arrival {
    Arrival(d, None, PeerInput(ApplyInput(DagInput(false, NoOrder), Completes), None, true, None, true, true))
  }

  function PlainAll(ds: seq<Delivery>): seq<Arrival> {
    seq(|ds|, i requires 0 <= i < |ds| => Plain(ds[i]))
  }

  lemma PlainIs(ds: seq<Delivery>)
    ensures AllSmooth(PlainAll(ds)) && Deliveries(PlainAll(ds)) == ds
  {
  }

  lemma {:induction false} SomeListing(ds: set<Delivery>) returns (list: seq<Delivery>)
    ensures Elements(list) == ds
    decreases ds
  {
    list := [];
    if ds != {} {
      var d :| d in ds;
      var rest := SomeListing(ds - {d});
      list := rest + [d];
      assert Elements(list) == Elements(rest) + {d};
    }
  }

  /** The arrivals bring exactly these deliveries, smoothly. */
  ghost predicate Brings(arrivals: seq<Arrival>, ds: set<Delivery>) {
    AllSmooth(arrivals) && Elements(Deliveries(arrivals)) == ds
  }

  /** However the deliveries come, they leave the same blocks in history. */
  ghost predicate OrderIsFree(n: Node, ds: set<Delivery>) {
    forall xs, ys :: Brings(xs, ds) && Brings(ys, ds) ==>
      multiset(ReceiveAll(n, xs).s.history) == multiset(ReceiveAll(n, ys).s.history)
  }

  /** A new height below the file's head. */
  ghost predicate Low(s: State, d: Delivery) {
    AtHeight(s.history, d.block.number).None? && d.block.number < s.durableHead
  }

  lemma PlainThen(a: seq<Delivery>, b: seq<Delivery>)
    ensures AllSmooth(PlainAll(a) + PlainAll(b)) && Deliveries(PlainAll(a) + PlainAll(b)) == a + b
    ensures Elements(a + b) == Elements(a) + Elements(b)
  {
  }

  /** With the high block first, the low one is taken in. */
  lemma HighFirst(n: Node, rest: seq<Delivery>, low: Delivery, high: Delivery)
    requires n.s.backup.None? && !FileOpen(n.s) && OnePerHeight(Elements(rest))
    requires low in rest && Low(n.s, low) && high.block.number >= n.s.durableHead
    ensures low.block in ReceiveAll(n, PlainAll([high]) + PlainAll(rest)).s.history
  {
    PlainIs(rest);
    ReceiveSplit(n, PlainAll([high]), PlainAll(rest));
    HighOpens(n, high);
    HeightAfter(n.s.history, high.block, low.block.number);
    LowTakenLater(ReceiveAll(n, PlainAll([high])), rest, low);
  }

  lemma LowTakenLater(m: Node, rest: seq<Delivery>, low: Delivery)
    requires m.s.backup.None? && FileOpen(m.s) && OnePerHeight(Elements(rest))
    requires low in rest && AtHeight(m.s.history, low.block.number).None?
    ensures low.block in ReceiveAll(m, PlainAll(rest)).s.history
  {
    PlainIs(rest);
    DeliveriesAddUp(m, PlainAll(rest));
    TakenAre(m, PlainAll(rest));
    BlockOf(Taken(m, PlainAll(rest)), low);
  }

  lemma HighOpens(n: Node, high: Delivery)
    requires n.s.backup.None? && !FileOpen(n.s) && high.block.number >= n.s.durableHead
    ensures var m := ReceiveAll(n, PlainAll([high]));
            FileOpen(m.s) && m.s.backup.None? && m.s.history == n.s.history + [high.block]
  {
    var a := Plain(high);
    assert PlainAll([high]) == [a] && [a][..0] == [];
    assert ReceiveAll(n, [a]) == Receive(n, a);
    Boundary.HeadAtLeast(n.s.history);
    NewAbove(n.s.history, high.block.number);
    ReceiveNew(n, a);
  }

  lemma NewAbove(blocks: seq<Block>, height: int)
    requires height > HistoryHead(blocks)
    ensures AtHeight(blocks, height).None?
  {
    Boundary.HeadAtLeast(blocks);
  }

  lemma HeightAfter(blocks: seq<Block>, b: Block, height: int)
    requires AtHeight(blocks, height).None? && b.number != height
    ensures AtHeight(blocks + [b], height).None?
  {
  }

  lemma BlockOf(ds: seq<Delivery>, d: Delivery)
    requires d in ds
    ensures d.block in Blocks(ds)
  {
    var i :| 0 <= i < |ds| && ds[i] == d;
    assert Blocks(ds)[i] == d.block;
  }

  /** With the low blocks first, they are all refused, and nothing later brings them back. */
  lemma LowFirst(n: Node, under: seq<Delivery>, over: seq<Delivery>, low: Delivery)
    requires n.s.backup.None? && !FileOpen(n.s) && OnePerHeight(Elements(over))
    requires forall d :: d in under ==> d.block.number < n.s.durableHead
    requires forall d :: d in over ==> d.block.number >= n.s.durableHead
    requires Low(n.s, low)
    ensures AtHeight(ReceiveAll(n, PlainAll(under) + PlainAll(over)).s.history, low.block.number).None?
  {
    PlainIs(under);
    ReceiveSplit(n, PlainAll(under), PlainAll(over));
    AllPassBy(n, PlainAll(under));
    NeverTaken(ReceiveAll(n, PlainAll(under)), over, low.block.number);
  }

  lemma NeverTaken(m: Node, over: seq<Delivery>, height: int)
    requires m.s.backup.None? && OnePerHeight(Elements(over)) && AtHeight(m.s.history, height).None?
    requires height < m.s.durableHead && forall d :: d in over ==> d.block.number >= m.s.durableHead
    ensures AtHeight(ReceiveAll(m, PlainAll(over)).s.history, height).None?
  {
    PlainIs(over);
    DeliveriesAddUp(m, PlainAll(over));
    TakenAre(m, PlainAll(over));
    HeightFilled(m.s.history, Taken(m, PlainAll(over)), height);
  }

  lemma OrderWithLow(n: Node, ds: set<Delivery>, low: Delivery, high: Delivery) returns (xs: seq<Arrival>)
    requires n.s.backup.None? && !FileOpen(n.s) && OnePerHeight(ds)
    requires low in ds && high in ds && Low(n.s, low) && high.block.number >= n.s.durableHead
    ensures Brings(xs, ds) && low.block in ReceiveAll(n, xs).s.history
  {
    var rest := SomeListing(ds - {high});
    MembersOf(rest, ds - {high});
    assert low != high;
    HighFirst(n, rest, low, high);
    PlainThen([high], rest);
    assert Elements([high]) == {high};
    xs := PlainAll([high]) + PlainAll(rest);
  }

  lemma OrderWithoutLow(n: Node, ds: set<Delivery>, low: Delivery) returns (ys: seq<Arrival>)
    requires n.s.backup.None? && !FileOpen(n.s) && OnePerHeight(ds) && Low(n.s, low)
    ensures Brings(ys, ds) && AtHeight(ReceiveAll(n, ys).s.history, low.block.number).None?
  {
    var lows := set d | d in ds && d.block.number < n.s.durableHead;
    var under := SomeListing(lows);
    var over := SomeListing(ds - lows);
    MembersOf(under, lows);
    MembersOf(over, ds - lows);
    LowFirst(n, under, over, low);
    PlainThen(under, over);
    assert lows + (ds - lows) == ds;
    ys := PlainAll(under) + PlainAll(over);
  }

  /** When a low and a high height are both to come, there are two orders that end in different histories. */
  lemma Diverges(n: Node, ds: set<Delivery>, low: Delivery, high: Delivery)
    requires n.s.backup.None? && !FileOpen(n.s) && OnePerHeight(ds)
    requires low in ds && high in ds && Low(n.s, low) && high.block.number >= n.s.durableHead
    ensures !OrderIsFree(n, ds)
  {
    var xs := OrderWithLow(n, ds, low, high);
    var ys := OrderWithoutLow(n, ds, low);
    assert low.block in multiset(ReceiveAll(n, xs).s.history);
    assert low.block !in ReceiveAll(n, ys).s.history;
    assert low.block !in multiset(ReceiveAll(n, ys).s.history);
  }

  lemma MembersOf(list: seq<Delivery>, ds: set<Delivery>)
    requires Elements(list) == ds
    ensures forall d :: d in list <==> d in ds
  {
    assert forall d :: d in list <==> d in Elements(list);
  }

  /**
   The order of deliveries cannot matter for history exactly when the chain file is not ahead of it,
   or no new height is below the file's head, or none is at or above it.
   */
  lemma ConvergesExactly(n: Node, ds: set<Delivery>)
    requires n.s.backup.None? && OnePerHeight(ds)
    ensures OrderIsFree(n, ds) <==>
            || FileOpen(n.s)
            || (forall d :: d in ds ==> !Low(n.s, d))
            || (forall d :: d in ds ==> d.block.number < n.s.durableHead)
  {
    if FileOpen(n.s) || (forall d :: d in ds ==> !Low(n.s, d)) {
      assert Welcomed(n.s, ds);
      forall xs, ys | Brings(xs, ds) && Brings(ys, ds)
        ensures multiset(ReceiveAll(n, xs).s.history) == multiset(ReceiveAll(n, ys).s.history)
      {
        PeersConverge(n, xs, ys);
      }
    } else if forall d :: d in ds ==> d.block.number < n.s.durableHead {
      forall xs | Brings(xs, ds) ensures ReceiveAll(n, xs).s.history == n.s.history {
        assert forall d :: d in Deliveries(xs) ==> d in Elements(Deliveries(xs));
        AllPassBy(n, xs);
      }
    } else {
      var low :| low in ds && Low(n.s, low);
      var high :| high in ds && high.block.number >= n.s.durableHead;
      Diverges(n, ds, low, high);
    }
  }

  /**
   Blocks that are all refused leave history alone, but still move the counter in their order: of two
   adjacent heights, the one that comes last decides it.
   */
  lemma RefusedInTwoOrders(n: Node, d: Delivery, e: Delivery)
    requires n.s.backup.None? && !FileOpen(n.s) && Low(n.s, d) && Low(n.s, e)
    requires 0 <= d.block.number == e.block.number - 1 && n.s.counter <= e.block.number + 1
    ensures var xs, ys := ReceiveAll(n, [Plain(d), Plain(e)]), ReceiveAll(n, [Plain(e), Plain(d)]);
            && xs.s.history == ys.s.history == n.s.history
            && xs.s.counter == e.block.number && ys.s.counter == d.block.number
  {
    ReceiveTwo(n, Plain(d), Plain(e));
    ReceiveTwo(n, Plain(e), Plain(d));
    RefusedMovesCounter(n, d);
    RefusedMovesCounter(n, e);
    RefusedMovesCounter(Receive(n, Plain(d)), e);
    RefusedMovesCounter(Receive(n, Plain(e)), d);
  }

  /** A refused block at or past the next number takes the counter to its own number. */
  lemma RefusedMovesCounter(n: Node, d: Delivery)
    requires n.s.backup.None? && !FileOpen(n.s) && Low(n.s, d) && d.block.number >= 0
    ensures var m := Receive(n, Plain(d));
            && m.s.history == n.s.history && m.s.backup.None? && !FileOpen(m.s) && m.s.durableHead == n.s.durableHead
            && m.s.counter == if n.s.counter <= d.block.number + 1 then d.block.number else n.s.counter
  {
    Boundary.HeadAtLeast(n.s.history);
    ReceiveNew(n, Plain(d));
  }

  lemma ReceiveTwo(n: Node, a: Arrival, b: Arrival)
    ensures ReceiveAll(n, [a, b]) == Receive(Receive(n, a), b)
  {
    ReceiveLast(n, [a, b], [a], b);
    ReceiveLast(n, [a], [], a);
  }

  /** A block undone after its file was written leaves the file ahead of history. */
  lemma UndoLeavesFileAhead(s: State, before: seq<Block>, b: Block, moved: seq<Tx>, writeOk: bool)
    requires s.history == before + [b] && s.persistent && s.durableHead == b.number > HistoryHead(before)
    ensures !FileOpen(UndoConfirmed(s, b, moved, writeOk))
  {
    Boundary.HeadAtLeast(before);
    assert s.history[..|s.history| - 1] == before;
  }

  // ----- heights -----

  /** Whatever peers send, and whatever fails, a filled height keeps its record. */
  lemma {:induction false} HeightsStay(n: Node, arrivals: seq<Arrival>, height: int)
    ensures n.s.history <= ReceiveAll(n, arrivals).s.history
    ensures AtHeight(n.s.history, height).Some? ==>
      AtHeight(ReceiveAll(n, arrivals).s.history, height) == AtHeight(n.s.history, height)
    decreases |arrivals|
  {
    if arrivals != [] {
      var k := |arrivals| - 1;
      var m, a := ReceiveAll(n, arrivals[..k]), arrivals[k];
      HeightsStay(n, arrivals[..k], height);
      PeerIsAllOrNothing(m.(s := Meanwhile(m.s, a.before)), a.d.block, a.d.txs, a.in_);
      AtHeightPrefix(m.s.history, [a.d.block], height);
    }
  }

  lemma {:induction false} AtHeightPrefix(a: seq<Block>, b: seq<Block>, n: int)
    ensures AtHeight(a, n).Some? ==> AtHeight(a + b, n) == AtHeight(a, n)
    decreases |a|
  {
    if a != [] && a[0].number != n {
      AtHeightPrefix(a[1..], b, n);
      assert (a + b)[1..] == a[1..] + b;
    }
  }
}
