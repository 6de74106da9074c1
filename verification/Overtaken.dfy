/**
 A confirm with peer blocks in between. Every apply keeps its backup of Core's state at one path
 (internal/blockchain/blockchain.go), so a peer block that is applied while a confirm is not yet
 durable takes the confirm's backup away, whether the peer block lands or not.
 */
module Overtaken {
  import opened Sequences
  import opened Ledger
  import opened Confirm
  import opened Peers
  import Boundary

  // ----- what peers leave while a confirm is open -----

  function End(n: Node, a: Arrival): PeerEnd {
    ApplyPeer(n.(s := Meanwhile(n.s, a.before)), a.d.block, a.d.txs, a.in_).1
  }

  /** The deliveries that landed, in order. */
  function LandedBy(n: Node, arrivals: seq<Arrival>): seq<Delivery> {
    if arrivals == [] then []
    else
      var k := |arrivals| - 1;
      var before, m := LandedBy(n, arrivals[..k]), ReceiveAll(n, arrivals[..k]);
      if End(m, arrivals[k]).Landed? then before + [arrivals[k].d] else before
  }

  /** Some delivery found its height empty and had Core's state copied to the backup path. */
  predicate Snapped(n: Node, arrivals: seq<Arrival>) {
    arrivals != [] &&
    var k := |arrivals| - 1;
    Snapped(n, arrivals[..k]) || Snaps(ReceiveAll(n, arrivals[..k]).s, arrivals[k].d.block, arrivals[k].in_.apply)
  }

  /** None of the deliveries is for a height of the history. */
  ghost predicate NewHeights(history: seq<Block>, ds: seq<Delivery>) {
    forall b, d :: b in history && d in ds ==> b.number != d.block.number
  }

  /** Core, history, Rocks and the backup after deliveries that landed or not. */
  ghost predicate Passed(n: Node, m: Node, landed: seq<Delivery>, snapped: bool) {
    && m.s.history == n.s.history + Blocks(landed) && NewHeights(n.s.history, landed)
    && n.s.core <= m.s.core && multiset(m.s.core) == multiset(n.s.core) + TxsOf(landed)
    && m.rocksOn == n.rocksOn && m.rocks == n.rocks + (if n.rocksOn then Blocks(landed) else [])
    && m.s.backup == (if snapped then None else n.s.backup)
    && (!snapped ==> landed == [])
  }

  lemma PassedNone(n: Node)
    ensures Passed(n, n, [], false)
  {
    assert n.s.history + Blocks([]) == n.s.history;
    assert n.rocks + Blocks([]) == n.rocks;
  }

  lemma PassedOne(n: Node, m: Node, a: Arrival, landed: seq<Delivery>, snapped: bool)
    requires Passed(n, m, landed, snapped)
    ensures Passed(n, Receive(m, a), if End(m, a).Landed? then landed + [a.d] else landed,
                   snapped || Snaps(m.s, a.d.block, a.in_.apply))
  {
    var w := m.(s := Meanwhile(m.s, a.before));
    PeerIsAllOrNothing(w, a.d.block, a.d.txs, a.in_);
    if End(m, a).Landed? {
      PassedLanded(n, w, Receive(m, a), a.d, landed, snapped);
    }
  }

  lemma PassedLanded(n: Node, m: Node, m': Node, d: Delivery, landed: seq<Delivery>, snapped: bool)
    requires Passed(n, m, landed, snapped) && PeerAllOrNothing(m, m', d.block, d.txs, Landed) && m'.s.backup.None?
    ensures Passed(n, m', landed + [d], true)
  {
    BlocksOneMore(n.s.history, landed, d);
    BlocksOneMore(n.rocks, landed, d);
    SumsOneMore(landed, d);
  }

  lemma {:induction false} ArrivalsPass(n: Node, arrivals: seq<Arrival>)
    ensures Passed(n, ReceiveAll(n, arrivals), LandedBy(n, arrivals), Snapped(n, arrivals))
    decreases |arrivals|
  {
    if arrivals == [] {
      PassedNone(n);
    } else {
      var k := |arrivals| - 1;
      ArrivalsPass(n, arrivals[..k]);
      PassedOne(n, ReceiveAll(n, arrivals[..k]), arrivals[k], LandedBy(n, arrivals[..k]), Snapped(n, arrivals[..k]));
    }
  }

  // ----- the confirm -----

  /** The deliveries after Core's apply, after the explorer's commit, and after the header. */
  datatype Gaps = Gaps(applied: seq<Arrival>, committed: seq<Arrival>, headed: seq<Arrival>)

  function AfterApply(n: Node, l2: L2Input): Node {
    n.(s := Apply(n.s, n.s.pending, l2.apply))
  }

  function AtCommit(n: Node, l2: L2Input, g: Gaps): Node {
    ReceiveAll(AfterApply(n, l2), g.applied)
  }

  function CommitAmong(n: Node, l2: L2Input, g: Gaps): (State, L2Result) {
    Commit(Disturb(AtCommit(n, l2, g).s, l2.during), n.s.pending, l2)
  }

  function AfterCommit(n: Node, l2: L2Input, fin: FinalInput, g: Gaps): Node {
    AtCommit(n, l2, g).(s := Disturb(CommitAmong(n, l2, g).0, fin.before))
  }

  /** The confirm of Confirm.Round, with peer blocks received in each of its gaps. */
  function RoundAmong(n: Node, l2: L2Input, fin: FinalInput, g: Gaps): (Node, Outcome) {
    if !ApplySucceeds(n.s, n.s.pending, l2.apply) then (AfterApply(n, l2), Aborted(false))
    else
      var (s1, r1) := CommitAmong(n, l2, g);
      if !r1.Confirmed? then (AtCommit(n, l2, g).(s := s1), Aborted(r1.PersistFailed?))
      else
        var (n2, r2) := FinalizeAmong(ReceiveAll(AfterCommit(n, l2, fin, g), g.committed), r1.block, r1.moved, fin, g);
        match r2
        case HeaderFailed => (n2, Aborted(true))
        case RocksFailed => (n2, Aborted(true))
        case Durable(b) => (n2, Done(b))
        case DurableWithoutHeader => (n2, Done(r1.block))
  }

  function FinalizeAmong(n: Node, b: Block, moved: seq<Tx>, in_: FinalInput, g: Gaps): (Node, FinalResult) {
    if in_.header.None? then WithoutHeader(n, b, moved, in_)
    else
      var hash := in_.header.value;
      DurableCommit(ReceiveAll(Headed(n, b, hash, in_), g.headed), b.(blockHash := hash), moved,
                    in_.rocksOk, in_.undoWriteOk)
  }

  /** With nobody in the gaps it is that confirm. */
  lemma NobodyAmong(n: Node, l2: L2Input, fin: FinalInput)
    ensures RoundAmong(n, l2, fin, Gaps([], [], [])) == Round(n, l2, fin)
  {
  }

  /** What landed before the block was numbered. */
  function Below(n: Node, l2: L2Input, g: Gaps): seq<Delivery> {
    if ApplySucceeds(n.s, n.s.pending, l2.apply) then LandedBy(AfterApply(n, l2), g.applied) else []
  }

  predicate Commits(n: Node, l2: L2Input, g: Gaps) {
    ApplySucceeds(n.s, n.s.pending, l2.apply) && CommitAmong(n, l2, g).1.Confirmed?
  }

  /** The node when the header is due. */
  function AtHeader(n: Node, l2: L2Input, fin: FinalInput, g: Gaps): Node {
    ReceiveAll(AfterCommit(n, l2, fin, g), g.committed)
  }

  function AfterHeader(n: Node, l2: L2Input, fin: FinalInput, g: Gaps): Node
    requires Commits(n, l2, g) && fin.header.Some?
  {
    Headed(AtHeader(n, l2, fin, g), CommitAmong(n, l2, g).1.block, fin.header.value, fin)
  }

  /** The node when Rocks is due. */
  function AtEnd(n: Node, l2: L2Input, fin: FinalInput, g: Gaps): Node
    requires Commits(n, l2, g) && fin.header.Some?
  {
    ReceiveAll(AfterHeader(n, l2, fin, g), g.headed)
  }

  /** What landed on top of the block before it was durable or undone. */
  function Above(n: Node, l2: L2Input, fin: FinalInput, g: Gaps): seq<Delivery> {
    if !Commits(n, l2, g) then []
    else LandedBy(AfterCommit(n, l2, fin, g), g.committed) +
         if fin.header.Some? then LandedBy(AfterHeader(n, l2, fin, g), g.headed) else []
  }

  /** Some peer block was applied between the confirm's apply and its end. */
  predicate BackupLost(n: Node, l2: L2Input, fin: FinalInput, g: Gaps) {
    ApplySucceeds(n.s, n.s.pending, l2.apply) &&
    (Snapped(AfterApply(n, l2), g.applied) ||
     (Commits(n, l2, g) &&
      (Snapped(AfterCommit(n, l2, fin, g), g.committed) ||
       (fin.header.Some? && Snapped(AfterHeader(n, l2, fin, g), g.headed)))))
  }

  // ----- a confirm that is half done -----

  /** The block of n's pending transactions. */
  ghost predicate BlockOf(n: Node, b: Block) {
    b.txHashes == Hashes(n.s.pending) && b.totalFees == SumFees(n.s.pending)
  }

  /** The confirm's batch and those of peers are in Core. */
  ghost predicate AllApplied(n: Node, core: seq<Tx>, below: seq<Delivery>, above: seq<Delivery>) {
    && n.s.core <= core
    && multiset(core) == multiset(n.s.core) + multiset(n.s.pending) + TxsOf(below) + TxsOf(above)
  }

  ghost predicate RocksHas(n: Node, k: Node, below: seq<Delivery>, above: seq<Delivery>) {
    k.rocksOn == n.rocksOn && k.rocks == n.rocks + (if n.rocksOn then Blocks(below) + Blocks(above) else [])
  }

  /** b stands on the blocks of `below` and under those of `above`, and no other record has its number. */
  ghost predicate StandsAmong(n: Node, history: seq<Block>, b: Block, below: seq<Delivery>, above: seq<Delivery>) {
    && history == n.s.history + Blocks(below) + [b] + Blocks(above)
    && (forall x :: x in n.s.history + Blocks(below) ==> x.number != b.number)
    && (forall d :: d in above ==> d.block.number != b.number)
  }

  /** Confirmed and not yet durable; own: the backup is still the confirm's own. */
  ghost predicate HalfDone(n: Node, k: Node, b: Block, below: seq<Delivery>, above: seq<Delivery>, own: bool) {
    && BlockOf(n, b) && StandsAmong(n, k.s.history, b, below, above)
    && AllApplied(n, k.s.core, below, above) && RocksHas(n, k, below, above)
    && k.s.backup == (if own then Some(n.s.core) else None)
    && (own ==> below == [] && above == [])
  }

  lemma HistoryAbove(n: Node, history: seq<Block>, b: Block, below: seq<Delivery>, above: seq<Delivery>,
                     landed: seq<Delivery>)
    requires StandsAmong(n, history, b, below, above) && NewHeights(history, landed)
    ensures StandsAmong(n, history + Blocks(landed), b, below, above + landed)
  {
    BlocksConcat(above, landed);
    assert history[|n.s.history + Blocks(below)|] == b;
    assert b in history;
  }

  lemma MoreAbove(n: Node, k: Node, k': Node, b: Block, below: seq<Delivery>, above: seq<Delivery>, own: bool,
                  landed: seq<Delivery>, snapped: bool)
    requires HalfDone(n, k, b, below, above, own) && Passed(k, k', landed, snapped)
    ensures HalfDone(n, k', b, below, above + landed, own && !snapped)
  {
    HistoryAbove(n, k.s.history, b, below, above, landed);
    TxsConcat(above, landed);
    RocksAbove(n, k, k', below, above, landed, snapped);
  }

  lemma RocksAbove(n: Node, k: Node, k': Node, below: seq<Delivery>, above: seq<Delivery>,
                   landed: seq<Delivery>, snapped: bool)
    requires RocksHas(n, k, below, above) && Passed(k, k', landed, snapped)
    ensures RocksHas(n, k', below, above + landed)
  {
    BlocksConcat(above, landed);
  }

  lemma BlocksConcat(a: seq<Delivery>, b: seq<Delivery>)
    ensures Blocks(a + b) == Blocks(a) + Blocks(b)
  {
  }

  lemma TxsConcat(a: seq<Delivery>, b: seq<Delivery>)
    ensures TxsOf(a + b) == TxsOf(a) + TxsOf(b)
  {
    forall t ensures TxsOf(a + b)[t] == (TxsOf(a) + TxsOf(b))[t] {
      TxsAreWeighed(a, t);
      TxsAreWeighed(b, t);
      TxsAreWeighed(a + b, t);
      WeighedConcat(CountOf(t), a, b);
    }
  }

  lemma {:induction false} WeighedConcat(f: Delivery -> nat, a: seq<Delivery>, b: seq<Delivery>)
    ensures Weighed(f, a + b) == Weighed(f, a) + Weighed(f, b)
    decreases |b|
  {
    if b == [] {
      assert a + b == a;
    } else {
      var k := |b| - 1;
      WeighedConcat(f, a, b[..k]);
      assert (a + b)[..|a + b| - 1] == a + b[..k];
    }
  }

  /** The node as the explorer's commit finds it. */
  lemma AtCommitIs(n: Node, l2: L2Input, g: Gaps)
    requires n.s.backup.None? && ApplySucceeds(n.s, n.s.pending, l2.apply)
    ensures var m, lost := AtCommit(n, l2, g), Snapped(AfterApply(n, l2), g.applied);
            && m.s.history == n.s.history + Blocks(Below(n, l2, g))
            && AllApplied(n, m.s.core, Below(n, l2, g), []) && RocksHas(n, m, Below(n, l2, g), [])
            && m.s.backup == (if lost then None else Some(n.s.core)) && (!lost ==> Below(n, l2, g) == [])
  {
    ApplyOrderPermutes(l2.apply.dag, n.s.dagDigests, n.s.pending);
    ArrivalsPass(AfterApply(n, l2), g.applied);
  }

  /** A confirm may be numbered: its counter is above every record, and its fee total is not negative. */
  ghost predicate Settled(s: State) {
    Boundary.Ahead(s) && s.fees >= 0
  }

  lemma CommitIs(n: Node, l2: L2Input, fin: FinalInput, g: Gaps)
    requires n.s.backup.None? && Commits(n, l2, g) && Settled(AtCommit(n, l2, g).s)
    ensures HalfDone(n, AfterCommit(n, l2, fin, g), CommitAmong(n, l2, g).1.block, Below(n, l2, g), [],
                     !Snapped(AfterApply(n, l2), g.applied))
    ensures CommitAmong(n, l2, g).1.moved == n.s.pending
  {
    AtCommitIs(n, l2, g);
    Boundary.CommitEffect(Disturb(AtCommit(n, l2, g).s, l2.during), n.s.pending, l2);
    var b := CommitAmong(n, l2, g).1.block;
    assert n.s.history + Blocks(Below(n, l2, g)) + [b] == n.s.history + Blocks(Below(n, l2, g)) + [b] + Blocks([]);
  }

  lemma AtHeaderIs(n: Node, l2: L2Input, fin: FinalInput, g: Gaps)
    requires n.s.backup.None? && Commits(n, l2, g) && Settled(AtCommit(n, l2, g).s)
    ensures HalfDone(n, AtHeader(n, l2, fin, g), CommitAmong(n, l2, g).1.block, Below(n, l2, g),
                     LandedBy(AfterCommit(n, l2, fin, g), g.committed),
                     !Snapped(AfterApply(n, l2), g.applied) && !Snapped(AfterCommit(n, l2, fin, g), g.committed))
  {
    CommitIs(n, l2, fin, g);
    var c := AfterCommit(n, l2, fin, g);
    ArrivalsPass(c, g.committed);
    MoreAbove(n, c, AtHeader(n, l2, fin, g), CommitAmong(n, l2, g).1.block, Below(n, l2, g), [],
              !Snapped(AfterApply(n, l2), g.applied), LandedBy(c, g.committed), Snapped(c, g.committed));
    assert [] + LandedBy(c, g.committed) == LandedBy(c, g.committed);
  }

  lemma {:induction false} SetHashAmong(before: seq<Block>, b: Block, after: seq<Block>, hash: string)
    requires forall x :: x in before ==> x.number != b.number
    ensures SetHash(before + [b] + after, b.number, hash) == before + [b.(blockHash := hash)] + after
    decreases |before|
  {
    var all := before + [b] + after;
    if before == [] {
      assert all[0] == b && all[1..] == after;
    } else {
      assert all[0] == before[0] && all[1..] == before[1..] + [b] + after;
      SetHashAmong(before[1..], b, after, hash);
    }
  }

  lemma HeaderIs(n: Node, k: Node, b: Block, below: seq<Delivery>, above: seq<Delivery>, own: bool,
                 hash: string, fin: FinalInput)
    requires HalfDone(n, k, b, below, above, own)
    ensures HalfDone(n, Headed(k, b, hash, fin), b.(blockHash := hash), below, above, own)
  {
    assert k.s.history[|n.s.history + Blocks(below)|] == b;
    assert b in k.s.history;
    SetHashAmong(n.s.history + Blocks(below), b, Blocks(above), hash);
  }

  lemma AtEndIs(n: Node, l2: L2Input, fin: FinalInput, g: Gaps)
    requires n.s.backup.None? && Commits(n, l2, g) && Settled(AtCommit(n, l2, g).s) && fin.header.Some?
    ensures HalfDone(n, AtEnd(n, l2, fin, g), CommitAmong(n, l2, g).1.block.(blockHash := fin.header.value),
                     Below(n, l2, g), Above(n, l2, fin, g), !BackupLost(n, l2, fin, g))
  {
    AtHeaderIs(n, l2, fin, g);
    var c, h := AfterCommit(n, l2, fin, g), AfterHeader(n, l2, fin, g);
    var b, below, above := CommitAmong(n, l2, g).1.block, Below(n, l2, g), LandedBy(c, g.committed);
    var own := !Snapped(AfterApply(n, l2), g.applied) && !Snapped(c, g.committed);
    HeaderIs(n, AtHeader(n, l2, fin, g), b, below, above, own, fin.header.value, fin);
    ArrivalsPass(h, g.headed);
    MoreAbove(n, h, AtEnd(n, l2, fin, g), b.(blockHash := fin.header.value), below, above, own,
              LandedBy(h, g.headed), Snapped(h, g.headed));
  }

  /** A half-done confirm that is undone. */
  ghost predicate UndoneAmong(n: Node, n': Node, below: seq<Delivery>, above: seq<Delivery>, own: bool) {
    && n'.s.backup.None? && RocksHas(n, n', below, above)
    && (if above == [] then n'.s.history == n.s.history + Blocks(below)
        else exists b :: BlockOf(n, b) && n'.s.history == n.s.history + Blocks(below) + [b] + Blocks(above))
    && (if own then n'.s.core == n.s.core && below == [] && above == []
        else AllApplied(n, n'.s.core, below, above))
  }

  /** The batch is back at the end of pending, and not marked confirmed. */
  ghost predicate PendingAgain(n: Node, s: State) {
    HashSet(n.s.pending) !! s.confirmed && exists others :: s.pending == others + n.s.pending
  }

  lemma UndoAmong(n: Node, k: Node, b: Block, below: seq<Delivery>, above: seq<Delivery>, own: bool, writeOk: bool)
    requires HalfDone(n, k, b, below, above, own)
    ensures var n' := k.(s := UndoConfirmed(k.s, b, n.s.pending, writeOk));
            UndoneAmong(n, n', below, above, own) && PendingAgain(n, n'.s)
  {
    var history := k.s.history;
    if above == [] {
      assert history[..|history| - 1] == n.s.history + Blocks(below);
      assert history[|history| - 1] == b;
    } else {
      assert history[|history| - 1] == above[|above| - 1].block;
      assert above[|above| - 1] in above;
    }
  }

  /** Where a confirm ended up, among the peer blocks that landed below and above it. */
  ghost predicate AmongPeers(n: Node, n': Node, o: Outcome, below: seq<Delivery>, above: seq<Delivery>, lost: bool) {
    match o
    case Done(b) =>
      && n'.s.backup.None? && BlockOf(n, b)
      && n'.s.history == n.s.history + Blocks(below) + [b] + Blocks(above)
      && AllApplied(n, n'.s.core, below, above)
      && n'.rocksOn == n.rocksOn
      && n'.rocks == n.rocks + (if n.rocksOn then Blocks(below) + Blocks(above) + [b] else [])
    case Aborted(undone) =>
      UndoneAmong(n, n', below, above, !lost) && (undone ==> PendingAgain(n, n'.s))
  }

  /** The end of a half-done confirm at Rocks. */
  lemma DurableAmong(n: Node, k: Node, b: Block, below: seq<Delivery>, above: seq<Delivery>, own: bool,
                     rocksOk: bool, writeOk: bool)
    requires HalfDone(n, k, b, below, above, own)
    ensures var (n', r) := DurableCommit(k, b, n.s.pending, rocksOk, writeOk);
            AmongPeers(n, n', if r.Durable? then Done(b) else Aborted(true), below, above, !own)
  {
    UndoAmong(n, k, b, below, above, own, writeOk);
    assert n.rocks + (Blocks(below) + Blocks(above)) + [b] == n.rocks + (Blocks(below) + Blocks(above) + [b]);
  }

  lemma NoHeaderAmong(n: Node, k: Node, b: Block, below: seq<Delivery>, above: seq<Delivery>, own: bool,
                      fin: FinalInput)
    requires HalfDone(n, k, b, below, above, own)
    ensures var (n', r) := WithoutHeader(k, b, n.s.pending, fin);
            AmongPeers(n, n', if r.HeaderFailed? then Aborted(true) else Done(b), below, above, !own)
  {
    UndoAmong(n, k, b, below, above, own, fin.undoWriteOk);
  }

  /** A confirm stopped by the fence or by the chain file. */
  lemma StoppedAmong(n: Node, l2: L2Input, fin: FinalInput, g: Gaps)
    requires n.s.backup.None? && ApplySucceeds(n.s, n.s.pending, l2.apply) && Settled(AtCommit(n, l2, g).s)
    requires !Commits(n, l2, g)
    ensures var (n', o) := RoundAmong(n, l2, fin, g);
            AmongPeers(n, n', o, Below(n, l2, g), [], BackupLost(n, l2, fin, g))
  {
    AtCommitIs(n, l2, g);
    var d := Disturb(AtCommit(n, l2, g).s, l2.during);
    Boundary.CommitEffect(d, n.s.pending, l2);
  }

  /**
   Whatever fails and whatever peer blocks are received in the gaps of a confirm: it ends durable among
   them, or it is stopped or undone. Then Core is back where it was exactly when no peer block was
   applied meanwhile; otherwise Core keeps the batch, which is pending again. The block itself leaves
   history exactly when nothing landed on top of it.
   */
  lemma ConfirmAmongPeers(n: Node, l2: L2Input, fin: FinalInput, g: Gaps)
    requires n.s.backup.None? && Settled(AtCommit(n, l2, g).s)
    ensures var (n', o) := RoundAmong(n, l2, fin, g);
            AmongPeers(n, n', o, Below(n, l2, g), Above(n, l2, fin, g), BackupLost(n, l2, fin, g))
  {
    if !ApplySucceeds(n.s, n.s.pending, l2.apply) {
      assert n.s.history + Blocks([]) == n.s.history;
      assert n.rocks + (Blocks([]) + Blocks([])) == n.rocks;
    } else if !Commits(n, l2, g) {
      StoppedAmong(n, l2, fin, g);
    } else {
      FinishedAmong(n, l2, fin, g);
    }
  }

  lemma FinishedAmong(n: Node, l2: L2Input, fin: FinalInput, g: Gaps)
    requires n.s.backup.None? && Commits(n, l2, g) && Settled(AtCommit(n, l2, g).s)
    ensures var (n', o) := RoundAmong(n, l2, fin, g);
            AmongPeers(n, n', o, Below(n, l2, g), Above(n, l2, fin, g), BackupLost(n, l2, fin, g))
  {
    CommitIs(n, l2, fin, g);
    if fin.header.None? {
      NoHeaderRound(n, l2, fin, g);
    } else {
      HeaderRound(n, l2, fin, g);
    }
  }

  lemma NoHeaderRound(n: Node, l2: L2Input, fin: FinalInput, g: Gaps)
    requires n.s.backup.None? && Commits(n, l2, g) && Settled(AtCommit(n, l2, g).s) && fin.header.None?
    requires CommitAmong(n, l2, g).1.moved == n.s.pending
    ensures var (n', o) := RoundAmong(n, l2, fin, g);
            AmongPeers(n, n', o, Below(n, l2, g), Above(n, l2, fin, g), BackupLost(n, l2, fin, g))
  {
    AtHeaderIs(n, l2, fin, g);
    var above := LandedBy(AfterCommit(n, l2, fin, g), g.committed);
    assert above + [] == above;
    NoHeaderAmong(n, AtHeader(n, l2, fin, g), CommitAmong(n, l2, g).1.block, Below(n, l2, g), above,
                  !BackupLost(n, l2, fin, g), fin);
    EndsWithoutHeader(n, l2, fin, g, CommitAmong(n, l2, g).1.block);
  }

  lemma EndsWithoutHeader(n: Node, l2: L2Input, fin: FinalInput, g: Gaps, b: Block)
    requires Commits(n, l2, g) && fin.header.None? && b == CommitAmong(n, l2, g).1.block
    ensures var (m, r) := WithoutHeader(AtHeader(n, l2, fin, g), b, CommitAmong(n, l2, g).1.moved, fin);
            RoundAmong(n, l2, fin, g) == (m, if r.HeaderFailed? then Aborted(true) else Done(b))
  {
  }

  lemma HeaderRound(n: Node, l2: L2Input, fin: FinalInput, g: Gaps)
    requires n.s.backup.None? && Commits(n, l2, g) && Settled(AtCommit(n, l2, g).s) && fin.header.Some?
    requires CommitAmong(n, l2, g).1.moved == n.s.pending
    ensures var (n', o) := RoundAmong(n, l2, fin, g);
            AmongPeers(n, n', o, Below(n, l2, g), Above(n, l2, fin, g), BackupLost(n, l2, fin, g))
  {
    var b := CommitAmong(n, l2, g).1.block.(blockHash := fin.header.value);
    AtEndIs(n, l2, fin, g);
    DurableAmong(n, AtEnd(n, l2, fin, g), b, Below(n, l2, g), Above(n, l2, fin, g), !BackupLost(n, l2, fin, g),
                 fin.rocksOk, fin.undoWriteOk);
    EndsAtRocks(n, l2, fin, g, b);
  }

  lemma EndsAtRocks(n: Node, l2: L2Input, fin: FinalInput, g: Gaps, b: Block)
    requires Commits(n, l2, g) && fin.header.Some?
    requires b == CommitAmong(n, l2, g).1.block.(blockHash := fin.header.value)
    ensures var (m, r) := DurableCommit(AtEnd(n, l2, fin, g), b, CommitAmong(n, l2, g).1.moved,
                                        fin.rocksOk, fin.undoWriteOk);
            RoundAmong(n, l2, fin, g) == (m, if r.Durable? then Done(b) else Aborted(true))
  {
  }

  /**
   A confirm that did not end durable leaves Core and history as they were exactly when nothing landed
   and no peer block was applied, unless there was nothing pending.
   */
  lemma AbortedExactly(n: Node, n': Node, o: Outcome, below: seq<Delivery>, above: seq<Delivery>, lost: bool)
    requires AmongPeers(n, n', o, below, above, lost) && o.Aborted?
    ensures n'.s.core == n.s.core && n'.s.history == n.s.history <==>
            below == [] && above == [] && (lost ==> n.s.pending == [])
  {
    if n'.s.history == n.s.history {
      assert |Blocks(below)| == |below|;
    }
    if lost && n'.s.core == n.s.core {
      NothingMore(multiset(n.s.core), multiset(n.s.pending), TxsOf(below) + TxsOf(above));
      assert |n.s.pending| == |multiset(n.s.pending)|;
    }
    if below == [] && above == [] {
      assert n.s.history + Blocks([]) == n.s.history;
      if lost && n.s.pending == [] {
        SameLength(n.s.core, n'.s.core);
      }
    }
  }

  lemma NothingMore(a: multiset<Tx>, b: multiset<Tx>, c: multiset<Tx>)
    requires a == a + b + c
    ensures b == multiset{}
  {
    forall t ensures b[t] == 0 {
      assert (a + b + c)[t] == a[t] + b[t] + c[t];
    }
  }

  lemma SameLength(a: seq<Tx>, b: seq<Tx>)
    requires a <= b && multiset(a) == multiset(b)
    ensures a == b
  {
    assert |a| == |multiset(a)| == |multiset(b)| == |b|;
  }

  /**
   A peer block that is in the explorer but not yet durable when the confirm is undone: the undo uses the
   peer block's backup, so Core loses the peer's batch and keeps the confirm's; the peer block stays in
   history, and Rocks then commits it all the same.
   */
  lemma OpenPeerLosesItsBatch(n: Node, k: Node, b: Block, below: seq<Delivery>, above: seq<Delivery>, own: bool,
                              a: Arrival, writeOk: bool)
    requires HalfDone(n, k, b, below, above, own)
    requires AddConfirmed(k.s, a.d.block, a.d.txs, a.in_.apply, a.in_.during, a.in_.writeOk).1.Added?
    ensures var s := AddConfirmed(k.s, a.d.block, a.d.txs, a.in_.apply, a.in_.during, a.in_.writeOk).0;
            var u := UndoConfirmed(Meanwhile(s, a.in_.between), b, n.s.pending, writeOk);
            var (m, r) := DurableCommit(k.(s := u), a.d.block, a.d.txs, true, a.in_.undoWriteOk);
            && u.core == m.s.core == k.s.core && AllApplied(n, u.core, below, above) && PendingAgain(n, u)
            && u.history == m.s.history == k.s.history + [a.d.block]
            && r.Durable? && m.rocks == k.rocks + (if k.rocksOn then [a.d.block] else [])
  {
    AddConfirmedEffect(k.s, a.d.block, a.d.txs, a.in_.apply, a.in_.during, a.in_.writeOk);
    var s := AddConfirmed(k.s, a.d.block, a.d.txs, a.in_.apply, a.in_.during, a.in_.writeOk).0;
    assert k.s.history[|n.s.history + Blocks(below)|] == b;
    assert b in k.s.history;
    UndoUnderTip(Meanwhile(s, a.in_.between), k.s.history, a.d.block, k.s.core, b, n.s.pending, writeOk);
    var u := UndoConfirmed(Meanwhile(s, a.in_.between), b, n.s.pending, writeOk);
    assert PendingAgain(n, u);
  }

  /** Undoing a block that is not the tip, from a backup taken after it. */
  lemma UndoUnderTip(s: State, before: seq<Block>, tip: Block, core: seq<Tx>, b: Block, moved: seq<Tx>, writeOk: bool)
    requires s.history == before + [tip] && tip.number != b.number && s.backup == Some(core)
    ensures var u := UndoConfirmed(s, b, moved, writeOk);
            && u.core == core && u.history == s.history && u.backup.None?
            && u.pending == s.pending + moved && HashSet(moved) !! u.confirmed
  {
  }

  /**
   Such a confirm: a peer block lands after the explorer took the block, and the header then fails. Core
   holds both batches, history both blocks, and the confirm's transactions are pending again.
   */
  lemma LandedPeerKeepsTheBatch(n: Node, l2: L2Input, fin: FinalInput, d: Delivery)
    requires n.s.backup.None? && Settled(n.s) && n.rocksOn && fin.header.None?
    requires L2Confirm(n.s, l2).1.Confirmed?
    requires AtHeight(L2Confirm(n.s, l2).0.history, d.block.number).None?
    requires FileTakes(L2Confirm(n.s, l2).0, d.block.number)
    ensures var (n', o) := RoundAmong(n, l2, fin, Gaps([], [Plain(d)], []));
            && o == Aborted(true) && PendingAgain(n, n'.s)
            && multiset(n'.s.core) == multiset(n.s.core) + multiset(n.s.pending) + multiset(d.txs)
            && |n'.s.history| == |n.s.history| + 2 && n'.s.history[|n.s.history| + 1] == d.block
  {
    var g := Gaps([], [Plain(d)], []);
    NobodyAtCommit(n, l2, g);
    FinishedAmong(n, l2, fin, g);
    PlainLands(AfterCommit(n, l2, fin, g), d);
    HeaderFails(n, l2, fin, g);
    JustOneAbove(n, RoundAmong(n, l2, fin, g).0, Above(n, l2, fin, g), d);
  }

  lemma NobodyAtCommit(n: Node, l2: L2Input, g: Gaps)
    requires g.applied == [] && L2Confirm(n.s, l2).1.Confirmed?
    ensures Commits(n, l2, g) && CommitAmong(n, l2, g) == L2Confirm(n.s, l2) && Below(n, l2, g) == []
    ensures Settled(n.s) ==> Settled(AtCommit(n, l2, g).s)
  {
  }

  lemma HeaderFails(n: Node, l2: L2Input, fin: FinalInput, g: Gaps)
    requires Commits(n, l2, g) && fin.header.None? && AtHeader(n, l2, fin, g).rocksOn
    ensures RoundAmong(n, l2, fin, g).1 == Aborted(true)
  {
  }

  lemma JustOneAbove(n: Node, n': Node, above: seq<Delivery>, d: Delivery)
    requires AmongPeers(n, n', Aborted(true), [], above, true) && above == [d]
    ensures multiset(n'.s.core) == multiset(n.s.core) + multiset(n.s.pending) + multiset(d.txs)
    ensures |n'.s.history| == |n.s.history| + 2 && n'.s.history[|n.s.history| + 1] == d.block
  {
    assert [d][..0] == [];
    assert TxsOf([d]) == multiset(d.txs);
    assert Blocks([d]) == [d.block];
  }

  lemma PlainLands(n: Node, d: Delivery)
    requires AtHeight(n.s.history, d.block.number).None? && FileTakes(n.s, d.block.number)
    ensures LandedBy(n, [Plain(d)]) == [d] && Snapped(n, [Plain(d)])
  {
    assert [Plain(d)][..0] == [];
    SmoothAdds(n.s, Plain(d));
    LandsSmoothly(n, AddConfirmed(n.s, d.block, d.txs, Plain(d).in_.apply, None, true).0, Plain(d));
  }
}
