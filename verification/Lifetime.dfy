/** Whole lives of a node: confirms, blocks from peers, restarts and restores, in any order. */
module Lifetime {
  import opened Sequences
  import opened Ledger
  import opened Confirm
  import opened Peers
  import opened Overtaken
  import Boundary
  import Recovery

  // ----- confirms and peer blocks -----

  datatype Turn = Confirms(turn: Boundary.Turn) | Receives(a: Arrival)

  function Take(n: Node, t: Turn): Node {
    match t
    case Confirms(turn) => Boundary.Take(n, turn)
    case Receives(a) => Receive(n, a)
  }

  function TakeAll(n: Node, turns: seq<Turn>): Node {
    if turns == [] then n else Take(TakeAll(n, turns[..|turns| - 1]), turns[|turns| - 1])
  }

  /** The block lists the transactions it came with, records their fees, and is numbered below the next one. */
  ghost predicate Truthful(s: State, d: Delivery) {
    && multiset(d.block.txHashes) == multiset(Hashes(d.txs)) && d.block.totalFees == SumFees(d.txs)
    && d.block.number < Raised(s.counter, d.block.number)
  }

  /** The block's fees are those of its transactions, or the clamp at zero hides the difference. */
  predicate FeesComeBack(s: State, d: Delivery) {
    d.block.totalFees == SumFees(d.txs) || (s.fees == 0 && SumFees(d.txs) <= d.block.totalFees)
  }

  /** A delivery that does the agreement of the stores no harm. */
  ghost predicate Harmless(n: Node, a: Arrival) {
    match End(n, a)
    case Landed => Truthful(n.s, a.d)
    case RocksRefused => FeesComeBack(n.s, a.d)
    case Refused(why) => why.PeerPersistFailed? ==> FeesComeBack(n.s, a.d)
  }

  lemma LandedKeeps(n: Node, n': Node, d: Delivery, outside: multiset<string>)
    requires Boundary.Consistent(n, outside) && TookIn(n.s, n'.s, d.block, d.txs)
    requires n'.s.backup.None? && Boundary.FileKnown(n'.s)
    requires n'.rocksOn == n.rocksOn && n'.rocks == (if n.rocksOn then n.rocks + [d.block] else n.rocks)
    ensures Boundary.Consistent(n', outside) <==> Truthful(n.s, d)
  {
    CoreStillAgrees(n.s, n'.s, d, outside);
    TotalsStillAgree(n.s, n'.s, d);
  }

  lemma CoreStillAgrees(s: State, s': State, d: Delivery, outside: multiset<string>)
    requires TookIn(s, s', d.block, d.txs)
    requires multiset(Hashes(s.core)) == outside + multiset(Boundary.AllHashes(s.history))
    ensures multiset(Hashes(s'.core)) == outside + multiset(Boundary.AllHashes(s'.history)) <==>
            multiset(d.block.txHashes) == multiset(Hashes(d.txs))
  {
    Boundary.HashesAdd(s.core, s'.core, d.txs);
    assert s'.history[..|s'.history| - 1] == s.history;
    var listed := Boundary.AllHashes(s.history);
    assert Boundary.AllHashes(s'.history) == listed + d.block.txHashes;
    SameRest(outside + multiset(listed), multiset(d.block.txHashes), multiset(Hashes(d.txs)));
  }

  lemma TotalsStillAgree(s: State, s': State, d: Delivery)
    requires TookIn(s, s', d.block, d.txs) && Boundary.Ahead(s) && s.fees == RecordedFees(s.history)
    requires forall b :: b in s.history ==> b.totalFees >= 0
    ensures s'.fees == RecordedFees(s'.history) <==> d.block.totalFees == SumFees(d.txs)
    ensures (forall b :: b in s'.history ==> b.totalFees >= 0) <==> d.block.totalFees >= 0
    ensures Boundary.Ahead(s') <==> d.block.number < s'.counter
  {
    assert s'.history[..|s'.history| - 1] == s.history;
    assert d.block in s'.history;
  }

  lemma SameRest(a: multiset<string>, b: multiset<string>, c: multiset<string>)
    ensures a + b == a + c <==> b == c
  {
    if a + b == a + c {
      forall x ensures b[x] == c[x] {
        assert (a + b)[x] == (a + c)[x];
      }
    }
  }

  lemma WithdrawnKeeps(n: Node, n': Node, d: Delivery, outside: multiset<string>)
    requires Boundary.Consistent(n, outside) && Withdrawn(n.s, n'.s, d.block, d.txs) && Unchained(n.s, n'.s)
    requires AtHeight(n.s.history, d.block.number).None?
    requires n'.s.backup.None? && Boundary.FileKnown(n'.s) && n'.rocksOn == n.rocksOn && n'.rocks == n.rocks
    ensures Boundary.Consistent(n', outside) <==> FeesComeBack(n.s, d)
  {
    Boundary.FeesNonNegative(n.s.history);
    WithdrawnFees(n.s, n'.s, d.block, d.txs);
  }

  /**
   A peer block leaves the stores in agreement exactly when, landing, it lists its own transactions
   with their fees, or, taken back, its recorded fees come off as they came on.
   */
  lemma DeliveryKeeps(n: Node, a: Arrival, outside: multiset<string>)
    requires Boundary.Consistent(n, outside)
    ensures Boundary.Consistent(Receive(n, a), outside) <==> Harmless(n, a)
    ensures n.s.history <= Receive(n, a).s.history && n.s.core <= Receive(n, a).s.core
  {
    var m := n.(s := Meanwhile(n.s, a.before));
    PeerIsAllOrNothing(m, a.d.block, a.d.txs, a.in_);
    PeerFileGrows(m, a.d.block, a.d.txs, a.in_);
    var n' := Receive(n, a);
    match End(n, a)
    case Landed => LandedKeeps(m, n', a.d, outside);
    case RocksRefused => WithdrawnKeeps(m, n', a.d, outside);
    case Refused(why) =>
      if why.PeerPersistFailed? {
        WithdrawnKeeps(m, n', a.d, outside);
      }
  }

  /** Every peer block of the run is harmless to the node it reaches. */
  ghost predicate HarmlessRun(n: Node, turns: seq<Turn>) {
    turns == [] ||
    var k := |turns| - 1;
    HarmlessRun(n, turns[..k]) && (turns[k].Receives? ==> Harmless(TakeAll(n, turns[..k]), turns[k].a))
  }

  /** The stores agree after every turn of the run. */
  ghost predicate AlwaysConsistent(n: Node, turns: seq<Turn>, outside: multiset<string>) {
    && Boundary.Consistent(TakeAll(n, turns), outside)
    && (turns != [] ==> AlwaysConsistent(n, turns[..|turns| - 1], outside))
  }

  lemma TurnKeeps(n: Node, t: Turn, outside: multiset<string>)
    requires Boundary.Consistent(n, outside)
    ensures Boundary.Consistent(Take(n, t), outside) <==> (t.Receives? ==> Harmless(n, t.a))
    ensures n.s.history <= Take(n, t).s.history && n.s.core <= Take(n, t).s.core
    ensures FileHead(n.s) <= FileHead(Take(n, t).s)
  {
    match t
    case Confirms(turn) => Boundary.TurnKeeps(n, turn, outside);
    case Receives(a) =>
      DeliveryKeeps(n, a, outside);
      PeerFileGrows(n.(s := Meanwhile(n.s, a.before)), a.d.block, a.d.txs, a.in_);
  }

  /**
   Over any sequence of confirms and peer blocks, whatever fails: Core, history, Rocks, fee total and
   counter agree throughout exactly when every peer block is harmless; then history and Core only
   grow, and the head in the chain file never goes down.
   */
  lemma {:induction false} AgreementInEveryRun(n: Node, turns: seq<Turn>, outside: multiset<string>)
    requires Boundary.Consistent(n, outside)
    ensures AlwaysConsistent(n, turns, outside) <==> HarmlessRun(n, turns)
    ensures HarmlessRun(n, turns) ==>
      && n.s.history <= TakeAll(n, turns).s.history && n.s.core <= TakeAll(n, turns).s.core
      && FileHead(n.s) <= FileHead(TakeAll(n, turns).s)
    decreases |turns|
  {
    if turns != [] {
      var k := |turns| - 1;
      AgreementInEveryRun(n, turns[..k], outside);
      if AlwaysConsistent(n, turns[..k], outside) {
        TurnKeeps(TakeAll(n, turns[..k]), turns[k], outside);
      }
    }
  }

  // ----- restarts and restores -----

  /**
   Something that happens to a node: a turn; a confirm with peer blocks in its gaps; a restart, which
   loads the chain file unless that fails; or a restore against the Rocks head, whose rewrite of the
   chain file may fail.
   */
  datatype Event =
    | Turned(turn: Turn)
    | Mingled(l2: L2Input, fin: FinalInput, gaps: Gaps)
    | Restarted(loads: bool)
    | Restores(rocks: Option<int>, writeOk: bool)

  /** A new Blockchain object over the same disk. */
  function Fresh(s: State): State {
    State([], [], map[], map[], None, map[], [], 0, 0, {}, -1, true, s.chainFile, s.core, s.backup, [])
  }

  ghost predicate Happens(n: Node, e: Event, n': Node) {
    match e
    case Turned(t) => n' == Take(n, t)
    case Mingled(l2, fin, g) => n' == RoundAmong(n, l2, fin, g).0
    case Restarted(loads) =>
      && n' == n.(s := n'.s)
      && if loads && n.s.chainFile.Some? then Recovery.Loaded(Fresh(n.s), n.s.chainFile.value, n'.s)
         else n'.s == Fresh(n.s)
    case Restores(rocks, writeOk) =>
      && n' == n.(s := n'.s, pool := n'.pool)
      && exists s', order ::
           && Recovery.Restored(n.s, n.pool, rocks, s', n'.pool, order)
           && n'.s == if Recovery.DropsLead(n.s.history, rocks) then Persist(s', writeOk) else s'
  }

  /** The restore drops blocks above the Rocks head and writes a shorter chain over the file. */
  ghost predicate Lowers(n: Node, e: Event) {
    && e.Restores? && Recovery.DropsLead(n.s.history, e.rocks) && n.s.persistent && e.writeOk
    && HistoryHead(Recovery.UpTo(n.s.history, e.rocks)) < FileHead(n.s)
  }

  /** The node no longer remembers the head in the file: a failed load, or a restore that could not rewrite it. */
  ghost predicate Forgets(n: Node, e: Event) {
    match e
    case Turned(_) => false
    case Mingled(_, _, _) => false
    case Restarted(loads) => !loads && FileHead(n.s) > -1
    case Restores(rocks, writeOk) =>
      && Recovery.DropsLead(n.s.history, rocks) && !(n.s.persistent && writeOk)
      && HistoryHead(Recovery.UpTo(n.s.history, rocks)) < FileHead(n.s)
  }

  lemma RestoreAndTheHead(n: Node, e: Event, n': Node)
    requires e.Restores? && Happens(n, e, n') && Boundary.FileKnown(n.s)
    ensures FileHead(n'.s) < FileHead(n.s) <==> Lowers(n, e)
    ensures Boundary.FileKnown(n'.s) <==> !Forgets(n, e)
  {
    var s', order :| && Recovery.Restored(n.s, n.pool, e.rocks, s', n'.pool, order)
                     && n'.s == if Recovery.DropsLead(n.s.history, e.rocks) then Persist(s', e.writeOk) else s';
    RestoredHead(n.s, n.pool, e.rocks, s', n'.pool, order);
    if Recovery.DropsLead(n.s.history, e.rocks) {
      RewrittenHead(n.s, s', Recovery.UpTo(n.s.history, e.rocks), e.writeOk);
    }
  }

  /** The rewrite of a chain cut back to `kept`. */
  lemma RewrittenHead(s: State, s': State, kept: seq<Block>, writeOk: bool)
    requires s'.history == kept && s'.durableHead == HistoryHead(kept)
    requires s'.chainFile == s.chainFile && s'.persistent == s.persistent
    ensures var f := Persist(s', writeOk);
            && (FileHead(f) < FileHead(s) <==> s.persistent && writeOk && HistoryHead(kept) < FileHead(s))
            && (Boundary.FileKnown(f) <==> (s.persistent && writeOk) || FileHead(s) <= HistoryHead(kept))
  {
  }

  lemma RestoredHead(s: State, pool: Rows, rocks: Option<int>, s': State, pool': Rows, order: seq<Tx>)
    requires Recovery.Restored(s, pool, rocks, s', pool', order)
    ensures s'.history == Recovery.UpTo(s.history, rocks) && s'.persistent == s.persistent
    ensures s'.chainFile == s.chainFile
    ensures s'.durableHead == if Recovery.DropsLead(s.history, rocks) then HistoryHead(s'.history) else s.durableHead
  {
  }

  /** A known head in the file is lowered by exactly the lowering restores and forgotten by the forgetting events. */
  lemma OneEvent(n: Node, e: Event, n': Node)
    requires Happens(n, e, n') && Boundary.FileKnown(n.s)
    ensures FileHead(n'.s) < FileHead(n.s) <==> Lowers(n, e)
    ensures Boundary.FileKnown(n'.s) <==> !Forgets(n, e)
  {
    match e
    case Turned(t) => TurnGrows(n, t);
    case Mingled(l2, fin, g) => MingledGrows(n, l2, fin, g);
    case Restarted(loads) =>
      if loads && n.s.chainFile.Some? {
        Recovery.LoadKnowsTheFile(Fresh(n.s), n.s.chainFile.value, n'.s);
      }
      HeadIsAtLeast(n.s);
    case Restores(_, _) => RestoreAndTheHead(n, e, n');
  }

  lemma HeadIsAtLeast(s: State)
    ensures FileHead(s) >= -1
  {
    if s.chainFile.Some? {
      Boundary.HeadAtLeast(s.chainFile.value.blocks);
    }
  }

  lemma TurnGrows(n: Node, t: Turn)
    ensures Boundary.FileGrows(n.s, Take(n, t).s)
  {
    match t
    case Confirms(turn) => Boundary.RoundFileGrows(n.(s := Disturb(n.s, turn.pools)), turn.l2, turn.fin);
    case Receives(a) => PeerFileGrows(n.(s := Meanwhile(n.s, a.before)), a.d.block, a.d.txs, a.in_);
  }

  lemma {:induction false} ArrivalsGrow(n: Node, arrivals: seq<Arrival>)
    ensures Boundary.FileGrows(n.s, ReceiveAll(n, arrivals).s)
    decreases |arrivals|
  {
    if arrivals != [] {
      var k := |arrivals| - 1;
      ArrivalsGrow(n, arrivals[..k]);
      TurnGrows(ReceiveAll(n, arrivals[..k]), Receives(arrivals[k]));
    }
  }

  lemma MingledGrows(n: Node, l2: L2Input, fin: FinalInput, g: Gaps)
    ensures Boundary.FileGrows(n.s, RoundAmong(n, l2, fin, g).0.s)
  {
    if ApplySucceeds(n.s, n.s.pending, l2.apply) {
      CommitGrows(n, l2, g);
      if Commits(n, l2, g) {
        ArrivalsGrow(AfterCommit(n, l2, fin, g), g.committed);
        EndGrows(AtHeader(n, l2, fin, g), CommitAmong(n, l2, g).1.block, CommitAmong(n, l2, g).1.moved, fin, g);
      }
    }
  }

  lemma CommitGrows(n: Node, l2: L2Input, g: Gaps)
    ensures Boundary.FileGrows(n.s, CommitAmong(n, l2, g).0)
  {
    var m := AtCommit(n, l2, g).s;
    ArrivalsGrow(AfterApply(n, l2), g.applied);
    Boundary.CommitFileGrows(Disturb(m, l2.during), n.s.pending, l2);
    GrowsOn(n.s, AfterApply(n, l2).s, m, Disturb(m, l2.during), CommitAmong(n, l2, g).0);
  }

  lemma GrowsOn(s: State, a: State, b: State, c: State, s': State)
    requires Boundary.SameFile(s, a) && Boundary.FileGrows(a, b) && Boundary.SameFile(b, c) && Boundary.FileGrows(c, s')
    ensures Boundary.FileGrows(s, s')
  {
  }

  lemma EndGrows(n: Node, b: Block, moved: seq<Tx>, fin: FinalInput, g: Gaps)
    ensures Boundary.FileGrows(n.s, FinalizeAmong(n, b, moved, fin, g).0.s)
  {
    if fin.header.None? {
      Boundary.FinalizeFileGrows(n, b, moved, fin);
    } else {
      var h := Headed(n, b, fin.header.value, fin);
      Boundary.HeaderFileGrows(n, b, fin.header.value, fin);
      ArrivalsGrow(h, g.headed);
      var named := b.(blockHash := fin.header.value);
      Boundary.UndoFileGrows(ReceiveAll(h, g.headed).s, named, moved, fin.undoWriteOk);
    }
  }

  /** Nodes as the events leave them one after the other. */
  ghost predicate Lives(ns: seq<Node>, es: seq<Event>) {
    |ns| == |es| + 1 && forall i :: 0 <= i < |es| ==> Happens(ns[i], es[i], ns[i + 1])
  }

  /** At time i the head in the file was forgotten, and no load has read it since. */
  ghost predicate Unremembered(ns: seq<Node>, es: seq<Event>, i: int)
    requires |ns| == |es| + 1
  {
    exists j :: 0 <= j < i <= |es| && Forgets(ns[j], es[j]) && forall k :: j < k < i ==> es[k] != Restarted(true)
  }

  lemma {:induction false} KnownOrUnremembered(ns: seq<Node>, es: seq<Event>, i: nat)
    requires Lives(ns, es) && Boundary.FileKnown(ns[0].s) && i <= |es|
    ensures Boundary.FileKnown(ns[i].s) || Unremembered(ns, es, i)
  {
    if i > 0 {
      KnownOrUnremembered(ns, es, i - 1);
      var n, e, n' := ns[i - 1], es[i - 1], ns[i];
      assert Happens(n, e, n');
      if e == Restarted(true) {
        LoadKnows(n, n');
      } else if Boundary.FileKnown(n.s) {
        OneEvent(n, e, n');
        JustForgotten(ns, es, i);
      } else {
        StillUnremembered(ns, es, i);
      }
    }
  }

  lemma JustForgotten(ns: seq<Node>, es: seq<Event>, i: nat)
    requires |ns| == |es| + 1 && 0 < i <= |es|
    ensures Forgets(ns[i - 1], es[i - 1]) ==> Unremembered(ns, es, i)
  {
  }

  lemma StillUnremembered(ns: seq<Node>, es: seq<Event>, i: nat)
    requires |ns| == |es| + 1 && 0 < i <= |es| && Unremembered(ns, es, i - 1) && es[i - 1] != Restarted(true)
    ensures Unremembered(ns, es, i)
  {
    var j :| 0 <= j < i - 1 && Forgets(ns[j], es[j]) && forall k :: j < k < i - 1 ==> es[k] != Restarted(true);
    assert forall k :: j < k < i ==> es[k] != Restarted(true);
  }

  lemma LoadKnows(n: Node, n': Node)
    requires Happens(n, Restarted(true), n')
    ensures Boundary.FileKnown(n'.s) && FileHead(n'.s) == FileHead(n.s)
  {
    if n.s.chainFile.Some? {
      Recovery.LoadKnowsTheFile(Fresh(n.s), n.s.chainFile.value, n'.s);
    }
  }

  /**
   Over any life of a node, the head in the chain file goes down only when a restore drops blocks above
   the Rocks head and rewrites the file, or after a restore or a load that failed to, until the next load.
   */
  lemma HeadInEveryLife(ns: seq<Node>, es: seq<Event>, i: nat)
    requires Lives(ns, es) && Boundary.FileKnown(ns[0].s) && i < |es|
    ensures FileHead(ns[i + 1].s) < FileHead(ns[i].s) ==> Lowers(ns[i], es[i]) || Unremembered(ns, es, i)
    ensures !Unremembered(ns, es, i) ==> (FileHead(ns[i + 1].s) < FileHead(ns[i].s) <==> Lowers(ns[i], es[i]))
  {
    KnownOrUnremembered(ns, es, i);
    assert Happens(ns[i], es[i], ns[i + 1]);
    if !Unremembered(ns, es, i) {
      OneEvent(ns[i], es[i], ns[i + 1]);
    }
  }
}
