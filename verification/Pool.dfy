/**
 The life of a transaction: mempool, pending block, confirmed history or dropped.
 The operations are those of internal/blockchain; a run is any sequence of them.
 */
module Pool {
  import opened Sequences
  import opened Ledger
  import Prune
  import Undo

  // ----- the operations -----

  predicate Clash(x: Tx, t: Tx) {
    x.hash == t.hash || Prune.SameSlot(x, t)
  }

  /** The first transaction in flight that shares t's hash, or its sender and nonce. */
  function FirstClash(txs: seq<Tx>, t: Tx): (r: Option<Tx>)
    ensures r.None? <==> forall x :: x in txs ==> !Clash(x, t)
    ensures r.Some? ==> r.value in txs && Clash(r.value, t)
  {
    if txs == [] then None
    else
      var before := FirstClash(txs[..|txs| - 1], t);
      if before.Some? then before
      else if Clash(txs[|txs| - 1], t) then Some(txs[|txs| - 1])
      else assert txs == txs[..|txs| - 1] + [txs[|txs| - 1]]; None
  }

  datatype Admission = Admitted | AlreadyKnown | HashRequired | NonceTaken

  function Admitting(s: State, t: Tx): Admission {
    if t.hash == "" then HashRequired
    else if t.hash in s.confirmed then AlreadyKnown
    else
      var clash := FirstClash(s.pending + s.mempool, t);
      if clash.None? then Admitted
      else if clash.value.hash == t.hash then AlreadyKnown
      else NonceTaken
  }

  function Admit(s: State, t: Tx): State {
    if Admitting(s, t) == Admitted then s.(mempool := s.mempool + [t]) else s
  }

  /** Hashes of txs found in hs that are not confirmed: their index rows go with them. */
  function Unindexed(txs: seq<Tx>, hs: set<string>, confirmed: set<string>): set<string> {
    set t | t in txs && t.hash in hs && t.hash != "" && t.hash !in confirmed :: t.hash
  }

  function Remove(s: State, hs: set<string>): State {
    s.(mempool := Without(s.mempool, hs), index := s.index - Unindexed(s.mempool, hs, s.confirmed))
  }

  function Abandon(s: State, drop: set<string>): State {
    s.(mempool := s.mempool + Without(s.pending, drop + {""}),
       index := s.index - Unindexed(s.pending, drop, s.confirmed),
       pending := [])
  }

  /** The first pool entry of each picked hash. */
  function Collected(txs: seq<Tx>, pick: set<string>): seq<Tx> {
    if txs == [] then []
    else
      var front, t := txs[..|txs| - 1], txs[|txs| - 1];
      Collected(front, pick) + (if t.hash in pick && t.hash !in HashSet(front) then [t] else [])
  }

  function Remaining(txs: seq<Tx>, pick: set<string>): seq<Tx> {
    if txs == [] then []
    else
      var front, t := txs[..|txs| - 1], txs[|txs| - 1];
      Remaining(front, pick) + (if t.hash in pick && t.hash !in HashSet(front) then [] else [t])
  }

  function Collect(s: State, selected: seq<Tx>): State {
    if selected == [] then s
    else
      var pick := HashSet(selected) - {""};
      s.(mempool := Remaining(s.mempool, pick), pending := Collected(s.mempool, pick))
  }

  function PruneAt(s: State, v: Prune.View): State {
    s.(mempool := Prune.Pruned(v, s.mempool))
  }

  // ----- runs -----

  /**
   One lock-held operation. An L2 confirm ends in its own lock-held section as confirmed, as undone
   because the chain file could not be written, or stopped at the fence. A confirmed block stays
   open, with the lock free, until it is durable everywhere or undone.
   */
  datatype Op =
    | AdmitOp(tx: Tx)
    | RemoveOp(hashes: set<string>)
    | PruneOp(view: Prune.View)
    | CollectOp(selected: seq<Tx>)
    | AbandonOp(drop: set<string>)
    | ConfirmOp(clock: int)
    | ConfirmUndoneOp(clock: int)
    | FenceFailedOp
    | DurableOp
    | UndoOp

  /** The block at the tip that is not durable yet, and the transactions it moved. */
  datatype Unfinished = Unfinished(block: Block, moved: seq<Tx>)

  /** A state with the hashes ever admitted, those since dropped and not admitted again, and the open block. */
  datatype Tracked = Tracked(s: State, admitted: set<string>, dropped: set<string>, open: Option<Unfinished>)

  function InFlight(s: State): seq<Tx> {
    s.pending + s.mempool
  }

  function Step(r: Tracked, op: Op): Tracked {
    var s := r.s;
    match op
    case AdmitOp(t) =>
      if Admitting(s, t) == Admitted
      then r.(s := Admit(s, t), admitted := r.admitted + {t.hash}, dropped := r.dropped - {t.hash})
      else r
    case RemoveOp(hs) =>
      r.(s := Remove(s, hs), dropped := r.dropped + (HashSet(s.mempool) * hs))
    case PruneOp(v) =>
      r.(s := PruneAt(s, v), dropped := r.dropped + (HashSet(s.mempool) - HashSet(Prune.Pruned(v, s.mempool))))
    case CollectOp(selected) =>
      if s.pending == [] then r.(s := Collect(s, selected)) else r
    case AbandonOp(drop) =>
      r.(s := Abandon(s, drop), dropped := r.dropped + (HashSet(s.pending) * drop))
    case ConfirmOp(clock) =>
      if r.open.Some? then r
      else r.(s := ConfirmExplorer(s, s.pending, clock),
              open := Some(Unfinished(NextBlock(s, s.pending, clock), s.pending)))
    case ConfirmUndoneOp(clock) =>
      if r.open.Some? then r else r.(s := Undo.ConfirmThenUndo(s, clock))
    case FenceFailedOp =>
      r.(s := s.(pending := []), dropped := r.dropped + HashSet(s.pending))
    case DurableOp => r.(open := None)
    case UndoOp => if r.open.Some? then r.(s := UndoOpen(s, r.open.value), open := None) else r
  }

  function UndoOpen(s: State, u: Unfinished): State {
    UndoExplorer(s, u.block, u.moved, ToPending)
  }

  function Run(r: Tracked, ops: seq<Op>): Tracked {
    if ops == [] then r else Step(Run(r, ops[..|ops| - 1]), ops[|ops| - 1])
  }

  // ----- what every run keeps -----

  /** The open block is the tip, and what it lists is listed by no other block. */
  ghost predicate OpenOk(s: State, u: Unfinished) {
    && s.history != [] && s.history[|s.history| - 1] == u.block
    && Elements(u.block.txHashes) == HashSet(u.moved) && Distinct(Hashes(u.moved))
    && HashSet(u.moved) !! Listed(s.history[..|s.history| - 1])
  }

  /** Every admitted hash is in exactly one place, once, and confirmed means listed by a block. */
  ghost predicate Inv(r: Tracked) {
    var s, flying := r.s, HashSet(InFlight(r.s));
    && Distinct(Hashes(InFlight(s)))
    && "" !in r.admitted
    && flying !! s.confirmed && flying !! r.dropped && s.confirmed !! r.dropped
    && r.admitted == flying + s.confirmed + r.dropped
    && s.confirmed == Listed(s.history)
    && (r.open.Some? ==> OpenOk(s, r.open.value))
  }

  /** The history without an open block. */
  function Base(r: Tracked): seq<Block> {
    if r.open.Some? && r.s.history != [] then r.s.history[..|r.s.history| - 1] else r.s.history
  }

  /** No two share a sender and nonce. */
  ghost predicate SlotOnce(txs: seq<Tx>) {
    forall i, j :: 0 <= i < j < |txs| ==> !Prune.SameSlot(txs[i], txs[j])
  }

  /** Picking some of a sequence with distinct hashes, in any order, gives such a sequence. */
  lemma HashesSub(txs: seq<Tx>, some: seq<Tx>)
    requires Distinct(Hashes(txs)) && multiset(some) <= multiset(txs)
    ensures Distinct(Hashes(some))
    ensures HashSet(some) <= HashSet(txs)
  {
    forall i, j | 0 <= i < j < |txs| ensures txs[i] != txs[j] {
      assert Hashes(txs)[i] != Hashes(txs)[j];
    }
    SubDistinct(txs, some);
    forall t | t in some ensures t in txs {
      assert t in multiset(some);
    }
    forall i, j | 0 <= i < j < |some| ensures some[i].hash != some[j].hash {
      assert some[i] in txs && some[j] in txs && some[i] != some[j];
      if some[i].hash == some[j].hash {
        Prune.OneHolder(txs, some[i], some[j]);
      }
    }
  }

  lemma HashesConcat(a: seq<Tx>, b: seq<Tx>)
    requires Distinct(Hashes(a)) && Distinct(Hashes(b)) && HashSet(a) !! HashSet(b)
    ensures Distinct(Hashes(a + b))
  {
    var all := a + b;
    forall i, j | 0 <= i < j < |all| ensures all[i].hash != all[j].hash {
      if j < |a| {
        assert Hashes(a)[i] != Hashes(a)[j];
      } else if i < |a| {
        assert all[i] in a && all[j] in b;
        assert all[i].hash in HashSet(a) && all[j].hash in HashSet(b);
      } else {
        assert Hashes(b)[i - |a|] != Hashes(b)[j - |a|];
      }
    }
  }

  lemma {:induction false} WithoutSub(txs: seq<Tx>, hs: set<string>)
    ensures multiset(Without(txs, hs)) <= multiset(txs)
    ensures HashSet(Without(txs, hs)) == HashSet(txs) - hs
    decreases |txs|
  {
    WithoutMembers(txs, hs);
    if txs != [] {
      var k := |txs| - 1;
      WithoutSub(txs[..k], hs);
      assert txs == txs[..k] + [txs[k]];
    }
  }

  lemma {:induction false} FirstPassSub(v: Prune.View, txs: seq<Tx>)
    ensures multiset(Prune.FirstPass(v, txs)) <= multiset(txs)
    decreases |txs|
  {
    if txs != [] {
      var k := |txs| - 1;
      FirstPassSub(v, txs[..k]);
      assert txs == txs[..k] + [txs[k]];
    }
  }

  lemma PrunedSub(v: Prune.View, txs: seq<Tx>)
    ensures multiset(Prune.Pruned(v, txs)) <= multiset(txs)
    ensures HashSet(Prune.Pruned(v, txs)) <= HashSet(txs)
  {
    FirstPassSub(v, txs);
    WithoutSub(Prune.FirstPass(v, txs), Prune.Doomed(v, Prune.FirstPass(v, txs)));
    Prune.FirstPassMembers(v, txs);
  }

  lemma {:induction false} CollectSplits(txs: seq<Tx>, pick: set<string>)
    ensures multiset(Collected(txs, pick)) + multiset(Remaining(txs, pick)) == multiset(txs)
    decreases |txs|
  {
    if txs != [] {
      var k := |txs| - 1;
      CollectSplits(txs[..k], pick);
      CollectOneMore(txs, pick);
      FrontAndLast(txs);
    }
  }

  lemma FrontAndLast(txs: seq<Tx>)
    requires txs != []
    ensures multiset(txs) == multiset(txs[..|txs| - 1]) + multiset{txs[|txs| - 1]}
  {
    assert txs == txs[..|txs| - 1] + [txs[|txs| - 1]];
  }

  lemma CollectOneMore(txs: seq<Tx>, pick: set<string>)
    requires txs != []
    ensures var front, one := txs[..|txs| - 1], multiset{txs[|txs| - 1]};
            multiset(Collected(txs, pick)) + multiset(Remaining(txs, pick)) ==
            multiset(Collected(front, pick)) + multiset(Remaining(front, pick)) + one
  {
  }

  lemma HashSetOf(a: seq<Tx>, b: seq<Tx>)
    requires multiset(a) == multiset(b)
    ensures HashSet(a) == HashSet(b)
  {
    assert forall t :: t in a <==> t in multiset(a);
    assert forall t :: t in b <==> t in multiset(b);
  }

  lemma HashSetConcat(a: seq<Tx>, b: seq<Tx>)
    ensures HashSet(a + b) == HashSet(a) + HashSet(b)
  {
    assert forall t :: t in a + b <==> t in a || t in b;
  }

  lemma ListedAppend(blocks: seq<Block>, b: Block)
    ensures Listed(blocks + [b]) == Listed(blocks) + Elements(b.txHashes)
  {
    assert forall x :: x in blocks + [b] <==> x in blocks || x == b;
  }

  lemma HashesElements(txs: seq<Tx>)
    ensures Elements(Hashes(txs)) == HashSet(txs)
  {
    forall t | t in txs ensures t.hash in Hashes(txs) {
      var i :| 0 <= i < |txs| && txs[i] == t;
      assert Hashes(txs)[i] == t.hash;
    }
  }

  /** Leaving flight only into dropped, with the rest untouched, keeps the invariant. */
  lemma Shrinks(r: Tracked, r': Tracked)
    requires Inv(r)
    requires multiset(InFlight(r'.s)) <= multiset(InFlight(r.s))
    requires r'.s.confirmed == r.s.confirmed && r'.s.history == r.s.history && r'.admitted == r.admitted
    requires r'.dropped == r.dropped + (HashSet(InFlight(r.s)) - HashSet(InFlight(r'.s)))
    requires r'.open == r.open
    ensures Inv(r')
  {
    HashesSub(InFlight(r.s), InFlight(r'.s));
  }

  lemma AdmitKeeps(r: Tracked, t: Tx)
    requires Inv(r)
    ensures Inv(Step(r, AdmitOp(t)))
  {
    var s := r.s;
    if Admitting(s, t) == Admitted {
      var r' := Step(r, AdmitOp(t));
      assert InFlight(r'.s) == InFlight(s) + [t];
      HashSetConcat(InFlight(s), [t]);
      assert HashSet([t]) == {t.hash} by { assert t in [t]; }
      assert Distinct(Hashes([t]));
      HashesConcat(InFlight(s), [t]);
    }
  }

  lemma RemoveKeeps(r: Tracked, hs: set<string>)
    requires Inv(r)
    ensures Inv(Step(r, RemoveOp(hs)))
  {
    var s := r.s;
    var left := Without(s.mempool, hs);
    WithoutSub(s.mempool, hs);
    HashSetConcat(s.pending, s.mempool);
    HashSetConcat(s.pending, left);
    Disjoint(s.pending, s.mempool);
    Shrinks(r, Step(r, RemoveOp(hs)));
  }

  lemma PruneKeeps(r: Tracked, v: Prune.View)
    requires Inv(r)
    ensures Inv(Step(r, PruneOp(v)))
  {
    var s := r.s;
    var left := Prune.Pruned(v, s.mempool);
    PrunedSub(v, s.mempool);
    HashSetConcat(s.pending, s.mempool);
    HashSetConcat(s.pending, left);
    Disjoint(s.pending, s.mempool);
    Shrinks(r, Step(r, PruneOp(v)));
  }

  lemma Disjoint(a: seq<Tx>, b: seq<Tx>)
    requires Distinct(Hashes(a + b))
    ensures HashSet(a) !! HashSet(b)
  {
    forall t, u | t in a && u in b ensures t.hash != u.hash {
      var i :| 0 <= i < |a| && a[i] == t;
      var j :| 0 <= j < |b| && b[j] == u;
      assert Hashes(a + b)[i] == t.hash && Hashes(a + b)[|a| + j] == u.hash;
    }
  }

  lemma CollectKeeps(r: Tracked, selected: seq<Tx>)
    requires Inv(r)
    ensures Inv(Step(r, CollectOp(selected)))
  {
    if r.s.pending == [] && selected != [] {
      CollectMoves(r.s, selected);
      Rearranged(r, Step(r, CollectOp(selected)));
    }
  }

  lemma Rearranged(r: Tracked, r': Tracked)
    requires Inv(r) && r.s.pending == [] && r' == r.(s := r'.s)
    requires multiset(r'.s.pending + r'.s.mempool) == multiset(r.s.mempool)
    requires HashSet(r'.s.pending + r'.s.mempool) == HashSet(r.s.mempool)
    requires r'.s.confirmed == r.s.confirmed && r'.s.history == r.s.history
    ensures Inv(r')
  {
    assert InFlight(r.s) == r.s.mempool;
    Shrinks(r, r');
  }

  /** Collecting moves transactions about, and changes nothing else. */
  lemma CollectMoves(s: State, selected: seq<Tx>)
    requires s.pending == [] && selected != []
    ensures var s' := Collect(s, selected);
            && multiset(s'.pending + s'.mempool) == multiset(s.mempool)
            && HashSet(s'.pending + s'.mempool) == HashSet(s.mempool)
            && s'.confirmed == s.confirmed && s'.history == s.history
  {
    var pick := HashSet(selected) - {""};
    CollectSplits(s.mempool, pick);
    SameFlight(s.mempool, Collected(s.mempool, pick), Remaining(s.mempool, pick));
  }

  lemma SameFlight(all: seq<Tx>, a: seq<Tx>, b: seq<Tx>)
    requires multiset(a) + multiset(b) == multiset(all)
    ensures multiset(a + b) == multiset(all) && HashSet(a + b) == HashSet(all)
  {
    HashSetOf(a + b, all);
  }

  lemma AbandonKeeps(r: Tracked, drop: set<string>)
    requires Inv(r)
    ensures Inv(Step(r, AbandonOp(drop)))
  {
    var s, r' := r.s, Step(r, AbandonOp(drop));
    var back := Without(s.pending, drop + {""});
    WithoutSub(s.pending, drop + {""});
    HashSetConcat(s.pending, s.mempool);
    HashSetConcat(s.mempool, back);
    Disjoint(s.pending, s.mempool);
    assert "" !in HashSet(s.pending);
    assert InFlight(r'.s) == s.mempool + back;
    Shrinks(r, r');
  }

  lemma ConfirmKeeps(r: Tracked, clock: int)
    requires Inv(r)
    ensures Inv(Step(r, ConfirmOp(clock)))
  {
    if r.open.None? {
      var s, r' := r.s, Step(r, ConfirmOp(clock));
      var b := NextBlock(s, s.pending, clock);
      HashSetConcat(s.pending, s.mempool);
      Disjoint(s.pending, s.mempool);
      ListedAppend(s.history, b);
      HashesElements(s.pending);
      assert InFlight(r'.s) == s.mempool;
      HashesSub(InFlight(s), s.mempool);
      HashesSub(InFlight(s), s.pending);
      JustOpened(s, b, r'.s);
    }
  }

  lemma JustOpened(s: State, b: Block, s': State)
    requires s'.history == s.history + [b] && b.txHashes == Hashes(s.pending)
    requires Distinct(Hashes(s.pending)) && HashSet(s.pending) !! Listed(s.history)
    ensures OpenOk(s', Unfinished(b, s.pending))
  {
    assert s'.history[..|s'.history| - 1] == s.history;
    HashesElements(s.pending);
  }

  lemma ConfirmUndoneKeeps(r: Tracked, clock: int)
    requires Inv(r)
    ensures Inv(Step(r, ConfirmUndoneOp(clock)))
  {
    if r.open.None? {
      Undo.ConfirmThenUndoPlaces(r.s, clock);
      SamePlacesKeep(r, Step(r, ConfirmUndoneOp(clock)));
    }
  }

  lemma SamePlacesKeep(r: Tracked, r': Tracked)
    requires Inv(r) && r.open.None? && r' == r.(s := r'.s) && InFlight(r'.s) == InFlight(r.s)
    requires r'.s.history == r.s.history && r'.s.confirmed == r.s.confirmed - HashSet(r.s.pending)
    ensures Inv(r')
  {
    HashSetConcat(r.s.pending, r.s.mempool);
    assert r.s.confirmed - HashSet(r.s.pending) == r.s.confirmed;
  }

  lemma FenceFailedKeeps(r: Tracked)
    requires Inv(r)
    ensures Inv(Step(r, FenceFailedOp))
  {
    var s, r' := r.s, Step(r, FenceFailedOp);
    HashSetConcat(s.pending, s.mempool);
    Disjoint(s.pending, s.mempool);
    assert InFlight(r'.s) == s.mempool;
    Shrinks(r, r');
  }

  /** Undoing the open block: its hashes go back into flight behind what is pending by now. */
  lemma UndoOpenEffect(s: State, u: Unfinished)
    requires OpenOk(s, u)
    ensures var s' := UndoOpen(s, u);
            && s'.history == s.history[..|s.history| - 1] && s'.confirmed == s.confirmed - HashSet(u.moved)
            && s'.pending == s.pending + u.moved && s'.mempool == s.mempool
  {
  }

  lemma BackInFlight(s: State, moved: seq<Tx>)
    ensures multiset((s.pending + moved) + s.mempool) == multiset(InFlight(s) + moved)
    ensures HashSet((s.pending + moved) + s.mempool) == HashSet(InFlight(s)) + HashSet(moved)
  {
    HashSetOf((s.pending + moved) + s.mempool, InFlight(s) + moved);
    HashSetConcat(InFlight(s), moved);
  }

  lemma UndoKeeps(r: Tracked)
    requires Inv(r)
    ensures Inv(Step(r, UndoOp))
  {
    if r.open.Some? {
      var s, u, r' := r.s, r.open.value, Step(r, UndoOp);
      UndoOpenEffect(s, u);
      BackInFlight(s, u.moved);
      ListedTip(s.history);
      HashesConcat(InFlight(s), u.moved);
      HashesSub(InFlight(s) + u.moved, InFlight(r'.s));
    }
  }

  lemma ListedTip(history: seq<Block>)
    requires history != []
    ensures Listed(history) == Listed(history[..|history| - 1]) + Elements(history[|history| - 1].txHashes)
  {
    ListedAppend(history[..|history| - 1], history[|history| - 1]);
    assert history[..|history| - 1] + [history[|history| - 1]] == history;
  }

  lemma StepInv(r: Tracked, op: Op)
    requires Inv(r)
    ensures Inv(Step(r, op))
  {
    match op
    case AdmitOp(t) => AdmitKeeps(r, t);
    case RemoveOp(hs) => RemoveKeeps(r, hs);
    case PruneOp(v) => PruneKeeps(r, v);
    case CollectOp(selected) => CollectKeeps(r, selected);
    case AbandonOp(drop) => AbandonKeeps(r, drop);
    case ConfirmOp(clock) => ConfirmKeeps(r, clock);
    case ConfirmUndoneOp(clock) => ConfirmUndoneKeeps(r, clock);
    case FenceFailedOp => FenceFailedKeeps(r);
    case DurableOp =>
    case UndoOp => UndoKeeps(r);
  }

  lemma StepGrows(r: Tracked, op: Op)
    requires r.open.Some? ==> OpenOk(r.s, r.open.value)
    ensures r.admitted <= Step(r, op).admitted
    ensures Base(r) <= Base(Step(r, op))
  {
    match op
    case ConfirmUndoneOp(clock) =>
      ConfirmUndoneStays(r, clock);
      SameBase(r, Step(r, op));
    case UndoOp => UndoGrows(r);
    case _ =>
  }

  lemma ConfirmUndoneStays(r: Tracked, clock: int)
    ensures var r' := Step(r, ConfirmUndoneOp(clock)); r'.s.history == r.s.history && r'.open == r.open
  {
    if r.open.None? {
      Undo.ConfirmThenUndoPlaces(r.s, clock);
    }
  }

  lemma SameBase(r: Tracked, r': Tracked)
    requires r'.open == r.open && r'.s.history == r.s.history
    ensures Base(r') == Base(r)
  {
  }

  lemma UndoGrows(r: Tracked)
    requires r.open.Some? ==> OpenOk(r.s, r.open.value)
    ensures Base(r) <= Base(Step(r, UndoOp))
  {
    if r.open.Some? {
      UndoOpenEffect(r.s, r.open.value);
    }
  }

  lemma StepKeeps(r: Tracked, op: Op)
    requires Inv(r)
    ensures Inv(Step(r, op))
    ensures r.admitted <= Step(r, op).admitted
    ensures Base(r) <= Base(Step(r, op))
  {
    StepInv(r, op);
    StepGrows(r, op);
  }

  /**
   In every run, whatever happens between a confirm and its undo, each hash ever admitted is in
   exactly one of mempool, pending, history and dropped, once; confirmed hashes are those the
   history lists; and the history, but for an open block, only grows.
   */
  lemma {:induction false} EveryRun(r: Tracked, ops: seq<Op>)
    requires Inv(r)
    ensures Inv(Run(r, ops))
    ensures r.admitted <= Run(r, ops).admitted
    ensures Base(r) <= Base(Run(r, ops))
    decreases |ops|
  {
    if ops != [] {
      var k := |ops| - 1;
      EveryRun(r, ops[..k]);
      StepKeeps(Run(r, ops[..k]), ops[k]);
    }
  }

  /** In no run does a prune leave the next nonce of a sender without a representative it had. */
  lemma PruneKeepsNextNonce(r: Tracked, v: Prune.View, t: Tx)
    requires Inv(r)
    requires t in r.s.mempool && Prune.Eligible(v, t) && t.from != "" && t.nonce == Prune.NextNonce(v, t.from)
    ensures exists x :: x in Step(r, PruneOp(v)).s.mempool && Prune.SameSlot(x, t)
  {
    HashesSub(InFlight(r.s), r.s.mempool);
    Prune.NextNonceAlwaysSurvives(v, r.s.mempool, t);
    assert Prune.Represented(v, r.s.mempool, t);
  }

  /** A fresh gateway, whatever its chain file and Core state. */
  lemma FreshStart(s: State)
    requires s.mempool == [] && s.pending == [] && s.history == [] && s.confirmed == {}
    ensures Inv(Tracked(s, {}, {}, None)) && Slots(Tracked(s, {}, {}, None))
  {
  }

  // ----- senders and nonces -----

  /** Nothing in flight shares a sender and nonce, nor does anything the open block moved. */
  ghost predicate Slots(r: Tracked) {
    SlotOnce(InFlight(r.s)) && (r.open.Some? ==> SlotOnce(r.open.value.moved))
  }

  /** Nothing in flight holds a slot that an undo of the open block would bring back. */
  ghost predicate UndoIsFree(r: Tracked) {
    r.open.Some? ==>
      forall t, m :: t in InFlight(r.s) && m in r.open.value.moved ==> !Prune.SameSlot(t, m)
  }

  lemma SlotsSub(txs: seq<Tx>, some: seq<Tx>)
    requires SlotOnce(txs) && multiset(some) <= multiset(txs)
    ensures SlotOnce(some)
  {
    forall i, j | 0 <= i < j < |txs| ensures txs[i] != txs[j] {
      assert !Prune.SameSlot(txs[i], txs[j]);
    }
    SubDistinct(txs, some);
    forall i, j | 0 <= i < j < |some| ensures !Prune.SameSlot(some[i], some[j]) {
      assert some[i] in multiset(some) && some[j] in multiset(some);
      DifferentSlots(txs, some[i], some[j]);
    }
  }

  lemma DifferentSlots(txs: seq<Tx>, t: Tx, u: Tx)
    requires SlotOnce(txs) && t in txs && u in txs && t != u
    ensures !Prune.SameSlot(t, u)
  {
    var i :| 0 <= i < |txs| && txs[i] == t;
    var j :| 0 <= j < |txs| && txs[j] == u;
  }

  /** Two slot-unique sequences together are slot-unique exactly when neither holds a slot of the other. */
  lemma SlotsConcat(a: seq<Tx>, b: seq<Tx>)
    requires SlotOnce(a) && SlotOnce(b)
    ensures SlotOnce(a + b) <==> forall t, m :: t in a && m in b ==> !Prune.SameSlot(t, m)
  {
    var all := a + b;
    if SlotOnce(all) {
      forall t, m | t in a && m in b ensures !Prune.SameSlot(t, m) {
        var i :| 0 <= i < |a| && a[i] == t;
        var j :| 0 <= j < |b| && b[j] == m;
        assert all[i] == t && all[|a| + j] == m;
      }
    }
    if forall t, m :: t in a && m in b ==> !Prune.SameSlot(t, m) {
      forall i, j | 0 <= i < j < |all| ensures !Prune.SameSlot(all[i], all[j]) {
        if i < |a| && j >= |a| {
          assert all[i] in a && all[j] in b;
        }
      }
    }
  }

  /** An undo leaves senders and nonces unique exactly when nothing took a slot of the block since it was confirmed. */
  lemma UndoSlots(r: Tracked)
    requires Inv(r) && Slots(r)
    ensures Slots(Step(r, UndoOp)) <==> UndoIsFree(r)
  {
    if r.open.Some? {
      var s, u := r.s, r.open.value;
      UndoOpenEffect(s, u);
      BackInFlight(s, u.moved);
      SlotsConcat(InFlight(s), u.moved);
      var after := InFlight(UndoOpen(s, u));
      if SlotOnce(after) {
        SlotsSub(after, InFlight(s) + u.moved);
      }
      if SlotOnce(InFlight(s) + u.moved) {
        SlotsSub(InFlight(s) + u.moved, after);
      }
    }
  }

  lemma AdmitSlots(r: Tracked, t: Tx)
    requires Slots(r)
    ensures Slots(Step(r, AdmitOp(t)))
  {
    if Admitting(r.s, t) == Admitted {
      assert InFlight(Step(r, AdmitOp(t)).s) == InFlight(r.s) + [t];
      SlotsConcat(InFlight(r.s), [t]);
    }
  }

  /** A step after which only some of what was in flight is in flight. */
  lemma FewerSlots(r: Tracked, s': State)
    requires Slots(r) && multiset(InFlight(s')) <= multiset(InFlight(r.s))
    ensures SlotOnce(InFlight(s'))
  {
    SlotsSub(InFlight(r.s), InFlight(s'));
  }

  lemma AbandonSlots(r: Tracked, drop: set<string>)
    requires Slots(r)
    ensures Slots(Step(r, AbandonOp(drop)))
  {
    WithoutSub(r.s.pending, drop + {""});
    FewerSlots(r, Abandon(r.s, drop));
  }

  lemma CollectSlots(r: Tracked, selected: seq<Tx>)
    requires Slots(r)
    ensures Slots(Step(r, CollectOp(selected)))
  {
    if r.s.pending == [] && selected != [] {
      CollectSplits(r.s.mempool, HashSet(selected) - {""});
      FewerSlots(r, Collect(r.s, selected));
    }
  }

  lemma ConfirmSlots(r: Tracked, clock: int)
    requires Slots(r)
    ensures Slots(Step(r, ConfirmOp(clock)))
  {
    PoolSlots(r.s);
    assert InFlight(ConfirmExplorer(r.s, r.s.pending, clock)) == r.s.mempool;
  }

  lemma PoolSlots(s: State)
    requires SlotOnce(InFlight(s))
    ensures SlotOnce(s.pending) && SlotOnce(s.mempool)
  {
    SlotsSub(InFlight(s), s.pending);
    SlotsSub(InFlight(s), s.mempool);
  }

  lemma ConfirmUndoneSlots(r: Tracked, clock: int)
    requires Slots(r)
    ensures Slots(Step(r, ConfirmUndoneOp(clock)))
  {
    Undo.ConfirmThenUndoPlaces(r.s, clock);
    assert InFlight(Undo.ConfirmThenUndo(r.s, clock)) == InFlight(r.s);
  }

  lemma RemoveSlots(r: Tracked, hs: set<string>)
    requires Inv(r) && Slots(r)
    ensures Slots(Step(r, RemoveOp(hs)))
  {
    WithoutSub(r.s.mempool, hs);
    FewerSlots(r, Remove(r.s, hs));
  }

  lemma PruneSlots(r: Tracked, v: Prune.View)
    requires Inv(r) && Slots(r)
    ensures Slots(Step(r, PruneOp(v)))
  {
    PrunedSub(v, r.s.mempool);
    FewerSlots(r, PruneAt(r.s, v));
  }

  /** Every operation keeps senders and nonces unique, the undo of an open block exactly when it is free to. */
  lemma StepSlots(r: Tracked, op: Op)
    requires Inv(r) && Slots(r)
    ensures Slots(Step(r, op)) <==> (op.UndoOp? ==> UndoIsFree(r))
  {
    match op
    case AdmitOp(t) => AdmitSlots(r, t);
    case RemoveOp(hs) => RemoveSlots(r, hs);
    case PruneOp(v) => PruneSlots(r, v);
    case CollectOp(selected) => CollectSlots(r, selected);
    case AbandonOp(drop) => AbandonSlots(r, drop);
    case ConfirmOp(clock) => ConfirmSlots(r, clock);
    case ConfirmUndoneOp(clock) => ConfirmUndoneSlots(r, clock);
    case FenceFailedOp => FewerSlots(r, r.s.(pending := []));
    case DurableOp =>
    case UndoOp => UndoSlots(r);
  }

  /** Every undo of the run found the slots of its block free. */
  ghost predicate UndosAreFree(r: Tracked, ops: seq<Op>) {
    ops == [] ||
    var k := |ops| - 1;
    UndosAreFree(r, ops[..k]) && (ops[k].UndoOp? ==> UndoIsFree(Run(r, ops[..k])))
  }

  /** At every point of the run senders and nonces in flight are unique. */
  ghost predicate AlwaysSlots(r: Tracked, ops: seq<Op>) {
    Slots(Run(r, ops)) && (ops == [] || AlwaysSlots(r, ops[..|ops| - 1]))
  }

  /** Throughout a run nothing in flight shares a sender and nonce, exactly when no undo met a slot taken since. */
  lemma {:induction false} SlotsInEveryRun(r: Tracked, ops: seq<Op>)
    requires Inv(r) && Slots(r)
    ensures AlwaysSlots(r, ops) <==> UndosAreFree(r, ops)
    decreases |ops|
  {
    if ops != [] {
      var k := |ops| - 1;
      SlotsInEveryRun(r, ops[..k]);
      EveryRun(r, ops[..k]);
      if AlwaysSlots(r, ops[..k]) {
        StepSlots(Run(r, ops[..k]), ops[k]);
      }
    }
  }

  lemma RunOne(r: Tracked, ops: seq<Op>, op: Op, more: seq<Op>)
    requires more == ops + [op]
    ensures Run(r, more) == Step(Run(r, ops), op)
  {
    assert more[..|ops|] == ops;
  }

  /** Nothing has happened yet. */
  ghost predicate Blank(r: Tracked) {
    && r.s.mempool == [] && r.s.pending == [] && r.s.history == [] && r.s.confirmed == {}
    && r.open.None?
  }

  lemma RunToConfirm(r: Tracked, t: Tx, clock: int)
    requires Blank(r) && t.hash != ""
    ensures var r' := Run(r, [AdmitOp(t), CollectOp([t]), ConfirmOp(clock)]);
            && r'.s.pending == [] && r'.s.mempool == [] && r'.s.confirmed == {t.hash}
            && r'.open.Some? && r'.open.value.moved == [t]
  {
    RunToCollect(r, t);
    RunOne(r, [AdmitOp(t), CollectOp([t])], ConfirmOp(clock), [AdmitOp(t), CollectOp([t]), ConfirmOp(clock)]);
    ConfirmedAlone(Run(r, [AdmitOp(t), CollectOp([t])]), t, clock);
  }

  lemma RunToCollect(r: Tracked, t: Tx)
    requires Blank(r) && t.hash != ""
    ensures var r' := Run(r, [AdmitOp(t), CollectOp([t])]);
            r'.s.pending == [t] && r'.s.mempool == [] && r'.s.confirmed == {} && r'.open.None?
  {
    RunOne(r, [], AdmitOp(t), [AdmitOp(t)]);
    AdmittedAlone(r, t);
    RunOne(r, [AdmitOp(t)], CollectOp([t]), [AdmitOp(t), CollectOp([t])]);
    CollectedAlone(Run(r, [AdmitOp(t)]), t);
  }

  /** A transaction admitted between a confirm and its undo can hold the slot of one the undo brings back. */
  lemma UndoMeetsATakenSlot(r: Tracked, t: Tx, u: Tx, clock: int)
    requires Blank(r) && t.hash != "" && u.hash != "" && t.hash != u.hash && Prune.SameSlot(t, u)
    ensures var s' := Run(r, [AdmitOp(t), CollectOp([t]), ConfirmOp(clock), AdmitOp(u), UndoOp]).s;
            s'.pending == [t] && s'.mempool == [u] && !SlotOnce(InFlight(s'))
  {
    var three := [AdmitOp(t), CollectOp([t]), ConfirmOp(clock)];
    var four := three + [AdmitOp(u)];
    RunToConfirm(r, t, clock);
    RunOne(r, three, AdmitOp(u), four);
    AdmittedAlone(Run(r, three), u);
    assert four + [UndoOp] == [AdmitOp(t), CollectOp([t]), ConfirmOp(clock), AdmitOp(u), UndoOp];
    RunOne(r, four, UndoOp, four + [UndoOp]);
    UndoneAlone(Run(r, four), t, u);
  }

  lemma AdmittedAlone(r: Tracked, t: Tx)
    requires r.s.pending == [] && r.s.mempool == [] && t.hash != "" && t.hash !in r.s.confirmed
    ensures var s' := Step(r, AdmitOp(t)).s;
            && s'.mempool == [t] && s'.pending == [] && s'.history == r.s.history && s'.confirmed == r.s.confirmed
            && Step(r, AdmitOp(t)).open == r.open
  {
    assert r.s.mempool + [t] == [t];
  }

  lemma CollectedAlone(r: Tracked, t: Tx)
    requires r.s.mempool == [t] && r.s.pending == [] && t.hash != ""
    ensures var s' := Step(r, CollectOp([t])).s;
            && s'.pending == [t] && s'.mempool == [] && s'.history == r.s.history && s'.confirmed == r.s.confirmed
            && Step(r, CollectOp([t])).open == r.open
  {
    var pick := HashSet([t]) - {""};
    assert t in [t] && t.hash in pick;
    var front := [t][..|[t]| - 1];
    assert front == [] && t.hash !in HashSet(front);
    assert Collected(front, pick) == [] && Remaining(front, pick) == [];
    assert Collected([t], pick) == [] + [t];
    assert Remaining([t], pick) == [] + [];
  }

  lemma ConfirmedAlone(r: Tracked, t: Tx, clock: int)
    requires r.s.pending == [t] && r.s.mempool == [] && r.open.None? && r.s.confirmed == {}
    ensures var r' := Step(r, ConfirmOp(clock));
            && r'.s.pending == [] && r'.s.mempool == [] && r'.s.confirmed == {t.hash}
            && r'.open.Some? && r'.open.value.moved == [t]
  {
    assert t in [t];
    assert HashSet([t]) == {t.hash};
  }

  lemma UndoneAlone(r: Tracked, t: Tx, u: Tx)
    requires r.s.pending == [] && r.s.mempool == [u] && r.open.Some? && r.open.value.moved == [t]
    requires Prune.SameSlot(t, u)
    ensures var s' := Step(r, UndoOp).s; s'.pending == [t] && s'.mempool == [u] && !SlotOnce(InFlight(s'))
  {
    var s' := Step(r, UndoOp).s;
    assert r.s.pending + [t] == [t];
    assert InFlight(s')[0] == t && InFlight(s')[1] == u;
  }
}
