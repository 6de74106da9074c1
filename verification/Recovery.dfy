/**
 Starting again after a crash: loading the chain file, then putting back what
 Rocks never committed (internal/blockchain/chain_store.go, txpool_restore.go).
 */
module Recovery {
  import opened Sequences
  import opened Ledger
  import opened Confirm
  import Boundary
  import Pool

  // ----- what a restore decides -----

  predicate Leads(b: Block, rocks: Option<int>) {
    rocks.Some? && b.number > rocks.value
  }

  /** The blocks Rocks has committed, in order; all of them when Rocks gives no head. */
  function UpTo(blocks: seq<Block>, rocks: Option<int>): seq<Block> {
    if blocks == [] then []
    else
      var before, b := UpTo(blocks[..|blocks| - 1], rocks), blocks[|blocks| - 1];
      if Leads(b, rocks) then before else before + [b]
  }

  predicate DropsLead(blocks: seq<Block>, rocks: Option<int>) {
    exists b :: b in blocks && Leads(b, rocks)
  }

  /** The newest block time, or 0. */
  function HeadTime(blocks: seq<Block>): int {
    if blocks == [] then 0
    else
      var before, ts := HeadTime(blocks[..|blocks| - 1]), blocks[|blocks| - 1].timestamp;
      if ts > before then ts else before
  }

  function Canonical(s: State, rocks: Option<int>): set<string> {
    Listed(UpTo(s.history, rocks)) - {""}
  }

  /** The pooled copy of a transaction, or the indexed one. */
  function Copy(s: State, pool: Rows, h: string): Tx
    requires h in pool || h in s.index
  {
    if h in pool then pool[h] else s.index[h]
  }

  function Newer(a: int, b: int): int {
    if b > a then b else a
  }

  /** Carries a time, and not a newer one than the newest kept block. */
  predicate Stale(s: State, pool: Rows, rocks: Option<int>, h: string)
    requires h in pool || h in s.index
  {
    var head := HeadTime(UpTo(s.history, rocks));
    var ts := Copy(s, pool, h).timestamp;
    var stamp := if h in s.index then Newer(ts, s.index[h].timestamp) else ts;
    head > 0 && stamp > 0 && stamp <= head
  }

  predicate Credit(t: Tx) {
    t.from == FAUCET || t.kind == "faucet" || !t.signed
  }

  /** Goes back to the mempool. */
  predicate Returns(s: State, pool: Rows, rocks: Option<int>, h: string) {
    && h != "" && (h in pool || h in s.index)
    && h !in Canonical(s, rocks)
    && !Credit(Copy(s, pool, h))
    && !Stale(s, pool, rocks, h)
  }

  function Returning(s: State, pool: Rows, rocks: Option<int>): set<string> {
    set h | h in pool.Keys + s.index.Keys && Returns(s, pool, rocks, h)
  }

  /** Leaves the durable pool: committed after all, or too old to come back. */
  function Forgotten(s: State, pool: Rows, rocks: Option<int>): set<string> {
    set h | h in pool && h != "" &&
            (h in Canonical(s, rocks) || (!Credit(pool[h]) && Stale(s, pool, rocks, h)))
  }

  /** The index with the pooled copies of the given hashes filed where it had none. */
  function IndexWith(s: State, pool: Rows, back: set<string>): Rows {
    s.index + map h | h in back && h in pool && h !in s.index :: pool[h]
  }

  /** The durable pool without what is forgotten, and with the current row of everything that goes back. */
  function Repool(pool: Rows, forget: set<string>, back: set<string>, index: Rows): Rows {
    (pool - forget) + map h | h in back && h in index :: index[h]
  }

  /** Block numbers with those of the given hashes cleared. */
  function Unstamped(blockOf: map<string, int>, back: set<string>): map<string, int> {
    blockOf + map h | h in back :: 0
  }

  /** The rows of the hashes in back, once each, in the order they are met. */
  ghost predicate RowsBack(s: State, pool: Rows, back: set<string>, order: seq<Tx>, index: Rows) {
    && index == IndexWith(s, pool, back)
    && Distinct(Hashes(order)) && HashSet(order) == back
    && forall t :: t in order ==> t.hash in index && t == index[t.hash]
  }

  /** The rows that are not in flight yet. */
  function Queued(s: State, order: seq<Tx>): seq<Tx> {
    Without(order, HashSet(s.pending + s.mempool))
  }

  /** The rows that were not indexed yet. */
  function Filed(s: State, order: seq<Tx>): seq<Tx> {
    Without(order, s.index.Keys)
  }

  /** A row filed under its sender and its receiver, if it names them, and once if they are one. */
  function FileRow(byAddress: map<string, seq<Tx>>, t: Tx): map<string, seq<Tx>> {
    var sent := if t.from != "" then Touch(byAddress, t.from, t) else byAddress;
    if t.to != "" && t.to != t.from then Touch(sent, t.to, t) else sent
  }

  function FileRows(byAddress: map<string, seq<Tx>>, txs: seq<Tx>): map<string, seq<Tx>> {
    if txs == [] then byAddress else FileRow(FileRows(byAddress, txs[..|txs| - 1]), txs[|txs| - 1])
  }

  /** The state of a restore put together from its parts; leads is the Rocks head when blocks above it were dropped. */
  function RestoreState(s: State, kept: seq<Block>, leads: Option<int>, added: seq<Tx>,
                        lists: map<string, seq<Tx>>, index: Rows, back: set<string>): State {
    s.(history := kept, mempool := s.mempool + added, index := index, byAddress := lists,
       confirmed := s.confirmed - back,
       blockOf := Unstamped(s.blockOf, back),
       durableHead := if leads.Some? then HistoryHead(kept) else s.durableHead,
       counter := if leads.Some? then leads.value + 1 else s.counter)
  }

  function LeadDropped(blocks: seq<Block>, rocks: Option<int>): Option<int> {
    if DropsLead(blocks, rocks) then rocks else None
  }

  /** The whole of a restore, before the chain file is rewritten. */
  ghost predicate Restored(s: State, pool: Rows, rocks: Option<int>,
                           s': State, pool': Rows, order: seq<Tx>) {
    var back := Returning(s, pool, rocks);
    && RowsBack(s, pool, back, order, s'.index)
    && s' == RestoreState(s, UpTo(s.history, rocks), LeadDropped(s.history, rocks), Queued(s, order),
                          FileRows(s.byAddress, Filed(s, order)), s'.index, back)
    && pool' == Repool(pool, Forgotten(s, pool, rocks), back, s'.index)
  }

  // ----- what a restore guarantees -----

  lemma {:induction false} UpToMembers(blocks: seq<Block>, rocks: Option<int>)
    ensures forall b :: b in UpTo(blocks, rocks) <==> b in blocks && !Leads(b, rocks)
    decreases |blocks|
  {
    if blocks != [] {
      var k := |blocks| - 1;
      UpToMembers(blocks[..k], rocks);
      assert blocks == blocks[..k] + [blocks[k]];
    }
  }

  lemma {:induction false} UpToAll(blocks: seq<Block>, rocks: Option<int>)
    requires forall i :: 0 <= i < |blocks| ==> !Leads(blocks[i], rocks)
    ensures UpTo(blocks, rocks) == blocks
    decreases |blocks|
  {
    if blocks != [] {
      UpToAll(blocks[..|blocks| - 1], rocks);
    }
  }

  /** How often a hash is in flight. */
  function Copies(txs: seq<Tx>, h: string): nat {
    if txs == [] then 0 else Copies(txs[..|txs| - 1], h) + (if txs[|txs| - 1].hash == h then 1 else 0)
  }

  lemma {:induction false} CopiesOnce(txs: seq<Tx>, h: string)
    requires Distinct(Hashes(txs))
    ensures Copies(txs, h) == if h in HashSet(txs) then 1 else 0
    decreases |txs|
  {
    if txs != [] {
      var k := |txs| - 1;
      CopiesOnce(txs[..k], h);
      assert txs == txs[..k] + [txs[k]];
      assert HashSet(txs) == HashSet(txs[..k]) + {txs[k].hash};
      assert txs[k].hash !in HashSet(txs[..k]) by {
        forall t | t in txs[..k] ensures t.hash != txs[k].hash {
          var i :| 0 <= i < k && txs[..k][i] == t;
        }
      }
    }
  }

  lemma {:induction false} CopiesConcat(a: seq<Tx>, b: seq<Tx>, h: string)
    ensures Copies(a + b, h) == Copies(a, h) + Copies(b, h)
    decreases |b|
  {
    if b == [] {
      assert a + b == a;
    } else {
      var k := |b| - 1;
      CopiesConcat(a, b[..k], h);
      assert (a + b)[..|a + b| - 1] == a + b[..k];
    }
  }

  /**
   After a restore no block stands above the Rocks head, and a hash that was not
   in flight is now there exactly once when it returns, and not at all otherwise;
   what returns is no longer marked confirmed.
   */
  lemma RestoreReturnsTheUncommitted(s: State, pool: Rows, rocks: Option<int>,
                                     s': State, pool': Rows, order: seq<Tx>, h: string)
    requires Restored(s, pool, rocks, s', pool', order)
    requires Distinct(Hashes(s.pending + s.mempool))
    ensures forall b :: b in s'.history <==> b in s.history && !Leads(b, rocks)
    ensures var flying := HashSet(s.pending + s.mempool);
            Copies(s'.pending + s'.mempool, h) == (if h in flying || Returns(s, pool, rocks, h) then 1 else 0)
    ensures Returns(s, pool, rocks, h) ==> h !in s'.confirmed && h !in Listed(s'.history)
    ensures !Returns(s, pool, rocks, h) ==> (h in s'.confirmed <==> h in s.confirmed)
  {
    UpToMembers(s.history, rocks);
    RestoredCopies(s, pool, rocks, s', pool', order, h);
    RestoredConfirmed(s, pool, rocks, s', pool', order, h);
  }

  lemma RestoredCopies(s: State, pool: Rows, rocks: Option<int>,
                       s': State, pool': Rows, order: seq<Tx>, h: string)
    requires Restored(s, pool, rocks, s', pool', order) && Distinct(Hashes(s.pending + s.mempool))
    ensures Copies(s'.pending + s'.mempool, h) ==
            if h in HashSet(s.pending + s.mempool) || Returns(s, pool, rocks, h) then 1 else 0
  {
    RestoredAdds(s, pool, rocks, s', pool', order);
    ReturningHas(s, pool, rocks, h);
    CopiesAfter(s, s', Queued(s, order), Returning(s, pool, rocks), h);
  }

  lemma CopiesAfter(s: State, s': State, added: seq<Tx>, back: set<string>, h: string)
    requires s'.pending == s.pending && s'.mempool == s.mempool + added
    requires Distinct(Hashes(s.pending + s.mempool)) && Distinct(Hashes(added))
    requires HashSet(added) == back - HashSet(s.pending + s.mempool)
    ensures Copies(s'.pending + s'.mempool, h) == if h in HashSet(s.pending + s.mempool) || h in back then 1 else 0
  {
    var flying := s.pending + s.mempool;
    assert s'.pending + s'.mempool == flying + added;
    InFlightOnce(flying, added, h);
  }

  /** What a restore adds to the mempool: once each, what returns and was not in flight. */
  lemma RestoredAdds(s: State, pool: Rows, rocks: Option<int>, s': State, pool': Rows, order: seq<Tx>)
    requires Restored(s, pool, rocks, s', pool', order)
    ensures var added := Queued(s, order);
            && s'.pending == s.pending && s'.mempool == s.mempool + added && Distinct(Hashes(added))
            && HashSet(added) == Returning(s, pool, rocks) - HashSet(s.pending + s.mempool)
  {
    WithoutDistinct(order, HashSet(s.pending + s.mempool));
  }

  lemma WithoutDistinct(txs: seq<Tx>, hs: set<string>)
    requires Distinct(Hashes(txs))
    ensures Distinct(Hashes(Without(txs, hs))) && HashSet(Without(txs, hs)) == HashSet(txs) - hs
  {
    Pool.WithoutSub(txs, hs);
    Pool.HashesSub(txs, Without(txs, hs));
  }

  /** The entries of a batch under an address. */
  function Under(txs: seq<Tx>, a: string): seq<Tx> {
    if txs == [] then []
    else
      var before, t := Under(txs[..|txs| - 1], a), txs[|txs| - 1];
      if a != "" && (t.from == a || t.to == a) then before + [t] else before
  }

  lemma {:induction false} FileRowsAt(byAddress: map<string, seq<Tx>>, txs: seq<Tx>, a: string)
    ensures At(FileRows(byAddress, txs), a) == At(byAddress, a) + Under(txs, a)
    decreases |txs|
  {
    if txs != [] {
      FileRowsAt(byAddress, txs[..|txs| - 1], a);
    }
  }

  lemma {:induction false} UnderSub(txs: seq<Tx>, a: string)
    ensures multiset(Under(txs, a)) <= multiset(txs)
    ensures forall t :: t in Under(txs, a) <==> t in txs && a != "" && (t.from == a || t.to == a)
    decreases |txs|
  {
    if txs != [] {
      var k := |txs| - 1;
      UnderSub(txs[..k], a);
      assert txs == txs[..k] + [txs[k]];
    }
  }

  lemma UnderCopies(txs: seq<Tx>, a: string, h: string)
    requires Distinct(Hashes(txs))
    ensures Copies(Under(txs, a), h) ==
            if a != "" && exists t :: t in txs && t.hash == h && (t.from == a || t.to == a) then 1 else 0
  {
    UnderSub(txs, a);
    Pool.HashesSub(txs, Under(txs, a));
    CopiesOnce(Under(txs, a), h);
  }

  /**
   A restore only adds to the address lists: under each address, once each, the pooled rows that return,
   were not indexed, and name it.
   */
  lemma RestoreFilesRows(s: State, pool: Rows, rocks: Option<int>,
                         s': State, pool': Rows, order: seq<Tx>, a: string, h: string)
    requires Restored(s, pool, rocks, s', pool', order)
    ensures var more := Under(Filed(s, order), a);
            && At(s'.byAddress, a) == At(s.byAddress, a) + more
            && Copies(more, h) == if Returns(s, pool, rocks, h) && h !in s.index && a != "" &&
                                     (pool[h].from == a || pool[h].to == a) then 1 else 0
  {
    var filed := Filed(s, order);
    FileRowsAt(s.byAddress, filed, a);
    WithoutDistinct(order, s.index.Keys);
    UnderCopies(filed, a, h);
    ReturningHas(s, pool, rocks, h);
    FiledAre(s, pool, Returning(s, pool, rocks), order, s'.index, h);
  }

  lemma FiledAre(s: State, pool: Rows, back: set<string>, order: seq<Tx>, index: Rows, h: string)
    requires RowsBack(s, pool, back, order, index) && back <= pool.Keys + s.index.Keys
    ensures h in back && h !in s.index ==> pool[h] in Filed(s, order)
    ensures forall t :: t in Filed(s, order) && t.hash == h ==> h in back && h !in s.index && t == pool[h]
  {
    WithoutMembers(order, s.index.Keys);
    if h in back {
      assert h in HashSet(order);
      var t :| t in order && t.hash == h;
    }
  }

  lemma ReturningHas(s: State, pool: Rows, rocks: Option<int>, h: string)
    ensures h in Returning(s, pool, rocks) <==> Returns(s, pool, rocks, h)
  {
  }

  lemma RestoredConfirmed(s: State, pool: Rows, rocks: Option<int>,
                          s': State, pool': Rows, order: seq<Tx>, h: string)
    requires Restored(s, pool, rocks, s', pool', order)
    ensures Returns(s, pool, rocks, h) ==> h !in s'.confirmed && h !in Listed(s'.history)
    ensures !Returns(s, pool, rocks, h) ==> (h in s'.confirmed <==> h in s.confirmed)
  {
    ReturningHas(s, pool, rocks, h);
  }

  lemma InFlightOnce(flying: seq<Tx>, added: seq<Tx>, h: string)
    requires Distinct(Hashes(flying)) && Distinct(Hashes(added))
    requires HashSet(flying) !! HashSet(added)
    ensures Copies(flying + added, h) == if h in HashSet(flying) || h in HashSet(added) then 1 else 0
  {
    CopiesConcat(flying, added, h);
    CopiesOnce(flying, h);
    CopiesOnce(added, h);
  }

  /**
   A stale row whose indexed copy carries no time and could go back by itself:
   forgetting the pooled copy makes the next restore take it for new.
   */
  predicate Resurfaces(s: State, pool: Rows, rocks: Option<int>, h: string) {
    && h != "" && h in pool && h in s.index && h !in Canonical(s, rocks)
    && !Credit(pool[h]) && Stale(s, pool, rocks, h)
    && !Credit(s.index[h]) && s.index[h].timestamp <= 0
    && h !in HashSet(s.pending + s.mempool)
  }

  lemma UpToTwice(blocks: seq<Block>, rocks: Option<int>)
    ensures UpTo(UpTo(blocks, rocks), rocks) == UpTo(blocks, rocks)
    ensures !DropsLead(UpTo(blocks, rocks), rocks)
  {
    UpToMembers(blocks, rocks);
    UpToAll(UpTo(blocks, rocks), rocks);
  }

  /** What the first restore leaves of a row that did not return. */
  lemma RowLeft(s: State, pool: Rows, back: set<string>, forget: set<string>, index: Rows, h: string)
    requires h !in back && index == IndexWith(s, pool, back)
    ensures h in index <==> h in s.index
    ensures h in s.index ==> index[h] == s.index[h]
    ensures h in Repool(pool, forget, back, index) <==> h in pool && h !in forget
    ensures h in pool && h !in forget ==> Repool(pool, forget, back, index)[h] == pool[h]
  {
  }

  lemma SameCanon(s: State, s': State, rocks: Option<int>)
    requires s'.history == UpTo(s.history, rocks)
    ensures UpTo(s'.history, rocks) == UpTo(s.history, rocks)
    ensures Canonical(s', rocks) == Canonical(s, rocks)
  {
    UpToTwice(s.history, rocks);
  }

  /** What the second restore lets in: exactly the rows that resurface. */
  lemma SecondReturns(s: State, pool: Rows, rocks: Option<int>,
                      s': State, pool': Rows, order: seq<Tx>, h: string)
    requires Restored(s, pool, rocks, s', pool', order)
    ensures Newcomer(s', pool', rocks, h) <==> Resurfaces(s, pool, rocks, h)
  {
    SameCanon(s, s', rocks);
    RestoredFlies(s, pool, rocks, s', pool', order, h);
    if !Returns(s, pool, rocks, h) {
      RowLeft(s, pool, Returning(s, pool, rocks), Forgotten(s, pool, rocks), s'.index, h);
      LeftAlone(s, pool, rocks, s', pool', h);
    }
  }

  /** In flight after a restore: what was, and what returns. */
  lemma RestoredFlies(s: State, pool: Rows, rocks: Option<int>, s': State, pool': Rows, order: seq<Tx>, h: string)
    requires Restored(s, pool, rocks, s', pool', order)
    ensures h in HashSet(s'.pending + s'.mempool) <==>
            h in HashSet(s.pending + s.mempool) || Returns(s, pool, rocks, h)
  {
    RestoredAdds(s, pool, rocks, s', pool', order);
    StillFlying(s, s', Queued(s, order), h);
    ReturningHas(s, pool, rocks, h);
  }

  lemma StillFlying(s: State, s': State, added: seq<Tx>, h: string)
    requires s'.pending == s.pending && s'.mempool == s.mempool + added
    ensures h in HashSet(s'.pending + s'.mempool) <==> h in HashSet(s.pending + s.mempool) || h in HashSet(added)
  {
    assert s'.pending + s'.mempool == (s.pending + s.mempool) + added;
    assert forall t :: t in (s.pending + s.mempool) + added <==> t in s.pending + s.mempool || t in added;
  }

  /** A row that did not return the first time returns the second time only by losing its pooled copy. */
  lemma LeftAlone(s: State, pool: Rows, rocks: Option<int>,
                  s': State, pool': Rows, h: string)
    requires !Returns(s, pool, rocks, h)
    requires UpTo(s'.history, rocks) == UpTo(s.history, rocks) && Canonical(s', rocks) == Canonical(s, rocks)
    requires h in s'.index <==> h in s.index
    requires h in s.index ==> s'.index[h] == s.index[h]
    requires h in pool' <==> h in pool && h !in Forgotten(s, pool, rocks)
    requires h in pool && h !in Forgotten(s, pool, rocks) ==> pool'[h] == pool[h]
    ensures Returns(s', pool', rocks, h) <==>
            && h != "" && h in pool && h in s.index && h !in Canonical(s, rocks)
            && !Credit(pool[h]) && Stale(s, pool, rocks, h)
            && !Credit(s.index[h]) && s.index[h].timestamp <= 0
  {
  }

  /**
   A second restore leaves history and mempool alone exactly when no row
   resurfaces; none does when pooled and indexed copies agree on their time.
   */
  lemma SecondRestore(s: State, pool: Rows, rocks: Option<int>,
                      s': State, pool': Rows, order: seq<Tx>,
                      s'': State, pool'': Rows, again: seq<Tx>)
    requires Restored(s, pool, rocks, s', pool', order) && Restored(s', pool', rocks, s'', pool'', again)
    ensures s''.history == s'.history && s''.counter == s'.counter && s''.durableHead == s'.durableHead
    ensures s''.mempool == s'.mempool <==> forall h :: !Resurfaces(s, pool, rocks, h)
  {
    SecondKeepsChain(s, pool, rocks, s', pool', order, s'', pool'', again);
    RestoredAdds(s', pool', rocks, s'', pool'', again);
    EntersNothing(s', pool', rocks, Queued(s', again));
    SameNewcomers(s, pool, rocks, s', pool', order);
  }

  lemma SameNewcomers(s: State, pool: Rows, rocks: Option<int>, s': State, pool': Rows, order: seq<Tx>)
    requires Restored(s, pool, rocks, s', pool', order)
    ensures (forall h :: !Newcomer(s', pool', rocks, h)) <==> forall h :: !Resurfaces(s, pool, rocks, h)
  {
    forall h ensures Newcomer(s', pool', rocks, h) <==> Resurfaces(s, pool, rocks, h) {
      SecondReturns(s, pool, rocks, s', pool', order, h);
    }
  }

  lemma SecondKeepsChain(s: State, pool: Rows, rocks: Option<int>,
                         s': State, pool': Rows, order: seq<Tx>,
                         s'': State, pool'': Rows, again: seq<Tx>)
    requires Restored(s, pool, rocks, s', pool', order) && Restored(s', pool', rocks, s'', pool'', again)
    ensures s''.history == s'.history && s''.counter == s'.counter && s''.durableHead == s'.durableHead
  {
    UpToTwice(s.history, rocks);
  }

  /** Returns and is not in flight yet. */
  ghost predicate Newcomer(s: State, pool: Rows, rocks: Option<int>, h: string) {
    Returns(s, pool, rocks, h) && h !in HashSet(s.pending + s.mempool)
  }

  lemma EntersNothing(s: State, pool: Rows, rocks: Option<int>, added: seq<Tx>)
    requires HashSet(added) == Returning(s, pool, rocks) - HashSet(s.pending + s.mempool)
    ensures added == [] <==> forall h :: !Newcomer(s, pool, rocks, h)
  {
    if added != [] {
      assert added[0] in added;
      assert added[0].hash in HashSet(added);
      assert Newcomer(s, pool, rocks, added[0].hash);
    }
    if h :| Newcomer(s, pool, rocks, h) {
      assert h in Returning(s, pool, rocks);
      assert h in HashSet(added);
    }
  }

  lemma AgreeingCopiesDoNotResurface(s: State, pool: Rows, rocks: Option<int>, h: string)
    requires h in pool && h in s.index ==> pool[h].timestamp == s.index[h].timestamp
    ensures !Resurfaces(s, pool, rocks, h)
  {
  }

  // ----- the chain file and the totals -----

  /**
   If the rewrite after a restore fails while leading blocks were dropped, the
   file keeps a head the node no longer remembers.
   */
  lemma RestoreAndTheFile(s: State, pool: Rows, rocks: Option<int>,
                          s': State, pool': Rows, order: seq<Tx>, writeOk: bool)
    requires Restored(s, pool, rocks, s', pool', order) && Boundary.FileKnown(s) && s.persistent
    ensures var f := if DropsLead(s.history, rocks) then Persist(s', writeOk) else s';
            Boundary.FileKnown(f) <==>
            !DropsLead(s.history, rocks) || writeOk || FileHead(s) <= HistoryHead(UpTo(s.history, rocks))
  {
  }

  /**
   After such a restore the next confirmed block takes the number after the Rocks head r, and writing it
   lowers the head in the file exactly when that head is above r + 1, that is unless one block was open.
   */
  lemma ConfirmAfterFailedRewrite(s: State, pool: Rows, rocks: Option<int>,
                                  s': State, pool': Rows, order: seq<Tx>, in_: L2Input)
    requires Restored(s, pool, rocks, s', pool', order) && DropsLead(s.history, rocks)
    requires s.persistent && rocks.value >= -1
    ensures var f := Persist(s', false);
            var (c, r) := L2Confirm(f, in_);
            FileHead(f) == FileHead(s) &&
            (r.Confirmed? ==> && FileHead(c) == rocks.value + 1 && Boundary.FileKnown(c)
                              && (FileHead(c) < FileHead(f) <==> rocks.value + 1 < FileHead(s)))
  {
    UpToMembers(s.history, rocks);
    HeadBelow(UpTo(s.history, rocks), rocks.value + 1);
    if ApplySucceeds(s', s'.pending, in_.apply) {
      NextIsWritten(Disturb(Apply(s', s'.pending, in_.apply), in_.during), s'.pending, in_);
    }
  }

  /** A confirm numbered above the history and the durable head is the head of the file once it is written. */
  lemma NextIsWritten(s: State, txs: seq<Tx>, in_: L2Input)
    requires s.persistent && HistoryHead(s.history) < s.counter && s.durableHead <= s.counter
    ensures var (c, r) := Commit(s, txs, in_);
            r.Confirmed? ==> FileHead(c) == s.counter == c.durableHead
  {
    var e := ConfirmExplorer(s, txs, in_.clock);
    assert e.history[..|e.history| - 1] == s.history;
  }

  lemma {:induction false} HeadBelow(blocks: seq<Block>, n: int)
    requires 0 <= n && forall b :: b in blocks ==> b.number < n
    ensures HistoryHead(blocks) < n
    decreases |blocks|
  {
    if blocks != [] {
      HeadBelow(blocks[..|blocks| - 1], n);
    }
  }

  /** The fee total is not rolled back with the dropped blocks: it stays right only if they carried none. */
  lemma RestoreAndTheFees(s: State, pool: Rows, rocks: Option<int>,
                          s': State, pool': Rows, order: seq<Tx>)
    requires Restored(s, pool, rocks, s', pool', order) && s.fees == RecordedFees(s.history)
    ensures s'.fees == RecordedFees(s'.history) <==> RecordedFees(Dropped(s.history, rocks)) == 0
  {
    FeesSplit(s.history, rocks);
  }

  function Dropped(blocks: seq<Block>, rocks: Option<int>): seq<Block> {
    if blocks == [] then []
    else
      var before, b := Dropped(blocks[..|blocks| - 1], rocks), blocks[|blocks| - 1];
      if Leads(b, rocks) then before + [b] else before
  }

  lemma {:induction false} FeesSplit(blocks: seq<Block>, rocks: Option<int>)
    ensures RecordedFees(blocks) == RecordedFees(UpTo(blocks, rocks)) + RecordedFees(Dropped(blocks, rocks))
    decreases |blocks|
  {
    if blocks != [] {
      var k := |blocks| - 1;
      FeesSplit(blocks[..k], rocks);
      var up, down := UpTo(blocks[..k], rocks), Dropped(blocks[..k], rocks);
      assert (up + [blocks[k]])[..|up|] == up;
      assert (down + [blocks[k]])[..|down|] == down;
    }
  }

  // ----- loading the chain file -----

  function BlockOf(blockOf: map<string, int>, h: string): int {
    if h in blockOf then blockOf[h] else 0
  }

  /** Some block of number n lists h. */
  ghost predicate ListedAt(blocks: seq<Block>, n: int, h: string) {
    exists b :: b in blocks && b.number == n && h in b.txHashes
  }

  /** The row h is stamped with the positive block number n. */
  predicate StampedAt(rows: set<string>, blockOf: map<string, int>, n: int, h: string) {
    n > 0 && h in rows && BlockOf(blockOf, h) == n
  }

  /** a is b with hashes added at the end. */
  predicate Extends(b: Block, a: Block) {
    b.txHashes <= a.txHashes && a == b.(txHashes := a.txHashes)
  }

  /** Every stamped row is listed by a block of its number, nothing else is added, and no block is lost. */
  ghost predicate Attached(before: seq<Block>, rows: set<string>, blockOf: map<string, int>, after: seq<Block>) {
    && (forall n, h :: ListedAt(after, n, h) <==> ListedAt(before, n, h) || StampedAt(rows, blockOf, n, h))
    && (forall b :: b in before ==> exists a :: a in after && Extends(b, a))
  }

  lemma ListedAppend(blocks: seq<Block>, b: Block, n: int, h: string)
    ensures ListedAt(blocks + [b], n, h) <==> ListedAt(blocks, n, h) || (b.number == n && h in b.txHashes)
  {
    assert forall x :: x in blocks + [b] <==> x in blocks || x == b;
  }

  /** Replacing a block by one that lists one hash more, whatever its time and fees. */
  lemma ListedUpdate(blocks: seq<Block>, i: nat, b: Block, g: string, n: int, h: string)
    requires i < |blocks| && b.number == blocks[i].number && b.txHashes == blocks[i].txHashes + [g]
    ensures ListedAt(blocks[i := b], n, h) <==> ListedAt(blocks, n, h) || (b.number == n && g == h)
  {
    var out := blocks[i := b];
    if x :| x in out && x.number == n && h in x.txHashes {
      if x == b {
        assert blocks[i] in blocks;
      } else {
        assert x in blocks;
      }
    }
    if x :| x in blocks && x.number == n && h in x.txHashes {
      var k :| 0 <= k < |blocks| && blocks[k] == x;
      assert out[k] in out;
    }
    if b.number == n && g == h {
      assert out[i] in out;
    }
  }

  /** Blocks by increasing number. */
  function SortByNumber(blocks: seq<Block>): (r: seq<Block>)
    ensures forall b :: b in r <==> b in blocks
    ensures forall i, j :: 0 <= i < j < |r| ==> r[i].number <= r[j].number
  {
    if blocks == [] then []
    else
      assert blocks == blocks[..|blocks| - 1] + [blocks[|blocks| - 1]];
      Insert(SortByNumber(blocks[..|blocks| - 1]), blocks[|blocks| - 1])
  }

  function Insert(blocks: seq<Block>, b: Block): (r: seq<Block>)
    requires forall i, j :: 0 <= i < j < |blocks| ==> blocks[i].number <= blocks[j].number
    ensures forall x :: x in r <==> x in blocks || x == b
    ensures forall i, j :: 0 <= i < j < |r| ==> r[i].number <= r[j].number
  {
    if blocks == [] || blocks[|blocks| - 1].number <= b.number then blocks + [b]
    else
      var k := |blocks| - 1;
      assert blocks == blocks[..k] + [blocks[k]];
      assert forall x :: x in blocks[..k] ==> x.number <= blocks[k].number;
      var front := Insert(blocks[..k], b);
      assert forall i :: 0 <= i < |front| ==> front[i] in blocks[..k] || front[i] == b;
      front + [blocks[k]]
  }

  /** Every indexed number points at a block of that number. */
  ghost predicate Indexed(places: map<int, int>, blocks: seq<Block>) {
    forall n :: n in places ==> 0 <= places[n] < |blocks| && blocks[places[n]].number == n
  }

  /** The last position of every block number. */
  method LastPlaces(blocks: seq<Block>) returns (places: map<int, int>)
    ensures Indexed(places, blocks)
    ensures forall i :: 0 <= i < |blocks| ==> blocks[i].number in places
    ensures forall n, k :: n in places && places[n] < k < |blocks| ==> blocks[k].number != n
  {
    places := map[];
    for i := 0 to |blocks|
      invariant forall k :: 0 <= k < i ==> blocks[k].number in places
      invariant forall n :: n in places ==> 0 <= places[n] < i && blocks[places[n]].number == n
      invariant forall n, k :: n in places && places[n] < k < i ==> blocks[k].number != n
    {
      places := places[blocks[i].number := i];
    }
  }

  /** The blocks extended by the rows done so far, followed by the rebuilt ones. */
  ghost predicate Placed(blocks: seq<Block>, done: set<string>, blockOf: map<string, int>, out: seq<Block>) {
    && |out| >= |blocks| && (forall i :: 0 <= i < |blocks| ==> Extends(blocks[i], out[i]))
    && forall n, h :: ListedAt(out, n, h) <==> ListedAt(blocks, n, h) || StampedAt(done, blockOf, n, h)
  }

  /** Listing g in a block of its number, or in a new block, places its row. */
  lemma PlaceListed(blocks: seq<Block>, done: set<string>, blockOf: map<string, int>,
                    out: seq<Block>, out': seq<Block>, g: string)
    requires Placed(blocks, done, blockOf, out)
    requires |out'| >= |blocks| && forall i :: 0 <= i < |blocks| ==> Extends(blocks[i], out'[i])
    requires BlockOf(blockOf, g) > 0
    requires forall n, h :: ListedAt(out', n, h) <==> ListedAt(out, n, h) || (n == BlockOf(blockOf, g) && h == g)
    ensures Placed(blocks, done + {g}, blockOf, out')
  {
    forall n, h
      ensures ListedAt(out', n, h) <==> ListedAt(blocks, n, h) || StampedAt(done + {g}, blockOf, n, h)
    {
      assert StampedAt(done + {g}, blockOf, n, h) <==>
             StampedAt(done, blockOf, n, h) || (n == BlockOf(blockOf, g) && h == g);
    }
  }

  lemma PlaceNothing(blocks: seq<Block>, done: set<string>, blockOf: map<string, int>, out: seq<Block>, g: string)
    requires Placed(blocks, done, blockOf, out) && BlockOf(blockOf, g) <= 0
    ensures Placed(blocks, done + {g}, blockOf, out)
  {
    forall n, h ensures StampedAt(done + {g}, blockOf, n, h) <==> StampedAt(done, blockOf, n, h) {
    }
  }

  /** One row: into the block of its number, or into a block rebuilt for it. */
  method PlaceRow(blocks: seq<Block>, ghost done: set<string>, blockOf: map<string, int>, places: map<int, int>,
                  g: string, t: Tx, out: seq<Block>)
    returns (out': seq<Block>, places': map<int, int>)
    requires Placed(blocks, done, blockOf, out)
    requires Indexed(places, out)
    ensures Placed(blocks, done + {g}, blockOf, out')
    ensures Indexed(places', out')
  {
    out', places' := out, places;
    var n := BlockOf(blockOf, g);
    if n <= 0 {
      PlaceNothing(blocks, done, blockOf, out, g);
      return;
    }
    if n in places {
      var i := places[n];
      var b := out[i].(txHashes := out[i].txHashes + [g]);
      if i >= |blocks| {
        b := b.(timestamp := Newer(b.timestamp, t.timestamp), totalFees := b.totalFees + t.feeUplp);
      } else if g in out[i].txHashes {
        assert out[i] in out;
        PlaceListed(blocks, done, blockOf, out, out, g);
        return;
      }
      out' := out[i := b];
      forall m, h ensures ListedAt(out', m, h) <==> ListedAt(out, m, h) || (m == n && h == g) {
        ListedUpdate(out, i, b, g, m, h);
      }
    } else {
      var b := Block(n, Newer(0, t.timestamp), [g], t.feeUplp, "", 0, 0, map[], map[]);
      out', places' := out + [b], places[n := |out|];
      forall m, h ensures ListedAt(out', m, h) <==> ListedAt(out, m, h) || (m == n && h == g) {
        ListedAppend(out, b, m, h);
      }
    }
    PlaceListed(blocks, done, blockOf, out, out', g);
  }

  /** Puts every stamped row, in any order, under a block of its number; new blocks are sorted in. */
  method AttachConfirmedTxs(blocks: seq<Block>, index: Rows, blockOf: map<string, int>)
    returns (after: seq<Block>, grew: bool)
    ensures Attached(blocks, index.Keys, blockOf, after)
  {
    var places := LastPlaces(blocks);
    after := blocks;
    var todo := index.Keys;
    assert forall n, h :: !StampedAt({}, blockOf, n, h);
    assert index.Keys - todo == {};
    while todo != {}
      invariant todo <= index.Keys
      invariant Placed(blocks, index.Keys - todo, blockOf, after)
      invariant Indexed(places, after)
      decreases todo
    {
      var g :| g in todo;
      assert index.Keys - (todo - {g}) == (index.Keys - todo) + {g};
      after, places := PlaceRow(blocks, index.Keys - todo, blockOf, places, g, index[g], after);
      todo := todo - {g};
    }
    assert index.Keys - {} == index.Keys;
    forall b | b in blocks ensures exists a :: a in after && Extends(b, a) {
      var i :| 0 <= i < |blocks| && blocks[i] == b;
      assert after[i] in after;
    }
    grew := |after| > |blocks|;
    if grew {
      ghost var unsorted := after;
      after := SortByNumber(after);
      assert forall n, h :: ListedAt(after, n, h) <==> ListedAt(unsorted, n, h);
    }
  }

  /**
   What loading the chain file makes of a state: its rows and blocks, every
   stamped row attached to a block, and rows not stamped negative taken for
   confirmed until a restore says otherwise.
   */
  ghost predicate Loaded(s: State, file: ChainFile, s': State) {
    && s'.index == file.index - {""} && s'.blockOf == file.blockOf && s'.fees == file.fees
    && s'.confirmed == (set h | h in s'.index && BlockOf(file.blockOf, h) >= 0)
    && Attached(file.blocks, s'.index.Keys, file.blockOf, s'.history)
    && (s'.counter == file.counter || s'.counter == HistoryHead(s'.history) + 1 > file.counter)
    && s'.durableHead == Newer(s.durableHead, HistoryHead(s'.history)) && s'.persistent
    && s'.mempool == s.mempool && s'.pending == s.pending && s'.core == s.core && s'.backup == s.backup
    && s'.chainFile == s.chainFile && s'.dagDigests == s.dagDigests
  }

  /** A loaded file is known: its head is not above the durable head the load leaves. */
  lemma LoadKnowsTheFile(s: State, file: ChainFile, s': State)
    requires s.chainFile == Some(file) && Loaded(s, file, s')
    ensures Boundary.FileKnown(s') && FileHead(s') == FileHead(s)
  {
    Boundary.HeadAtLeast(s'.history);
    forall b | b in file.blocks ensures b.number <= HistoryHead(s'.history) {
      var a :| a in s'.history && Extends(b, a);
    }
    HeadBelow(file.blocks, HistoryHead(s'.history) + 1);
  }

  /**
   From any chain file and any pool, loading into a fresh node and restoring
   leaves no block above the Rocks head; a signed transaction that is no credit,
   that no kept block of the file lists and no row stamps into one, and that is
   not older than the newest kept block, is in the mempool exactly once and not
   confirmed; every other hash stays out of the mempool.
   */
  lemma RecoveryFromDisk(s: State, file: ChainFile, loaded: State, pool: Rows, rocks: Option<int>,
                         s': State, pool': Rows, order: seq<Tx>, h: string)
    requires s.mempool == [] && s.pending == []
    requires Loaded(s, file, loaded) && Restored(loaded, pool, rocks, s', pool', order)
    ensures forall b :: b in s'.history ==> !Leads(b, rocks)
    ensures var committed := exists n :: (rocks.None? || n <= rocks.value) &&
                               (ListedAt(file.blocks, n, h) || StampedAt(loaded.index.Keys, file.blockOf, n, h));
            var comesBack := h != "" && (h in pool || h in file.index) && !committed &&
                             !Credit(Copy(loaded, pool, h)) && !Stale(loaded, pool, rocks, h);
            Copies(s'.mempool, h) == (if comesBack then 1 else 0) && (comesBack ==> h !in s'.confirmed)
  {
    CanonicalAfterLoad(file.blocks, loaded, rocks, h);
    RestoredFresh(loaded, pool, rocks, s', pool', order, h);
  }

  /** A restore into empty pools. */
  lemma RestoredFresh(s: State, pool: Rows, rocks: Option<int>, s': State, pool': Rows, order: seq<Tx>, h: string)
    requires Restored(s, pool, rocks, s', pool', order) && s.mempool == [] && s.pending == []
    ensures forall b :: b in s'.history ==> !Leads(b, rocks)
    ensures Copies(s'.mempool, h) == if Returns(s, pool, rocks, h) then 1 else 0
    ensures Returns(s, pool, rocks, h) ==> h !in s'.confirmed
  {
    RestoreReturnsTheUncommitted(s, pool, rocks, s', pool', order, h);
    RestoredAdds(s, pool, rocks, s', pool', order);
    assert s'.pending + s'.mempool == s'.mempool;
  }

  /**
   After a load, a hash counts as committed exactly when a kept block of the file lists it or its row
   is stamped so.
   */
  lemma CanonicalAfterLoad(blocks: seq<Block>, s: State, rocks: Option<int>, h: string)
    requires Attached(blocks, s.index.Keys, s.blockOf, s.history)
    ensures h in Canonical(s, rocks) <==>
            h != "" && exists n :: (rocks.None? || n <= rocks.value) &&
                                   (ListedAt(blocks, n, h) || StampedAt(s.index.Keys, s.blockOf, n, h))
  {
    UpToMembers(s.history, rocks);
    if h in Canonical(s, rocks) {
      var b :| b in UpTo(s.history, rocks) && h in b.txHashes;
      assert ListedAt(s.history, b.number, h);
    }
    if n :| (rocks.None? || n <= rocks.value) &&
            (ListedAt(blocks, n, h) || StampedAt(s.index.Keys, s.blockOf, n, h)) {
      assert ListedAt(s.history, n, h);
      var b :| b in s.history && b.number == n && h in b.txHashes;
      assert b in UpTo(s.history, rocks);
    }
  }

  // ----- the restore loop -----

  lemma RowReturns(s: State, pool: Rows, back: set<string>, order: seq<Tx>, index: Rows, h: string)
    requires RowsBack(s, pool, back, order, index)
    requires h !in back && (h in pool || h in s.index)
    ensures var row := if h in s.index then s.index[h] else pool[h];
            RowsBack(s, pool, back + {h}, order + [row], index[h := row])
  {
    var row := if h in s.index then s.index[h] else pool[h];
    IndexOne(s, pool, back, h);
    NewHash(order, row);
    forall t | t in order ensures t.hash != h {
      assert t.hash in HashSet(order);
    }
  }

  /** One row more, for the queue and for the address lists. */
  lemma RowPlaced(s: State, order: seq<Tx>, row: Tx)
    ensures Queued(s, order + [row]) ==
            if row.hash in HashSet(s.pending + s.mempool) then Queued(s, order) else Queued(s, order) + [row]
    ensures Filed(s, order + [row]) == if row.hash in s.index then Filed(s, order) else Filed(s, order) + [row]
    ensures FileRows(s.byAddress, Filed(s, order) + [row]) == FileRow(FileRows(s.byAddress, Filed(s, order)), row)
  {
    assert (order + [row])[..|order|] == order;
    var filed := Filed(s, order);
    assert (filed + [row])[..|filed|] == filed;
  }

  lemma IndexOne(s: State, pool: Rows, back: set<string>, h: string)
    requires h in pool || h in s.index
    ensures IndexWith(s, pool, back)[h := if h in s.index then s.index[h] else pool[h]] ==
            IndexWith(s, pool, back + {h})
  {
  }

  lemma NewHash(added: seq<Tx>, row: Tx)
    ensures HashSet(added + [row]) == HashSet(added) + {row.hash}
    ensures Distinct(Hashes(added)) && row.hash !in HashSet(added) ==> Distinct(Hashes(added + [row]))
  {
    assert forall t :: t in added + [row] <==> t in added || t == row;
    assert forall i :: 0 <= i < |added| ==> added[i] in added && added[i].hash in HashSet(added);
  }

  /** Whether a row goes back to the mempool, and whether it leaves the durable pool. */
  method DecideRow(s: State, pool: Rows, rocks: Option<int>, canonical: set<string>, headTime: int, h: string)
    returns (returns_: bool, forgets: bool)
    requires h in pool || h in s.index
    requires canonical == Canonical(s, rocks) && headTime == HeadTime(UpTo(s.history, rocks))
    ensures returns_ <==> h in Returning(s, pool, rocks)
    ensures forgets <==> h in Forgotten(s, pool, rocks)
  {
    if h == "" {
      return false, false;
    }
    if h in canonical {
      return false, h in pool;
    }
    var tx := if h in pool then pool[h] else s.index[h];
    if tx.from == FAUCET || tx.kind == "faucet" || !tx.signed {
      return false, false;
    }
    var stamp := tx.timestamp;
    if h in s.index && s.index[h].timestamp > stamp {
      stamp := s.index[h].timestamp;
    }
    if headTime > 0 && stamp > 0 && stamp <= headTime {
      return false, h in pool;
    }
    return true, false;
  }

  lemma OneDone(all: set<string>, todo: set<string>, h: string)
    requires h in todo
    ensures all - (todo - {h}) == if h in all then (all - todo) + {h} else all - todo
  {
  }

  /** Decides every pooled or indexed row, in any order. */
  method DecideRows(s: State, pool: Rows, rocks: Option<int>, canonical: set<string>, headTime: int)
    returns (back: set<string>, forget: set<string>)
    requires canonical == Canonical(s, rocks) && headTime == HeadTime(UpTo(s.history, rocks))
    ensures back == Returning(s, pool, rocks) && forget == Forgotten(s, pool, rocks)
  {
    back, forget := {}, {};
    var todo := pool.Keys + s.index.Keys;
    ghost var returning, forgotten := Returning(s, pool, rocks), Forgotten(s, pool, rocks);
    assert returning - todo == {} && forgotten - todo == {};
    while todo != {}
      invariant todo <= pool.Keys + s.index.Keys
      invariant back == returning - todo && forget == forgotten - todo
      decreases todo
    {
      var h :| h in todo;
      var returns_, forgets := DecideRow(s, pool, rocks, canonical, headTime, h);
      OneDone(returning, todo, h);
      OneDone(forgotten, todo, h);
      if returns_ {
        back := back + {h};
      }
      if forgets {
        forget := forget + {h};
      }
      todo := todo - {h};
    }
  }

  /** The rows of `back` are queued, filed and indexed, in the order they were met. */
  ghost predicate Brought(s: State, pool: Rows, back: set<string>, order: seq<Tx>,
                          added: seq<Tx>, lists: map<string, seq<Tx>>, index: Rows) {
    && RowsBack(s, pool, back, order, index)
    && added == Queued(s, order) && lists == FileRows(s.byAddress, Filed(s, order))
  }

  /** Queues the row of one hash, and files it under its addresses if it was not indexed. */
  method BringOne(s: State, pool: Rows, flying: set<string>, ghost back: set<string>, ghost order: seq<Tx>, h: string,
                  added: seq<Tx>, lists: map<string, seq<Tx>>, index: Rows)
    returns (added': seq<Tx>, lists': map<string, seq<Tx>>, index': Rows, ghost order': seq<Tx>)
    requires flying == HashSet(s.pending + s.mempool) && Brought(s, pool, back, order, added, lists, index)
    requires h !in back && (h in pool || h in s.index)
    ensures Brought(s, pool, back + {h}, order', added', lists', index')
  {
    RowReturns(s, pool, back, order, index, h);
    var row;
    added', lists' := added, lists;
    if h in s.index {
      row := s.index[h];
    } else {
      row := pool[h];
      if row.from != "" {
        lists' := Touch(lists', row.from, row);
      }
      if row.to != "" && row.to != row.from {
        lists' := Touch(lists', row.to, row);
      }
    }
    if h !in flying {
      added' := added' + [row];
    }
    RowPlaced(s, order, row);
    index', order' := index[h := row], order + [row];
  }

  /** Files and queues the rows that go back, in any order. */
  method BringBack(s: State, pool: Rows, back: set<string>)
    returns (added: seq<Tx>, lists: map<string, seq<Tx>>, index: Rows, ghost order: seq<Tx>)
    requires back <= pool.Keys + s.index.Keys
    ensures Brought(s, pool, back, order, added, lists, index)
  {
    added, lists, index, order := [], s.byAddress, s.index, [];
    var flying := HashSet(s.pending + s.mempool);
    var done, todo := {}, back;
    assert IndexWith(s, pool, {}) == s.index && HashSet([]) == {};
    while todo != {}
      invariant done + todo == back && done !! todo
      invariant Brought(s, pool, done, order, added, lists, index)
      decreases todo
    {
      var h :| h in todo;
      added, lists, index, order := BringOne(s, pool, flying, done, order, h, added, lists, index);
      done, todo := done + {h}, todo - {h};
    }
    assert done == back;
  }

  /** The blocks at or below the Rocks head, and whether any stood above it. */
  method KeepCommitted(blocks: seq<Block>, rocks: Option<int>) returns (kept: seq<Block>, dropped: bool)
    ensures kept == UpTo(blocks, rocks)
    ensures dropped <==> DropsLead(blocks, rocks)
  {
    kept, dropped := [], false;
    for i := 0 to |blocks|
      invariant kept == UpTo(blocks[..i], rocks)
      invariant dropped <==> exists k :: 0 <= k < i && Leads(blocks[k], rocks)
    {
      assert blocks[..i + 1][..i] == blocks[..i];
      if rocks.Some? && blocks[i].number > rocks.value {
        dropped := true;
      } else {
        kept := kept + [blocks[i]];
      }
    }
    assert blocks[..|blocks|] == blocks;
  }

  method NewestTime(blocks: seq<Block>) returns (time: int)
    ensures time == HeadTime(blocks)
  {
    time := 0;
    for i := 0 to |blocks|
      invariant time == HeadTime(blocks[..i])
    {
      assert blocks[..i + 1][..i] == blocks[..i];
      if blocks[i].timestamp > time {
        time := blocks[i].timestamp;
      }
    }
    assert blocks[..|blocks|] == blocks;
  }

  /** The state and the pool after a restore, before the chain file is rewritten. */
  method RestoreValues(s: State, pool: Rows, rocks: Option<int>)
    returns (s': State, pool': Rows, dropped: bool, restored: nat, ghost order: seq<Tx>)
    ensures Restored(s, pool, rocks, s', pool', order)
    ensures dropped <==> DropsLead(s.history, rocks)
    ensures restored == |Returning(s, pool, rocks)|
  {
    var kept, leads := KeepCommitted(s.history, rocks);
    var headTime := NewestTime(kept);
    var back, forget := DecideRows(s, pool, rocks, Listed(kept) - {""}, headTime);
    var more, lists, index;
    more, lists, index, order := BringBack(s, pool, back);
    s' := RestoreState(s, kept, if leads then rocks else None, more, lists, index, back);
    pool' := Repool(pool, forget, back, index);
    dropped, restored := leads, |back|;
  }

  method MaxNumber(blocks: seq<Block>) returns (head: int)
    ensures head == HistoryHead(blocks)
  {
    head := -1;
    for i := 0 to |blocks|
      invariant head == HistoryHead(blocks[..i])
    {
      assert blocks[..i + 1][..i] == blocks[..i];
      if blocks[i].number > head {
        head := blocks[i].number;
      }
    }
    assert blocks[..|blocks|] == blocks;
  }
}
