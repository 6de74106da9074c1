/** The handlers that carry a confirmed block through to Rocks (internal/handlers/apply_confirmed_block.go). */
module GatewayObject {
  import opened Sequences
  import opened Ledger
  import opened Confirm
  import Boundary
  import Peers
  import BO = BlockchainObject

  class Gateway {
    const bc: BO.Blockchain
    const rocksOn: bool
    var rocks: seq<Block>

    ghost function Here(): Node
      reads this, bc
    {
      Node(bc.now, rocksOn, rocks, bc.pool)
    }

    constructor (rocksOn: bool)
      ensures fresh(bc) && this.rocksOn == rocksOn && rocks == []
    {
      bc := new BO.Blockchain();
      this.rocksOn := rocksOn;
      rocks := [];
    }

    /** Rocks, then the commit marker and the backup's removal; or the compensating undo. */
    method DurableCommitAfterExplorer(b: Block, moved: seq<Tx>, rocksOk: bool, undoWriteOk: bool)
      returns (r: FinalResult)
      modifies this, bc
      ensures (Here(), r) == DurableCommit(old(Here()), b, moved, rocksOk, undoWriteOk)
    {
      if rocksOn {
        if !rocksOk {
          bc.UndoLastConfirmedBlock(b, moved, undoWriteOk);
          return RocksFailed;
        }
        rocks := rocks + [b];
      }
      bc.now := bc.now.(backup := None);
      bc.pool := bc.pool - HashSet(moved);
      r := Durable(b);
    }

    method FinalizeConfirmedBlock(b: Block, moved: seq<Tx>, in_: FinalInput) returns (r: FinalResult)
      modifies this, bc
      ensures (Here(), r) == Finalize(old(Here()), b, moved, in_)
    {
      if in_.header.None? {
        if rocksOn {
          bc.UndoLastConfirmedBlock(b, moved, in_.undoWriteOk);
          return HeaderFailed;
        }
        bc.now := bc.now.(backup := None);
        var _ := bc.PersistChain(in_.headerWriteOk);
        return DurableWithoutHeader;
      }
      bc.ApplyBlockHeader(b.number, in_.header.value, in_.headerWriteOk);
      bc.Unlocked(in_.between);
      r := DurableCommitAfterExplorer(b.(blockHash := in_.header.value), moved, in_.rocksOk, in_.undoWriteOk);
    }

    /** A whole L2 confirm from a settled state: all of it happens, or none. */
    method ConfirmPending(l2: L2Input, fin: FinalInput) returns (o: Outcome)
      requires Boundary.Ahead(bc.now) && bc.now.fees >= 0 && bc.now.backup.None?
      modifies this, bc
      ensures Boundary.AllOrNothing(old(Here()), Here(), o)
    {
      Boundary.ConfirmIsAllOrNothing(Here(), l2, fin);
      o := RunConfirm(l2, fin);
    }

    method RunConfirm(l2: L2Input, fin: FinalInput) returns (o: Outcome)
      modifies this, bc
      ensures (Here(), o) == Round(old(Here()), l2, fin)
    {
      var r := bc.L2ConfirmBlock(l2);
      if !r.Confirmed? {
        return Aborted(r.PersistFailed?);
      }
      bc.Unlocked(fin.before);
      var f := FinalizeConfirmedBlock(r.block, r.moved, fin);
      match f {
        case HeaderFailed => o := Aborted(true);
        case RocksFailed => o := Aborted(true);
        case Durable(b) => o := Done(b);
        case DurableWithoutHeader => o := Done(r.block);
      }
    }

    /** A block received from a peer. */
    method ApplyPeerConfirmedBlock(b: Block, txs: seq<Tx>, in_: Peers.PeerInput) returns (end: Peers.PeerEnd)
      modifies this, bc
      ensures (Here(), end) == Peers.ApplyPeer(old(Here()), b, txs, in_)
      ensures Peers.PeerAllOrNothing(old(Here()), Here(), b, txs, end)
    {
      Peers.PeerIsAllOrNothing(Here(), b, txs, in_);
      end := ReceiveBlock(b, txs, in_);
    }

    method ReceiveBlock(b: Block, txs: seq<Tx>, in_: Peers.PeerInput) returns (end: Peers.PeerEnd)
      modifies this, bc
      ensures (Here(), end) == Peers.ApplyPeer(old(Here()), b, txs, in_)
    {
      var r := bc.AddConfirmedBlock(b, txs, in_.apply, in_.during, in_.writeOk);
      if !r.Added? {
        return Peers.Refused(r);
      }
      bc.PerhapsUnlocked(in_.between);
      var d := DurableCommitAfterExplorer(b, txs, in_.rocksOk, in_.undoWriteOk);
      end := if d.Durable? then Peers.Landed else Peers.RocksRefused;
    }
  }
}
