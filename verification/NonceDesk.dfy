/** Reserving nonces for submitters (internal/handlers/handlers.go). */
module NonceDesk {
  import opened Sequences

  /** How far past the account nonce a reservation may look. */
  const RESERVE_AHEAD := 256

  datatype Slot = Slot(from: string, nonce: int)

  /** A confirm not yet durable: the slots of its block, and the account nonces of Core's state backup. */
  datatype Unfinished = Unfinished(batch: set<Slot>, saved: map<string, int>)

  /** An allocation under way: the account nonce it read, the nonce it looks at next, and where it gives up. */
  datatype Asking = Asking(a: string, seen: int, next: int, limit: int)

  /**
   The reservations, the sender nonces in mempool or pending, the account nonces Core reports, an open
   confirm, and the allocation that holds the admission lock.
   */
  datatype Desk = Desk(reserved: set<Slot>, flight: set<Slot>, account: map<string, int>, open: Option<Unfinished>,
                       asking: Option<Asking>)

  const EMPTY := Desk({}, {}, map[], None, None)

  function NonceOf(account: map<string, int>, a: string): int {
    if a in account then account[a] else 0
  }

  function Tip(d: Desk, a: string): int {
    NonceOf(d.account, a)
  }

  predicate Taken(d: Desk, s: Slot) {
    s in d.reserved || s in d.flight
  }

  /** The first free nonce from `n` on, up to `limit`. */
  function FirstFree(d: Desk, a: string, n: int, limit: int): (r: Option<int>)
    ensures r.Some? ==> n <= r.value <= limit && !Taken(d, Slot(a, r.value))
    ensures forall k :: n <= k <= limit && (r.None? || k < r.value) ==> Taken(d, Slot(a, k))
    decreases limit - n
  {
    if n > limit then None
    else if Taken(d, Slot(a, n)) then FirstFree(d, a, n + 1, limit)
    else Some(n)
  }

  function Offer(d: Desk, a: string): Option<int> {
    FirstFree(d, a, Tip(d, a), Tip(d, a) + RESERVE_AHEAD)
  }

  /** The loop of allocateNonceLocked. */
  method FindFree(d: Desk, a: string) returns (r: Option<int>)
    ensures r == Offer(d, a)
  {
    var n, limit := Tip(d, a), Tip(d, a) + RESERVE_AHEAD;
    while n <= limit
      invariant n <= limit + 1
      invariant FirstFree(d, a, n, limit) == Offer(d, a)
      decreases limit - n
    {
      if !Taken(d, Slot(a, n)) {
        return Some(n);
      }
      n := n + 1;
    }
    return None;
  }

  /** The least nonce at or above the account nonce that nobody holds; none only when all 257 are held. */
  lemma OfferIsLeast(d: Desk, a: string)
    ensures var r := Offer(d, a);
            && (r.Some? ==> Tip(d, a) <= r.value <= Tip(d, a) + RESERVE_AHEAD && !Taken(d, Slot(a, r.value))
                            && forall k :: Tip(d, a) <= k < r.value ==> Taken(d, Slot(a, k)))
            && (r.None? <==> forall k :: Tip(d, a) <= k <= Tip(d, a) + RESERVE_AHEAD ==> Taken(d, Slot(a, k)))
  {
  }

  // ----- steps -----

  /**
   An allocation reads the account nonce, then looks at one nonce after the other. Admission of a
   transaction and release by the submitter wait for its lock; the loss of a transaction from the pools
   and confirms do not. The confirm of a block, the gateway's own or a peer's, raises the account nonces
   to what Core then reports and takes some of its slots out of flight. Until it is durable it can be
   undone, which puts Core's state and the block's transactions back.
   */
  datatype Op = Ask(a: string) | Look | Admit(s: Slot) | Release(s: Slot) | Drop(s: Slot)
              | Confirm(batch: set<Slot>, gone: set<Slot>, tips: map<string, int>)
              | Durable
              | Undo

  /** Core's nonces after a block: none went back, and every slot of the block is behind. */
  predicate Applied(d: Desk, batch: set<Slot>, tips: map<string, int>) {
    && (forall a :: a in d.account ==> Tip(d, a) <= NonceOf(tips, a))
    && (forall a :: a in tips ==> Tip(d, a) <= tips[a])
    && (forall s :: s in batch ==> s.nonce < NonceOf(tips, s.from))
  }

  /** Reserves the nonce looked at, goes on to the next one, or gives up. */
  function LookAt(d: Desk, q: Asking): Desk {
    if q.next > q.limit then d.(asking := None)
    else if Taken(d, Slot(q.a, q.next)) then d.(asking := Some(q.(next := q.next + 1)))
    else d.(reserved := d.reserved + {Slot(q.a, q.next)}, asking := None)
  }

  function Step(d: Desk, op: Op): Desk {
    match op
    case Ask(a) =>
      if d.asking.Some? then d else d.(asking := Some(Asking(a, Tip(d, a), Tip(d, a), Tip(d, a) + RESERVE_AHEAD)))
    case Look => if d.asking.Some? then LookAt(d, d.asking.value) else d
    case Admit(s) =>
      if d.asking.Some? || s in d.flight then d else d.(flight := d.flight + {s}, reserved := d.reserved - {s})
    case Release(s) =>
      if d.asking.None? && s in d.reserved && s !in d.flight then d.(reserved := d.reserved - {s}) else d
    case Drop(s) => d.(flight := d.flight - {s})
    case Confirm(batch, gone, tips) =>
      if d.open.Some? || !(gone <= batch) || !Applied(d, batch, tips) then d
      else d.(flight := d.flight - gone, account := tips, open := Some(Unfinished(batch, d.account)))
    case Durable => d.(open := None)
    case Undo =>
      if d.open.None? then d
      else d.(flight := d.flight + d.open.value.batch, account := d.open.value.saved, open := None)
  }

  function Run(ops: seq<Op>): Desk {
    if ops == [] then EMPTY else Step(Run(ops[..|ops| - 1]), ops[|ops| - 1])
  }

  /** The slot the step hands out. */
  function HandsOut(d: Desk, op: Op): Option<Slot> {
    if op.Look? && d.asking.Some? then
      var q := d.asking.value;
      if q.next <= q.limit && !Taken(d, Slot(q.a, q.next)) then Some(Slot(q.a, q.next)) else None
    else None
  }

  // ----- an allocation nobody disturbs -----

  function Allocated(d: Desk, a: string): Desk {
    var r := Offer(d, a);
    if r.Some? then d.(reserved := d.reserved + {Slot(a, r.value)}) else d
  }

  function LookTimes(d: Desk, k: nat): Desk
    decreases k
  {
    if k == 0 then d else LookTimes(Step(d, Look), k - 1)
  }

  lemma {:induction false} LooksFind(d: Desk, q: Asking, k: nat)
    requires d.asking == Some(q) && q.next <= q.limit + 1 && k > q.limit - q.next + 1
    ensures var r := FirstFree(d, q.a, q.next, q.limit);
            LookTimes(d, k) ==
            d.(asking := None, reserved := if r.Some? then d.reserved + {Slot(q.a, r.value)} else d.reserved)
    decreases k
  {
    var e := Step(d, Look);
    if e.asking.Some? {
      LooksFind(e, q.(next := q.next + 1), k - 1);
      SameFree(d, e, q.a, q.next + 1, q.limit);
    } else {
      NoMoreLooks(e, k - 1);
    }
  }

  lemma {:induction false} SameFree(d: Desk, e: Desk, a: string, n: int, limit: int)
    requires e.reserved == d.reserved && e.flight == d.flight
    ensures FirstFree(e, a, n, limit) == FirstFree(d, a, n, limit)
    decreases limit - n
  {
    if n <= limit {
      SameFree(d, e, a, n + 1, limit);
    }
  }

  lemma {:induction false} NoMoreLooks(d: Desk, k: nat)
    requires d.asking.None?
    ensures LookTimes(d, k) == d
    decreases k
  {
    if k > 0 {
      NoMoreLooks(d, k - 1);
    }
  }

  /** Left alone, an allocation reserves the least free nonce at or above the account nonce. */
  lemma UndisturbedAllocation(d: Desk, a: string)
    requires d.asking.None?
    ensures LookTimes(Step(d, Ask(a)), RESERVE_AHEAD + 2) == Allocated(d, a)
  {
    var e := Step(d, Ask(a));
    LooksFind(e, e.asking.value, RESERVE_AHEAD + 2);
    SameFree(d, e, a, Tip(d, a), Tip(d, a) + RESERVE_AHEAD);
  }

  // ----- what is given back -----

  /** The step gives the slot back: its holder releases it, or its transaction is lost. */
  predicate GivesBack(d: Desk, op: Op, s: Slot) {
    || (op == Release(s) && d.asking.None? && s in d.reserved && s !in d.flight)
    || (op == Drop(s) && s in d.flight)
  }

  /** Slots handed out and not given back since. */
  function Outstanding(ops: seq<Op>): set<Slot> {
    if ops == [] then {}
    else
      var before, d, op := Outstanding(ops[..|ops| - 1]), Run(ops[..|ops| - 1]), ops[|ops| - 1];
      var out := HandsOut(d, op);
      if out.Some? then before + {out.value}
      else if (op.Release? || op.Drop?) && GivesBack(d, op, op.s) then before - {op.s}
      else before
  }

  /** The account nonce that no undo can take back. */
  function SureTip(d: Desk, a: string): int {
    if d.open.Some? then NonceOf(d.open.value.saved, a) else Tip(d, a)
  }

  /**
   An open confirm has only raised account nonces, past every slot of its block; an allocation only
   looks upwards from the account nonce it read.
   */
  ghost predicate Sound(d: Desk) {
    && (d.asking.Some? ==> d.asking.value.seen <= d.asking.value.next)
    && (forall a :: SureTip(d, a) <= Tip(d, a))
    && (d.open.Some? ==> forall s :: s in d.open.value.batch ==> s.nonce < Tip(d, s.from))
  }

  /** Reserved, in flight, behind the account nonce for good, or in the block that is still open. */
  predicate Held(d: Desk, s: Slot) {
    Taken(d, s) || s.nonce < SureTip(d, s.from) || (d.open.Some? && s in d.open.value.batch)
  }

  lemma StepTips(d: Desk, op: Op, a: string)
    requires Sound(d)
    ensures SureTip(d, a) <= SureTip(Step(d, op), a) <= Tip(Step(d, op), a)
  {
    assert SureTip(d, a) <= Tip(d, a);
    if op.Confirm? && d.open.None? && op.gone <= op.batch && Applied(d, op.batch, op.tips) {
      AppliedRaises(d, op.batch, op.tips, a);
      assert Step(d, op).open == Some(Unfinished(op.batch, d.account));
    }
  }

  lemma AppliedRaises(d: Desk, batch: set<Slot>, tips: map<string, int>, a: string)
    requires Applied(d, batch, tips)
    ensures Tip(d, a) <= NonceOf(tips, a)
  {
  }

  lemma StepSound(d: Desk, op: Op)
    requires Sound(d)
    ensures Sound(Step(d, op))
    ensures forall a :: SureTip(d, a) <= SureTip(Step(d, op), a)
  {
    forall a ensures SureTip(d, a) <= SureTip(Step(d, op), a) <= Tip(Step(d, op), a) {
      StepTips(d, op, a);
    }
    var e := Step(d, op);
    if e.open.Some? {
      forall s | s in e.open.value.batch ensures s.nonce < Tip(e, s.from) {
        if op.Confirm? && d.open.None? {
          assert e.account == op.tips && e.open.value.batch == op.batch;
        }
      }
    }
  }

  lemma StepHolds(d: Desk, op: Op, s: Slot)
    requires Sound(d) && Held(d, s) && !GivesBack(d, op, s)
    ensures Held(Step(d, op), s)
  {
    StepSound(d, op);
  }

  lemma {:induction false} EveryDeskIsSound(ops: seq<Op>)
    ensures Sound(Run(ops))
    decreases |ops|
  {
    if ops != [] {
      EveryDeskIsSound(ops[..|ops| - 1]);
      StepSound(Run(ops[..|ops| - 1]), ops[|ops| - 1]);
    }
  }

  /** Over every run, what was handed out and not given back is still held. */
  lemma {:induction false} OutstandingIsHeld(ops: seq<Op>, s: Slot)
    requires s in Outstanding(ops)
    ensures Held(Run(ops), s)
    decreases |ops|
  {
    var n := |ops| - 1;
    var d := Run(ops[..n]);
    if s in Outstanding(ops[..n]) && !GivesBack(d, ops[n], s) {
      OutstandingIsHeld(ops[..n], s);
      EveryDeskIsSound(ops[..n]);
      StepHolds(d, ops[n], s);
    }
  }

  /** The account nonce has risen past the one the allocation read. */
  predicate Stale(d: Desk) {
    d.asking.Some? && d.asking.value.seen < Tip(d, d.asking.value.a)
  }

  /** Free: not outstanding, in flight or in an open block, and not passed by the account nonce. */
  ghost predicate Free(ops: seq<Op>, s: Slot) {
    s !in Outstanding(ops) && !Held(Run(ops), s) && Tip(Run(ops), s.from) <= s.nonce
  }

  /**
   A nonce handed out is free exactly when the account nonce has not risen past it since it was read;
   so it is free whenever no confirm raised the account nonce meanwhile.
   */
  lemma NeverHandedOutTwice(ops: seq<Op>)
    ensures var d := Run(ops);
            var out := HandsOut(d, Look);
            out.Some? ==> && (Free(ops, out.value) <==> Tip(d, out.value.from) <= out.value.nonce)
                          && (!Stale(d) ==> Free(ops, out.value))
  {
    var out := HandsOut(Run(ops), Look);
    EveryDeskIsSound(ops);
    if out.Some? && out.value in Outstanding(ops) {
      OutstandingIsHeld(ops, out.value);
    }
  }

  /** A confirm that ends between the reading of the account nonce and the look hands a confirmed nonce out again. */
  lemma StaleNonceHandedOutTwice(a: string)
    ensures var s := Slot(a, 0);
            var ops := [Ask(a), Look, Admit(s), Ask(a), Confirm({s}, {s}, map[a := 1])];
            s in Outstanding(ops) && HandsOut(Run(ops), Look) == Some(s)
  {
    var s := Slot(a, 0);
    var q := Asking(a, 0, 0, RESERVE_AHEAD);
    RunOne([], Ask(a), Desk({}, {}, map[], None, Some(q)));
    RunOne([Ask(a)], Look, Desk({s}, {}, map[], None, None));
    assert [Ask(a)] + [Look] == [Ask(a), Look];
    RunOne([Ask(a), Look], Admit(s), Desk({}, {s}, map[], None, None));
    assert [Ask(a), Look] + [Admit(s)] == [Ask(a), Look, Admit(s)];
    RunOne([Ask(a), Look, Admit(s)], Ask(a), Desk({}, {s}, map[], None, Some(q)));
    var last, before := Confirm({s}, {s}, map[a := 1]), [Ask(a), Look, Admit(s), Ask(a)];
    assert [Ask(a), Look, Admit(s)] + [Ask(a)] == before;
    RunOne(before, last, Desk({}, {}, map[a := 1], Some(Unfinished({s}, map[])), Some(q)));
    assert before + [last] == [Ask(a), Look, Admit(s), Ask(a), last];
  }

  lemma RunOne(ops: seq<Op>, op: Op, d: Desk)
    requires Step(Run(ops), op) == d
    ensures Run(ops + [op]) == d
    ensures var out := HandsOut(Run(ops), op);
            Outstanding(ops + [op]) ==
            if out.Some? then Outstanding(ops) + {out.value}
            else if (op.Release? || op.Drop?) && GivesBack(Run(ops), op, op.s) then Outstanding(ops) - {op.s}
            else Outstanding(ops)
  {
    assert (ops + [op])[..|ops|] == ops;
  }

  /** The slots of a block that became durable stay behind the account nonce. */
  lemma {:induction false} DurableStaysBehind(ops: seq<Op>, k: nat, s: Slot)
    requires k < |ops| && ops[k] == Durable
    requires Run(ops[..k]).open.Some? && s in Run(ops[..k]).open.value.batch
    ensures s.nonce < SureTip(Run(ops), s.from)
    decreases |ops|
  {
    var n := |ops| - 1;
    EveryDeskIsSound(ops[..n]);
    StepSound(Run(ops[..n]), ops[n]);
    if k < n {
      assert ops[..n][..k] == ops[..k];
      DurableStaysBehind(ops[..n], k, s);
    }
  }

  /** A nonce confirmed in a block that became durable is handed out again only over a stale account nonce. */
  lemma ConfirmedIsFinal(ops: seq<Op>, k: nat, s: Slot)
    requires k < |ops| && ops[k] == Durable
    requires Run(ops[..k]).open.Some? && s in Run(ops[..k]).open.value.batch
    ensures HandsOut(Run(ops), Look) == Some(s) ==> Stale(Run(ops))
  {
    DurableStaysBehind(ops, k, s);
    EveryDeskIsSound(ops);
  }

  /** A nonce whose block is undone is in flight again, and so not handed out, until its transaction is lost. */
  lemma UndoneIsInFlight(d: Desk, s: Slot)
    requires d.open.Some? && s in d.open.value.batch
    ensures s in Step(d, Undo).flight && HandsOut(Step(d, Undo), Look) != Some(s)
  {
  }

  // ----- the handler's reservation table -----

  /** The methods run with the admission lock held, so no other allocation is under way. */
  class ReservationTable {
    var desk: Desk

    constructor ()
      ensures desk == EMPTY
    {
      desk := EMPTY;
    }

    method AllocateNonce(a: string) returns (r: Option<int>)
      requires desk.asking.None?
      modifies this
      ensures desk == Allocated(old(desk), a) && r == Offer(old(desk), a)
    {
      r := FindFree(desk, a);
      if r.Some? {
        desk := desk.(reserved := desk.reserved + {Slot(a, r.value)});
      }
    }

    method AdmitToMempool(s: Slot) returns (admitted: bool)
      requires desk.asking.None?
      modifies this
      ensures desk == Step(old(desk), Admit(s)) && admitted == (s !in old(desk).flight)
    {
      admitted := s !in desk.flight;
      if admitted {
        desk := desk.(flight := desk.flight + {s});
        desk := desk.(reserved := desk.reserved - {s});
      }
    }

    method ReleaseNonce(s: Slot) returns (released: bool)
      requires desk.asking.None?
      modifies this
      ensures desk == Step(old(desk), Release(s)) && released == GivesBack(old(desk), Release(s), s)
    {
      if s !in desk.reserved || s in desk.flight {
        return false;
      }
      desk := desk.(reserved := desk.reserved - {s});
      released := true;
    }
  }
}
