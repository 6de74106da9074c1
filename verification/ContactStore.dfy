/** First-contact requests: creation, response, expiry (internal/contacteconomy/store.go). */
module ContactStore {
  import opened Sequences
  import opened Text

  datatype Status = Pending | Established | Rejected | Expired

  datatype Request = Request(id: string, sender: string, receiver: string, payload: string, lock: string,
                             amount: nat, timestamp: int, expires: int, status: Status, outcome: string,
                             settleTx: string)

  /** `fold` is the case folding under which addresses are compared. */
  datatype Config = Config(enabled: bool, base: int, timeout: int, fold: string -> string)

  datatype Store = Store(requests: map<string, Request>, contacts: map<string, string>,
                         xp: map<string, nat>, blocked: set<string>)

  const EMPTY := Store(map[], map[], map[], {})

  datatype Reply = Ok
                 | Disabled | IdsRequired | LockRequired | PlaceholderLock | LockTooShort | PayloadTooLarge
                 | AmountRequired | ReceiverBlocked | AlreadyContact | LimitExceeded
                 | DuplicateId | LockUsed | PairPending
                 | SignatureRejected | NotFound | NotPending | NotReceiver | RequestExpired | InvalidOutcome

  // ----- keys, counts and limits -----

  function PairKey(c: Config, a: string, b: string): string {
    Joined(Lower(c, a, b), Upper(c, a, b))
  }

  /** The smaller and the greater of two addresses, folded. */
  function Lower(c: Config, a: string, b: string): string {
    if Less(c.fold(b), c.fold(a)) then c.fold(b) else c.fold(a)
  }

  function Upper(c: Config, a: string, b: string): string {
    if Less(c.fold(b), c.fold(a)) then c.fold(a) else c.fold(b)
  }

  function Joined(x: string, y: string): string {
    x + "|" + y
  }

  function HasContact(c: Config, s: Store, a: string, b: string): bool {
    PairKey(c, a, b) in s.contacts
  }

  function PendingOf(c: Config, requests: map<string, Request>, who: string): set<string> {
    set id | id in requests && PendingBy(c, requests[id], who)
  }

  predicate PendingBy(c: Config, q: Request, who: string) {
    q.status.Pending? && c.fold(q.sender) == who
  }

  function XP(s: Store, who: string): nat {
    if who in s.xp then s.xp[who] else 0
  }

  /** One more pending request for every hundred points, never more than fifty. */
  function Limit(c: Config, xp: nat): int {
    if c.base + xp / 100 > 50 then 50 else c.base + xp / 100
  }

  predicate LockKnown(requests: map<string, Request>, lock: string) {
    exists id :: id in requests && requests[id].lock == lock
  }

  predicate PairHasPending(c: Config, requests: map<string, Request>, a: string, b: string) {
    exists id :: id in requests && requests[id].status.Pending?
                 && c.fold(requests[id].sender) == c.fold(a) && c.fold(requests[id].receiver) == c.fold(b)
  }

  // ----- creation -----

  /** The checks of the request alone, in the source's order. */
  function FormReply(c: Config, q: Request): Reply {
    if !c.enabled then Disabled
    else if q.id == "" || q.sender == "" || q.receiver == "" then IdsRequired
    else if q.lock == "" || q.payload == "" then LockRequired
    else if "escrow_lock:" <= c.fold(q.lock) || "escrow-intent:" <= c.fold(q.lock) then PlaceholderLock
    else if |q.lock| < 32 then LockTooShort
    else if |q.payload| > 64 * 1024 then PayloadTooLarge
    else if q.amount == 0 then AmountRequired
    else Ok
  }

  /** The checks against the store, in the source's order. */
  function StoreReply(c: Config, s: Store, q: Request): Reply {
    if c.fold(q.receiver) in s.blocked then ReceiverBlocked
    else if HasContact(c, s, q.sender, q.receiver) then AlreadyContact
    else if |PendingOf(c, s.requests, c.fold(q.sender))| >= Limit(c, XP(s, c.fold(q.sender))) then LimitExceeded
    else if q.id in s.requests then DuplicateId
    else if LockKnown(s.requests, q.lock) then LockUsed
    else if PairHasPending(c, s.requests, q.sender, q.receiver) then PairPending
    else Ok
  }

  function CreateReply(c: Config, s: Store, q: Request): Reply {
    if FormReply(c, q) != Ok then FormReply(c, q) else StoreReply(c, s, q)
  }

  function Stamped(c: Config, q: Request, now: int): Request {
    var t := if q.timestamp == 0 then now else q.timestamp;
    q.(timestamp := t, expires := t + c.timeout, status := Pending)
  }

  function Put(s: Store, q: Request): Store {
    s.(requests := s.requests[q.id := q])
  }

  function Created(c: Config, s: Store, q: Request, now: int): Store {
    if CreateReply(c, s, q).Ok? then Put(s, Stamped(c, q, now)) else s
  }

  // ----- response -----

  /** `proof` says whether the signature rules accept the actor. */
  function RespondReply(c: Config, s: Store, id: string, actor: string, outcome: string, proof: bool, now: int): Reply {
    if !proof then SignatureRejected
    else if id !in s.requests then NotFound
    else if !s.requests[id].status.Pending? then NotPending
    else if c.fold(s.requests[id].receiver) != c.fold(actor) then NotReceiver
    else if now > s.requests[id].expires then RequestExpired
    else if outcome != "accepted" && outcome != "rejected" then InvalidOutcome
    else Ok
  }

  function TimedOut(q: Request): Request {
    q.(status := Expired, outcome := "timeout")
  }

  function Responded(c: Config, s: Store, id: string, actor: string, outcome: string, proof: bool, now: int): Store {
    var reply := RespondReply(c, s, id, actor, outcome, proof, now);
    if reply.RequestExpired? then s.(requests := s.requests[id := TimedOut(s.requests[id])])
    else if !reply.Ok? then s
    else
      var q := s.requests[id];
      if outcome == "accepted" then
        s.(requests := s.requests[id := q.(status := Established, outcome := "accepted")],
           contacts := s.contacts[PairKey(c, q.sender, q.receiver) := q.id])
      else s.(requests := s.requests[id := q.(status := Rejected, outcome := "rejected")])
  }

  // ----- expiry, settlement, points -----

  predicate Due(q: Request, now: int) {
    q.status.Pending? && now > q.expires
  }

  function ExpireAll(requests: map<string, Request>, now: int): map<string, Request> {
    map id | id in requests :: if Due(requests[id], now) then TimedOut(requests[id]) else requests[id]
  }

  const WORD64 := 0x1_0000_0000_0000_0000

  function XPAdded(s: Store, who: string, delta: nat): Store {
    if who == "" || delta == 0 then s else s.(xp := s.xp[who := (XP(s, who) + delta) % WORD64])
  }

  datatype Op = Create(q: Request, now: int)
              | Respond(id: string, actor: string, outcome: string, proof: bool, at: int)
              | Expire(upTo: int)
              | Settle(id: string, tx: string)
              | AddXP(who: string, delta: nat)
              | Block(who: string, on: bool)

  function Settled(s: Store, id: string, tx: string): Store {
    if id in s.requests then s.(requests := s.requests[id := s.requests[id].(settleTx := tx)]) else s
  }

  function Step(c: Config, s: Store, op: Op): Store {
    match op
    case Create(q, now) => Created(c, s, q, now)
    case Respond(id, actor, outcome, proof, at) => Responded(c, s, id, actor, outcome, proof, at)
    case Expire(upTo) => s.(requests := ExpireAll(s.requests, upTo))
    case Settle(id, tx) => Settled(s, id, tx)
    case AddXP(who, delta) => XPAdded(s, c.fold(who), delta)
    case Block(who, on) =>
      if who == "" then s
      else s.(blocked := if on then s.blocked + {c.fold(who)} else s.blocked - {c.fold(who)})
  }

  function Run(c: Config, ops: seq<Op>): Store {
    if ops == [] then EMPTY else Step(c, Run(c, ops[..|ops| - 1]), ops[|ops| - 1])
  }

  // ----- what changes of one request -----

  /** A request keeps who, what and until when; once out of pending it keeps its status and outcome too. */
  ghost predicate Later(q: Request, r: Request) {
    && r.id == q.id && r.sender == q.sender && r.receiver == q.receiver
    && r.lock == q.lock && r.expires == q.expires && r.amount == q.amount
    && (!q.status.Pending? ==> r.status == q.status && r.outcome == q.outcome)
  }

  lemma CreateLater(c: Config, s: Store, q: Request, now: int, id: string)
    requires id in s.requests
    ensures id in Created(c, s, q, now).requests && Created(c, s, q, now).requests[id] == s.requests[id]
  {
  }

  lemma RespondLater(c: Config, s: Store, x: string, actor: string, outcome: string, proof: bool, now: int, id: string)
    requires id in s.requests
    ensures var m := Responded(c, s, x, actor, outcome, proof, now).requests;
            id in m && Later(s.requests[id], m[id])
  {
  }

  lemma StepLater(c: Config, s: Store, op: Op, id: string)
    requires id in s.requests
    ensures id in Step(c, s, op).requests && Later(s.requests[id], Step(c, s, op).requests[id])
  {
    match op
    case Create(q, now) => CreateLater(c, s, q, now, id);
    case Respond(x, actor, outcome, proof, at) => RespondLater(c, s, x, actor, outcome, proof, at, id);
    case Expire(_) =>
    case Settle(_, _) =>
    case AddXP(_, _) =>
    case Block(_, _) =>
  }

  // ----- invariants -----

  /** Each request is filed under its own id. */
  ghost predicate Filed(requests: map<string, Request>) {
    forall id :: id in requests ==> requests[id].id == id
  }

  /** A lock hash backs one request ever. */
  ghost predicate LocksDiffer(requests: map<string, Request>) {
    forall x, y :: x in requests && y in requests && x != y ==> requests[x].lock != requests[y].lock
  }

  predicate SamePair(c: Config, q: Request, r: Request) {
    c.fold(q.sender) == c.fold(r.sender) && c.fold(q.receiver) == c.fold(r.receiver)
  }

  /** An ordered pair has at most one pending request. */
  ghost predicate OnePendingPerPair(c: Config, requests: map<string, Request>) {
    forall x, y :: x in requests && y in requests && x != y && BothPending(requests[x], requests[y]) ==>
      !SamePair(c, requests[x], requests[y])
  }

  predicate BothPending(q: Request, r: Request) {
    q.status.Pending? && r.status.Pending?
  }

  ghost predicate AcceptedUnder(c: Config, requests: map<string, Request>, id: string, key: string) {
    id in requests && requests[id].status.Established? && PairKey(c, requests[id].sender, requests[id].receiver) == key
  }

  ghost predicate HasAccepted(c: Config, requests: map<string, Request>, key: string) {
    exists id :: AcceptedUnder(c, requests, id, key)
  }

  /** The contacts are the keys of the accepted requests. */
  ghost predicate ContactsAreAccepted(c: Config, s: Store) {
    forall key :: key in s.contacts <==> HasAccepted(c, s.requests, key)
  }

  ghost predicate Inv(c: Config, s: Store) {
    Filed(s.requests) && LocksDiffer(s.requests) && OnePendingPerPair(c, s.requests) && ContactsAreAccepted(c, s)
  }

  /** Requests in which nothing is pending that was not, and all else that the invariants read is the same. */
  ghost predicate Fewer(a: map<string, Request>, b: map<string, Request>) {
    && a.Keys == b.Keys
    && forall id :: id in a ==> Later(a[id], b[id]) && (b[id].status.Pending? ==> a[id].status.Pending?)
  }

  lemma FewerKeeps(c: Config, a: map<string, Request>, b: map<string, Request>)
    requires Filed(a) && LocksDiffer(a) && OnePendingPerPair(c, a) && Fewer(a, b)
    ensures Filed(b) && LocksDiffer(b) && OnePendingPerPair(c, b)
  {
  }

  lemma FewerPending(c: Config, a: map<string, Request>, b: map<string, Request>, who: string)
    requires Fewer(a, b)
    ensures PendingOf(c, b, who) <= PendingOf(c, a, who)
    ensures |PendingOf(c, b, who)| <= |PendingOf(c, a, who)|
  {
    SubsetSize(PendingOf(c, b, who), PendingOf(c, a, who));
  }

  // ----- each step keeps the invariants -----

  /** Requests that were accepted are the same ones. */
  ghost predicate SameAccepted(a: map<string, Request>, b: map<string, Request>) {
    forall id :: id in a && id in b ==> (a[id].status.Established? <==> b[id].status.Established?)
  }

  lemma ContactsKept(c: Config, s: Store, b: map<string, Request>)
    requires ContactsAreAccepted(c, s) && Fewer(s.requests, b) && SameAccepted(s.requests, b)
    ensures ContactsAreAccepted(c, s.(requests := b))
  {
    forall key ensures HasAccepted(c, b, key) <==> HasAccepted(c, s.requests, key) {
      if id :| AcceptedUnder(c, b, id, key) {
        assert AcceptedUnder(c, s.requests, id, key);
      }
      if id :| AcceptedUnder(c, s.requests, id, key) {
        assert AcceptedUnder(c, b, id, key);
      }
    }
  }

  lemma FewerInv(c: Config, s: Store, b: map<string, Request>)
    requires Inv(c, s) && Fewer(s.requests, b) && SameAccepted(s.requests, b)
    ensures Inv(c, s.(requests := b))
  {
    FewerKeeps(c, s.requests, b);
    ContactsKept(c, s, b);
  }

  lemma PutContacts(c: Config, s: Store, q: Request)
    requires ContactsAreAccepted(c, s) && q.status.Pending? && q.id !in s.requests
    ensures ContactsAreAccepted(c, Put(s, q))
  {
    var b := Put(s, q).requests;
    forall key ensures HasAccepted(c, b, key) <==> HasAccepted(c, s.requests, key) {
      if id :| AcceptedUnder(c, b, id, key) {
        assert AcceptedUnder(c, s.requests, id, key);
      }
      if id :| AcceptedUnder(c, s.requests, id, key) {
        assert AcceptedUnder(c, b, id, key);
      }
    }
  }

  lemma PutLocks(m: map<string, Request>, q: Request)
    requires LocksDiffer(m) && q.id !in m && !LockKnown(m, q.lock)
    ensures LocksDiffer(m[q.id := q])
  {
  }

  lemma PutPairs(c: Config, m: map<string, Request>, q: Request)
    requires OnePendingPerPair(c, m) && q.id !in m && !PairHasPending(c, m, q.sender, q.receiver)
    ensures OnePendingPerPair(c, m[q.id := q])
  {
    forall x | x in m && m[x].status.Pending? ensures !SamePair(c, m[x], q) && !SamePair(c, q, m[x]) {
    }
  }

  lemma PutKeeps(c: Config, s: Store, q: Request)
    requires Inv(c, s) && q.status.Pending? && q.id !in s.requests
    requires !LockKnown(s.requests, q.lock) && !PairHasPending(c, s.requests, q.sender, q.receiver)
    ensures Inv(c, Put(s, q))
  {
    PutContacts(c, s, q);
    PutLocks(s.requests, q);
    PutPairs(c, s.requests, q);
  }

  lemma CreateKeeps(c: Config, s: Store, q: Request, now: int)
    requires Inv(c, s)
    ensures Inv(c, Created(c, s, q, now))
  {
    if CreateReply(c, s, q).Ok? {
      PutKeeps(c, s, Stamped(c, q, now));
    }
  }

  lemma AcceptContacts(c: Config, s: Store, id: string, b: map<string, Request>, key: string)
    requires ContactsAreAccepted(c, s) && id in s.requests
    requires b == s.requests[id := s.requests[id].(status := Established, outcome := "accepted")]
    ensures HasAccepted(c, b, key) <==>
            key == PairKey(c, s.requests[id].sender, s.requests[id].receiver) || key in s.contacts
  {
    if x :| AcceptedUnder(c, b, x, key) {
      assert x == id || AcceptedUnder(c, s.requests, x, key);
    }
    if key == PairKey(c, s.requests[id].sender, s.requests[id].receiver) {
      assert AcceptedUnder(c, b, id, key);
    } else if key in s.contacts {
      var x :| AcceptedUnder(c, s.requests, x, key);
      assert AcceptedUnder(c, b, x, key);
    }
  }

  lemma AcceptKeeps(c: Config, s: Store, id: string, d: Store)
    requires Inv(c, s) && id in s.requests && s.requests[id].status.Pending?
    requires d.requests == s.requests[id := s.requests[id].(status := Established, outcome := "accepted")]
    requires d.contacts.Keys == s.contacts.Keys + {PairKey(c, s.requests[id].sender, s.requests[id].receiver)}
    ensures Inv(c, d)
  {
    FewerKeeps(c, s.requests, d.requests);
    forall key ensures key in d.contacts <==> HasAccepted(c, d.requests, key) {
      AcceptContacts(c, s, id, d.requests, key);
    }
  }

  lemma RespondKeeps(c: Config, s: Store, id: string, actor: string, outcome: string, proof: bool, now: int)
    requires Inv(c, s)
    ensures Inv(c, Responded(c, s, id, actor, outcome, proof, now))
  {
    var reply := RespondReply(c, s, id, actor, outcome, proof, now);
    if reply.RequestExpired? {
      FewerInv(c, s, s.requests[id := TimedOut(s.requests[id])]);
    } else if reply.Ok? {
      if outcome == "accepted" {
        AcceptKeeps(c, s, id, Responded(c, s, id, actor, outcome, proof, now));
      } else {
        FewerInv(c, s, s.requests[id := s.requests[id].(status := Rejected, outcome := "rejected")]);
      }
    }
  }

  lemma ExpireKeeps(c: Config, s: Store, now: int)
    requires Inv(c, s)
    ensures Inv(c, s.(requests := ExpireAll(s.requests, now)))
  {
    FewerInv(c, s, ExpireAll(s.requests, now));
  }

  lemma SettledFewer(m: map<string, Request>, id: string, tx: string)
    requires id in m
    ensures var b := m[id := m[id].(settleTx := tx)]; Fewer(m, b) && SameAccepted(m, b)
  {
  }

  lemma SettleKeeps(c: Config, s: Store, id: string, tx: string)
    requires Inv(c, s)
    ensures Inv(c, Settled(s, id, tx))
  {
    if id in s.requests {
      SettledFewer(s.requests, id, tx);
      FewerInv(c, s, s.requests[id := s.requests[id].(settleTx := tx)]);
    }
  }

  lemma StepKeeps(c: Config, s: Store, op: Op)
    requires Inv(c, s)
    ensures Inv(c, Step(c, s, op))
  {
    match op
    case Create(q, now) => CreateKeeps(c, s, q, now);
    case Respond(id, actor, outcome, proof, at) => RespondKeeps(c, s, id, actor, outcome, proof, at);
    case Expire(upTo) => ExpireKeeps(c, s, upTo);
    case Settle(id, tx) => SettleKeeps(c, s, id, tx);
    case AddXP(who, delta) =>
    case Block(who, on) =>
  }

  /** In every run: one request per lock, one pending per ordered pair, contacts exactly the accepted keys. */
  lemma {:induction false} EveryRun(c: Config, ops: seq<Op>)
    ensures Inv(c, Run(c, ops))
    decreases |ops|
  {
    if ops != [] {
      EveryRun(c, ops[..|ops| - 1]);
      StepKeeps(c, Run(c, ops[..|ops| - 1]), ops[|ops| - 1]);
    }
  }

  lemma LaterTransitive(q: Request, r: Request, t: Request)
    requires Later(q, r) && Later(r, t)
    ensures Later(q, t)
  {
  }

  /** A request leaves pending at most once: from any point of a run on, a decided one stays as it is. */
  lemma {:induction false} DecidedStays(c: Config, ops: seq<Op>, k: nat, id: string)
    requires k <= |ops| && id in Run(c, ops[..k]).requests
    ensures id in Run(c, ops).requests && Later(Run(c, ops[..k]).requests[id], Run(c, ops).requests[id])
    decreases |ops|
  {
    if k == |ops| {
      assert ops[..k] == ops;
    } else {
      var n := |ops| - 1;
      assert ops[..n][..k] == ops[..k];
      DecidedStays(c, ops[..n], k, id);
      EveryRun(c, ops[..n]);
      StepLater(c, Run(c, ops[..n]), ops[n], id);
      LaterTransitive(Run(c, ops[..k]).requests[id], Run(c, ops[..n]).requests[id], Run(c, ops).requests[id]);
    }
  }

  /** The outcome recorded fits the status. */
  predicate OutcomeFits(q: Request) {
    match q.status
    case Pending => true
    case Established => q.outcome == "accepted"
    case Rejected => q.outcome == "rejected"
    case Expired => q.outcome == "timeout"
  }

  ghost predicate OutcomesFit(requests: map<string, Request>) {
    forall id :: id in requests ==> OutcomeFits(requests[id])
  }

  lemma OutcomesKept(c: Config, s: Store, op: Op)
    requires OutcomesFit(s.requests)
    ensures OutcomesFit(Step(c, s, op).requests)
  {
  }

  /** In every run a decided request records the outcome of its decision. */
  lemma {:induction false} OutcomesInEveryRun(c: Config, ops: seq<Op>)
    ensures OutcomesFit(Run(c, ops).requests)
    decreases |ops|
  {
    if ops != [] {
      OutcomesInEveryRun(c, ops[..|ops| - 1]);
      OutcomesKept(c, Run(c, ops[..|ops| - 1]), ops[|ops| - 1]);
    }
  }

  /** A pending request is decided only by its receiver, in time and with proof, or by its time running out. */
  lemma DecidedBy(c: Config, s: Store, op: Op, id: string)
    requires Filed(s.requests) && id in s.requests && s.requests[id].status.Pending?
    ensures var q := Step(c, s, op).requests[id];
            && (q.status.Established? || q.status.Rejected? ==>
                  && op.Respond? && op.id == id && op.proof
                  && c.fold(op.actor) == c.fold(q.receiver) && op.at <= q.expires)
            && (q.status.Expired? ==> (op.Respond? && op.at > q.expires) || (op.Expire? && op.upTo > q.expires))
  {
    StepLater(c, s, op, id);
  }

  // ----- limits -----

  ghost predicate Within(c: Config, s: Store, who: string) {
    PendingOf(c, s.requests, who) == {} || |PendingOf(c, s.requests, who)| <= Limit(c, XP(s, who))
  }

  /** A new pending request counts for its sender alone. */
  lemma PutPending(c: Config, m: map<string, Request>, q: Request, who: string)
    requires q.id !in m && q.status.Pending?
    ensures |PendingOf(c, m[q.id := q], who)| == |PendingOf(c, m, who)| + if who == c.fold(q.sender) then 1 else 0
  {
    var before, after := PendingOf(c, m, who), PendingOf(c, m[q.id := q], who);
    PutPendingOthers(c, m, q, who, before, after);
    if PendingBy(c, q, who) {
      assert after == before + {q.id};
    } else {
      assert after == before;
    }
  }

  lemma PutPendingOthers(c: Config, m: map<string, Request>, q: Request, who: string,
                         before: set<string>, after: set<string>)
    requires q.id !in m && before == PendingOf(c, m, who) && after == PendingOf(c, m[q.id := q], who)
    ensures forall id :: id in after <==> id in before || (id == q.id && PendingBy(c, q, who))
    ensures q.id !in before
  {
  }

  lemma CreateWithin(c: Config, s: Store, q: Request, now: int, who: string)
    requires Within(c, s, who)
    ensures Within(c, Created(c, s, q, now), who)
  {
    if CreateReply(c, s, q).Ok? {
      PutPending(c, s.requests, Stamped(c, q, now), who);
    }
  }

  lemma FewerWithin(c: Config, s: Store, d: Store, who: string)
    requires Within(c, s, who) && Fewer(s.requests, d.requests) && d.xp == s.xp
    ensures Within(c, d, who)
  {
    FewerPending(c, s.requests, d.requests, who);
  }

  lemma LimitGrows(c: Config, x: nat, y: nat)
    requires x <= y
    ensures Limit(c, x) <= Limit(c, y)
  {
  }

  /**
   Adding points does no harm: the counter does not wrap, nothing is pending, or the wrapped limit
   still covers it.
   */
  ghost predicate Harmless(c: Config, s: Store, add: string, delta: nat) {
    || add == "" || delta == 0
    || XP(s, add) + delta < WORD64
    || PendingOf(c, s.requests, add) == {}
    || |PendingOf(c, s.requests, add)| <= Limit(c, (XP(s, add) + delta) % WORD64)
  }

  /** A sender within its limit stays there when points are added exactly when that does no harm. */
  lemma XPStepExactly(c: Config, s: Store, add: string, delta: nat, who: string)
    requires Within(c, s, who)
    ensures Within(c, XPAdded(s, add, delta), who) <==> (add == who ==> Harmless(c, s, add, delta))
  {
    if add == who && XP(s, add) + delta < WORD64 {
      LimitGrows(c, XP(s, who), XP(s, who) + delta);
    }
  }

  lemma ReplaceFewer(m: map<string, Request>, id: string, q: Request)
    requires id in m && Later(m[id], q) && (q.status.Pending? ==> m[id].status.Pending?)
    ensures Fewer(m, m[id := q])
  {
  }

  lemma RespondWithin(c: Config, s: Store, id: string, actor: string, outcome: string, proof: bool, now: int,
                      who: string)
    requires Within(c, s, who)
    ensures Within(c, Responded(c, s, id, actor, outcome, proof, now), who)
  {
    var reply := RespondReply(c, s, id, actor, outcome, proof, now);
    if reply.Ok? || reply.RequestExpired? {
      var d := Responded(c, s, id, actor, outcome, proof, now);
      ReplaceFewer(s.requests, id, d.requests[id]);
      FewerWithin(c, s, d, who);
    }
  }

  lemma ExpireWithin(c: Config, s: Store, now: int, who: string)
    requires Within(c, s, who)
    ensures Within(c, s.(requests := ExpireAll(s.requests, now)), who)
  {
    FewerWithin(c, s, s.(requests := ExpireAll(s.requests, now)), who);
  }

  lemma SettleWithin(c: Config, s: Store, id: string, tx: string, who: string)
    requires Within(c, s, who)
    ensures Within(c, Settled(s, id, tx), who)
  {
    FewerWithin(c, s, Settled(s, id, tx), who);
  }

  /** The step does not add harmful points for this sender. */
  ghost predicate HarmlessStep(c: Config, s: Store, op: Op, who: string) {
    op.AddXP? && c.fold(op.who) == who ==> Harmless(c, s, who, op.delta)
  }

  /** Every step keeps a sender within its limit, an addition of points exactly when it does no harm. */
  lemma StepWithin(c: Config, s: Store, op: Op, who: string)
    requires Within(c, s, who)
    ensures Within(c, Step(c, s, op), who) <==> HarmlessStep(c, s, op, who)
  {
    match op
    case Create(q, now) => CreateWithin(c, s, q, now, who);
    case Respond(id, actor, outcome, proof, at) => RespondWithin(c, s, id, actor, outcome, proof, at, who);
    case Expire(upTo) => ExpireWithin(c, s, upTo, who);
    case Settle(id, tx) => SettleWithin(c, s, id, tx, who);
    case AddXP(add, delta) => XPStepExactly(c, s, c.fold(add), delta, who);
    case Block(x, on) =>
  }

  /** No addition of points in the run does harm. */
  ghost predicate HarmlessRun(c: Config, ops: seq<Op>, who: string) {
    ops == [] ||
    var n := |ops| - 1;
    HarmlessRun(c, ops[..n], who) && HarmlessStep(c, Run(c, ops[..n]), ops[n], who)
  }

  /** At every point of the run the sender is within its limit. */
  ghost predicate AlwaysWithin(c: Config, ops: seq<Op>, who: string) {
    Within(c, Run(c, ops), who) && (ops == [] || AlwaysWithin(c, ops[..|ops| - 1], who))
  }

  /** Throughout a run a sender never exceeds its limit, exactly when no addition of points did harm. */
  lemma {:induction false} LimitsInEveryRun(c: Config, ops: seq<Op>, who: string)
    ensures AlwaysWithin(c, ops, who) <==> HarmlessRun(c, ops, who)
    decreases |ops|
  {
    if ops == [] {
      assert PendingOf(c, map[], who) == {};
    } else {
      var n := |ops| - 1;
      LimitsInEveryRun(c, ops[..n], who);
      if AlwaysWithin(c, ops[..n], who) {
        StepWithin(c, Run(c, ops[..n]), ops[n], who);
      }
    }
  }

  lemma RunOne(c: Config, ops: seq<Op>, op: Op, more: seq<Op>)
    requires more == ops + [op]
    ensures Run(c, more) == Step(c, Run(c, ops), op)
  {
    assert more[..|ops|] == ops;
  }

  /** A request in form, created in a store without requests, blocks or contacts, by a sender with room for one. */
  lemma CreatedFirst(c: Config, s: Store, q: Request, now: int)
    requires FormReply(c, q).Ok? && s.requests == map[] && s.contacts == map[] && s.blocked == {}
    requires Limit(c, XP(s, c.fold(q.sender))) > 0
    ensures CreateReply(c, s, q).Ok?
    ensures Created(c, s, q, now) == s.(requests := map[q.id := Stamped(c, q, now)])
  {
    assert PendingOf(c, s.requests, c.fold(q.sender)) == {};
    assert map[][q.id := Stamped(c, q, now)] == map[q.id := Stamped(c, q, now)];
  }

  /** From an empty store: the counter wraps from 100 points to none, and with it goes the one request they allowed. */
  lemma WrapExceedsLimit(c: Config, q: Request, now: int)
    requires c.base == 0 && FormReply(c, q).Ok? && c.fold(q.sender) != ""
    ensures var who := c.fold(q.sender);
            var earned := [AddXP(q.sender, 100), Create(q, now)];
            && Within(c, Run(c, earned), who)
            && !Within(c, Run(c, earned + [AddXP(q.sender, WORD64 - 100)]), who)
  {
    var who := c.fold(q.sender);
    var earned := [AddXP(q.sender, 100), Create(q, now)];
    RunOne(c, [], AddXP(q.sender, 100), [AddXP(q.sender, 100)]);
    RunOne(c, [AddXP(q.sender, 100)], Create(q, now), earned);
    var s1 := EMPTY.(xp := map[who := 100]);
    assert EMPTY.xp[who := 100] == map[who := 100];
    assert Run(c, [AddXP(q.sender, 100)]) == s1;
    CreatedFirst(c, s1, q, now);
    var s2 := Run(c, earned);
    assert PendingOf(c, s2.requests, who) == {q.id};
    RunOne(c, earned, AddXP(q.sender, WORD64 - 100), earned + [AddXP(q.sender, WORD64 - 100)]);
    XPStepExactly(c, s2, who, WORD64 - 100, who);
  }

  // ----- contacts and pairs -----

  /** The first key's bar falls inside the second pair's lower address: x|w|v read as x and w|v, or as x|w and v. */
  predicate Shifted(x: string, y: string, u: string, v: string) {
    |x| < |u| && |v| < |y| && u == Joined(x, u[|x| + 1..]) && y == Joined(u[|x| + 1..], v)
  }

  lemma ShiftedSame(x: string, y: string, u: string, v: string)
    requires Shifted(x, y, u, v)
    ensures Joined(x, y) == Joined(u, v)
  {
    var w := u[|x| + 1..];
    assert x + "|" + (w + "|" + v) == (x + "|" + w) + "|" + v;
  }

  lemma SameShifted(x: string, y: string, u: string, v: string)
    requires Joined(x, y) == Joined(u, v) && |x| < |u|
    ensures Shifted(x, y, u, v)
  {
    var k := Joined(x, y);
    assert |x| + |y| == |u| + |v|;
    assert x == k[..|x|] && u == k[..|u|] && y == k[|x| + 1..] && v == k[|u| + 1..];
    assert k[|x|] == '|' && k[|u|] == '|';
    assert u == u[..|x|] + [u[|x|]] + u[|x| + 1..];
    assert u[..|x|] == x && u[|x|] == '|';
    assert y == k[|x| + 1..|u|] + [k[|u|]] + k[|u| + 1..];
    assert u[|x| + 1..] == k[|x| + 1..|u|];
  }

  /** Two joined pairs are one string exactly when they are the same pair or one is the other shifted across a bar. */
  lemma JoinedExactly(x: string, y: string, u: string, v: string)
    ensures Joined(x, y) == Joined(u, v) <==> (x == u && y == v) || Shifted(x, y, u, v) || Shifted(u, v, x, y)
  {
    if Joined(x, y) == Joined(u, v) {
      if |x| < |u| {
        SameShifted(x, y, u, v);
      } else if |u| < |x| {
        SameShifted(u, v, x, y);
      } else {
        var k := Joined(x, y);
        assert x == k[..|x|] && u == k[..|u|] && y == k[|x| + 1..] && v == k[|u| + 1..];
      }
    }
    if Shifted(x, y, u, v) {
      ShiftedSame(x, y, u, v);
    }
    if Shifted(u, v, x, y) {
      ShiftedSame(u, v, x, y);
    }
  }

  /** The same two addresses, in either order. */
  predicate SameTwo(c: Config, a: string, b: string, d: string, e: string) {
    || (c.fold(a) == c.fold(d) && c.fold(b) == c.fold(e))
    || (c.fold(a) == c.fold(e) && c.fold(b) == c.fold(d))
  }

  /** Two pairs whose keys are one string although they may be different addresses: a bar is read in two places. */
  predicate Collide(c: Config, a: string, b: string, d: string, e: string) {
    || Shifted(Lower(c, a, b), Upper(c, a, b), Lower(c, d, e), Upper(c, d, e))
    || Shifted(Lower(c, d, e), Upper(c, d, e), Lower(c, a, b), Upper(c, a, b))
  }

  lemma SameBounds(c: Config, a: string, b: string, d: string, e: string)
    ensures SameTwo(c, a, b, d, e) <==> Lower(c, a, b) == Lower(c, d, e) && Upper(c, a, b) == Upper(c, d, e)
  {
    LessConnected(c.fold(a), c.fold(b));
    if Less(c.fold(a), c.fold(b)) && Less(c.fold(b), c.fold(a)) {
      LessTransitive(c.fold(a), c.fold(b), c.fold(a));
      LessIrreflexive(c.fold(a));
    }
  }

  /** For all addresses: two pairs share a key exactly when they are the same two addresses or collide. */
  lemma KeysTellPairsApart(c: Config, a: string, b: string, d: string, e: string)
    ensures PairKey(c, a, b) == PairKey(c, d, e) <==> SameTwo(c, a, b, d, e) || Collide(c, a, b, d, e)
  {
    SameBounds(c, a, b, d, e);
    JoinedExactly(Lower(c, a, b), Upper(c, a, b), Lower(c, d, e), Upper(c, d, e));
  }

  predicate BarFree(a: string) {
    '|' !in a
  }

  /** A pair without a bar in either address collides with no other pair. */
  lemma BarFreeNeverCollides(c: Config, a: string, b: string, d: string, e: string)
    requires BarFree(c.fold(a)) && BarFree(c.fold(b))
    ensures !Collide(c, a, b, d, e)
  {
    var x, y, u, v := Lower(c, a, b), Upper(c, a, b), Lower(c, d, e), Upper(c, d, e);
    if Shifted(x, y, u, v) {
      ShiftedHasBars(x, y, u, v);
    }
    if Shifted(u, v, x, y) {
      ShiftedHasBars(u, v, x, y);
    }
  }

  lemma ShiftedHasBars(x: string, y: string, u: string, v: string)
    requires Shifted(x, y, u, v)
    ensures '|' in u && '|' in y
  {
    assert u[|x|] == '|';
    assert y[|u[|x| + 1..]|] == '|';
  }

  /** An accepted request between these two addresses, or between two whose key collides with theirs. */
  ghost predicate AcceptedBetween(c: Config, requests: map<string, Request>, id: string, a: string, b: string) {
    id in requests && requests[id].status.Established? && SameTwo(c, requests[id].sender, requests[id].receiver, a, b)
  }

  ghost predicate AcceptedColliding(c: Config, requests: map<string, Request>, id: string, a: string, b: string) {
    id in requests && requests[id].status.Established? && Collide(c, requests[id].sender, requests[id].receiver, a, b)
  }

  /**
   In every run and for all addresses, two of them are contacts exactly when a request was accepted
   between them, or between two whose key collides with theirs.
   */
  lemma ContactExactly(c: Config, ops: seq<Op>, a: string, b: string)
    ensures var m := Run(c, ops).requests;
            HasContact(c, Run(c, ops), a, b) <==>
            exists id :: AcceptedBetween(c, m, id, a, b) || AcceptedColliding(c, m, id, a, b)
  {
    EveryRun(c, ops);
    var m := Run(c, ops).requests;
    assert HasContact(c, Run(c, ops), a, b) <==> HasAccepted(c, m, PairKey(c, a, b));
    forall id
      ensures AcceptedUnder(c, m, id, PairKey(c, a, b)) <==>
              AcceptedBetween(c, m, id, a, b) || AcceptedColliding(c, m, id, a, b)
    {
      if id in m {
        KeysTellPairsApart(c, m[id].sender, m[id].receiver, a, b);
      }
    }
  }

  /** Two addresses without a bar are contacts exactly when a request between them was accepted. */
  lemma ContactIffAccepted(c: Config, ops: seq<Op>, a: string, b: string)
    requires BarFree(c.fold(a)) && BarFree(c.fold(b))
    ensures HasContact(c, Run(c, ops), a, b) <==> exists id :: AcceptedBetween(c, Run(c, ops).requests, id, a, b)
  {
    ContactExactly(c, ops, a, b);
    var m := Run(c, ops).requests;
    forall id ensures !AcceptedColliding(c, m, id, a, b) {
      if id in m {
        BarFreeNeverCollides(c, a, b, m[id].sender, m[id].receiver);
      }
    }
  }

  lemma RunCreateAccept(c: Config, q: Request, now: int, at: int)
    requires FormReply(c, q).Ok? && Limit(c, 0) > 0 && at <= Stamped(c, q, now).expires
    ensures var s := Run(c, [Create(q, now), Respond(q.id, q.receiver, "accepted", true, at)]);
            && s.requests.Keys == {q.id} && s.requests[q.id].status.Established?
            && s.requests[q.id].sender == q.sender && s.requests[q.id].receiver == q.receiver
            && PairKey(c, q.sender, q.receiver) in s.contacts
  {
    var both := [Create(q, now), Respond(q.id, q.receiver, "accepted", true, at)];
    RunOne(c, [], Create(q, now), [Create(q, now)]);
    CreatedFirst(c, EMPTY, q, now);
    RunOne(c, [Create(q, now)], both[1], both);
  }

  /** From an empty store: a request accepted between one pair makes contacts of any pair that collides with it. */
  lemma FalseContact(c: Config, q: Request, now: int, at: int, a: string, b: string)
    requires FormReply(c, q).Ok? && Limit(c, 0) > 0 && at <= Stamped(c, q, now).expires
    requires Collide(c, q.sender, q.receiver, a, b) && !SameTwo(c, q.sender, q.receiver, a, b)
    ensures var s := Run(c, [Create(q, now), Respond(q.id, q.receiver, "accepted", true, at)]);
            HasContact(c, s, a, b) && forall id :: !AcceptedBetween(c, s.requests, id, a, b)
  {
    RunCreateAccept(c, q, now, at);
    KeysTellPairsApart(c, q.sender, q.receiver, a, b);
  }

  /** Such a pair: "a|b" with "c", and "a" with "b|c". */
  lemma BarsCollide(c: Config)
    requires c.fold("a|b") == "a|b" && c.fold("c") == "c" && c.fold("a") == "a" && c.fold("b|c") == "b|c"
    ensures Collide(c, "a|b", "c", "a", "b|c") && !SameTwo(c, "a|b", "c", "a", "b|c")
  {
    assert Less("a|b", "c") && !Less("c", "a|b") && Less("a", "b|c") && !Less("b|c", "a");
    assert Joined("a|b", "c") == Joined("a", "b|c");
    JoinedExactly("a|b", "c", "a", "b|c");
  }

  // ----- the store object -----

  /** The counting loop over the requests, in whatever order the map gives them. */
  method CountPending(c: Config, requests: map<string, Request>, who: string) returns (n: nat)
    ensures n == |PendingOf(c, requests, who)|
  {
    n := 0;
    ghost var all := PendingOf(c, requests, who);
    var todo := requests.Keys;
    ghost var seen: set<string> := {};
    while todo != {}
      invariant seen !! todo && seen + todo == requests.Keys
      invariant n == |all * seen|
      decreases todo
    {
      var id :| id in todo;
      MeetOne(all, seen, id);
      if PendingBy(c, requests[id], who) {
        n := n + 1;
      }
      todo, seen := todo - {id}, seen + {id};
    }
    assert all * seen == all;
  }

  method FindLock(requests: map<string, Request>, lock: string) returns (used: bool)
    ensures used == LockKnown(requests, lock)
  {
    var todo := requests.Keys;
    while todo != {}
      invariant todo <= requests.Keys
      invariant forall id :: id in requests && id !in todo ==> requests[id].lock != lock
      decreases todo
    {
      var id :| id in todo;
      if requests[id].lock == lock {
        return true;
      }
      todo := todo - {id};
    }
    used := false;
  }

  method FindPendingPair(c: Config, requests: map<string, Request>, a: string, b: string) returns (found: bool)
    ensures found == PairHasPending(c, requests, a, b)
  {
    var todo := requests.Keys;
    while todo != {}
      invariant todo <= requests.Keys
      invariant forall id :: id in requests && id !in todo ==>
        !(requests[id].status.Pending? && c.fold(requests[id].sender) == c.fold(a)
          && c.fold(requests[id].receiver) == c.fold(b))
      decreases todo
    {
      var id :| id in todo;
      if requests[id].status.Pending? {
        if c.fold(requests[id].sender) == c.fold(a) && c.fold(requests[id].receiver) == c.fold(b) {
          return true;
        }
      }
      todo := todo - {id};
    }
    found := false;
  }

  method ExpireEach(requests: map<string, Request>, now: int) returns (r: map<string, Request>, out: set<string>)
    ensures r == ExpireAll(requests, now)
    ensures out == set id | id in requests && Due(requests[id], now)
  {
    r, out := requests, {};
    var todo := requests.Keys;
    while todo != {}
      invariant todo <= requests.Keys && r.Keys == requests.Keys
      invariant forall id :: id in requests ==>
        r[id] == if id !in todo && Due(requests[id], now) then TimedOut(requests[id]) else requests[id]
      invariant out == set id | id in requests && id !in todo && Due(requests[id], now)
      decreases todo
    {
      var id :| id in todo;
      if Due(r[id], now) {
        r, out := r[id := TimedOut(r[id])], out + {id};
      }
      todo := todo - {id};
    }
    assert r == ExpireAll(requests, now);
  }

  class Contacts {
    const cfg: Config
    var requests: map<string, Request>
    var contacts: map<string, string>
    var xp: map<string, nat>
    var blocked: set<string>

    ghost function Now(): Store
      reads this
    {
      Store(requests, contacts, xp, blocked)
    }

    constructor (cfg: Config)
      ensures this.cfg == cfg && Now() == EMPTY
    {
      this.cfg := cfg;
      requests, contacts, xp, blocked := map[], map[], map[], {};
    }

    method CheckStore(q: Request) returns (reply: Reply)
      ensures reply == StoreReply(cfg, Now(), q)
    {
      if cfg.fold(q.receiver) in blocked {
        return ReceiverBlocked;
      }
      if PairKey(cfg, q.sender, q.receiver) in contacts {
        return AlreadyContact;
      }
      var who := cfg.fold(q.sender);
      var n := CountPending(cfg, requests, who);
      if n >= Limit(cfg, if who in xp then xp[who] else 0) {
        return LimitExceeded;
      }
      if q.id in requests {
        return DuplicateId;
      }
      var used := FindLock(requests, q.lock);
      if used {
        return LockUsed;
      }
      var busy := FindPendingPair(cfg, requests, q.sender, q.receiver);
      reply := if busy then PairPending else Ok;
    }

    method CreateRequest(q: Request, now: int) returns (reply: Reply)
      modifies this
      ensures Now() == Created(cfg, old(Now()), q, now) && reply == CreateReply(cfg, old(Now()), q)
    {
      reply := FormReply(cfg, q);
      if !reply.Ok? {
        return;
      }
      reply := CheckStore(q);
      if reply.Ok? {
        requests := requests[q.id := Stamped(cfg, q, now)];
      }
    }

    method RespondTo(id: string, actor: string, outcome: string, proof: bool, now: int) returns (reply: Reply)
      modifies this
      ensures Now() == Responded(cfg, old(Now()), id, actor, outcome, proof, now)
      ensures reply == RespondReply(cfg, old(Now()), id, actor, outcome, proof, now)
    {
      if !proof {
        return SignatureRejected;
      }
      if id !in requests {
        return NotFound;
      }
      var q := requests[id];
      if !q.status.Pending? {
        return NotPending;
      }
      if cfg.fold(q.receiver) != cfg.fold(actor) {
        return NotReceiver;
      }
      if now > q.expires {
        requests := requests[id := TimedOut(q)];
        return RequestExpired;
      }
      if outcome == "accepted" {
        requests := requests[id := q.(status := Established, outcome := "accepted")];
        contacts := contacts[PairKey(cfg, q.sender, q.receiver) := q.id];
      } else if outcome == "rejected" {
        requests := requests[id := q.(status := Rejected, outcome := "rejected")];
      } else {
        return InvalidOutcome;
      }
      reply := Ok;
    }

    method ExpireDue(now: int) returns (out: set<string>)
      modifies this
      ensures Now() == Step(cfg, old(Now()), Expire(now))
      ensures out == set id | id in old(requests) && Due(old(requests)[id], now)
    {
      requests, out := ExpireEach(requests, now);
    }

    method MarkSettled(id: string, tx: string) returns (found: bool)
      modifies this
      ensures Now() == Settled(old(Now()), id, tx) && found == (id in old(requests))
    {
      found := id in requests;
      if found {
        requests := requests[id := requests[id].(settleTx := tx)];
      }
    }

    method AddPoints(who: string, delta: nat)
      modifies this
      ensures Now() == XPAdded(old(Now()), cfg.fold(who), delta)
    {
      var key := cfg.fold(who);
      if key == "" || delta == 0 {
        return;
      }
      xp := xp[key := ((if key in xp then xp[key] else 0) + delta) % WORD64];
    }
  }
}
