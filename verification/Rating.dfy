/** Node scores, vote statistics and slashing (internal/rating, internal/handlers/handlers.go). */
module Rating {
  import opened Arithmetic

  const SCALE := 1_000_000
  const SUSPENSION_THRESHOLD := 100_000

  datatype Node = Node(suspended: bool, uptime: int, latency: int, missed: int, total: int,
                       stake: int, reputation: int, load: int, tasks: int, capacity: int)

  type Nodes = map<string, Node>

  datatype Reason = NoVote | AgainstMajority | Equivocation | InvalidTx

  // ----- scores of one node -----

  function VoteAccuracy(n: Node): int {
    if n.total <= 0 then SCALE
    else (if n.total - n.missed < 0 then 0 else n.total - n.missed) * SCALE / n.total
  }

  function StakeWeight(n: Node, maxStake: int): int {
    if maxStake > 0 && n.stake >= 0 && n.stake * SCALE / maxStake < SCALE
    then n.stake * SCALE / maxStake
    else SCALE
  }

  function ComputeReputation(n: Node, maxStake: int): Node {
    n.(reputation := (n.uptime * 300 + n.latency * 200 + VoteAccuracy(n) * 300 + StakeWeight(n, maxStake) * 200) / 1000)
  }

  function SelectionWeight(n: Node): int {
    n.reputation * (if SCALE - n.load < 0 then 0 else SCALE - n.load) / SCALE
  }

  function Fresh(stake: int, capacity: int): Node {
    ComputeReputation(Node(false, SCALE, SCALE, 0, 0, stake, 0, 0, 0, if capacity <= 0 then 1 else capacity), 0)
  }

  function WithVoteStats(n: Node, missed: int, total: int, maxStake: int): Node {
    var m := if missed < 0 then 0 else missed;
    ComputeReputation(n.(missed := m, total := if total < m then m else total), maxStake)
  }

  function WithLoad(n: Node, tasks: int, capacity: int): Node {
    var t := if tasks < 0 then 0 else tasks;
    var c := if capacity <= 0 then 1 else capacity;
    n.(tasks := t, capacity := c, load := if t * SCALE / c > SCALE then SCALE else t * SCALE / c)
  }

  function ReputationPenalty(reason: Reason): int {
    match reason
    case NoVote => SCALE * 2 / 100
    case AgainstMajority => SCALE * 3 / 100
    case Equivocation => SCALE * 15 / 100
    case InvalidTx => SCALE * 10 / 100
  }

  function StakeSlash(reason: Reason): int {
    match reason
    case NoVote => 1
    case AgainstMajority => 2
    case Equivocation => 100
    case InvalidTx => 50
  }

  function Slashed(n: Node, reason: Reason): Node {
    var r := n.reputation - ReputationPenalty(reason);
    var s := n.stake - StakeSlash(reason);
    n.(reputation := if r < 0 then 0 else r,
       stake := if s < 0 then 0 else s,
       suspended := n.suspended || r < SUSPENSION_THRESHOLD)
  }

  /** Scores stay on the scale and no more votes are missed than were due. */
  predicate NodeOk(n: Node) {
    && 0 <= n.uptime <= SCALE && 0 <= n.latency <= SCALE
    && 0 <= n.missed <= n.total
    && 0 <= n.reputation <= SCALE
    && 0 <= n.load <= SCALE
  }

  lemma Scaled(x: int, y: int)
    requires 0 <= x <= y && y > 0
    ensures 0 <= x * SCALE / y <= SCALE
  {
    Floor(SCALE, x, y);
    Times(SCALE, x, y);
    DivUp(SCALE * x / y, SCALE, y);
  }

  lemma AccuracyInRange(n: Node)
    requires 0 <= n.missed <= n.total
    ensures 0 <= VoteAccuracy(n) <= SCALE
  {
    if n.total > 0 {
      Scaled(n.total - n.missed, n.total);
    }
  }

  lemma StakeWeightInRange(n: Node, maxStake: int)
    ensures 0 <= StakeWeight(n, maxStake) <= SCALE
  {
    if maxStake > 0 && n.stake >= 0 {
      NotNegative(n.stake, maxStake);
    }
  }

  lemma NotNegative(x: nat, y: int)
    requires y > 0
    ensures x * SCALE / y >= 0
  {
  }

  lemma ReputationInRange(n: Node, maxStake: int)
    requires 0 <= n.uptime <= SCALE && 0 <= n.latency <= SCALE && 0 <= n.missed <= n.total && 0 <= n.load <= SCALE
    ensures NodeOk(ComputeReputation(n, maxStake))
  {
    AccuracyInRange(n);
    StakeWeightInRange(n, maxStake);
  }

  /** More missed votes never mean a better accuracy. */
  lemma AccuracyFalls(n: Node, m: Node)
    requires n.total == m.total && 0 <= n.missed <= m.missed <= m.total
    ensures VoteAccuracy(m) <= VoteAccuracy(n)
  {
    if n.total > 0 {
      FloorMonotone((m.total - m.missed) * SCALE, (n.total - n.missed) * SCALE, n.total);
    }
  }

  /** A score no factor of which is worse is no worse. */
  lemma ReputationMonotone(n: Node, m: Node, maxStake: int)
    requires m.uptime <= n.uptime && m.latency <= n.latency
    requires VoteAccuracy(m) <= VoteAccuracy(n) && StakeWeight(m, maxStake) <= StakeWeight(n, maxStake)
    ensures ComputeReputation(m, maxStake).reputation <= ComputeReputation(n, maxStake).reputation
  {
  }

  /** What each factor is worth on its own: 300, 200, 300 and 200 thousandths of the scale. */
  lemma FactorsAreWorth(n: Node, maxStake: int)
    requires maxStake > 0 && n.total > 0
    ensures n.uptime == SCALE && n.latency == 0 && n.missed == n.total && n.stake == 0 ==>
      ComputeReputation(n, maxStake).reputation == 300_000
    ensures n.uptime == 0 && n.latency == SCALE && n.missed == n.total && n.stake == 0 ==>
      ComputeReputation(n, maxStake).reputation == 200_000
    ensures n.uptime == 0 && n.latency == 0 && n.missed == 0 && n.stake == 0 ==>
      ComputeReputation(n, maxStake).reputation == 300_000
    ensures n.uptime == 0 && n.latency == 0 && n.missed == n.total && n.stake >= maxStake ==>
      ComputeReputation(n, maxStake).reputation == 200_000
  {
    WholeAccuracy(n);
    WholeStake(n, maxStake);
  }

  lemma WholeAccuracy(n: Node)
    requires n.total > 0
    ensures n.missed == 0 ==> VoteAccuracy(n) == SCALE
    ensures n.missed == n.total ==> VoteAccuracy(n) == 0
  {
    Cancelled(n.total);
  }

  lemma WholeStake(n: Node, maxStake: int)
    requires maxStake > 0
    ensures n.stake >= maxStake ==> StakeWeight(n, maxStake) == SCALE
    ensures n.stake == 0 ==> StakeWeight(n, maxStake) == 0
  {
    if n.stake >= maxStake {
      Cancelled(maxStake);
      FloorMonotone(maxStake * SCALE, n.stake * SCALE, maxStake);
    }
  }

  lemma Cancelled(x: int)
    requires x > 0
    ensures x * SCALE / x == SCALE
  {
  }

  lemma LoadKeeps(n: Node, tasks: int, capacity: int)
    requires NodeOk(n)
    ensures NodeOk(WithLoad(n, tasks, capacity))
  {
    NotNegative(if tasks < 0 then 0 else tasks, if capacity <= 0 then 1 else capacity);
  }

  /** The weight used to choose and to pay validators is between 1 and the scale. */
  lemma WeightInRange(n: Node)
    requires NodeOk(n)
    ensures 0 <= SelectionWeight(n) <= SCALE
  {
    var free := SCALE - n.load;
    Times(n.reputation, 0, free);
    Times(n.reputation, free, SCALE);
  }

  /** An idle node weighs its reputation, a full one nothing, and more load never weighs more. */
  lemma LoadLightens(n: Node, m: Node)
    requires NodeOk(n) && NodeOk(m) && n.reputation == m.reputation && n.load <= m.load
    ensures SelectionWeight(m) <= SelectionWeight(n)
    ensures n.load == 0 ==> SelectionWeight(n) == n.reputation
    ensures m.load == SCALE ==> SelectionWeight(m) == 0
  {
    Times(n.reputation, SCALE - m.load, SCALE - n.load);
    FloorMonotone(n.reputation * (SCALE - m.load), n.reputation * (SCALE - n.load), SCALE);
  }

  function SlashedTimes(n: Node, reason: Reason, k: nat): Node {
    if k == 0 then n else Slashed(SlashedTimes(n, reason, k - 1), reason)
  }

  /**
   Any number of equal slashes, in closed form: penalties add up, both scores stop at zero, and the
   threshold suspends.
   */
  lemma {:induction false} SlashesAddUp(n: Node, reason: Reason, k: nat)
    requires k > 0 && n.reputation >= 0 && n.stake >= 0
    ensures var m := SlashedTimes(n, reason, k);
            && m.reputation == Floored(n.reputation - k * ReputationPenalty(reason))
            && m.stake == Floored(n.stake - k * StakeSlash(reason))
            && m.suspended == (n.suspended || n.reputation - k * ReputationPenalty(reason) < SUSPENSION_THRESHOLD)
    decreases k
  {
    if k > 1 {
      SlashesAddUp(n, reason, k - 1);
      OneMore(k, ReputationPenalty(reason));
      OneMore(k, StakeSlash(reason));
    }
  }

  lemma OneMore(k: nat, x: nat)
    ensures k * x == (k - 1) * x + x
  {
  }

  function Floored(x: int): int {
    if x < 0 then 0 else x
  }

  /** The slash in a row that suspends a node of full reputation. */
  function FatalSlash(reason: Reason): nat {
    match reason
    case NoVote => 46
    case AgainstMajority => 31
    case Equivocation => 7
    case InvalidTx => 10
  }

  lemma PenaltyInUnits(reason: Reason)
    ensures ReputationPenalty(reason) == match reason
                                         case NoVote => 20_000
                                         case AgainstMajority => 30_000
                                         case Equivocation => 150_000
                                         case InvalidTx => 100_000
  {
  }

  lemma FallsBelow(k: nat, reason: Reason)
    ensures SCALE - k * ReputationPenalty(reason) < SUSPENSION_THRESHOLD <==> k >= FatalSlash(reason)
  {
    PenaltyInUnits(reason);
  }

  /** A node of full reputation is suspended by exactly that many equal slashes in a row. */
  lemma SlashesToSuspension(n: Node, reason: Reason, k: nat)
    requires n.reputation == SCALE && n.stake >= 0 && !n.suspended && k > 0
    ensures SlashedTimes(n, reason, k).suspended <==> k >= FatalSlash(reason)
  {
    SlashesAddUp(n, reason, k);
    FallsBelow(k, reason);
  }

  function WeightFor(nodes: Nodes, id: string): int {
    if id !in nodes then SCALE
    else if SelectionWeight(nodes[id]) <= 0 then 1
    else SelectionWeight(nodes[id])
  }

  // ----- the largest stake -----

  ghost predicate IsMaxStake(nodes: Nodes, m: int) {
    && m >= 0
    && (forall k :: k in nodes ==> nodes[k].stake <= m)
    && (m == 0 || exists k :: k in nodes && nodes[k].stake == m)
  }

  ghost function MaxStake(nodes: Nodes): int {
    if exists m :: IsMaxStake(nodes, m) then
      var m :| IsMaxStake(nodes, m);
      m
    else 0
  }

  lemma MaxStakeIs(nodes: Nodes, m: int)
    requires IsMaxStake(nodes, m)
    ensures MaxStake(nodes) == m
  {
  }

  method FindMaxStake(nodes: Nodes) returns (m: int)
    ensures IsMaxStake(nodes, m) && m == MaxStake(nodes)
  {
    m := 0;
    var todo := nodes.Keys;
    while todo != {}
      invariant todo <= nodes.Keys
      invariant m >= 0 && forall k :: k in nodes && k !in todo ==> nodes[k].stake <= m
      invariant m == 0 || exists k :: k in nodes && nodes[k].stake == m
      decreases todo
    {
      var k :| k in todo;
      if nodes[k].stake > m {
        m := nodes[k].stake;
      }
      todo := todo - {k};
    }
    MaxStakeIs(nodes, m);
  }

  // ----- a round's votes in the statistics -----

  function BaseOf(nodes: Nodes, id: string): Node {
    if id in nodes then nodes[id] else Fresh(0, 1)
  }

  function Tallied(n: Node, bad: bool, maxStake: int): Node {
    WithVoteStats(n, n.missed + (if bad then 1 else 0), n.total + 1, maxStake)
  }

  /** The nodes after those who sat have one more vote due, missed when in `bad`. */
  function Stamped(nodes: Nodes, sat: set<string>, bad: set<string>, maxStake: int): Nodes {
    map id | id in nodes.Keys + sat ::
      if id in sat then Tallied(BaseOf(nodes, id), id in bad, maxStake) else nodes[id]
  }

  /** Who the round counts against: voters against the result, and members who did not vote. */
  function Against(votes: map<string, bool>, accepted: bool, expected: set<string>): set<string> {
    (set id | id in votes && votes[id] != accepted) + (expected - votes.Keys)
  }

  ghost function RoundCounted(nodes: Nodes, votes: map<string, bool>, accepted: bool, expected: set<string>): Nodes {
    Stamped(nodes, votes.Keys + expected, Against(votes, accepted, expected), MaxStake(nodes))
  }

  /** One more node stamped, as EnsureNode and SetVoteStats do it. */
  method StampOne(nodes: Nodes, id: string, bad: bool, ghost maxStake: int) returns (r: Nodes)
    requires IsMaxStake(nodes, maxStake)
    ensures r == nodes[id := Tallied(BaseOf(nodes, id), bad, maxStake)]
    ensures IsMaxStake(r, maxStake)
  {
    r := nodes;
    if id !in r {
      r := r[id := Fresh(0, 1)];
    }
    StakesUnchanged(nodes, r, maxStake, id);
    var n := r[id];
    var m := FindMaxStake(r);
    MaxStakeIs(r, maxStake);
    r := r[id := WithVoteStats(n, n.missed + (if bad then 1 else 0), n.total + 1, m)];
    assert r == nodes[id := Tallied(BaseOf(nodes, id), bad, maxStake)];
    StakesUnchanged(nodes, r, maxStake, id);
  }

  lemma StakesUnchanged(nodes: Nodes, r: Nodes, maxStake: int, id: string)
    requires IsMaxStake(nodes, maxStake) && id in r && r == nodes[id := r[id]]
    requires r[id].stake == BaseOf(nodes, id).stake
    ensures IsMaxStake(r, maxStake)
  {
    if maxStake != 0 {
      var k :| k in nodes && nodes[k].stake == maxStake;
      assert r[k].stake == maxStake;
    }
  }

  method StampEach(nodes: Nodes, ids: set<string>, bad: set<string>, ghost maxStake: int) returns (r: Nodes)
    requires IsMaxStake(nodes, maxStake)
    ensures r == Stamped(nodes, ids, bad, maxStake) && IsMaxStake(r, maxStake)
  {
    r := nodes;
    var todo := ids;
    ghost var done: set<string> := {};
    assert r == Stamped(nodes, {}, bad, maxStake);
    while todo != {}
      invariant done !! todo && done + todo == ids
      invariant r == Stamped(nodes, done, bad, maxStake) && IsMaxStake(r, maxStake)
      decreases todo
    {
      var id :| id in todo;
      StampedOne(nodes, done, bad, maxStake, id);
      r := StampOne(r, id, id in bad, maxStake);
      todo, done := todo - {id}, done + {id};
    }
    assert done == ids;
  }

  lemma StampedOne(nodes: Nodes, done: set<string>, bad: set<string>, maxStake: int, id: string)
    requires id !in done
    ensures var r := Stamped(nodes, done, bad, maxStake);
            r[id := Tallied(BaseOf(r, id), id in bad, maxStake)] == Stamped(nodes, done + {id}, bad, maxStake)
  {
  }

  /** updateVoteStatsFromRound: the voters, then the members who stayed silent. */
  method UpdateVoteStats(nodes: Nodes, votes: map<string, bool>, accepted: bool, expected: set<string>)
    returns (r: Nodes)
    ensures r == RoundCounted(nodes, votes, accepted, expected)
  {
    ghost var m := FindMaxStakeOf(nodes);
    var wrong := set id | id in votes && votes[id] != accepted;
    r := StampEach(nodes, votes.Keys, wrong, m);
    var silent := expected - votes.Keys;
    r := StampEach(r, silent, silent, m);
    StampedTwice(nodes, votes.Keys, wrong, silent, m);
    assert votes.Keys + expected == votes.Keys + silent;
  }

  lemma FindMaxStakeOf(nodes: Nodes) returns (m: int)
    ensures IsMaxStake(nodes, m) && m == MaxStake(nodes)
  {
    m := MaxOver(nodes, nodes.Keys);
    MaxStakeIs(nodes, m);
  }

  lemma {:induction false} MaxOver(nodes: Nodes, ids: set<string>) returns (m: int)
    requires ids <= nodes.Keys
    ensures m >= 0 && (forall k :: k in ids ==> nodes[k].stake <= m)
    ensures m == 0 || exists k :: k in ids && nodes[k].stake == m
    decreases ids
  {
    m := 0;
    if ids != {} {
      var k :| k in ids;
      m := MaxOver(nodes, ids - {k});
      if nodes[k].stake > m {
        m := nodes[k].stake;
      }
    }
  }

  lemma StampedTwice(nodes: Nodes, sat: set<string>, wrong: set<string>, silent: set<string>, m: int)
    requires sat !! silent && wrong <= sat
    ensures Stamped(Stamped(nodes, sat, wrong, m), silent, silent, m) ==
            Stamped(nodes, sat + silent, wrong + silent, m)
  {
  }

  // ----- runs -----

  datatype Op = Ensure(id: string, stake: int, capacity: int)
              | SetLoad(id: string, tasks: int, capacity: int)
              | Round(votes: map<string, bool>, accepted: bool, expected: set<string>)
              | Slash(id: string, reason: Reason)
              | SlashBatch(ids: seq<string>, reason: Reason)

  function Ensured(nodes: Nodes, id: string, stake: int, capacity: int): Nodes {
    if id in nodes then nodes else nodes[id := Fresh(stake, capacity)]
  }

  function LoadSet(nodes: Nodes, id: string, tasks: int, capacity: int): Nodes {
    if id in nodes then nodes[id := WithLoad(nodes[id], tasks, capacity)] else nodes
  }

  function SlashedOne(nodes: Nodes, id: string, reason: Reason): Nodes {
    if id in nodes then nodes[id := Slashed(nodes[id], reason)] else nodes
  }

  /** A batch skips the empty name and creates the nodes it does not know. */
  function SlashedAll(nodes: Nodes, ids: seq<string>, reason: Reason): Nodes {
    if ids == [] then nodes
    else
      var before, id := SlashedAll(nodes, ids[..|ids| - 1], reason), ids[|ids| - 1];
      if id == "" then before else SlashedOne(Ensured(before, id, 0, 1), id, reason)
  }

  ghost function Step(nodes: Nodes, op: Op): Nodes {
    match op
    case Ensure(id, stake, capacity) => Ensured(nodes, id, stake, capacity)
    case SetLoad(id, tasks, capacity) => LoadSet(nodes, id, tasks, capacity)
    case Round(votes, accepted, expected) => RoundCounted(nodes, votes, accepted, expected)
    case Slash(id, reason) => SlashedOne(nodes, id, reason)
    case SlashBatch(ids, reason) => SlashedAll(nodes, ids, reason)
  }

  ghost function Run(ops: seq<Op>): Nodes {
    if ops == [] then map[] else Step(Run(ops[..|ops| - 1]), ops[|ops| - 1])
  }

  /** The rounds of the run that the node sat on. */
  function RoundsSat(ops: seq<Op>, id: string): nat {
    if ops == [] then 0
    else
      var op := ops[|ops| - 1];
      RoundsSat(ops[..|ops| - 1], id) + if op.Round? && (id in op.votes || id in op.expected) then 1 else 0
  }

  /** Those where it was silent or disagreed with the result. */
  function RoundsMissed(ops: seq<Op>, id: string): nat {
    if ops == [] then 0
    else
      var op := ops[|ops| - 1];
      RoundsMissed(ops[..|ops| - 1], id)
      + if op.Round? && (if id in op.votes then op.votes[id] != op.accepted else id in op.expected) then 1 else 0
  }

  /** Two states of one node that differ neither in their counts nor by a lifted suspension. */
  ghost predicate SameCounts(n: Node, m: Node) {
    m.missed == n.missed && m.total == n.total && (n.suspended ==> m.suspended)
  }

  /** No node disappears, is reinstated, or has its counts changed; new nodes start with none. */
  ghost predicate OnlyScores(a: Nodes, b: Nodes) {
    && (forall id :: id in a ==> id in b && SameCounts(a[id], b[id]))
    && (forall id :: id in b && id !in a ==> b[id].missed == 0 && b[id].total == 0)
  }

  /** No node disappears or is reinstated. */
  ghost predicate NoneReinstated(a: Nodes, b: Nodes) {
    forall id :: id in a ==> id in b && (a[id].suspended ==> b[id].suspended)
  }

  ghost predicate AllOk(nodes: Nodes) {
    forall id :: id in nodes ==> NodeOk(nodes[id])
  }

  lemma FreshOk(stake: int, capacity: int)
    ensures NodeOk(Fresh(stake, capacity)) && Fresh(stake, capacity).missed == 0 && Fresh(stake, capacity).total == 0
  {
    ReputationInRange(Node(false, SCALE, SCALE, 0, 0, stake, 0, 0, 0, if capacity <= 0 then 1 else capacity), 0);
  }

  lemma EnsuredKeeps(nodes: Nodes, id: string, stake: int, capacity: int)
    requires AllOk(nodes)
    ensures AllOk(Ensured(nodes, id, stake, capacity)) && OnlyScores(nodes, Ensured(nodes, id, stake, capacity))
  {
    FreshOk(stake, capacity);
  }

  lemma LoadSetKeeps(nodes: Nodes, id: string, tasks: int, capacity: int)
    requires AllOk(nodes)
    ensures AllOk(LoadSet(nodes, id, tasks, capacity)) && OnlyScores(nodes, LoadSet(nodes, id, tasks, capacity))
  {
    if id in nodes {
      LoadKeeps(nodes[id], tasks, capacity);
    }
  }

  lemma SlashedOneKeeps(nodes: Nodes, id: string, reason: Reason)
    requires AllOk(nodes)
    ensures AllOk(SlashedOne(nodes, id, reason)) && OnlyScores(nodes, SlashedOne(nodes, id, reason))
  {
  }

  lemma {:induction false} SlashedAllKeeps(nodes: Nodes, ids: seq<string>, reason: Reason)
    requires AllOk(nodes)
    ensures AllOk(SlashedAll(nodes, ids, reason)) && OnlyScores(nodes, SlashedAll(nodes, ids, reason))
    decreases |ids|
  {
    if ids != [] {
      var n := |ids| - 1;
      var before := SlashedAll(nodes, ids[..n], reason);
      SlashedAllKeeps(nodes, ids[..n], reason);
      if ids[n] != "" {
        EnsuredKeeps(before, ids[n], 0, 1);
        SlashedOneKeeps(Ensured(before, ids[n], 0, 1), ids[n], reason);
      }
    }
  }

  lemma TalliedKeeps(n: Node, bad: bool, maxStake: int)
    requires NodeOk(n)
    ensures var t := Tallied(n, bad, maxStake);
            && NodeOk(t) && t.total == n.total + 1 && t.missed == n.missed + (if bad then 1 else 0)
            && t.suspended == n.suspended
  {
    ReputationInRange(n.(missed := n.missed + (if bad then 1 else 0), total := n.total + 1), maxStake);
  }

  lemma RoundKeeps(nodes: Nodes, sat: set<string>, bad: set<string>, maxStake: int, id: string)
    requires AllOk(nodes)
    ensures var r := Stamped(nodes, sat, bad, maxStake);
            && (id in r <==> id in nodes || id in sat)
            && (id in r ==> NodeOk(r[id]))
            && (id in nodes && id !in sat ==> r[id] == nodes[id])
            && (id in sat ==> r[id].total == BaseOf(nodes, id).total + 1
                              && r[id].missed == BaseOf(nodes, id).missed + (if id in bad then 1 else 0)
                              && r[id].suspended == BaseOf(nodes, id).suspended)
  {
    if id in sat {
      FreshOk(0, 1);
      TalliedKeeps(BaseOf(nodes, id), id in bad, maxStake);
    }
  }

  /** Scores stay in range over every run, and a suspended node is never reinstated. */
  lemma StepKeeps(nodes: Nodes, op: Op)
    requires AllOk(nodes)
    ensures AllOk(Step(nodes, op))
    ensures NoneReinstated(nodes, Step(nodes, op))
    ensures !op.Round? ==> OnlyScores(nodes, Step(nodes, op))
  {
    match op
    case Ensure(id, stake, capacity) => EnsuredKeeps(nodes, id, stake, capacity);
    case SetLoad(id, tasks, capacity) => LoadSetKeeps(nodes, id, tasks, capacity);
    case Slash(id, reason) => SlashedOneKeeps(nodes, id, reason);
    case SlashBatch(ids, reason) => SlashedAllKeeps(nodes, ids, reason);
    case Round(votes, accepted, expected) =>
      forall id
        ensures id in Step(nodes, op) ==> NodeOk(Step(nodes, op)[id])
        ensures id in nodes ==> id in Step(nodes, op) && Step(nodes, op)[id].suspended == nodes[id].suspended
      {
        RoundKeeps(nodes, votes.Keys + expected, Against(votes, accepted, expected), MaxStake(nodes), id);
      }
  }

  /** What a run leaves for one node: the counts are the rounds it sat on and the rounds it missed. */
  ghost predicate Counted(nodes: Nodes, ops: seq<Op>, id: string) {
    if id in nodes then
      nodes[id].total == RoundsSat(ops, id) && nodes[id].missed == RoundsMissed(ops, id)
    else RoundsSat(ops, id) == 0 && RoundsMissed(ops, id) == 0
  }

  lemma CountedStep(nodes: Nodes, ops: seq<Op>, id: string)
    requires ops != [] && AllOk(nodes) && Counted(nodes, ops[..|ops| - 1], id)
    ensures Counted(Step(nodes, ops[|ops| - 1]), ops, id)
  {
    var op := ops[|ops| - 1];
    if op.Round? {
      FreshOk(0, 1);
      RoundKeeps(nodes, op.votes.Keys + op.expected, Against(op.votes, op.accepted, op.expected), MaxStake(nodes), id);
    } else {
      StepKeeps(nodes, op);
    }
  }

  /** In every run: counts are rounds, and every score is in range. */
  lemma {:induction false} EveryRun(ops: seq<Op>, id: string)
    ensures AllOk(Run(ops)) && Counted(Run(ops), ops, id)
    ensures RoundsMissed(ops, id) <= RoundsSat(ops, id)
    decreases |ops|
  {
    if ops != [] {
      var n := |ops| - 1;
      EveryRun(ops[..n], id);
      StepKeeps(Run(ops[..n]), ops[n]);
      CountedStep(Run(ops[..n]), ops, id);
    }
  }

  ghost predicate Suspended(nodes: Nodes, id: string) {
    id in nodes && nodes[id].suspended
  }

  lemma SuspendedStep(ops: seq<Op>, id: string)
    requires ops != [] && Suspended(Run(ops[..|ops| - 1]), id)
    ensures Suspended(Run(ops), id)
  {
    var n := |ops| - 1;
    EveryRun(ops[..n], id);
    StepKeeps(Run(ops[..n]), ops[n]);
  }

  /** Once suspended, suspended for the rest of the run. */
  lemma {:induction false} SuspensionIsFinal(ops: seq<Op>, k: nat, id: string)
    requires k <= |ops| && Suspended(Run(ops[..k]), id)
    ensures Suspended(Run(ops), id)
    decreases |ops|
  {
    if k == |ops| {
      assert ops[..k] == ops;
    } else {
      var n := |ops| - 1;
      assert ops[..n][..k] == ops[..k];
      SuspensionIsFinal(ops[..n], k, id);
      SuspendedStep(ops, id);
    }
  }

  /** In every run the weight that chooses and pays a node is between 1 and the scale. */
  lemma WeightsInEveryRun(ops: seq<Op>, id: string)
    ensures 1 <= WeightFor(Run(ops), id) <= SCALE
  {
    EveryRun(ops, id);
    if id in Run(ops) {
      WeightInRange(Run(ops)[id]);
    }
  }

  /** The next count of votes forgets a slash's reputation penalty; only the lost stake and a suspension remain. */
  lemma PenaltyIsForgotten(n: Node, reason: Reason, bad: bool, maxStake: int)
    ensures Tallied(Slashed(n, reason), bad, maxStake).reputation ==
            Tallied(n.(stake := Slashed(n, reason).stake), bad, maxStake).reputation
  {
  }

  // ----- the registry object -----

  class Registry {
    var nodes: Nodes

    constructor ()
      ensures nodes == map[]
    {
      nodes := map[];
    }

    method EnsureNode(id: string, stake: int, capacity: int)
      modifies this
      ensures nodes == Step(old(nodes), Ensure(id, stake, capacity))
    {
      if id !in nodes {
        nodes := nodes[id := Fresh(stake, capacity)];
      }
    }

    method SetNodeLoad(id: string, tasks: int, capacity: int)
      modifies this
      ensures nodes == Step(old(nodes), SetLoad(id, tasks, capacity))
    {
      if id in nodes {
        nodes := nodes[id := WithLoad(nodes[id], tasks, capacity)];
      }
    }

    method ApplySlash(id: string, reason: Reason) returns (found: bool)
      modifies this
      ensures nodes == Step(old(nodes), Slash(id, reason)) && found == (id in old(nodes))
    {
      found := id in nodes;
      if found {
        nodes := nodes[id := Slashed(nodes[id], reason)];
      }
    }

    method ApplySlashBatch(ids: seq<string>, reason: Reason)
      modifies this
      ensures nodes == Step(old(nodes), SlashBatch(ids, reason))
    {
      nodes := SlashEach(nodes, ids, reason);
    }

    method CountRound(votes: map<string, bool>, accepted: bool, expected: set<string>)
      modifies this
      ensures nodes == Step(old(nodes), Round(votes, accepted, expected))
    {
      nodes := UpdateVoteStats(nodes, votes, accepted, expected);
    }
  }

  method SlashEach(nodes: Nodes, ids: seq<string>, reason: Reason) returns (r: Nodes)
    ensures r == SlashedAll(nodes, ids, reason)
  {
    r := nodes;
    var i := 0;
    while i < |ids|
      invariant 0 <= i <= |ids|
      invariant r == SlashedAll(nodes, ids[..i], reason)
    {
      assert ids[..i + 1][..i] == ids[..i];
      if ids[i] != "" {
        if ids[i] !in r {
          r := r[ids[i] := Fresh(0, 1)];
        }
        r := SlashedOne(r, ids[i], reason);
      }
      i := i + 1;
    }
    assert ids[..|ids|] == ids;
  }
}
