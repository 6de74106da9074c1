/** The deal dispute book: commit, reveal, freeze and quorum (internal/deals/book.go). */
module DealBook {
  import opened Sequences
  import PanelPick

  const FULFILLED := "fulfilled"
  const NOT_FULFILLED := "not-fulfilled"

  /** The hash, and the digests that draw the panel of an (escrow, terms) pair. */
  datatype Lib = Lib(hash: string -> string, draw: (string, string) -> nat -> nat)

  /** One case: its five seats, their commits and reveals, and the verdict once there is one. */
  datatype Case = Case(escrow: string, terms: string, prior: string, panel: seq<string>,
                       commits: map<string, string>, revealed: map<string, string>,
                       quorum: string, deadline: nat, frozen: bool)

  datatype Book = Book(cases: map<string, Case>, byEscrow: map<string, string>, roster: seq<string>, height: nat)

  const EMPTY := Book(map[], map[], [], 0)

  datatype Reply = Ok | UnknownCase | NotOnPanel | AlreadyCommitted | HashRequired
                 | BadVerdict | NoMatch | AlreadyRevealed
                 | TermsRequired | TooFewVolunteers | IdCollided

  // ----- counting reveals -----

  function Backers(revealed: map<string, string>, v: string): set<string> {
    set k | k in revealed && revealed[k] == v
  }

  predicate HasThree(revealed: map<string, string>, v: string) {
    |Backers(revealed, v)| >= 3
  }

  /** The quorum is unambiguous: no two verdicts have three backers each. */
  ghost predicate Unambiguous(revealed: map<string, string>) {
    forall v, w :: HasThree(revealed, v) && HasThree(revealed, w) ==> v == w
  }

  lemma BackersDisjoint(revealed: map<string, string>, v: string, w: string)
    requires v != w
    ensures |Backers(revealed, v)| + |Backers(revealed, w)| <= |revealed|
  {
    var a, b := Backers(revealed, v), Backers(revealed, w);
    assert a !! b;
    assert |a + b| == |a| + |b|;
    SubsetSize(a + b, revealed.Keys);
  }

  /** Five revealed or fewer cannot give two verdicts three backers each. */
  lemma FiveAreUnambiguous(revealed: map<string, string>)
    requires |revealed| <= 5
    ensures Unambiguous(revealed)
  {
    forall v, w | HasThree(revealed, v) && HasThree(revealed, w) ensures v == w {
      if v != w {
        BackersDisjoint(revealed, v, w);
      }
    }
  }

  /**
   Counts the revealed in whatever order the map gives them and stops at the first
   verdict with three. When the quorum is unambiguous the order cannot matter.
   */
  method QuorumOf(revealed: map<string, string>) returns (v: string, ok: bool)
    ensures ok <==> exists w :: HasThree(revealed, w)
    ensures ok ==> HasThree(revealed, v)
    ensures !ok ==> v == ""
    ensures ok && Unambiguous(revealed) ==> forall w :: HasThree(revealed, w) ==> w == v
  {
    var counts: map<string, int> := map[];
    var seen, todo := {}, revealed.Keys;
    NothingTallied(revealed);
    while todo != {}
      invariant seen !! todo && seen + todo == revealed.Keys
      invariant Tallied(counts, revealed, seen)
      decreases todo
    {
      var k :| k in todo;
      var w := revealed[k];
      TallyOne(counts, revealed, seen, k);
      var n := Count(counts, w) + 1;
      counts := counts[w := n];
      if n >= 3 {
        assert HasThree(revealed, w);
        return w, true;
      }
      seen, todo := seen + {k}, todo - {k};
    }
    AllTallied(counts, revealed);
    v, ok := "", false;
  }

  function Count(counts: map<string, int>, w: string): int {
    if w in counts then counts[w] else 0
  }

  /** The counts are those of the reveals seen, and none has reached three. */
  ghost predicate Tallied(counts: map<string, int>, revealed: map<string, string>, seen: set<string>) {
    forall w :: Count(counts, w) == |BackersIn(revealed, seen, w)| < 3
  }

  lemma NothingTallied(revealed: map<string, string>)
    ensures Tallied(map[], revealed, {})
  {
    forall w ensures BackersIn(revealed, {}, w) == {} {
    }
  }

  lemma AllTallied(counts: map<string, int>, revealed: map<string, string>)
    requires Tallied(counts, revealed, revealed.Keys)
    ensures forall w :: !HasThree(revealed, w)
  {
    forall w ensures !HasThree(revealed, w) {
      assert BackersIn(revealed, revealed.Keys, w) == Backers(revealed, w);
      assert Count(counts, w) < 3;
    }
  }

  /** One more reveal adds one backer to its verdict and none to the others. */
  lemma BackersOne(revealed: map<string, string>, seen: set<string>, k: string, x: string)
    requires k in revealed && k !in seen
    ensures |BackersIn(revealed, seen + {k}, x)| ==
            |BackersIn(revealed, seen, x)| + if x == revealed[k] then 1 else 0
  {
    if x == revealed[k] {
      assert BackersIn(revealed, seen + {k}, x) == BackersIn(revealed, seen, x) + {k};
    } else {
      assert BackersIn(revealed, seen + {k}, x) == BackersIn(revealed, seen, x);
    }
  }

  lemma TallyOne(counts: map<string, int>, revealed: map<string, string>, seen: set<string>, k: string)
    requires k in revealed && k !in seen && Tallied(counts, revealed, seen)
    ensures var w := revealed[k];
            var n := Count(counts, w) + 1;
            && (n >= 3 ==> HasThree(revealed, w))
            && (n < 3 ==> Tallied(counts[w := n], revealed, seen + {k}))
  {
    var w := revealed[k];
    var n := Count(counts, w) + 1;
    BackersOne(revealed, seen, k, w);
    assert Count(counts, w) == |BackersIn(revealed, seen, w)|;
    SubsetSize(BackersIn(revealed, seen + {k}, w), Backers(revealed, w));
    if n < 3 {
      forall x ensures Count(counts[w := n], x) == |BackersIn(revealed, seen + {k}, x)| < 3 {
        BackersOne(revealed, seen, k, x);
        assert Count(counts, x) == |BackersIn(revealed, seen, x)| < 3;
      }
    }
  }

  function BackersIn(revealed: map<string, string>, some: set<string>, v: string): set<string> {
    set k | k in some && k in revealed && revealed[k] == v
  }

  // ----- the verdict of the reveals -----

  predicate Verdict(v: string) {
    v == FULFILLED || v == NOT_FULFILLED
  }

  /** The verdict at least three of the reveals share, or none. */
  function Majority(revealed: map<string, string>): string {
    if HasThree(revealed, FULFILLED) then FULFILLED
    else if HasThree(revealed, NOT_FULFILLED) then NOT_FULFILLED
    else ""
  }

  /** At most five reveals, each of one of the two verdicts. */
  ghost predicate Panelled(revealed: map<string, string>) {
    |revealed| <= 5 && forall k :: k in revealed ==> Verdict(revealed[k])
  }

  /** For a panel's reveals the majority is the only verdict with three backers. */
  lemma MajorityIsUnique(revealed: map<string, string>, v: string)
    requires Panelled(revealed) && HasThree(revealed, v)
    ensures v == Majority(revealed) && Verdict(v)
  {
    FiveAreUnambiguous(revealed);
    assert Backers(revealed, v) != {};
    var k :| k in Backers(revealed, v);
  }

  /** A later reveal cannot take the majority away. */
  lemma MajorityStays(revealed: map<string, string>, k: string, v: string)
    requires k !in revealed && Panelled(revealed[k := v]) && Majority(revealed) != ""
    ensures Majority(revealed[k := v]) == Majority(revealed)
  {
    var m := Majority(revealed);
    SubsetSize(Backers(revealed, m), Backers(revealed[k := v], m));
    MajorityIsUnique(revealed[k := v], m);
  }

  // ----- steps on one case -----

  /** A frozen case takes the quorum its reveals already hold. */
  function Settled(c: Case): Case {
    if c.frozen && c.quorum == "" then c.(quorum := Majority(c.revealed)) else c
  }

  function Aged(c: Case, height: nat): Case {
    if !c.frozen && height > c.deadline then Settled(c.(frozen := true)) else c
  }

  function CommitTo(c: Case, key: string, digest: string): (Case, Reply) {
    if key !in c.panel then (c, NotOnPanel)
    else if key in c.commits then (c, AlreadyCommitted)
    else if digest == "" then (c, HashRequired)
    else (c.(commits := c.commits[key := digest]), Ok)
  }

  function Sealed(verdict: string, nonce: string): string {
    if nonce == "" then verdict else verdict + "\0" + nonce
  }

  function RevealIn(lib: Lib, c: Case, key: string, verdict: string, nonce: string): (Case, Reply) {
    if key !in c.panel then (c, NotOnPanel)
    else if key !in c.commits || c.commits[key] != lib.hash(Sealed(verdict, nonce)) then (c, NoMatch)
    else if key in c.revealed then (c, AlreadyRevealed)
    else (Settled(c.(revealed := c.revealed[key := verdict])), Ok)
  }

  function CoreOutcome(v: string): string {
    if v == FULFILLED then "dispute-fulfilled"
    else if v == NOT_FULFILLED then "dispute-not-fulfilled"
    else v
  }

  function Asked(c: Case, height: nat): Case {
    Settled(if !c.frozen && height > c.deadline then c.(frozen := true) else c)
  }

  function Answer(c: Case, height: nat): Option<string> {
    var d := Asked(c, height);
    if d.frozen && d.quorum != "" then Some(CoreOutcome(d.quorum)) else None
  }

  // ----- steps on the book -----

  datatype Op = SetRoster(keys: seq<string>)
              | SetHeight(h: nat)
              | Open(terms: string, deadline: nat, escrow: string, bonded: seq<string>,
                     exclude: seq<string>, prior: string)
              | Commit(id: string, key: string, digest: string)
              | Reveal(id: string, key: string, verdict: string, nonce: string)
              | Query(id: string)

  function CaseId(lib: Lib, escrow: string, terms: string): string {
    lib.hash(CaseMessage(escrow, lib.hash(terms)))
  }

  function CaseMessage(escrow: string, termsHash: string): string {
    "deal-case|" + escrow + "|" + termsHash
  }

  function AgeAll(cases: map<string, Case>, h: nat): map<string, Case> {
    map id | id in cases :: Aged(cases[id], h)
  }

  function Unique(keys: seq<string>): seq<string> {
    if keys == [] then []
    else
      var before, k := Unique(keys[..|keys| - 1]), keys[|keys| - 1];
      if k == "" || k in before then before else before + [k]
  }

  function Pool(b: Book, bonded: seq<string>): seq<string> {
    if b.roster == [] then bonded else b.roster
  }

  ghost function PanelFor(lib: Lib, b: Book, op: Op): Option<seq<string>>
    requires op.Open?
  {
    PanelPick.Seated(PanelPick.Allowed(Pool(b, op.bonded), op.exclude), lib.draw(op.escrow, op.terms))
  }

  ghost function OpenReply(lib: Lib, b: Book, op: Op): Reply
    requires op.Open?
  {
    if op.terms == "" || op.escrow == "" then TermsRequired
    else if op.escrow in b.byEscrow then Ok
    else if PanelFor(lib, b, op).None? then TooFewVolunteers
    else if CaseId(lib, op.escrow, op.terms) == op.escrow then IdCollided
    else Ok
  }

  /** The step opens a case that was not in the book. */
  ghost predicate Opens(lib: Lib, b: Book, op: Op) {
    op.Open? && OpenReply(lib, b, op).Ok? && op.escrow !in b.byEscrow
  }

  ghost function NewCase(lib: Lib, b: Book, op: Op): Case
    requires Opens(lib, b, op)
  {
    Case(op.escrow, op.terms, op.prior, PanelFor(lib, b, op).value, map[], map[], "", op.deadline, false)
  }

  function SetCase(b: Book, id: string, c: Case): Book {
    b.(cases := b.cases[id := c])
  }

  /** OpenAppeal: a known escrow only has its prior result replaced. */
  ghost function OpenCase(lib: Lib, b: Book, op: Op): Book
    requires op.Open? && forall e :: e in b.byEscrow ==> b.byEscrow[e] in b.cases
  {
    if !OpenReply(lib, b, op).Ok? then b
    else if op.escrow in b.byEscrow then
      var id := b.byEscrow[op.escrow];
      SetCase(b, id, b.cases[id].(prior := op.prior))
    else
      var id := CaseId(lib, op.escrow, op.terms);
      SetCase(b, id, NewCase(lib, b, op)).(byEscrow := b.byEscrow[op.escrow := id])
  }

  function HeightSet(b: Book, h: nat): Book {
    b.(height := h, cases := AgeAll(b.cases, h))
  }

  function Committed(b: Book, id: string, key: string, digest: string): Book {
    if id !in b.cases then b else SetCase(b, id, CommitTo(b.cases[id], key, digest).0)
  }

  function RevealMade(lib: Lib, b: Book, id: string, key: string, verdict: string, nonce: string): Book {
    if !Verdict(verdict) || id !in b.cases then b
    else SetCase(b, id, RevealIn(lib, b.cases[id], key, verdict, nonce).0)
  }

  function Queried(b: Book, id: string): Book {
    if id !in b.cases then b else SetCase(b, id, Asked(b.cases[id], b.height))
  }

  ghost function Step(lib: Lib, b: Book, op: Op): Book
    requires forall e :: e in b.byEscrow ==> b.byEscrow[e] in b.cases
  {
    match op
    case SetRoster(keys) => b.(roster := Unique(keys))
    case SetHeight(h) => HeightSet(b, h)
    case Open(_, _, _, _, _, _) => OpenCase(lib, b, op)
    case Commit(id, key, digest) => Committed(b, id, key, digest)
    case Reveal(id, key, verdict, nonce) => RevealMade(lib, b, id, key, verdict, nonce)
    case Query(id) => Queried(b, id)
  }

  // ----- what every reachable book satisfies -----

  /** The reveal was sealed by its author's own commit. */
  ghost predicate Matches(lib: Lib, commit: string, verdict: string) {
    exists nonce :: commit == lib.hash(Sealed(verdict, nonce))
  }

  /** Five distinct seats; only they commit, only committers reveal, and each reveal opens its commit. */
  ghost predicate SeatsOk(lib: Lib, panel: seq<string>, commits: map<string, string>, revealed: map<string, string>) {
    && |panel| == 5 && Distinct(panel)
    && (forall k :: k in commits ==> k in panel)
    && (forall k :: k in revealed ==> k in commits && Verdict(revealed[k]) && Matches(lib, commits[k], revealed[k]))
  }

  /** The quorum is exactly the majority of the reveals once the case is frozen, and empty before. */
  ghost predicate CaseOk(lib: Lib, c: Case) {
    && SeatsOk(lib, c.panel, c.commits, c.revealed)
    && c.quorum == if c.frozen then Majority(c.revealed) else ""
  }

  ghost predicate Inv(lib: Lib, b: Book) {
    && (forall id :: id in b.cases ==> CaseOk(lib, b.cases[id]))
    && (forall id :: id in b.cases ==> FiledUnder(lib, b, id))
    && (forall e :: e in b.byEscrow ==> b.byEscrow[e] in b.cases)
  }

  /** A case is filed under the hash of its escrow and terms, and its escrow leads to it. */
  ghost predicate FiledUnder(lib: Lib, b: Book, id: string)
    requires id in b.cases
  {
    var c := b.cases[id];
    id == CaseId(lib, c.escrow, c.terms) && c.escrow in b.byEscrow && b.byEscrow[c.escrow] == id
  }

  lemma AtMostFiveReveals(lib: Lib, panel: seq<string>, commits: map<string, string>, revealed: map<string, string>)
    requires SeatsOk(lib, panel, commits, revealed)
    ensures Panelled(revealed)
  {
    DistinctSize(panel);
    SubsetSize(revealed.Keys, Elements(panel));
  }

  /** What the later state of a case keeps of the earlier one. */
  ghost predicate Later(c: Case, d: Case) {
    && d.escrow == c.escrow && d.terms == c.terms && d.panel == c.panel && d.deadline == c.deadline
    && (forall k :: k in c.commits ==> k in d.commits && d.commits[k] == c.commits[k])
    && (forall k :: k in c.revealed ==> k in d.revealed && d.revealed[k] == c.revealed[k])
    && (c.frozen ==> d.frozen)
    && (c.quorum != "" ==> d.quorum == c.quorum)
  }

  lemma AgedKeeps(lib: Lib, c: Case, h: nat)
    requires CaseOk(lib, c)
    ensures CaseOk(lib, Aged(c, h)) && Later(c, Aged(c, h))
    ensures CaseOk(lib, Asked(c, h)) && Later(c, Asked(c, h))
  {
  }

  lemma CommitSeats(lib: Lib, panel: seq<string>, commits: map<string, string>, revealed: map<string, string>,
                    key: string, digest: string)
    requires SeatsOk(lib, panel, commits, revealed) && key in panel && key !in commits
    ensures SeatsOk(lib, panel, commits[key := digest], revealed)
  {
    var more := commits[key := digest];
    forall k | k in revealed ensures k in more && Matches(lib, more[k], revealed[k]) {
      assert more[k] == commits[k];
    }
  }

  lemma CommitKeeps(lib: Lib, c: Case, key: string, digest: string)
    requires CaseOk(lib, c)
    ensures var d := CommitTo(c, key, digest).0; CaseOk(lib, d) && Later(c, d)
  {
    if CommitTo(c, key, digest).1.Ok? {
      CommitSeats(lib, c.panel, c.commits, c.revealed, key, digest);
    }
  }

  lemma RevealSeats(lib: Lib, panel: seq<string>, commits: map<string, string>, revealed: map<string, string>,
                    key: string, verdict: string)
    requires SeatsOk(lib, panel, commits, revealed) && key in commits && key !in revealed
    requires Verdict(verdict) && Matches(lib, commits[key], verdict)
    ensures SeatsOk(lib, panel, commits, revealed[key := verdict])
    ensures Majority(revealed) != "" ==> Majority(revealed[key := verdict]) == Majority(revealed)
  {
    var more := revealed[key := verdict];
    assert forall k :: k in more && k != key ==> more[k] == revealed[k];
    AtMostFiveReveals(lib, panel, commits, more);
    if Majority(revealed) != "" {
      MajorityStays(revealed, key, verdict);
    }
  }

  lemma RevealKeeps(lib: Lib, c: Case, key: string, verdict: string, nonce: string)
    requires CaseOk(lib, c) && Verdict(verdict)
    ensures var d := RevealIn(lib, c, key, verdict, nonce).0; CaseOk(lib, d) && Later(c, d)
  {
    if RevealIn(lib, c, key, verdict, nonce).1.Ok? {
      RevealSeats(lib, c.panel, c.commits, c.revealed, key, verdict);
    }
  }

  lemma SetCaseKeeps(lib: Lib, b: Book, id: string, c: Case)
    requires Inv(lib, b) && id in b.cases && CaseOk(lib, c)
    requires c.escrow == b.cases[id].escrow && c.terms == b.cases[id].terms
    ensures Inv(lib, SetCase(b, id, c))
  {
    forall x | x in SetCase(b, id, c).cases ensures FiledUnder(lib, SetCase(b, id, c), x) {
      assert FiledUnder(lib, b, x);
    }
  }

  lemma OpenKeeps(lib: Lib, b: Book, op: Op)
    requires Inv(lib, b) && op.Open?
    ensures Inv(lib, OpenCase(lib, b, op))
  {
    if Opens(lib, b, op) {
      NewCaseOk(lib, b, op);
      var id := CaseId(lib, op.escrow, op.terms);
      var after := OpenCase(lib, b, op);
      forall x | x in after.cases ensures FiledUnder(lib, after, x) {
        if x != id {
          assert FiledUnder(lib, b, x);
        }
      }
    } else if OpenReply(lib, b, op).Ok? {
      var id := b.byEscrow[op.escrow];
      SetCaseKeeps(lib, b, id, b.cases[id].(prior := op.prior));
    }
  }

  lemma NewCaseOk(lib: Lib, b: Book, op: Op)
    requires Opens(lib, b, op)
    ensures CaseOk(lib, NewCase(lib, b, op))
  {
    PanelPick.SeatedAreFive(PanelPick.Allowed(Pool(b, op.bonded), op.exclude), lib.draw(op.escrow, op.terms));
    assert Backers(map[], FULFILLED) == {} && Backers(map[], NOT_FULFILLED) == {};
  }

  lemma HeightKeeps(lib: Lib, b: Book, h: nat)
    requires Inv(lib, b)
    ensures Inv(lib, HeightSet(b, h))
  {
    var after := HeightSet(b, h);
    forall id | id in after.cases ensures CaseOk(lib, after.cases[id]) && FiledUnder(lib, after, id) {
      AgedKeeps(lib, b.cases[id], h);
      assert FiledUnder(lib, b, id);
    }
  }

  lemma RosterKeeps(lib: Lib, b: Book, roster: seq<string>)
    requires Inv(lib, b)
    ensures Inv(lib, b.(roster := roster))
  {
    forall id | id in b.cases ensures FiledUnder(lib, b.(roster := roster), id) {
      assert FiledUnder(lib, b, id);
    }
  }

  lemma CommittedKeeps(lib: Lib, b: Book, id: string, key: string, digest: string)
    requires Inv(lib, b)
    ensures Inv(lib, Committed(b, id, key, digest))
  {
    if id in b.cases {
      CommitKeeps(lib, b.cases[id], key, digest);
      SetCaseKeeps(lib, b, id, CommitTo(b.cases[id], key, digest).0);
    }
  }

  lemma RevealMadeKeeps(lib: Lib, b: Book, id: string, key: string, verdict: string, nonce: string)
    requires Inv(lib, b)
    ensures Inv(lib, RevealMade(lib, b, id, key, verdict, nonce))
  {
    if Verdict(verdict) && id in b.cases {
      RevealKeeps(lib, b.cases[id], key, verdict, nonce);
      SetCaseKeeps(lib, b, id, RevealIn(lib, b.cases[id], key, verdict, nonce).0);
    }
  }

  lemma QueriedKeeps(lib: Lib, b: Book, id: string)
    requires Inv(lib, b)
    ensures Inv(lib, Queried(b, id))
  {
    if id in b.cases {
      AgedKeeps(lib, b.cases[id], b.height);
      SetCaseKeeps(lib, b, id, Asked(b.cases[id], b.height));
    }
  }

  lemma StepKeeps(lib: Lib, b: Book, op: Op)
    requires Inv(lib, b)
    ensures Inv(lib, Step(lib, b, op))
  {
    match op
    case SetRoster(keys) => RosterKeeps(lib, b, Unique(keys));
    case SetHeight(h) => HeightKeeps(lib, b, h);
    case Open(_, _, _, _, _, _) => OpenKeeps(lib, b, op);
    case Commit(id, key, digest) => CommittedKeeps(lib, b, id, key, digest);
    case Reveal(id, key, verdict, nonce) => RevealMadeKeeps(lib, b, id, key, verdict, nonce);
    case Query(id) => QueriedKeeps(lib, b, id);
  }

  // ----- runs -----

  /** Every book reached by any sequence of operations satisfies the invariant. */
  ghost function Run(lib: Lib, b: Book, ops: seq<Op>): (r: Book)
    requires Inv(lib, b)
    ensures Inv(lib, r)
    decreases |ops|
  {
    if ops == [] then b
    else
      var before := Run(lib, b, ops[..|ops| - 1]);
      StepKeeps(lib, before, ops[|ops| - 1]);
      Step(lib, before, ops[|ops| - 1])
  }

  /** The step opens another escrow's case under an identifier already in use. */
  ghost predicate Replaces(lib: Lib, b: Book, op: Op, id: string) {
    Opens(lib, b, op) && CaseId(lib, op.escrow, op.terms) == id && id in b.cases
  }

  lemma LaterRefl(c: Case)
    ensures Later(c, c)
  {
  }

  /** The case is still there, and later. */
  ghost predicate CaseLater(b: Book, d: Book, id: string)
    requires id in b.cases
  {
    id in d.cases && Later(b.cases[id], d.cases[id])
  }

  lemma RosterLater(lib: Lib, b: Book, keys: seq<string>, id: string)
    requires Inv(lib, b) && id in b.cases
    ensures CaseLater(b, Step(lib, b, SetRoster(keys)), id)
  {
    LaterRefl(b.cases[id]);
  }

  lemma OpenLater(lib: Lib, b: Book, op: Op, id: string)
    requires Inv(lib, b) && op.Open? && id in b.cases && !Replaces(lib, b, op, id)
    ensures CaseLater(b, Step(lib, b, op), id)
  {
    LaterRefl(b.cases[id]);
  }

  lemma SetCaseLater(b: Book, x: string, c: Case, id: string)
    requires x in b.cases && id in b.cases && Later(b.cases[x], c)
    ensures id in SetCase(b, x, c).cases && Later(b.cases[id], SetCase(b, x, c).cases[id])
  {
    LaterRefl(b.cases[id]);
  }

  lemma CommittedLater(lib: Lib, b: Book, x: string, key: string, digest: string, id: string)
    requires Inv(lib, b) && id in b.cases
    ensures CaseLater(b, Step(lib, b, Commit(x, key, digest)), id)
  {
    LaterRefl(b.cases[id]);
    if x in b.cases {
      CommitKeeps(lib, b.cases[x], key, digest);
      SetCaseLater(b, x, CommitTo(b.cases[x], key, digest).0, id);
    }
  }

  lemma RevealMadeLater(lib: Lib, b: Book, x: string, key: string, verdict: string, nonce: string, id: string)
    requires Inv(lib, b) && id in b.cases
    ensures CaseLater(b, Step(lib, b, Reveal(x, key, verdict, nonce)), id)
  {
    LaterRefl(b.cases[id]);
    if Verdict(verdict) && x in b.cases {
      RevealKeeps(lib, b.cases[x], key, verdict, nonce);
      SetCaseLater(b, x, RevealIn(lib, b.cases[x], key, verdict, nonce).0, id);
    }
  }

  lemma QueriedLater(lib: Lib, b: Book, x: string, id: string)
    requires Inv(lib, b) && id in b.cases
    ensures CaseLater(b, Step(lib, b, Query(x)), id)
  {
    LaterRefl(b.cases[id]);
    if x in b.cases {
      AgedKeeps(lib, b.cases[x], b.height);
      SetCaseLater(b, x, Asked(b.cases[x], b.height), id);
    }
  }

  lemma SetHeightLater(lib: Lib, b: Book, h: nat, id: string)
    requires Inv(lib, b) && id in b.cases
    ensures CaseLater(b, Step(lib, b, SetHeight(h)), id)
  {
    AgedKeeps(lib, b.cases[id], h);
  }

  lemma StepLater(lib: Lib, b: Book, op: Op, id: string)
    requires Inv(lib, b) && id in b.cases && !Replaces(lib, b, op, id)
    ensures CaseLater(b, Step(lib, b, op), id)
  {
    match op
    case SetRoster(keys) => RosterLater(lib, b, keys, id);
    case SetHeight(h) => SetHeightLater(lib, b, h, id);
    case Open(_, _, _, _, _, _) => OpenLater(lib, b, op, id);
    case Commit(x, key, digest) => CommittedLater(lib, b, x, key, digest, id);
    case Reveal(x, key, verdict, nonce) => RevealMadeLater(lib, b, x, key, verdict, nonce, id);
    case Query(x) => QueriedLater(lib, b, x, id);
  }

  lemma LaterTransitive(c: Case, d: Case, e: Case)
    requires Later(c, d) && Later(d, e)
    ensures Later(c, e)
  {
  }

  /** No step of the run reuses this identifier for another escrow. */
  ghost predicate NeverReplaced(lib: Lib, b: Book, ops: seq<Op>, id: string)
    requires Inv(lib, b)
    decreases |ops|
  {
    ops == [] ||
    var n := |ops| - 1;
    NeverReplaced(lib, b, ops[..n], id) && !Replaces(lib, Run(lib, b, ops[..n]), ops[n], id)
  }

  lemma OneStepLater(lib: Lib, c: Case, b: Book, op: Op, id: string)
    requires Inv(lib, b) && id in b.cases && !Replaces(lib, b, op, id) && Later(c, b.cases[id])
    ensures id in Step(lib, b, op).cases && Later(c, Step(lib, b, op).cases[id])
  {
    StepLater(lib, b, op, id);
    LaterTransitive(c, b.cases[id], Step(lib, b, op).cases[id]);
  }

  /** Over any run a case keeps its panel, commits, reveals, freeze and quorum, once it has them. */
  lemma {:induction false} RunLater(lib: Lib, b: Book, ops: seq<Op>, id: string)
    requires Inv(lib, b) && id in b.cases && NeverReplaced(lib, b, ops, id)
    ensures id in Run(lib, b, ops).cases && Later(b.cases[id], Run(lib, b, ops).cases[id])
    decreases |ops|
  {
    if ops == [] {
      LaterRefl(b.cases[id]);
    } else {
      var n := |ops| - 1;
      RunLater(lib, b, ops[..n], id);
      OneStepLater(lib, b.cases[id], Run(lib, b, ops[..n]), ops[n], id);
    }
  }

  /** Replacing a case takes two different strings with one hash. */
  lemma ReplacingNeedsACollision(lib: Lib, b: Book, op: Op, id: string)
    requires Inv(lib, b) && Replaces(lib, b, op, id)
    requires |lib.hash(b.cases[id].terms)| == |lib.hash(op.terms)|
    ensures exists x, y :: x != y && lib.hash(x) == lib.hash(y)
  {
    assert FiledUnder(lib, b, id);
    var c := b.cases[id];
    if CaseMessage(c.escrow, lib.hash(c.terms)) == CaseMessage(op.escrow, lib.hash(op.terms)) {
      SameMessage(c.escrow, lib.hash(c.terms), op.escrow, lib.hash(op.terms));
    }
  }

  lemma SameMessage(e: string, h: string, f: string, g: string)
    requires CaseMessage(e, h) == CaseMessage(f, g) && |h| == |g|
    ensures e == f
  {
    var x, y := CaseMessage(e, h), CaseMessage(f, g);
    assert |e| == |f|;
    assert e == x[10..10 + |e|] && f == y[10..10 + |f|];
  }

  /** One commit cannot open to both verdicts unless two different strings share a hash. */
  lemma CommitBinds(lib: Lib, commit: string, v: string, w: string)
    requires Verdict(v) && Verdict(w) && v != w
    requires Matches(lib, commit, v) && Matches(lib, commit, w)
    ensures exists x, y :: x != y && lib.hash(x) == lib.hash(y)
  {
    var n :| commit == lib.hash(Sealed(v, n));
    var m :| commit == lib.hash(Sealed(w, m));
    assert Sealed(v, n)[0] == v[0] && Sealed(w, m)[0] == w[0];
    assert Sealed(v, n) != Sealed(w, m);
  }

  // ----- answers -----

  /** What Quorum answers: the majority of the reveals of a case that is frozen or past its deadline. */
  lemma AnswerIsTheMajority(lib: Lib, c: Case, height: nat, v: string)
    requires CaseOk(lib, c) && Verdict(v)
    ensures Answer(c, height) == Some(CoreOutcome(v)) <==>
            (c.frozen || height > c.deadline) && HasThree(c.revealed, v)
    ensures Answer(c, height).None? <==>
            !(c.frozen || height > c.deadline) || forall w :: !HasThree(c.revealed, w)
  {
    AtMostFiveReveals(lib, c.panel, c.commits, c.revealed);
    forall w | HasThree(c.revealed, w) ensures w == Majority(c.revealed) && Verdict(w) {
      MajorityIsUnique(c.revealed, w);
    }
  }

  function BookAnswer(b: Book, id: string): Option<string> {
    if id in b.cases then Answer(b.cases[id], b.height) else None
  }

  // ----- the file -----

  /** The operations that do not rewrite the file: queries, refusals and a repeated opening. */
  ghost predicate Quiet(lib: Lib, b: Book, op: Op) {
    match op
    case SetRoster(_) => false
    case SetHeight(_) => false
    case Open(_, _, _, _, _, _) => !Opens(lib, b, op)
    case Commit(id, key, digest) => id !in b.cases || CommitTo(b.cases[id], key, digest).1 != Ok
    case Reveal(id, key, verdict, nonce) =>
      !Verdict(verdict) || id !in b.cases || RevealIn(lib, b.cases[id], key, verdict, nonce).1 != Ok
    case Query(_) => true
  }

  ghost predicate SameAnswers(b: Book, d: Book) {
    b.height == d.height && forall id :: BookAnswer(b, id) == BookAnswer(d, id)
  }

  lemma QuietStep(lib: Lib, b: Book, op: Op)
    requires Inv(lib, b) && Quiet(lib, b, op)
    ensures SameAnswers(b, Step(lib, b, op))
  {
    var d := Step(lib, b, op);
    QuietSame(lib, b, op);
    forall id ensures BookAnswer(b, id) == BookAnswer(d, id) {
      if id in b.cases {
        QuietCase(lib, b, op, id);
        AskedTwice(b.cases[id], b.height);
      }
    }
  }

  /** The case has at most a new prior result, or what a query would have settled. */
  ghost predicate Unmoved(c: Case, d: Case, height: nat) {
    d == c.(prior := d.prior) || d == Asked(c, height)
  }

  lemma SetSame(b: Book, id: string)
    requires id in b.cases
    ensures SetCase(b, id, b.cases[id]) == b
  {
    assert b.cases[id := b.cases[id]] == b.cases;
  }

  lemma RefusedChangesNothing(lib: Lib, c: Case, key: string, digest: string, verdict: string, nonce: string)
    ensures CommitTo(c, key, digest).1 != Ok ==> CommitTo(c, key, digest).0 == c
    ensures RevealIn(lib, c, key, verdict, nonce).1 != Ok ==> RevealIn(lib, c, key, verdict, nonce).0 == c
  {
  }

  lemma Refused(lib: Lib, b: Book, op: Op)
    requires Inv(lib, b) && Quiet(lib, b, op) && (op.Commit? || op.Reveal?)
    ensures Step(lib, b, op) == b
  {
    if op.id in b.cases {
      SetSame(b, op.id);
      if op.Commit? {
        RefusedChangesNothing(lib, b.cases[op.id], op.key, op.digest, "", "");
      } else if Verdict(op.verdict) {
        RefusedChangesNothing(lib, b.cases[op.id], op.key, "", op.verdict, op.nonce);
      }
    }
  }

  lemma QuietCase(lib: Lib, b: Book, op: Op, id: string)
    requires Inv(lib, b) && Quiet(lib, b, op) && id in b.cases
    ensures id in Step(lib, b, op).cases && Unmoved(b.cases[id], Step(lib, b, op).cases[id], b.height)
  {
    if op.Commit? || op.Reveal? {
      Refused(lib, b, op);
    }
  }

  lemma QuietSame(lib: Lib, b: Book, op: Op)
    requires Inv(lib, b) && Quiet(lib, b, op)
    ensures Step(lib, b, op).height == b.height && Step(lib, b, op).cases.Keys == b.cases.Keys
  {
  }

  lemma AskedTwice(c: Case, h: nat)
    ensures Answer(Asked(c, h), h) == Answer(c, h)
    ensures forall p :: Answer(c.(prior := p), h) == Answer(c, h)
  {
  }

  /** Filing pairs one after another, a later one replacing an earlier one with its key. */
  function Filed<V>(pairs: seq<(string, V)>): map<string, V> {
    if pairs == [] then map[]
    else Filed(pairs[..|pairs| - 1])[pairs[|pairs| - 1].0 := pairs[|pairs| - 1].1]
  }

  ghost predicate DistinctKeys<V>(pairs: seq<(string, V)>) {
    forall i, j :: 0 <= i < j < |pairs| ==> pairs[i].0 != pairs[j].0
  }

  /** The pairs are the map's entries, each once. */
  ghost predicate Entries<V>(pairs: seq<(string, V)>, m: map<string, V>) {
    && (forall i :: 0 <= i < |pairs| ==> pairs[i].0 in m && m[pairs[i].0] == pairs[i].1)
    && (forall k :: k in m ==> exists i :: 0 <= i < |pairs| && pairs[i].0 == k)
  }

  lemma {:induction false} FiledEntries<V>(pairs: seq<(string, V)>)
    requires DistinctKeys(pairs)
    ensures Entries(pairs, Filed(pairs))
    decreases |pairs|
  {
    if pairs != [] {
      var n := |pairs| - 1;
      FiledEntries(pairs[..n]);
      FiledOne(pairs[..n], pairs[n], Filed(pairs[..n]));
      assert pairs[..n] + [pairs[n]] == pairs;
    }
  }

  lemma FiledOne<V>(pairs: seq<(string, V)>, last: (string, V), m: map<string, V>)
    requires Entries(pairs, m) && forall i :: 0 <= i < |pairs| ==> pairs[i].0 != last.0
    ensures Entries(pairs + [last], m[last.0 := last.1])
  {
    var more, big := pairs + [last], m[last.0 := last.1];
    assert more[|pairs|] == last;
    forall k | k in big ensures exists i :: 0 <= i < |more| && more[i].0 == k {
      if k != last.0 {
        var i :| 0 <= i < |pairs| && pairs[i].0 == k;
        assert more[i].0 == k;
      }
    }
  }

  lemma EntriesUnique<V>(pairs: seq<(string, V)>, m: map<string, V>, w: map<string, V>)
    requires Entries(pairs, m) && Entries(pairs, w)
    ensures m == w
  {
    assert forall k :: k in m ==> k in w && m[k] == w[k];
    assert forall k :: k in w ==> k in m;
  }

  /** Each row's escrow with the identifier it is filed under. */
  function EscrowPairs(rows: seq<(string, Case)>): seq<(string, string)> {
    seq(|rows|, i requires 0 <= i < |rows| => (rows[i].1.escrow, rows[i].0))
  }

  /** The book OpenBook rebuilds from a file's rows. */
  function Reopened(rows: seq<(string, Case)>, roster: seq<string>, height: nat): Book {
    Book(Filed(rows), Filed(EscrowPairs(rows)), roster, height)
  }

  /** Every opened escrow still leads to its own case. */
  ghost predicate Linked(b: Book) {
    forall e :: e in b.byEscrow ==> b.byEscrow[e] in b.cases && b.cases[b.byEscrow[e]].escrow == e
  }

  lemma OpeningLinks(lib: Lib, b: Book, op: Op)
    requires Inv(lib, b) && Linked(b) && Opens(lib, b, op)
    ensures Linked(OpenCase(lib, b, op)) <==> CaseId(lib, op.escrow, op.terms) !in b.cases
  {
    var d := OpenCase(lib, b, op);
    var id := CaseId(lib, op.escrow, op.terms);
    if id in b.cases {
      assert FiledUnder(lib, b, id);
      assert d.byEscrow[b.cases[id].escrow] == id && d.cases[id].escrow == op.escrow;
    }
  }

  lemma OthersLink(lib: Lib, b: Book, op: Op, e: string)
    requires Inv(lib, b) && Linked(b) && !Opens(lib, b, op) && e in b.byEscrow
    ensures var d := Step(lib, b, op); b.byEscrow[e] in d.cases && d.cases[b.byEscrow[e]].escrow == e
  {
    StepLater(lib, b, op, b.byEscrow[e]);
  }

  lemma OnlyOpeningsFile(lib: Lib, b: Book, op: Op)
    requires Inv(lib, b) && !Opens(lib, b, op)
    ensures Step(lib, b, op).byEscrow == b.byEscrow
  {
  }

  /** The only step that unlinks an escrow is one that reuses a case's identifier. */
  lemma StepLinks(lib: Lib, b: Book, op: Op)
    requires Inv(lib, b) && Linked(b)
    ensures Linked(Step(lib, b, op)) <==> !(Opens(lib, b, op) && CaseId(lib, op.escrow, op.terms) in b.cases)
  {
    if Opens(lib, b, op) {
      OpeningLinks(lib, b, op);
    } else {
      OnlyOpeningsFile(lib, b, op);
      forall e | e in b.byEscrow
        ensures b.byEscrow[e] in Step(lib, b, op).cases && Step(lib, b, op).cases[b.byEscrow[e]].escrow == e
      {
        OthersLink(lib, b, op, e);
      }
    }
  }

  lemma CasesBack(b: Book, rows: seq<(string, Case)>)
    requires DistinctKeys(rows) && Entries(rows, b.cases)
    ensures Filed(rows) == b.cases
  {
    FiledEntries(rows);
    EntriesUnique(rows, Filed(rows), b.cases);
  }

  lemma EscrowsDistinct(lib: Lib, b: Book, rows: seq<(string, Case)>)
    requires Inv(lib, b) && DistinctKeys(rows) && Entries(rows, b.cases)
    ensures DistinctKeys(EscrowPairs(rows))
  {
    var pairs := EscrowPairs(rows);
    forall i, j | 0 <= i < j < |pairs| ensures pairs[i].0 != pairs[j].0 {
      assert FiledUnder(lib, b, rows[i].0) && FiledUnder(lib, b, rows[j].0);
    }
  }

  /** An escrow that comes back led to its own case, and leads there again. */
  lemma EscrowCameFrom(lib: Lib, b: Book, rows: seq<(string, Case)>, m: map<string, string>, e: string)
    requires Inv(lib, b) && Entries(rows, b.cases) && Entries(EscrowPairs(rows), m) && e in m
    ensures e in b.byEscrow && m[e] == b.byEscrow[e] && b.cases[m[e]].escrow == e
  {
    var pairs := EscrowPairs(rows);
    var i :| 0 <= i < |pairs| && pairs[i].0 == e;
    assert FiledUnder(lib, b, rows[i].0);
  }

  /** An escrow that leads to its own case comes back. */
  lemma EscrowComesBack(b: Book, rows: seq<(string, Case)>, m: map<string, string>, e: string)
    requires Entries(rows, b.cases) && Entries(EscrowPairs(rows), m)
    requires e in b.byEscrow && b.byEscrow[e] in b.cases && b.cases[b.byEscrow[e]].escrow == e
    ensures e in m
  {
    var pairs := EscrowPairs(rows);
    var i :| 0 <= i < |rows| && rows[i].0 == b.byEscrow[e];
    assert pairs[i].0 == e;
  }

  /** Writing the book and opening it again loses nothing exactly when every escrow leads to its own case. */
  lemma ReopenIsExact(lib: Lib, b: Book, rows: seq<(string, Case)>)
    requires Inv(lib, b) && DistinctKeys(rows) && Entries(rows, b.cases)
    ensures Reopened(rows, b.roster, b.height) == b <==> Linked(b)
  {
    CasesBack(b, rows);
    EscrowsDistinct(lib, b, rows);
    FiledEntries(EscrowPairs(rows));
    var m := Filed(EscrowPairs(rows));
    EscrowsBack(lib, b, rows, m);
  }

  lemma EscrowsBack(lib: Lib, b: Book, rows: seq<(string, Case)>, m: map<string, string>)
    requires Inv(lib, b) && Entries(rows, b.cases) && Entries(EscrowPairs(rows), m)
    ensures m == b.byEscrow <==> Linked(b)
  {
    var own := set e | e in b.byEscrow && b.cases[b.byEscrow[e]].escrow == e;
    assert Linked(b) <==> b.byEscrow.Keys <= own;
    forall e | e in m ensures e in b.byEscrow && m[e] == b.byEscrow[e] && e in own {
      EscrowCameFrom(lib, b, rows, m, e);
    }
    forall e | e in own ensures e in m {
      EscrowComesBack(b, rows, m, e);
    }
    RestrictedTo(m, b.byEscrow, own);
  }

  /** A map cut down to some keys is the whole map exactly when those are all its keys. */
  lemma RestrictedTo(m: map<string, string>, w: map<string, string>, own: set<string>)
    requires forall e :: e in m ==> e in w && m[e] == w[e] && e in own
    requires forall e :: e in own ==> e in m
    ensures m == w <==> w.Keys <= own
  {
    if w.Keys <= own {
      assert forall e :: e in w ==> e in m;
    }
  }

  /** Steps since the last write that the file never saw. */
  ghost predicate AllQuiet(lib: Lib, b: Book, ops: seq<Op>)
    requires Inv(lib, b)
    decreases |ops|
  {
    ops == [] ||
    var n := |ops| - 1;
    AllQuiet(lib, b, ops[..n]) && Quiet(lib, Run(lib, b, ops[..n]), ops[n])
  }

  /** A gateway that stops after any number of unwritten steps answers every case the same when reopened. */
  lemma {:induction false} RestartKeepsAnswers(lib: Lib, b: Book, ops: seq<Op>, rows: seq<(string, Case)>)
    requires Inv(lib, b) && AllQuiet(lib, b, ops) && DistinctKeys(rows) && Entries(rows, b.cases)
    ensures SameAnswers(Reopened(rows, b.roster, b.height), Run(lib, b, ops))
    decreases |ops|
  {
    CasesBack(b, rows);
    if ops != [] {
      var n := |ops| - 1;
      RestartKeepsAnswers(lib, b, ops[..n], rows);
      QuietStep(lib, Run(lib, b, ops[..n]), ops[n]);
    }
  }
}
