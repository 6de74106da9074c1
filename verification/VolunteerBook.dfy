/** The book object whose methods the gateway calls (internal/deals/book.go). */
module VolunteerBook {
  import opened Sequences
  import opened DealBook
  import PanelPick

  /** The quorum loop finds a panel's majority, in whatever order the reveals come. */
  method MajorityOf(revealed: map<string, string>) returns (v: string)
    requires Panelled(revealed)
    ensures v == Majority(revealed)
  {
    var ok: bool;
    v, ok := QuorumOf(revealed);
    if ok {
      MajorityIsUnique(revealed, v);
    }
  }

  method Settle(c: Case) returns (d: Case)
    requires Panelled(c.revealed)
    ensures d == Settled(c)
  {
    d := c;
    if c.frozen && c.quorum == "" {
      var v := MajorityOf(c.revealed);
      d := c.(quorum := v);
    }
  }

  method Age(c: Case, h: nat) returns (d: Case)
    requires Panelled(c.revealed)
    ensures d == Aged(c, h)
  {
    d := c;
    if !c.frozen && h > c.deadline {
      d := Settle(c.(frozen := true));
    }
  }

  method TryCommit(c: Case, key: string, digest: string) returns (d: Case, reply: Reply)
    ensures (d, reply) == CommitTo(c, key, digest)
  {
    d := c;
    if key !in c.panel {
      return d, NotOnPanel;
    }
    if key in c.commits {
      return d, AlreadyCommitted;
    }
    if digest == "" {
      return d, HashRequired;
    }
    d, reply := c.(commits := c.commits[key := digest]), Ok;
  }

  method TryReveal(lib: Lib, c: Case, key: string, verdict: string, nonce: string) returns (d: Case, reply: Reply)
    requires CaseOk(lib, c) && Verdict(verdict)
    ensures (d, reply) == RevealIn(lib, c, key, verdict, nonce)
  {
    d := c;
    if key !in c.panel {
      return d, NotOnPanel;
    }
    if key !in c.commits || c.commits[key] != lib.hash(Sealed(verdict, nonce)) {
      return d, NoMatch;
    }
    if key in c.revealed {
      return d, AlreadyRevealed;
    }
    RevealedAreFive(lib, c, key, verdict, nonce);
    d := Settle(c.(revealed := c.revealed[key := verdict]));
    reply := Ok;
  }

  method Ask(lib: Lib, c: Case, height: nat) returns (d: Case, answer: Option<string>)
    requires CaseOk(lib, c)
    ensures d == Asked(c, height) && answer == Answer(c, height)
  {
    d := c;
    AtMostFiveReveals(lib, c.panel, c.commits, c.revealed);
    if !d.frozen && height > d.deadline {
      d := d.(frozen := true);
    }
    d := Settle(d);
    answer := if d.frozen && d.quorum != "" then Some(CoreOutcome(d.quorum)) else None;
  }

  /** SetHeight's loop over the cases, in whatever order the map gives them. */
  method AgeEach(cases: map<string, Case>, h: nat) returns (r: map<string, Case>)
    requires forall id :: id in cases ==> Panelled(cases[id].revealed)
    ensures r == AgeAll(cases, h)
  {
    r := cases;
    var todo := cases.Keys;
    while todo != {}
      invariant todo <= cases.Keys && r.Keys == cases.Keys
      invariant forall id :: id in cases ==> r[id] == if id in todo then cases[id] else Aged(cases[id], h)
      decreases todo
    {
      var id :| id in todo;
      var d := Age(r[id], h);
      r := r[id := d];
      todo := todo - {id};
    }
    assert r == AgeAll(cases, h);
  }

  method UniqueKeys(keys: seq<string>) returns (out: seq<string>)
    ensures out == Unique(keys)
  {
    out := [];
    var i := 0;
    while i < |keys|
      invariant 0 <= i <= |keys|
      invariant out == Unique(keys[..i])
    {
      assert keys[..i + 1][..i] == keys[..i];
      if keys[i] != "" && keys[i] !in out {
        out := out + [keys[i]];
      }
      i := i + 1;
    }
    assert keys[..|keys|] == keys;
  }

  method ReadRows(rows: seq<(string, Case)>) returns (cases: map<string, Case>, byEscrow: map<string, string>)
    ensures cases == Filed(rows) && byEscrow == Filed(EscrowPairs(rows))
  {
    cases, byEscrow := map[], map[];
    var pairs := EscrowPairs(rows);
    var i := 0;
    while i < |rows|
      invariant 0 <= i <= |rows|
      invariant cases == Filed(rows[..i]) && byEscrow == Filed(pairs[..i])
    {
      assert rows[..i + 1][..i] == rows[..i] && pairs[..i + 1][..i] == pairs[..i];
      var (id, c) := rows[i];
      cases, byEscrow := cases[id := c], byEscrow[c.escrow := id];
      i := i + 1;
    }
    assert rows[..|rows|] == rows && pairs[..|rows|] == pairs;
  }

  class Volunteers {
    const lib: Lib
    var cases: map<string, Case>
    var byEscrow: map<string, string>
    var roster: seq<string>
    var height: nat

    ghost function Now(): Book
      reads this
    {
      Book(cases, byEscrow, roster, height)
    }

    constructor (lib: Lib)
      ensures this.lib == lib && Now() == EMPTY && Inv(lib, Now())
    {
      this.lib := lib;
      cases, byEscrow, roster, height := map[], map[], [], 0;
    }

    /** OpenBook: the rows of a book that was written come back as that book. */
    constructor Load(lib: Lib, rows: seq<(string, Case)>, roster: seq<string>, height: nat)
      ensures this.lib == lib && Now() == Reopened(rows, roster, height)
    {
      this.lib := lib;
      this.roster, this.height := roster, height;
      var c, e := ReadRows(rows);
      cases, byEscrow := c, e;
    }

    method SetRoster(keys: seq<string>)
      requires Inv(lib, Now())
      modifies this
      ensures Now() == old(Now()).(roster := Unique(keys)) && Inv(lib, Now())
    {
      RosterKeeps(lib, Now(), Unique(keys));
      roster := UniqueKeys(keys);
    }

    method SetHeight(h: nat)
      requires Inv(lib, Now())
      modifies this
      ensures Now() == HeightSet(old(Now()), h) && Inv(lib, Now())
    {
      EveryCaseHasAtMostFive(lib, Now());
      var aged := AgeEach(cases, h);
      HeightKeeps(lib, Now(), h);
      height, cases := h, aged;
    }

    method OpenAppeal(terms: string, deadline: nat, escrow: string, bonded: seq<string>, exclude: seq<string>,
                      prior: string) returns (reply: Reply)
      requires Inv(lib, Now())
      modifies this
      ensures var op := Open(terms, deadline, escrow, bonded, exclude, prior);
              && Now() == OpenCase(lib, old(Now()), op) && Inv(lib, Now())
              && reply == OpenReply(lib, old(Now()), op)
    {
      ghost var op := Open(terms, deadline, escrow, bonded, exclude, prior);
      OpenKeeps(lib, Now(), op);
      if terms == "" || escrow == "" {
        return TermsRequired;
      }
      if escrow in byEscrow {
        var id := byEscrow[escrow];
        cases := cases[id := cases[id].(prior := prior)];
        return Ok;
      }
      reply := OpenNew(terms, deadline, escrow, bonded, exclude, prior);
    }

    /** Seats a panel and files the case, for an escrow not in the book. */
    method OpenNew(terms: string, deadline: nat, escrow: string, bonded: seq<string>, exclude: seq<string>,
                   prior: string) returns (reply: Reply)
      requires terms != "" && escrow != "" && escrow !in byEscrow
      requires forall e :: e in byEscrow ==> byEscrow[e] in cases
      modifies this
      ensures var op := Open(terms, deadline, escrow, bonded, exclude, prior);
              Now() == OpenCase(lib, old(Now()), op) && reply == OpenReply(lib, old(Now()), op)
    {
      var panel := PanelPick.PickFive(lib.draw(escrow, terms), if roster == [] then bonded else roster, exclude);
      if panel.None? {
        return TooFewVolunteers;
      }
      var id := CaseId(lib, escrow, terms);
      if id == escrow {
        return IdCollided;
      }
      cases := cases[id := Case(escrow, terms, prior, panel.value, map[], map[], "", deadline, false)];
      byEscrow := byEscrow[escrow := id];
      reply := Ok;
    }

    method Commit(id: string, key: string, digest: string) returns (reply: Reply)
      requires Inv(lib, Now())
      modifies this
      ensures Now() == Committed(old(Now()), id, key, digest) && Inv(lib, Now())
      ensures reply == if id in old(cases) then CommitTo(old(cases)[id], key, digest).1 else UnknownCase
    {
      CommittedKeeps(lib, Now(), id, key, digest);
      if id !in cases {
        return UnknownCase;
      }
      var c: Case;
      c, reply := TryCommit(cases[id], key, digest);
      cases := cases[id := c];
    }

    method RevealNonce(id: string, key: string, verdict: string, nonce: string) returns (reply: Reply)
      requires Inv(lib, Now())
      modifies this
      ensures Now() == RevealMade(lib, old(Now()), id, key, verdict, nonce) && Inv(lib, Now())
      ensures reply == if !Verdict(verdict) then BadVerdict
                       else if id !in old(cases) then UnknownCase
                       else RevealIn(lib, old(cases)[id], key, verdict, nonce).1
    {
      RevealMadeKeeps(lib, Now(), id, key, verdict, nonce);
      if !Verdict(verdict) {
        return BadVerdict;
      }
      if id !in cases {
        return UnknownCase;
      }
      var c: Case;
      c, reply := TryReveal(lib, cases[id], key, verdict, nonce);
      cases := cases[id := c];
    }

    method Quorum(id: string) returns (answer: Option<string>)
      requires Inv(lib, Now())
      modifies this
      ensures Now() == Queried(old(Now()), id) && Inv(lib, Now())
      ensures answer == BookAnswer(old(Now()), id)
    {
      QueriedKeeps(lib, Now(), id);
      if id !in cases {
        return None;
      }
      var c: Case;
      c, answer := Ask(lib, cases[id], height);
      cases := cases[id := c];
    }
  }

  lemma EveryCaseHasAtMostFive(lib: Lib, b: Book)
    requires Inv(lib, b)
    ensures forall id :: id in b.cases ==> Panelled(b.cases[id].revealed)
  {
    forall id | id in b.cases ensures Panelled(b.cases[id].revealed) {
      AtMostFiveReveals(lib, b.cases[id].panel, b.cases[id].commits, b.cases[id].revealed);
    }
  }

  lemma RevealedAreFive(lib: Lib, c: Case, key: string, verdict: string, nonce: string)
    requires CaseOk(lib, c) && Verdict(verdict) && key in c.commits && key !in c.revealed
    requires c.commits[key] == lib.hash(Sealed(verdict, nonce))
    ensures Panelled(c.revealed[key := verdict])
  {
    assert Matches(lib, c.commits[key], verdict);
    RevealSeats(lib, c.panel, c.commits, c.revealed, key, verdict);
    AtMostFiveReveals(lib, c.panel, c.commits, c.revealed[key := verdict]);
  }
}
