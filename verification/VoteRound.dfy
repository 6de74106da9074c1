/** One L1 or L2 vote round: a committee, its first votes and a threshold (internal/handlers/handlers.go). */
module VoteRound {
  import opened Sequences

  const L1_THRESHOLD_PCT := 67
  const L2_THRESHOLD_PCT := 70

  /** `slashes` lists, in order, the equivocations the round reported. */
  datatype Round = Round(committee: set<string>, total: nat, votes: map<string, bool>,
                         closed: bool, done: Option<bool>, slashes: seq<string>)

  datatype Event = Vote(node: string, yes: bool) | Timeout

  function Yes(votes: map<string, bool>): set<string> {
    set k | k in votes && votes[k]
  }

  function Need(total: nat, pct: nat): nat {
    (total * pct + 99) / 100
  }

  predicate Reached(total: nat, votes: map<string, bool>, pct: nat) {
    |Yes(votes)| >= Need(total, pct) && |votes| >= Need(total, pct)
  }

  /** The channel holds one value: a second send is dropped. */
  function Close(r: Round, verdict: bool): Round {
    if r.closed then r
    else r.(closed := true, done := if r.done.None? then Some(verdict) else r.done)
  }

  function Begin(me: string, others: set<string>): Round {
    var r := Round({me} + others, |{me} + others|, map[me := true], false, None, []);
    if r.total == 1 then Close(r, true) else r
  }

  function Step(r: Round, pct: nat, e: Event): Round {
    match e
    case Timeout => Close(r, false)
    case Vote(node, yes) =>
      if node !in r.committee || r.closed then r
      else if node in r.votes then
        if r.votes[node] != yes then r.(slashes := r.slashes + [node]) else r
      else
        var more := r.(votes := r.votes[node := yes]);
        if Reached(more.total, more.votes, pct) then Close(more, true) else more
  }

  function Run(r: Round, pct: nat, events: seq<Event>): Round {
    if events == [] then r
    else Step(Run(r, pct, events[..|events| - 1]), pct, events[|events| - 1])
  }

  // ----- the threshold -----

  /** Reaching the rounded-up count means reaching the percentage of the committee. */
  lemma NeedIsThePercentage(total: nat, pct: nat, yes: nat)
    ensures yes >= Need(total, pct) <==> yes * 100 >= total * pct
  {
  }

  lemma YesAreVotes(votes: map<string, bool>)
    ensures |Yes(votes)| <= |votes|
  {
    SubsetSize(Yes(votes), votes.Keys);
  }

  // ----- what every round satisfies -----

  /**
   Voters sit on the committee. The round is closed exactly when it has its one verdict, the
   verdict is true exactly when the votes reach the threshold, and an open round has not reached it.
   */
  ghost predicate Inv(r: Round, pct: nat) {
    && r.total == |r.committee|
    && r.votes.Keys <= r.committee
    && (r.closed <==> r.done.Some?)
    && (r.closed ==> r.done == Some(|Yes(r.votes)| >= Need(r.total, pct)))
    && (!r.closed ==> |Yes(r.votes)| < Need(r.total, pct))
  }

  lemma BeginHolds(me: string, others: set<string>, pct: nat)
    requires 50 < pct <= 100
    ensures Inv(Begin(me, others), pct)
  {
    var votes := map[me := true];
    assert Yes(votes) == {me};
    if |{me} + others| == 1 {
      assert Need(1, pct) == 1;
    } else {
      SubsetSize({me}, {me} + others);
      assert |{me} + others| >= 2;
      TwoNeedTwo(|{me} + others|, pct);
    }
  }

  lemma TwoNeedTwo(total: nat, pct: nat)
    requires total >= 2 && pct > 50
    ensures Need(total, pct) >= 2
  {
    assert total * pct >= 2 * 51;
  }

  lemma StepKeeps(r: Round, pct: nat, e: Event)
    requires Inv(r, pct)
    ensures Inv(Step(r, pct, e), pct)
  {
    if e.Vote? && e.node in r.committee && !r.closed && e.node !in r.votes {
      YesAreVotes(r.votes[e.node := e.yes]);
    }
  }

  lemma {:induction false} EveryRound(me: string, others: set<string>, pct: nat, events: seq<Event>)
    requires 50 < pct <= 100
    ensures Inv(Run(Begin(me, others), pct, events), pct)
    decreases |events|
  {
    if events == [] {
      BeginHolds(me, others, pct);
    } else {
      var n := |events| - 1;
      EveryRound(me, others, pct, events[..n]);
      StepKeeps(Run(Begin(me, others), pct, events[..n]), pct, events[n]);
    }
  }

  /** First votes stay, and nothing moves once the round is closed. */
  ghost predicate Later(r: Round, s: Round) {
    && s.committee == r.committee && s.total == r.total
    && (forall k :: k in r.votes ==> k in s.votes && s.votes[k] == r.votes[k])
    && (r.closed ==> s == r)
  }

  lemma {:induction false} RoundsOnlyGrow(r: Round, pct: nat, events: seq<Event>)
    ensures Later(r, Run(r, pct, events))
    decreases |events|
  {
    if events != [] {
      RoundsOnlyGrow(r, pct, events[..|events| - 1]);
    }
  }

  // ----- the verdict as a function of what arrived -----

  /** The events before the first timeout. */
  function BeforeTimeout(events: seq<Event>): seq<Event> {
    if events == [] then []
    else
      var before := BeforeTimeout(events[..|events| - 1]);
      if |before| < |events| - 1 || events[|events| - 1].Timeout? then before else before + [events[|events| - 1]]
  }

  /** Each committee member's first vote, with no regard to thresholds. */
  function FirstVotes(committee: set<string>, votes: map<string, bool>, events: seq<Event>): map<string, bool> {
    if events == [] then votes
    else
      var before := FirstVotes(committee, votes, events[..|events| - 1]);
      match events[|events| - 1]
      case Timeout => before
      case Vote(node, yes) =>
        if node !in committee || node in before then before else before[node := yes]
  }

  /** How the round stands against the votes cast: open and equal to them, or closed as they decide. */
  ghost predicate Agrees(r: Round, pct: nat, cast: map<string, bool>, timedOut: bool) {
    var reached := |Yes(cast)| >= Need(r.total, pct);
    && (r.done == Some(true) <==> reached)
    && (r.done == Some(false) <==> !reached && timedOut)
    && (!r.closed ==> r.votes == cast)
  }

  lemma MoreYes(cast: map<string, bool>, node: string, yes: bool)
    requires node !in cast
    ensures |Yes(cast)| <= |Yes(cast[node := yes])|
  {
    SubsetSize(Yes(cast), Yes(cast[node := yes]));
  }

  lemma AgreesStep(r: Round, pct: nat, cast: map<string, bool>, e: Event)
    requires Inv(r, pct) && Agrees(r, pct, cast, false)
    ensures e.Timeout? ==> Agrees(Step(r, pct, e), pct, cast, true)
    ensures e.Vote? ==>
      Agrees(Step(r, pct, e), pct,
             if e.node !in r.committee || e.node in cast then cast else cast[e.node := e.yes], false)
  {
    StepKeeps(r, pct, e);
    if e.Vote? && e.node in r.committee && e.node !in cast {
      MoreYes(cast, e.node, e.yes);
    }
  }

  lemma {:induction false} Cuts(events: seq<Event>)
    ensures |BeforeTimeout(events)| < |events| <==> Timeout in events
    ensures Timeout !in events ==> BeforeTimeout(events) == events
    decreases |events|
  {
    if events != [] {
      var n := |events| - 1;
      Cuts(events[..n]);
      assert events == events[..n] + [events[n]];
    }
  }

  lemma CutOneMore(events: seq<Event>, e: Event)
    ensures BeforeTimeout(events + [e]) ==
            if Timeout in events || e.Timeout? then BeforeTimeout(events) else events + [e]
  {
    Cuts(events);
    assert (events + [e])[..|events|] == events;
  }

  lemma FirstVotesOneMore(committee: set<string>, start: map<string, bool>, events: seq<Event>, e: Event)
    requires e.Vote?
    ensures var cast := FirstVotes(committee, start, events);
            FirstVotes(committee, start, events + [e]) ==
            if e.node !in committee || e.node in cast then cast else cast[e.node := e.yes]
  {
    assert (events + [e])[..|events|] == events;
  }

  /** One more event before any timeout. */
  lemma AgreesNext(r: Round, pct: nat, start: map<string, bool>, events: seq<Event>, e: Event)
    requires Inv(r, pct) && Timeout !in events
    requires Agrees(r, pct, FirstVotes(r.committee, start, events), false)
    ensures Agrees(Step(r, pct, e), pct, FirstVotes(r.committee, start, BeforeTimeout(events + [e])), e.Timeout?)
  {
    AgreesStep(r, pct, FirstVotes(r.committee, start, events), e);
    Cuts(events);
    CutOneMore(events, e);
    if e.Vote? {
      FirstVotesOneMore(r.committee, start, events, e);
    }
  }

  lemma SameCommittee(me: string, others: set<string>, pct: nat, events: seq<Event>)
    ensures Run(Begin(me, others), pct, events).committee == {me} + others
  {
    RoundsOnlyGrow(Begin(me, others), pct, events);
  }

  /**
   A round's verdict is that of the first votes cast before the timeout: true exactly when they
   reach the percentage, false exactly when they do not and the timeout came.
   */
  lemma {:induction false} VerdictOfTheVotes(me: string, others: set<string>, pct: nat, events: seq<Event>)
    requires 50 < pct <= 100
    ensures Agrees(Run(Begin(me, others), pct, events), pct,
                   FirstVotes({me} + others, map[me := true], BeforeTimeout(events)), Timeout in events)
    decreases |events|
  {
    if events == [] {
      BeginHolds(me, others, pct);
    } else {
      var n := |events| - 1;
      var so := events[..n];
      VerdictOfTheVotes(me, others, pct, so);
      EveryRound(me, others, pct, so);
      SameCommittee(me, others, pct, so);
      assert events == so + [events[n]];
      CutOneMore(so, events[n]);
      Cuts(so);
      NextVerdict(Run(Begin(me, others), pct, so), pct, map[me := true], so, events[n]);
    }
  }

  lemma NextVerdict(r: Round, pct: nat, start: map<string, bool>, events: seq<Event>, e: Event)
    requires Inv(r, pct)
    requires Agrees(r, pct, FirstVotes(r.committee, start, BeforeTimeout(events)), Timeout in events)
    ensures Agrees(Step(r, pct, e), pct, FirstVotes(r.committee, start, BeforeTimeout(events + [e])),
                   Timeout in events || e.Timeout?)
  {
    if Timeout in events {
      CutOneMore(events, e);
      assert Step(r, pct, e) == r;
    } else {
      Cuts(events);
      AgreesNext(r, pct, start, events, e);
    }
  }

  /** A committee whose every member's first vote is yes closes the round as true, unless it timed out before. */
  lemma UnanimousPasses(me: string, others: set<string>, pct: nat, events: seq<Event>)
    requires 50 < pct <= 100
    requires Yes(FirstVotes({me} + others, map[me := true], BeforeTimeout(events))) == {me} + others
    ensures Run(Begin(me, others), pct, events).done == Some(true)
  {
    VerdictOfTheVotes(me, others, pct, events);
    RoundsOnlyGrow(Begin(me, others), pct, events);
    AllIsEnough(|{me} + others|, pct);
    WholeCommittee(Run(Begin(me, others), pct, events), pct,
                   FirstVotes({me} + others, map[me := true], BeforeTimeout(events)), Timeout in events);
  }

  lemma WholeCommittee(r: Round, pct: nat, cast: map<string, bool>, timedOut: bool)
    requires Agrees(r, pct, cast, timedOut) && |Yes(cast)| == r.total && Need(r.total, pct) <= r.total
    ensures r.done == Some(true)
  {
  }

  lemma AllIsEnough(n: nat, pct: nat)
    requires pct <= 100
    ensures Need(n, pct) <= n
  {
    assert n * pct <= n * 100;
  }

  ghost predicate Spotless(r: Round, node: string, v: bool) {
    node !in r.slashes && (node in r.votes ==> r.votes[node] == v)
  }

  lemma SpotlessStep(r: Round, pct: nat, e: Event, node: string, v: bool)
    requires Spotless(r, node, v) && (e.Vote? && e.node == node ==> e.yes == v)
    ensures Spotless(Step(r, pct, e), node, v)
  {
  }

  /** A node that never contradicts itself is never reported. */
  lemma {:induction false} NoFalseSlash(me: string, others: set<string>, pct: nat, events: seq<Event>, node: string,
                                        v: bool)
    requires node == me ==> v
    requires forall i :: 0 <= i < |events| && events[i].Vote? && events[i].node == node ==> events[i].yes == v
    ensures Spotless(Run(Begin(me, others), pct, events), node, v)
    decreases |events|
  {
    if events != [] {
      var n := |events| - 1;
      NoFalseSlash(me, others, pct, events[..n], node, v);
      SpotlessStep(Run(Begin(me, others), pct, events[..n]), pct, events[n], node, v);
    }
  }

  // ----- the round object -----

  /** The recount after each vote, in whatever order the map gives them. */
  method CountYes(votes: map<string, bool>) returns (n: nat)
    ensures n == |Yes(votes)|
  {
    n := 0;
    var todo := votes.Keys;
    ghost var seen: set<string> := {};
    while todo != {}
      invariant seen !! todo && seen + todo == votes.Keys
      invariant n == |Yes(votes) * seen|
      decreases todo
    {
      var k :| k in todo;
      MeetOne(Yes(votes), seen, k);
      if votes[k] {
        n := n + 1;
      }
      todo, seen := todo - {k}, seen + {k};
    }
    assert Yes(votes) * seen == Yes(votes);
  }

  class RoundObject {
    const committee: set<string>
    const totalExpected: nat
    const pct: nat
    var votes: map<string, bool>
    var closed: bool
    var done: Option<bool>
    var slashes: seq<string>

    ghost function Now(): Round
      reads this
    {
      Round(committee, totalExpected, votes, closed, done, slashes)
    }

    constructor (me: string, others: set<string>, pct: nat)
      ensures Now() == Begin(me, others) && this.pct == pct
    {
      this.pct := pct;
      committee, totalExpected := {me} + others, |{me} + others|;
      votes, slashes := map[me := true], [];
      closed := |{me} + others| == 1;
      done := if |{me} + others| == 1 then Some(true) else None;
    }

    method OnVote(node: string, yes: bool)
      modifies this
      ensures Now() == Step(old(Now()), pct, Vote(node, yes))
    {
      if node !in committee || closed {
        return;
      }
      if node in votes {
        if votes[node] != yes {
          slashes := slashes + [node];
        }
        return;
      }
      votes := votes[node := yes];
      var yesCount := CountYes(votes);
      var need := (totalExpected * pct + 99) / 100;
      if yesCount >= need && |votes| >= need {
        Finish(true);
      }
    }

    method Finish(verdict: bool)
      modifies this
      ensures Now() == Close(old(Now()), verdict)
    {
      if !closed {
        closed := true;
        if done.None? {
          done := Some(verdict);
        }
      }
    }

    method OnTimeout()
      modifies this
      ensures Now() == Step(old(Now()), pct, Timeout)
    {
      Finish(false);
    }
  }
}
