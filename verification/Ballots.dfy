/** Where votes and proposals come from: over every run each is that of a message which was accepted, and
    every vote that was accepted is counted as it was cast. */
module Ballots {
  import opened Base
  import opened Snapshots
  import opened Council
  import opened Governance

  /** The world in which event `k` acts. */
  function Before(s: Setup, events: seq<Timed>, k: nat): World
    requires k < |events|
  {
    var w := Run(s, events[..k]);
    w.(height := Max(w.height, events[k].height), time := Max(w.time, events[k].time))
  }

  ghost predicate Accepted(s: Setup, events: seq<Timed>, k: nat) {
    k < |events| && Act(Before(s, events, k), s, events[k].action).Ok?
  }

  /** The vote an accepted cast records. */
  function CastBallot(w: World, voter: Addr, id: nat, inFavour: bool): Vote
    requires id in w.council.proposals && w.council.proposals[id].startHeight > 0
  {
    var block := w.council.proposals[id].startHeight - 1;
    Vote(inFavour, BalanceAt(w.xmars.history, voter, block) + BalanceAt(w.vesting.history, voter, block))
  }

  /** An action adds at most the vote it casts. */
  lemma ActVotes(w: World, s: Setup, action: Action, id: nat)
    requires Act(w, s, action).Ok?
    ensures var votes, votes' := VotesOn(w.council, id), VotesOn(Act(w, s, action).value.council, id);
            if action.Cast? && action.id == id then
              && id in w.council.proposals && w.council.proposals[id].startHeight > 0
              && action.voter !in votes
              && votes' == votes[action.voter := CastBallot(w, action.voter, id, action.inFavour)]
            else votes' == votes
  {
    ActCouncil(w, s, action);
    if action.Cast? {
      CastVoteEffect(w.council, RegistersOf(w), w.height, action.voter, action.id, action.inFavour);
    }
  }

  lemma LastStep(s: Setup, events: seq<Timed>)
    requires events != []
    ensures var n := |events| - 1;
            var r := Act(Before(s, events, n), s, events[n].action);
            Run(s, events) == if r.Ok? then r.value else Before(s, events, n)
  {
  }

  lemma PrefixSame(s: Setup, events: seq<Timed>, n: nat, k: nat)
    requires k < n <= |events|
    ensures Before(s, events[..n], k) == Before(s, events, k)
    ensures Accepted(s, events[..n], k) <==> Accepted(s, events, k)
  {
    assert events[..n][..k] == events[..k];
  }

  /** Event `k` is an accepted vote of `voter` on `id`, recorded as `v`. */
  ghost predicate CastAt(s: Setup, events: seq<Timed>, k: nat, voter: Addr, id: nat, v: Vote) {
    && Accepted(s, events, k)
    && events[k].action == Cast(id, voter, v.inFavour)
    && var w := Before(s, events, k);
       id in w.council.proposals && w.council.proposals[id].startHeight > 0
       && v == CastBallot(w, voter, id, v.inFavour)
  }

  /** Every recorded vote was cast by that voter, for that side, with the power recorded. */
  lemma {:induction false} EveryVoteWasCast(s: Setup, events: seq<Timed>, id: nat, voter: Addr) returns (k: nat)
    requires voter in VotesOn(Run(s, events).council, id)
    ensures CastAt(s, events, k, voter, id, VotesOn(Run(s, events).council, id)[voter])
  {
    if events == [] {
      assert false;
    } else {
      var n := |events| - 1;
      var w, action := Before(s, events, n), events[n].action;
      LastStep(s, events);
      if Act(w, s, action).Ok? {
        ActVotes(w, s, action, id);
      }
      if Act(w, s, action).Ok? && action.Cast? && action.id == id && action.voter == voter {
        k := n;
      } else {
        k := EveryVoteWasCast(s, events[..n], id, voter);
        PrefixSame(s, events, n, k);
      }
    }
  }

  /** Every accepted vote is recorded for good, for the side it was cast for. */
  lemma {:induction false} EveryCastCounts(s: Setup, events: seq<Timed>, k: nat)
    requires Accepted(s, events, k) && events[k].action.Cast?
    ensures var a := events[k].action;
            var w := Before(s, events, k);
            && a.id in w.council.proposals && w.council.proposals[a.id].startHeight > 0
            && a.voter in VotesOn(Run(s, events).council, a.id)
            && VotesOn(Run(s, events).council, a.id)[a.voter] == CastBallot(w, a.voter, a.id, a.inFavour)
    decreases |events|
  {
    var n := |events| - 1;
    var w, action := Before(s, events, n), events[n].action;
    LastStep(s, events);
    if Act(w, s, action).Ok? {
      ActVotes(w, s, action, events[k].action.id);
    }
    if k < n {
      PrefixSame(s, events, n, k);
      EveryCastCounts(s, events[..n], k);
    }
  }

  // ---------- proposals ----------

  /** Event `k` is the accepted submission of `p` under the number `id`. */
  ghost predicate SubmittedAt(s: Setup, events: seq<Timed>, k: nat, id: nat, p: Proposal) {
    && Accepted(s, events, k)
    && events[k].action.SubmitProposal?
    && var a, w := events[k].action, Before(s, events, k);
       && id == w.council.count + 1
       && Opened(w, a, p)
  }

  /** Every proposal is, word for word, one that was submitted, and is voted on for the period in force then. */
  lemma {:induction false} EveryProposalWasSubmitted(s: Setup, events: seq<Timed>, id: nat) returns (k: nat)
    requires s.config.Valid()
    requires id in Run(s, events).council.proposals
    ensures SubmittedAt(s, events, k, id, Run(s, events).council.proposals[id])
  {
    if events == [] {
      assert false;
    } else {
      var n := |events| - 1;
      var w, action := Before(s, events, n), events[n].action;
      LastStep(s, events);
      EveryRunIsSound(s, events[..n]);
      if id in w.council.proposals {
        k := EveryProposalWasSubmitted(s, events[..n], id);
        PrefixSame(s, events, n, k);
        TermsStay(s, events, id);
      } else {
        NewProposal(w, s, action, id);
        k := n;
      }
    }
  }

  lemma TermsStay(s: Setup, events: seq<Timed>, id: nat)
    requires s.config.Valid() && events != []
    requires id in Run(s, events[..|events| - 1]).council.proposals
    ensures id in Run(s, events).council.proposals
    ensures var p, p' := Run(s, events[..|events| - 1]).council.proposals[id], Run(s, events).council.proposals[id];
            p' == p.(status := p'.status, forVotes := p'.forVotes, againstVotes := p'.againstVotes)
  {
    var n := |events| - 1;
    assert events == events[..n] + [events[n]];
    StepFollows(s, events[..n], events[n], id);
  }

  lemma OnlySubmissionsAdd(w: World, s: Setup, action: Action)
    requires Act(w, s, action).Ok? && !action.SubmitProposal?
    ensures Act(w, s, action).value.council.proposals.Keys == w.council.proposals.Keys
  {
    ActCouncil(w, s, action);
  }

  /** `p` is what the submission `a` opens in the world `w`. */
  ghost predicate Opened(w: World, a: Action, p: Proposal)
    requires a.SubmitProposal?
  {
    && p.submitter == a.submitter && p.text == a.text && p.messages == a.messages && p.deposit == a.deposit
    && p.startHeight == w.height && p.endHeight == w.height + w.council.config.votingPeriod
  }

  lemma SubmissionOpens(w: World, s: Setup, a: Action) returns (p: Proposal)
    requires a.SubmitProposal? && CouncilSound(w) && Act(w, s, a).Ok?
    ensures Opened(w, a, p)
    ensures Act(w, s, a).value.council.proposals == w.council.proposals[w.council.count + 1 := p]
  {
    p := Proposal(a.submitter, Active, 0, 0, w.height, w.height + w.council.config.votingPeriod, a.text, a.messages,
                  a.deposit);
  }

  lemma NewProposal(w: World, s: Setup, action: Action, id: nat)
    requires CouncilSound(w) && id !in w.council.proposals
    requires Act(w, s, action).Ok? && id in Act(w, s, action).value.council.proposals
    ensures action.SubmitProposal? && id == w.council.count + 1
    ensures Opened(w, action, Act(w, s, action).value.council.proposals[id])
  {
    if action.SubmitProposal? {
      var p := SubmissionOpens(w, s, action);
    } else {
      OnlySubmissionsAdd(w, s, action);
    }
  }
}
