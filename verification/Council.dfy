/** Proposals, votes weighted by historical balances, and the execution of what was passed. */
module Council {
  import opened Base
  import opened FixedPoint
  import opened Snapshots

  const MIN_TITLE_LENGTH: nat := 4
  const MAX_TITLE_LENGTH: nat := 64
  const MIN_DESC_LENGTH: nat := 4
  const MAX_DESC_LENGTH: nat := 1024
  const MIN_LINK_LENGTH: nat := 12
  const MAX_LINK_LENGTH: nat := 128

  datatype Status = Active | Passed | Rejected | Executed

  /** A call the council is to make, with its place in the order of execution. */
  datatype Message = Message(order: nat, call: string)

  type Byte = b: nat | b < 256

  /** The texts of a proposal in UTF-8, whose lengths count bytes. */
  datatype Text = Text(title: seq<Byte>, description: seq<Byte>, link: Option<seq<Byte>>)

  datatype Proposal = Proposal(
    submitter: Addr,
    status: Status,
    forVotes: nat,
    againstVotes: nat,
    startHeight: nat,
    endHeight: nat,
    text: Text,
    messages: seq<Message>,
    deposit: nat)

  datatype Vote = Vote(inFavour: bool, power: nat)

  datatype Config = Config(
    votingPeriod: nat,
    effectiveDelay: nat,
    expirationPeriod: nat,
    requiredDeposit: nat,
    requiredQuorum: nat,
    requiredThreshold: nat)
  {
    predicate Valid() {
      requiredQuorum <= ONE && ONE / 2 <= requiredThreshold <= ONE
    }
  }

  datatype State = State(config: Config, count: nat, proposals: map<nat, Proposal>, votes: map<nat, map<Addr, Vote>>)

  /** Where voting power is recorded: the xMARS token and the vesting contract. */
  datatype Registers = Registers(free: History, locked: History)

  /** A deposit handed on. */
  datatype Release = Release(id: nat, recipient: Addr, amount: nat)

  function PowerAt(r: Registers, a: Addr, block: nat): nat {
    BalanceAt(r.free, a, block) + BalanceAt(r.locked, a, block)
  }

  function TotalPowerAt(r: Registers, block: nat): nat {
    TotalAt(r.free, block) + TotalAt(r.locked, block)
  }

  function VotesOn(c: State, id: nat): map<Addr, Vote> {
    if id in c.votes then c.votes[id] else map[]
  }

  // ---------- operations ----------

  predicate Acceptable(t: Text) {
    && MIN_TITLE_LENGTH <= |t.title| <= MAX_TITLE_LENGTH
    && MIN_DESC_LENGTH <= |t.description| <= MAX_DESC_LENGTH
    && (t.link.Some? ==> MIN_LINK_LENGTH <= |t.link.value| <= MAX_LINK_LENGTH)
  }

  function Submit(c: State, height: nat, submitter: Addr, inMars: bool, deposit: nat, text: Text,
                  messages: seq<Message>): Result<State>
  {
    if !Acceptable(text) then Err(InvalidProposal)
    else
      :- Need(deposit >= c.config.requiredDeposit && inMars, InvalidProposal);
      var p := Proposal(submitter, Active, 0, 0, height, height + c.config.votingPeriod, text, messages, deposit);
      Ok(c.(count := c.count + 1, proposals := c.proposals[c.count + 1 := p]))
  }

  /** Adds a vote to the tally of its side. */
  function Counted(p: Proposal, v: Vote): Proposal {
    if v.inFavour then p.(forVotes := p.forVotes + v.power) else p.(againstVotes := p.againstVotes + v.power)
  }

  function CastVote(c: State, r: Registers, height: nat, voter: Addr, id: nat, inFavour: bool): Result<State> {
    if id !in c.proposals then Err(NotFound)
    else
      var p := c.proposals[id];
      :- Need(p.status == Active, ProposalNotActive);
      :- Need(height <= p.endHeight, VoteVotingPeriodEnded);
      :- Need(voter !in VotesOn(c, id), VoteUserAlreadyVoted);
      :- Need(p.startHeight > 0, Overflow);
      var power := PowerAt(r, voter, p.startHeight - 1);
      :- Need(power > 0, VoteNoVotingPower);
      var v := Vote(inFavour, power);
      Ok(c.(proposals := c.proposals[id := Counted(p, v)], votes := c.votes[id := VotesOn(c, id)[voter := v]]))
  }

  /** Enough of all voting power took part, and enough of it was in favour. */
  predicate Carried(p: Proposal, totalPower: nat, config: Config) {
    var votes := p.forVotes + p.againstVotes;
    && (if totalPower > 0 then FromRatio(votes, totalPower) else 0) >= config.requiredQuorum
    && (if votes > 0 then FromRatio(p.forVotes, votes) else 0) > config.requiredThreshold
  }

  /** The same without the roundings: the turnout reaches the quorum, and the share in favour exceeds the
      threshold by at least the smallest step of a decimal. */
  lemma CarriedExactly(p: Proposal, totalPower: nat, config: Config)
    ensures var votes := p.forVotes + p.againstVotes;
            Carried(p, totalPower, config) <==>
              && (config.requiredQuorum == 0 || (totalPower > 0 && votes * ONE >= config.requiredQuorum * totalPower))
              && votes > 0
              && p.forVotes * ONE >= (config.requiredThreshold + 1) * votes
  {
    var votes := p.forVotes + p.againstVotes;
    if totalPower > 0 {
      RatioReaches(votes, totalPower, config.requiredQuorum);
    }
    if votes > 0 {
      RatioReaches(p.forVotes, votes, config.requiredThreshold + 1);
    }
  }

  lemma RatioReaches(part: nat, whole: nat, bound: nat)
    requires whole > 0
    ensures FromRatio(part, whole) >= bound <==> part * ONE >= bound * whole
  {
    if part * ONE >= bound * whole {
      FloorAtLeast(part * ONE, whole, bound);
    } else {
      FloorBelow(part * ONE, whole, bound);
    }
  }

  datatype Ended = Ended(council: State, release: Release)

  /** The deposit goes back to the submitter of a proposal that passes, and to the stakers otherwise. */
  function EndProposal(c: State, r: Registers, height: nat, staking: Addr, id: nat): Result<Ended> {
    if id !in c.proposals then Err(NotFound)
    else
      var p := c.proposals[id];
      :- Need(p.status == Active, ProposalNotActive);
      :- Need(height > p.endHeight, EndProposalVotingPeriodNotEnded);
      :- Need(p.startHeight > 0, Overflow);
      var passed := Carried(p, TotalPowerAt(r, p.startHeight - 1), c.config);
      Ok(Ended(c.(proposals := c.proposals[id := p.(status := if passed then Passed else Rejected)]),
               Release(id, if passed then p.submitter else staking, p.deposit)))
  }

  datatype Execution = Execution(id: nat, calls: seq<string>)

  datatype CarriedOut = CarriedOut(council: State, execution: Execution)

  function ExecuteProposal(c: State, height: nat, id: nat): Result<CarriedOut> {
    if id !in c.proposals then Err(NotFound)
    else
      var p := c.proposals[id];
      :- Need(p.status == Passed, ExecuteProposalNotPassed);
      :- Need(height >= p.endHeight + c.config.effectiveDelay, ExecuteProposalDelayNotEnded);
      :- Need(height <= p.endHeight + c.config.effectiveDelay + c.config.expirationPeriod, ExecuteProposalExpired);
      Ok(CarriedOut(c.(proposals := c.proposals[id := p.(status := Executed)]), Execution(id, Calls(Sorted(p.messages)))))
  }

  function UpdateConfig(c: State, config: Config): Result<State> {
    if !config.Valid() then Err(InvalidParams)
    else
      Ok(c.(config := config))
  }

  // ---------- the order of execution ----------

  /** Puts a message behind all that are not to run after it. */
  function Insert(m: Message, sorted: seq<Message>): seq<Message> {
    if sorted == [] || sorted[|sorted| - 1].order <= m.order then sorted + [m]
    else Insert(m, sorted[..|sorted| - 1]) + [sorted[|sorted| - 1]]
  }

  function Sorted(ms: seq<Message>): seq<Message> {
    if ms == [] then [] else Insert(ms[|ms| - 1], Sorted(ms[..|ms| - 1]))
  }

  function Calls(ms: seq<Message>): seq<string> {
    seq(|ms|, i requires 0 <= i < |ms| => ms[i].call)
  }

  ghost predicate Ascending(ms: seq<Message>) {
    forall i, j :: 0 <= i < j < |ms| ==> ms[i].order <= ms[j].order
  }

  /** The messages of one place in the order, as they were given. */
  function WithOrder(ms: seq<Message>, order: nat): seq<Message> {
    if ms == [] then []
    else WithOrder(ms[..|ms| - 1], order) + if ms[|ms| - 1].order == order then [ms[|ms| - 1]] else []
  }

  lemma {:induction false} InsertKeepsOrder(m: Message, sorted: seq<Message>)
    requires Ascending(sorted)
    ensures Ascending(Insert(m, sorted))
    ensures |Insert(m, sorted)| == |sorted| + 1
    ensures forall i :: 0 <= i < |sorted| + 1 ==>
                          Insert(m, sorted)[i].order <= m.order
                          || (|sorted| > 0 && Insert(m, sorted)[i].order <= sorted[|sorted| - 1].order)
  {
    if sorted != [] && sorted[|sorted| - 1].order > m.order {
      InsertKeepsOrder(m, sorted[..|sorted| - 1]);
    }
  }

  lemma {:induction false} InsertIsStable(m: Message, sorted: seq<Message>, order: nat)
    requires Ascending(sorted)
    ensures WithOrder(Insert(m, sorted), order) == WithOrder(sorted, order) + if m.order == order then [m] else []
  {
    if sorted == [] || sorted[|sorted| - 1].order <= m.order {
      assert (sorted + [m])[..|sorted|] == sorted;
    } else {
      var rest, last := sorted[..|sorted| - 1], sorted[|sorted| - 1];
      InsertIsStable(m, rest, order);
      assert (Insert(m, rest) + [last])[..|Insert(m, rest)|] == Insert(m, rest);
    }
  }

  /** The messages run in ascending order, and those of the same order as they were given. */
  lemma {:induction false} SortedIsStable(ms: seq<Message>, order: nat)
    ensures Ascending(Sorted(ms))
    ensures WithOrder(Sorted(ms), order) == WithOrder(ms, order)
  {
    if ms != [] {
      SortedIsStable(ms[..|ms| - 1], order);
      InsertKeepsOrder(ms[|ms| - 1], Sorted(ms[..|ms| - 1]));
      InsertIsStable(ms[|ms| - 1], Sorted(ms[..|ms| - 1]), order);
    }
  }

  lemma {:induction false} LastOfOrder(ms: seq<Message>, order: nat)
    ensures forall m <- WithOrder(ms, order) :: m in ms && m.order == order
  {
    if ms != [] {
      LastOfOrder(ms[..|ms| - 1], order);
    }
  }

  lemma LastIsGreatest(ms: seq<Message>, other: seq<Message>)
    requires Ascending(ms) && Ascending(other)
    requires other != [] && forall k :: WithOrder(ms, k) == WithOrder(other, k)
    ensures ms != [] && other[|other| - 1].order <= ms[|ms| - 1].order
  {
    var k := other[|other| - 1].order;
    assert WithOrder(other, k) == WithOrder(ms, k);
    assert other[|other| - 1] in WithOrder(other, k);
    LastOfOrder(ms, k);
    var m :| m in ms && m.order == k;
  }

  /** That determines the sequence: there is only one way to sort stably. */
  lemma {:induction false} StableSortIsUnique(s: seq<Message>, t: seq<Message>)
    requires Ascending(s) && Ascending(t)
    requires forall k :: WithOrder(s, k) == WithOrder(t, k)
    ensures s == t
  {
    if s != [] {
      LastIsGreatest(t, s);
      LastIsGreatest(s, t);
      var m, n := |s| - 1, |t| - 1;
      assert WithOrder(s, s[m].order) == WithOrder(t, s[m].order);
      assert WithOrder(s, s[m].order)[|WithOrder(s, s[m].order)| - 1] == s[m];
      assert WithOrder(t, t[n].order)[|WithOrder(t, t[n].order)| - 1] == t[n];
      forall k
        ensures WithOrder(s[..m], k) == WithOrder(t[..n], k)
      {
        var whole := WithOrder(s, k);
        assert whole == WithOrder(t, k);
        if k == s[m].order {
          assert whole == WithOrder(s[..m], k) + [s[m]] && whole == WithOrder(t[..n], k) + [t[n]];
          assert whole[..|whole| - 1] == WithOrder(s[..m], k);
          assert whole[..|whole| - 1] == WithOrder(t[..n], k);
        } else {
          assert whole == WithOrder(s[..m], k) && whole == WithOrder(t[..n], k);
        }
      }
      StableSortIsUnique(s[..m], t[..n]);
    } else if t != [] {
      LastIsGreatest(s, t);
    }
  }

  // ---------- what the messages do ----------

  /** Everything but proposal `id` and the votes on it is as it was. */
  ghost predicate OnlyProposal(c: State, after: State, id: nat) {
    && after.config == c.config && after.count == c.count && id in after.proposals
    && (forall o: nat :: o != id ==> (o in after.proposals <==> o in c.proposals))
    && (forall o: nat :: o != id && o in c.proposals ==> after.proposals[o] == c.proposals[o])
    && (forall o: nat :: o != id ==> VotesOn(after, o) == VotesOn(c, o))
  }

  /** A submission is refused exactly for a text that is too short or too long or for want of the deposit.
      Otherwise it opens the vote from this block on, on the text and messages as given. */
  lemma SubmitEffect(c: State, height: nat, submitter: Addr, inMars: bool, deposit: nat, text: Text,
                     messages: seq<Message>)
    requires c.count + 1 !in c.proposals && c.count + 1 !in c.votes
    ensures var r := Submit(c, height, submitter, inMars, deposit, text, messages);
            && (r.Ok? <==>
                  && 4 <= |text.title| <= 64 && 4 <= |text.description| <= 1024
                  && (text.link.Some? ==> 12 <= |text.link.value| <= 128)
                  && inMars && deposit >= c.config.requiredDeposit)
            && (r.Ok? ==>
                  && r.value.count == c.count + 1
                  && OnlyProposal(c.(count := c.count + 1), r.value, c.count + 1)
                  && VotesOn(r.value, c.count + 1) == map[]
                  && var p := r.value.proposals[c.count + 1];
                     && p.submitter == submitter && p.status == Active && p.forVotes == 0 && p.againstVotes == 0
                     && p.startHeight == height && p.endHeight == height + c.config.votingPeriod
                     && p.text == text && p.messages == messages && p.deposit == deposit)
  {
  }

  /** A vote is refused exactly when the vote is not open, when the voter has voted, or for want of power
      before the proposal's block. It adds that power to the side named and to no other. */
  lemma CastVoteEffect(c: State, r: Registers, height: nat, voter: Addr, id: nat, inFavour: bool)
    ensures CastVote(c, r, height, voter, id, inFavour).Ok? <==>
              && id in c.proposals && c.proposals[id].status == Active
              && 0 < c.proposals[id].startHeight && height <= c.proposals[id].endHeight
              && voter !in VotesOn(c, id)
              && BalanceAt(r.free, voter, c.proposals[id].startHeight - 1)
                 + BalanceAt(r.locked, voter, c.proposals[id].startHeight - 1) > 0
    ensures CastVote(c, r, height, voter, id, inFavour).Ok? ==>
              var after := CastVote(c, r, height, voter, id, inFavour).value;
              var p, p' := c.proposals[id], after.proposals[id];
              var power := BalanceAt(r.free, voter, p.startHeight - 1) + BalanceAt(r.locked, voter, p.startHeight - 1);
              && OnlyProposal(c, after, id)
              && VotesOn(after, id) == VotesOn(c, id)[voter := Vote(inFavour, power)]
              && p'.forVotes == p.forVotes + (if inFavour then power else 0)
              && p'.againstVotes == p.againstVotes + (if inFavour then 0 else power)
              && p' == p.(forVotes := p'.forVotes, againstVotes := p'.againstVotes)
  {
  }

  /** Voting is over once the last block has passed. The proposal passes exactly if the turnout reaches the
      quorum and the share in favour exceeds the threshold by a step, all without rounding; the deposit goes
      back to the submitter then, and to the stakers otherwise. */
  lemma EndProposalEffect(c: State, r: Registers, height: nat, staking: Addr, id: nat)
    ensures EndProposal(c, r, height, staking, id).Ok? <==>
              && id in c.proposals && c.proposals[id].status == Active
              && 0 < c.proposals[id].startHeight && height > c.proposals[id].endHeight
    ensures EndProposal(c, r, height, staking, id).Ok? ==>
              var e := EndProposal(c, r, height, staking, id).value;
              var p := c.proposals[id];
              var votes := p.forVotes + p.againstVotes;
              var total := TotalAt(r.free, p.startHeight - 1) + TotalAt(r.locked, p.startHeight - 1);
              var passed :=
                && (c.config.requiredQuorum == 0 || (total > 0 && votes * ONE >= c.config.requiredQuorum * total))
                && votes > 0 && p.forVotes * ONE >= (c.config.requiredThreshold + 1) * votes;
              && OnlyProposal(c, e.council, id) && VotesOn(e.council, id) == VotesOn(c, id)
              && e.council.proposals[id] == p.(status := if passed then Passed else Rejected)
              && e.release.id == id && e.release.amount == p.deposit
              && e.release.recipient == if passed then p.submitter else staking
  {
    if id in c.proposals && c.proposals[id].startHeight > 0 {
      CarriedExactly(c.proposals[id], TotalPowerAt(r, c.proposals[id].startHeight - 1), c.config);
    }
  }

  /** The calls of messages are those messages' calls, one by one. */
  lemma CallsInOrder(ms: seq<Message>)
    ensures |Calls(ms)| == |ms|
    ensures forall k :: 0 <= k < |ms| ==> Calls(ms)[k] == ms[k].call
  {
  }

  lemma {:induction false} SortedKeepsLength(ms: seq<Message>)
    ensures |Sorted(ms)| == |ms|
  {
    if ms != [] {
      var rest := ms[..|ms| - 1];
      SortedKeepsLength(rest);
      SortedIsStable(rest, 0);
      InsertKeepsOrder(ms[|ms| - 1], Sorted(rest));
    }
  }

  /** A passed proposal can be executed from the end of its delay until it expires. Its calls go out as many
      as were given, each that of the message in its place once the messages are sorted. */
  lemma ExecuteProposalEffect(c: State, height: nat, id: nat)
    ensures ExecuteProposal(c, height, id).Ok? <==>
              && id in c.proposals && c.proposals[id].status == Passed
              && var opens := c.proposals[id].endHeight + c.config.effectiveDelay;
                 opens <= height <= opens + c.config.expirationPeriod
    ensures ExecuteProposal(c, height, id).Ok? ==>
              var done := ExecuteProposal(c, height, id).value;
              var p := c.proposals[id];
              && OnlyProposal(c, done.council, id) && VotesOn(done.council, id) == VotesOn(c, id)
              && done.council.proposals[id] == p.(status := Executed)
              && done.execution.id == id
              && |done.execution.calls| == |p.messages| == |Sorted(p.messages)|
              && forall k :: 0 <= k < |p.messages| ==> done.execution.calls[k] == Sorted(p.messages)[k].call
  {
    if id in c.proposals {
      SortedKeepsLength(c.proposals[id].messages);
      CallsInOrder(Sorted(c.proposals[id].messages));
    }
  }

  // ---------- the contract ----------

  /** The council contract's storage. */
  class CouncilStore {
    var config: Config
    var proposalCount: nat
    var proposals: map<nat, Proposal>
    var votes: map<nat, map<Addr, Vote>>

    ghost function Contents(): State
      reads this
    {
      State(config, proposalCount, proposals, votes)
    }

    constructor (config: Config)
      requires config.Valid()
      ensures Contents() == State(config, 0, map[], map[])
    {
      this.config, proposalCount, proposals, votes := config, 0, map[], map[];
    }

    method ExecuteSubmitProposal(height: nat, submitter: Addr, inMars: bool, deposit: nat, text: Text,
                                 messages: seq<Message>) returns (r: Check)
      modifies this`proposalCount, this`proposals
      ensures r.Pass? <==> Submit(old(Contents()), height, submitter, inMars, deposit, text, messages).Ok?
      ensures r.Pass? ==> Ok(Contents()) == Submit(old(Contents()), height, submitter, inMars, deposit, text, messages)
      ensures r.Fail? ==> Contents() == old(Contents())
    {
      if !Acceptable(text) {
        return Fail(InvalidProposal);
      }
      if deposit < config.requiredDeposit || !inMars {
        return Fail(InvalidProposal);
      }
      proposalCount := proposalCount + 1;
      proposals := proposals[proposalCount :=
        Proposal(submitter, Active, 0, 0, height, height + config.votingPeriod, text, messages, deposit)];
      return Pass;
    }

    method ExecuteCastVote(registers: Registers, height: nat, voter: Addr, id: nat, inFavour: bool) returns (r: Check)
      modifies this`proposals, this`votes
      ensures r.Pass? <==> CastVote(old(Contents()), registers, height, voter, id, inFavour).Ok?
      ensures r.Pass? ==> Ok(Contents()) == CastVote(old(Contents()), registers, height, voter, id, inFavour)
      ensures r.Fail? ==> Contents() == old(Contents())
    {
      if id !in proposals {
        return Fail(NotFound);
      }
      var proposal := proposals[id];
      if proposal.status != Active {
        return Fail(ProposalNotActive);
      }
      if height > proposal.endHeight {
        return Fail(VoteVotingPeriodEnded);
      }
      var cast := if id in votes then votes[id] else map[];
      if voter in cast {
        return Fail(VoteUserAlreadyVoted);
      }
      if proposal.startHeight == 0 {
        return Fail(Overflow);
      }
      var balanceAtBlock := proposal.startHeight - 1;
      var power := BalanceAt(registers.free, voter, balanceAtBlock) + BalanceAt(registers.locked, voter, balanceAtBlock);
      if power == 0 {
        return Fail(VoteNoVotingPower);
      }
      if inFavour {
        proposal := proposal.(forVotes := proposal.forVotes + power);
      } else {
        proposal := proposal.(againstVotes := proposal.againstVotes + power);
      }
      votes := votes[id := cast[voter := Vote(inFavour, power)]];
      proposals := proposals[id := proposal];
      return Pass;
    }

    method ExecuteEndProposal(registers: Registers, height: nat, staking: Addr, id: nat) returns (r: Result<Release>)
      modifies this`proposals
      ensures r.Ok? <==> EndProposal(old(Contents()), registers, height, staking, id).Ok?
      ensures r.Ok? ==> Ok(Ended(Contents(), r.value)) == EndProposal(old(Contents()), registers, height, staking, id)
      ensures r.Err? ==> Contents() == old(Contents())
    {
      if id !in proposals {
        return Err(NotFound);
      }
      var proposal := proposals[id];
      if proposal.status != Active {
        return Err(ProposalNotActive);
      }
      if height <= proposal.endHeight {
        return Err(EndProposalVotingPeriodNotEnded);
      }
      if proposal.startHeight == 0 {
        return Err(Overflow);
      }
      var totalPower := TotalPowerAt(registers, proposal.startHeight - 1);
      var totalVotes := proposal.forVotes + proposal.againstVotes;
      var quorum: nat, threshold: nat := 0, 0;
      if totalPower > 0 {
        quorum := FromRatio(totalVotes, totalPower);
      }
      if totalVotes > 0 {
        threshold := FromRatio(proposal.forVotes, totalVotes);
      }
      var release: Release;
      if quorum >= config.requiredQuorum && threshold > config.requiredThreshold {
        release := Release(id, proposal.submitter, proposal.deposit);
        proposal := proposal.(status := Passed);
      } else {
        release := Release(id, staking, proposal.deposit);
        proposal := proposal.(status := Rejected);
      }
      proposals := proposals[id := proposal];
      return Ok(release);
    }

    method ExecuteExecuteProposal(height: nat, id: nat) returns (r: Result<Execution>)
      modifies this`proposals
      ensures r.Ok? <==> ExecuteProposal(old(Contents()), height, id).Ok?
      ensures r.Ok? ==> Ok(CarriedOut(Contents(), r.value)) == ExecuteProposal(old(Contents()), height, id)
      ensures r.Err? ==> Contents() == old(Contents())
    {
      if id !in proposals {
        return Err(NotFound);
      }
      var proposal := proposals[id];
      if proposal.status != Passed {
        return Err(ExecuteProposalNotPassed);
      }
      if height < proposal.endHeight + config.effectiveDelay {
        return Err(ExecuteProposalDelayNotEnded);
      }
      if height > proposal.endHeight + config.effectiveDelay + config.expirationPeriod {
        return Err(ExecuteProposalExpired);
      }
      proposals := proposals[id := proposal.(status := Executed)];
      return Ok(Execution(id, Calls(Sorted(proposal.messages))));
    }
  }
}
