/** The council together with the two contracts that record voting power, over whole runs. */
module Governance {
  import opened Base
  import opened FixedPoint
  import opened Totals
  import opened Snapshots
  import opened Council
  import X = XMarsToken
  import V = Vesting

  /** `mars` is what the council holds of the deposit token; `donated`, `releases` and `executions` record
      what has happened so far. */
  datatype World = World(
    council: State,
    xmars: X.XMars,
    vesting: V.Vesting,
    mars: nat,
    donated: nat,
    releases: seq<Release>,
    executions: seq<Execution>,
    height: nat,
    time: nat)

  /** What is fixed at deployment. */
  datatype Setup = Setup(config: Config, rows: seq<X.Row>, height: nat, time: nat, unlock: V.Schedule, staking: Addr)

  datatype Action =
    | TokenOp(op: X.Op)
    | Allocate(user: Addr, amount: nat, schedule: V.Schedule)
    | WithdrawVested(user: Addr)
    | SubmitProposal(submitter: Addr, inMars: bool, deposit: nat, text: Text, messages: seq<Message>)
    | Cast(id: nat, voter: Addr, inFavour: bool)
    | End(id: nat)
    | Execute(id: nat)
    | Reconfigure(config: Config)
    | Donate(amount: nat)

  function RegistersOf(w: World): Registers {
    Registers(w.xmars.history, w.vesting.history)
  }

  function Act(w: World, s: Setup, action: Action): Result<World> {
    match action
    case TokenOp(op) =>
      var xmars :- X.Apply(w.xmars, w.height, op);
      Ok(w.(xmars := xmars))
    case Allocate(user, amount, schedule) =>
      var vesting :- V.CreateAllocation(w.vesting, w.height, user, amount, schedule);
      Ok(w.(vesting := vesting))
    case WithdrawVested(user) =>
      var vesting :- V.Withdraw(w.vesting, w.height, w.time, user, s.unlock);
      Ok(w.(vesting := vesting))
    case SubmitProposal(submitter, inMars, deposit, text, messages) =>
      var council :- Submit(w.council, w.height, submitter, inMars, deposit, text, messages);
      Ok(w.(council := council, mars := w.mars + deposit))
    case Cast(id, voter, inFavour) =>
      var council :- CastVote(w.council, RegistersOf(w), w.height, voter, id, inFavour);
      Ok(w.(council := council))
    case End(id) =>
      var ended :- EndProposal(w.council, RegistersOf(w), w.height, s.staking, id);
      :- Need(ended.release.amount <= w.mars, Overflow);
      Ok(w.(council := ended.council, mars := w.mars - ended.release.amount, releases := w.releases + [ended.release]))
    case Execute(id) =>
      var done :- ExecuteProposal(w.council, w.height, id);
      Ok(w.(council := done.council, executions := w.executions + [done.execution]))
    case Reconfigure(config) =>
      var council :- UpdateConfig(w.council, config);
      Ok(w.(council := council))
    case Donate(amount) => Ok(w.(mars := w.mars + amount, donated := w.donated + amount))
  }

  datatype Timed = Timed(height: nat, time: nat, action: Action)

  function Max(a: nat, b: nat): nat {
    if a >= b then a else b
  }

  /** Blocks move on; a failed action changes nothing else. */
  function Step(w: World, s: Setup, e: Timed): World {
    var timed := w.(height := Max(w.height, e.height), time := Max(w.time, e.time));
    var r := Act(timed, s, e.action);
    if r.Ok? then r.value else timed
  }

  function Start(s: Setup): World {
    World(State(s.config, 0, map[], map[]), X.Instantiate(s.rows, s.height), V.NoVesting, 0, 0, [], [],
          s.height, s.time)
  }

  function Run(s: Setup, events: seq<Timed>): World {
    if events == [] then Start(s) else Step(Run(s, events[..|events| - 1]), s, events[|events| - 1])
  }

  // ---------- votes and tallies ----------

  ghost function Powers(votes: map<Addr, Vote>, inFavour: bool): map<Addr, nat> {
    map a | a in votes :: if votes[a].inFavour == inFavour then votes[a].power else 0
  }

  /** The tallies are the sums of the recorded votes, and each vote has the power its voter had before
      the proposal was submitted. */
  ghost predicate Tallied(p: Proposal, votes: map<Addr, Vote>, r: Registers) {
    && p.forVotes == Total(Powers(votes, true))
    && p.againstVotes == Total(Powers(votes, false))
    && (forall a :: a in votes ==> p.startHeight > 0 && votes[a].power == PowerAt(r, a, p.startHeight - 1))
  }

  ghost predicate Decided(p: Proposal) {
    p.status == Passed || p.status == Executed ==> p.forVotes > p.againstVotes
  }

  /** How often a proposal's deposit was released, and its messages sent. */
  function ReleaseCount(releases: seq<Release>, id: nat): nat {
    if releases == [] then 0
    else ReleaseCount(releases[..|releases| - 1], id) + if releases[|releases| - 1].id == id then 1 else 0
  }

  function ExecutionCount(executions: seq<Execution>, id: nat): nat {
    if executions == [] then 0
    else ExecutionCount(executions[..|executions| - 1], id) + if executions[|executions| - 1].id == id then 1 else 0
  }

  ghost predicate ProposalSound(p: Proposal, votes: map<Addr, Vote>, r: Registers, height: nat, released: nat,
                                executed: nat)
  {
    && p.startHeight <= height
    && Tallied(p, votes, r)
    && Decided(p)
    && released == (if p.status == Active then 0 else 1)
    && executed == (if p.status == Executed then 1 else 0)
  }

  ghost predicate SoundAt(w: World, id: nat)
    requires id in w.council.proposals
  {
    ProposalSound(w.council.proposals[id], VotesOn(w.council, id), RegistersOf(w), w.height,
                  ReleaseCount(w.releases, id), ExecutionCount(w.executions, id))
  }

  /** A number that is no proposal's has no votes and no history. */
  ghost predicate Unused(w: World, id: nat) {
    id !in w.council.votes && ReleaseCount(w.releases, id) == 0 && ExecutionCount(w.executions, id) == 0
  }

  /** What is held of a proposal's deposit. */
  function Held(p: Proposal): nat {
    if p.status == Active then p.deposit else 0
  }

  /** The deposits held for proposals still being voted on. */
  ghost function Escrow(proposals: map<nat, Proposal>): map<nat, nat> {
    map id | id in proposals :: Held(proposals[id])
  }

  ghost predicate CouncilSound(w: World) {
    && w.council.config.Valid()
    && (forall id: nat :: id in w.council.proposals <==> 1 <= id <= w.council.count)
    && (forall id: nat :: id in w.council.proposals ==> SoundAt(w, id))
    && (forall id: nat :: id !in w.council.proposals ==> Unused(w, id))
    && w.mars == w.donated + Total(Escrow(w.council.proposals))
  }

  ghost predicate RegistersSound(w: World, unlock: V.Schedule) {
    X.Synced(w.xmars, w.height) && V.Sound(w.vesting, unlock, w.height, w.time)
  }

  ghost predicate Sound(w: World, unlock: V.Schedule) {
    CouncilSound(w) && RegistersSound(w, unlock)
  }

  // ---------- votes are within the total power ----------

  /** With a required threshold of at least one half, more votes for than against. */
  lemma CarriedByMajority(p: Proposal, totalPower: nat, config: Config)
    requires config.Valid() && Carried(p, totalPower, config)
    ensures p.forVotes > p.againstVotes
  {
    var votes := p.forVotes + p.againstVotes;
    FloorBounds(p.forVotes * ONE, votes);
    HalfExceeded(p.forVotes, votes, FromRatio(p.forVotes, votes));
  }

  lemma HalfExceeded(part: nat, whole: nat, ratio: nat)
    requires ratio * whole <= part * ONE && ratio > ONE / 2 && whole > 0
    ensures 2 * part > whole
  {
    MulMonotone(ONE / 2 + 1, ratio, whole);
  }

  lemma {:induction false} VotesSplit(votes: map<Addr, Vote>)
    ensures Total(Powers(votes, true)) + Total(Powers(votes, false)) == Total(AllPowers(votes))
  {
    TotalSum(AllPowers(votes), Powers(votes, true), Powers(votes, false));
  }

  ghost function AllPowers(votes: map<Addr, Vote>): map<Addr, nat> {
    map a | a in votes :: votes[a].power
  }

  /** The powers of distinct voters at a block never exceed the total there. */
  lemma PowersWithinTotal(votes: map<Addr, Vote>, r: Registers, block: nat)
    requires AddsUp(r.free) && AddsUp(r.locked)
    requires forall a :: a in votes ==> votes[a].power == PowerAt(r, a, block)
    ensures Total(AllPowers(votes)) <= TotalPowerAt(r, block)
  {
    var free := map a | a in votes :: BalanceAt(r.free, a, block);
    var locked := map a | a in votes :: BalanceAt(r.locked, a, block);
    TotalSum(AllPowers(votes), free, locked);
    PartOfColumn(free, r.free, block);
    PartOfColumn(locked, r.locked, block);
  }

  lemma PartOfColumn(part: map<Addr, nat>, h: History, block: nat)
    requires AddsUp(h)
    requires forall a :: a in part ==> part[a] == BalanceAt(h, a, block)
    ensures Total(part) <= TotalAt(h, block)
  {
    forall a | a in part
      ensures part[a] <= Lookup(Column(h, block), a)
    {
      ColumnLookup(h, a, block);
    }
    TotalMonotone(part, Column(h, block));
  }

  // ---------- every step keeps it ----------

  lemma TallyStays(p: Proposal, votes: map<Addr, Vote>, r: Registers, later: Registers, height: nat)
    requires Tallied(p, votes, r) && p.startHeight <= height
    requires SamePast(r.free, later.free, height) && SamePast(r.locked, later.locked, height)
    ensures Tallied(p, votes, later)
  {
    forall a | a in votes
      ensures p.startHeight > 0 && votes[a].power == PowerAt(later, a, p.startHeight - 1)
    {
      var block: nat := p.startHeight - 1;
      assert BalanceAt(later.free, a, block) == BalanceAt(r.free, a, block);
      assert BalanceAt(later.locked, a, block) == BalanceAt(r.locked, a, block);
    }
  }

  /** Recording more at the present height changes no vote's power: that was read from the past. */
  lemma RecordingKeepsCouncil(w: World, xmars: X.XMars, vesting: V.Vesting)
    requires CouncilSound(w)
    requires SamePast(w.xmars.history, xmars.history, w.height)
    requires SamePast(w.vesting.history, vesting.history, w.height)
    ensures CouncilSound(w.(xmars := xmars, vesting := vesting))
  {
    var after := w.(xmars := xmars, vesting := vesting);
    forall id: nat | id in after.council.proposals
      ensures SoundAt(after, id)
    {
      assert SoundAt(w, id);
      TallyStays(w.council.proposals[id], VotesOn(w.council, id), RegistersOf(w), RegistersOf(after), w.height);
    }
    forall id: nat | id !in after.council.proposals
      ensures Unused(after, id)
    {
      assert Unused(w, id);
    }
  }

  lemma SamePastAsSelf(h: History, height: nat)
    ensures SamePast(h, h, height)
  {
  }

  lemma TokenOpSound(w: World, unlock: V.Schedule, op: X.Op)
    requires Sound(w, unlock) && X.Apply(w.xmars, w.height, op).Ok?
    ensures Sound(w.(xmars := X.Apply(w.xmars, w.height, op).value), unlock)
  {
    X.StepAdvances(w.xmars, X.Event(w.height, op));
    SamePastAsSelf(w.vesting.history, w.height);
    RecordingKeepsCouncil(w, X.Apply(w.xmars, w.height, op).value, w.vesting);
  }

  lemma VestingSound(w: World, unlock: V.Schedule, vesting: V.Vesting)
    requires Sound(w, unlock) && V.Sound(vesting, unlock, w.height, w.time)
    requires SamePast(w.vesting.history, vesting.history, w.height)
    ensures Sound(w.(vesting := vesting), unlock)
  {
    SamePastAsSelf(w.xmars.history, w.height);
    RecordingKeepsCouncil(w, w.xmars, vesting);
  }

  lemma EscrowUpdate(proposals: map<nat, Proposal>, id: nat, p: Proposal)
    ensures Total(Escrow(proposals[id := p])) ==
            Total(Escrow(proposals)) - (if id in proposals then Held(proposals[id]) else 0) + Held(p)
  {
    assert Escrow(proposals[id := p]) == Escrow(proposals)[id := Held(p)];
    TotalUpdate(Escrow(proposals), id, Held(p));
  }

  /** The world after one proposal and its votes were replaced, with what was recorded about it. */
  function WithProposal(w: World, id: nat, p: Proposal, votes: map<nat, map<Addr, Vote>>, mars: nat,
                        releases: seq<Release>, executions: seq<Execution>): World
  {
    w.(council := w.council.(count := if id in w.council.proposals then w.council.count else w.council.count + 1,
                             proposals := w.council.proposals[id := p], votes := votes),
    mars := mars, releases := releases, executions := executions)
  }

  lemma OneProposalChanges(w: World, id: nat, p: Proposal, votes: map<nat, map<Addr, Vote>>, mars: nat,
                           releases: seq<Release>, executions: seq<Execution>) returns (after: World)
    requires CouncilSound(w)
    requires id in w.council.proposals || id == w.council.count + 1
    requires forall o: nat :: o != id ==> (o in votes <==> o in w.council.votes)
    requires forall o: nat :: o != id && o in votes ==> votes[o] == w.council.votes[o]
    requires forall o: nat :: o != id ==> ReleaseCount(releases, o) == ReleaseCount(w.releases, o)
    requires forall o: nat :: o != id ==> ExecutionCount(executions, o) == ExecutionCount(w.executions, o)
    requires ProposalSound(p, if id in votes then votes[id] else map[], RegistersOf(w), w.height,
                           ReleaseCount(releases, id), ExecutionCount(executions, id))
    requires mars == w.mars - (if id in w.council.proposals then Held(w.council.proposals[id]) else 0) + Held(p)
    ensures after == WithProposal(w, id, p, votes, mars, releases, executions)
    ensures CouncilSound(after)
  {
    after := WithProposal(w, id, p, votes, mars, releases, executions);
    ChangedProposalIsSound(w, id, p, votes, mars, releases, executions);
    forall o: nat | o != id
      ensures o in w.council.proposals ==> SoundAt(after, o)
      ensures o !in w.council.proposals ==> Unused(after, o)
    {
      OtherProposalStays(w, id, p, votes, mars, releases, executions, o);
    }
    EscrowUpdate(w.council.proposals, id, p);
  }

  lemma ChangedProposalIsSound(w: World, id: nat, p: Proposal, votes: map<nat, map<Addr, Vote>>, mars: nat,
                               releases: seq<Release>, executions: seq<Execution>)
    requires ProposalSound(p, if id in votes then votes[id] else map[], RegistersOf(w), w.height,
                           ReleaseCount(releases, id), ExecutionCount(executions, id))
    requires id in w.council.proposals ==> SoundAt(w, id)
    requires id !in w.council.proposals ==> id == w.council.count + 1
    ensures SoundAt(WithProposal(w, id, p, votes, mars, releases, executions), id)
  {
    var after := WithProposal(w, id, p, votes, mars, releases, executions);
    assert VotesOn(after.council, id) == if id in votes then votes[id] else map[];
  }

  lemma OtherProposalStays(w: World, id: nat, p: Proposal, votes: map<nat, map<Addr, Vote>>, mars: nat,
                           releases: seq<Release>, executions: seq<Execution>, o: nat)
    requires CouncilSound(w) && o != id
    requires o in votes <==> o in w.council.votes
    requires o in votes ==> votes[o] == w.council.votes[o]
    requires ReleaseCount(releases, o) == ReleaseCount(w.releases, o)
    requires ExecutionCount(executions, o) == ExecutionCount(w.executions, o)
    ensures var after := WithProposal(w, id, p, votes, mars, releases, executions);
            && (o in w.council.proposals ==> SoundAt(after, o))
            && (o !in w.council.proposals ==> Unused(after, o))
  {
    var after := WithProposal(w, id, p, votes, mars, releases, executions);
    assert VotesOn(after.council, o) == VotesOn(w.council, o);
    if o in w.council.proposals {
      assert SoundAt(w, o);
    } else {
      assert Unused(w, o);
    }
  }

  lemma SubmitSound(w: World, p: Proposal) returns (after: World)
    requires CouncilSound(w)
    requires p.status == Active && p.forVotes == 0 && p.againstVotes == 0 && p.startHeight <= w.height
    ensures after == WithProposal(w, w.council.count + 1, p, w.council.votes, w.mars + p.deposit, w.releases, w.executions)
    ensures CouncilSound(after)
  {
    var id := w.council.count + 1;
    assert id !in w.council.proposals && Unused(w, id);
    assert Powers(map[], true) == map[] && Powers(map[], false) == map[];
    after := OneProposalChanges(w, id, p, w.council.votes, w.mars + p.deposit, w.releases, w.executions);
  }

  lemma SideGrows(votes: map<Addr, Vote>, voter: Addr, v: Vote, inFavour: bool)
    requires voter !in votes
    ensures Total(Powers(votes[voter := v], inFavour)) ==
            Total(Powers(votes, inFavour)) + if v.inFavour == inFavour then v.power else 0
  {
    var power := if v.inFavour == inFavour then v.power else 0;
    assert Powers(votes[voter := v], inFavour) == Powers(votes, inFavour)[voter := power];
    TotalExtend(Powers(votes, inFavour), voter, power);
  }

  lemma VoteTallied(p: Proposal, votes: map<Addr, Vote>, r: Registers, voter: Addr, v: Vote)
    requires Tallied(p, votes, r) && voter !in votes
    requires p.startHeight > 0 && v.power == PowerAt(r, voter, p.startHeight - 1)
    ensures Tallied(Counted(p, v), votes[voter := v], r)
  {
    SideGrows(votes, voter, v, true);
    SideGrows(votes, voter, v, false);
  }

  lemma CastSound(w: World, id: nat, voter: Addr, v: Vote) returns (after: World)
    requires CouncilSound(w)
    requires id in w.council.proposals && w.council.proposals[id].status == Active
    requires voter !in VotesOn(w.council, id)
    requires var p := w.council.proposals[id];
             p.startHeight > 0 && v.power == PowerAt(RegistersOf(w), voter, p.startHeight - 1)
    ensures after == WithProposal(w, id, Counted(w.council.proposals[id], v),
                                  w.council.votes[id := VotesOn(w.council, id)[voter := v]], w.mars, w.releases,
                                  w.executions)
    ensures CouncilSound(after)
  {
    var p := w.council.proposals[id];
    var votes := w.council.votes[id := VotesOn(w.council, id)[voter := v]];
    assert SoundAt(w, id);
    VoteTallied(p, VotesOn(w.council, id), RegistersOf(w), voter, v);
    after := OneProposalChanges(w, id, Counted(p, v), votes, w.mars, w.releases, w.executions);
  }

  /** Ending a proposal never lacks the deposit it hands on. */
  lemma EscrowCovers(w: World, id: nat)
    requires CouncilSound(w)
    requires id in w.council.proposals && w.council.proposals[id].status == Active
    ensures w.council.proposals[id].deposit <= w.mars
  {
    TotalUpdate(Escrow(w.council.proposals), id, 0);
  }

  lemma StatusMoves(p: Proposal, status: Status, votes: map<Addr, Vote>, r: Registers, height: nat)
    requires ProposalSound(p, votes, r, height, 0, 0) && p.status == Active
    requires status == Rejected || (status == Passed && p.forVotes > p.againstVotes)
    ensures ProposalSound(p.(status := status), votes, r, height, 1, 0)
  {
  }

  lemma ExecutedStays(p: Proposal, votes: map<Addr, Vote>, r: Registers, height: nat)
    requires ProposalSound(p, votes, r, height, 1, 0) && p.status == Passed
    ensures ProposalSound(p.(status := Executed), votes, r, height, 1, 1)
  {
  }

  lemma EndSound(w: World, id: nat, passed: bool, release: Release) returns (after: World)
    requires CouncilSound(w)
    requires id in w.council.proposals && w.council.proposals[id].status == Active
    requires var p := w.council.proposals[id];
             && (passed ==> p.forVotes > p.againstVotes)
             && release.id == id && release.amount == p.deposit
    ensures release.amount <= w.mars
    ensures after == WithProposal(w, id, w.council.proposals[id].(status := if passed then Passed else Rejected),
                                  w.council.votes, w.mars - release.amount, w.releases + [release], w.executions)
    ensures CouncilSound(after)
  {
    EscrowCovers(w, id);
    var p := w.council.proposals[id].(status := if passed then Passed else Rejected);
    assert SoundAt(w, id);
    ReleaseCounted(w.releases, release);
    StatusMoves(w.council.proposals[id], p.status, VotesOn(w.council, id), RegistersOf(w), w.height);
    after := OneProposalChanges(w, id, p, w.council.votes, w.mars - release.amount, w.releases + [release], w.executions);
  }

  lemma ReleaseCounted(releases: seq<Release>, last: Release)
    ensures forall o: nat :: ReleaseCount(releases + [last], o) == ReleaseCount(releases, o) + if o == last.id then 1 else 0
  {
    assert (releases + [last])[..|releases|] == releases;
  }

  lemma ExecutionCounted(executions: seq<Execution>, last: Execution)
    ensures forall o: nat ::
              ExecutionCount(executions + [last], o) == ExecutionCount(executions, o) + if o == last.id then 1 else 0
  {
    assert (executions + [last])[..|executions|] == executions;
  }

  lemma ExecuteSound(w: World, id: nat, execution: Execution) returns (after: World)
    requires CouncilSound(w)
    requires id in w.council.proposals && w.council.proposals[id].status == Passed
    requires execution.id == id
    ensures after == WithProposal(w, id, w.council.proposals[id].(status := Executed), w.council.votes, w.mars,
                                  w.releases, w.executions + [execution])
    ensures CouncilSound(after)
  {
    assert SoundAt(w, id);
    ExecutionCounted(w.executions, execution);
    ExecutedStays(w.council.proposals[id], VotesOn(w.council, id), RegistersOf(w), w.height);
    after := OneProposalChanges(w, id, w.council.proposals[id].(status := Executed), w.council.votes, w.mars, w.releases,
                                w.executions + [execution]);
  }

  // ---------- each action is one of these changes ----------

  lemma SubmitMakes(w: World, s: Setup, submitter: Addr, inMars: bool, deposit: nat, text: Text,
                    messages: seq<Message>) returns (p: Proposal)
    requires Act(w, s, SubmitProposal(submitter, inMars, deposit, text, messages)).Ok?
    requires w.council.count + 1 !in w.council.proposals
    ensures p.status == Active && p.forVotes == 0 && p.againstVotes == 0 && p.startHeight == w.height
    ensures Act(w, s, SubmitProposal(submitter, inMars, deposit, text, messages))
         == Ok(WithProposal(w, w.council.count + 1, p, w.council.votes, w.mars + p.deposit, w.releases, w.executions))
  {
    p := Proposal(submitter, Active, 0, 0, w.height, w.height + w.council.config.votingPeriod, text, messages, deposit);
  }

  lemma SubmitActs(w: World, s: Setup, submitter: Addr, inMars: bool, deposit: nat, text: Text, messages: seq<Message>)
    requires CouncilSound(w)
    requires Act(w, s, SubmitProposal(submitter, inMars, deposit, text, messages)).Ok?
    ensures CouncilSound(Act(w, s, SubmitProposal(submitter, inMars, deposit, text, messages)).value)
  {
    var p := SubmitMakes(w, s, submitter, inMars, deposit, text, messages);
    var after := SubmitSound(w, p);
  }

  lemma CastMakes(w: World, s: Setup, id: nat, voter: Addr, inFavour: bool) returns (v: Vote)
    requires Act(w, s, Cast(id, voter, inFavour)).Ok?
    ensures id in w.council.proposals && w.council.proposals[id].status == Active
    ensures voter !in VotesOn(w.council, id)
    ensures w.council.proposals[id].startHeight > 0
    ensures v.power == PowerAt(RegistersOf(w), voter, w.council.proposals[id].startHeight - 1)
    ensures Act(w, s, Cast(id, voter, inFavour))
         == Ok(WithProposal(w, id, Counted(w.council.proposals[id], v),
                            w.council.votes[id := VotesOn(w.council, id)[voter := v]], w.mars, w.releases, w.executions))
  {
    v := Vote(inFavour, PowerAt(RegistersOf(w), voter, w.council.proposals[id].startHeight - 1));
  }

  lemma CastActs(w: World, s: Setup, id: nat, voter: Addr, inFavour: bool)
    requires CouncilSound(w)
    requires Act(w, s, Cast(id, voter, inFavour)).Ok?
    ensures CouncilSound(Act(w, s, Cast(id, voter, inFavour)).value)
  {
    var v := CastMakes(w, s, id, voter, inFavour);
    var after := CastSound(w, id, voter, v);
  }

  lemma EndMakes(w: World, s: Setup, id: nat) returns (passed: bool, release: Release)
    requires EndProposal(w.council, RegistersOf(w), w.height, s.staking, id).Ok?
    requires id in w.council.proposals ==> w.council.proposals[id].deposit <= w.mars || w.council.proposals[id].status != Active
    ensures id in w.council.proposals && w.council.proposals[id].status == Active
    ensures var p := w.council.proposals[id];
            && p.startHeight > 0
            && passed == Carried(p, TotalPowerAt(RegistersOf(w), p.startHeight - 1), w.council.config)
            && release == Release(id, if passed then p.submitter else s.staking, p.deposit)
            && release.amount <= w.mars
            && Act(w, s, End(id))
            == Ok(WithProposal(w, id, p.(status := if passed then Passed else Rejected), w.council.votes,
                               w.mars - release.amount, w.releases + [release], w.executions))
  {
    var p := w.council.proposals[id];
    passed := Carried(p, TotalPowerAt(RegistersOf(w), p.startHeight - 1), w.council.config);
    release := Release(id, if passed then p.submitter else s.staking, p.deposit);
  }

  lemma EndActs(w: World, s: Setup, id: nat)
    requires CouncilSound(w)
    requires EndProposal(w.council, RegistersOf(w), w.height, s.staking, id).Ok?
    ensures Act(w, s, End(id)).Ok?
    ensures CouncilSound(Act(w, s, End(id)).value)
  {
    EscrowCovers(w, id);
    var passed, release := EndMakes(w, s, id);
    if passed {
      CarriedByMajority(w.council.proposals[id],
                        TotalPowerAt(RegistersOf(w), w.council.proposals[id].startHeight - 1), w.council.config);
    }
    var after := EndSound(w, id, passed, release);
  }

  lemma ExecuteMakes(w: World, s: Setup, id: nat)
    requires Act(w, s, Execute(id)).Ok?
    ensures id in w.council.proposals && w.council.proposals[id].status == Passed
    ensures var p := w.council.proposals[id];
            Act(w, s, Execute(id))
            == Ok(WithProposal(w, id, p.(status := Executed), w.council.votes, w.mars, w.releases,
                               w.executions + [Execution(id, Calls(Sorted(p.messages)))]))
  {
  }

  lemma ExecuteActs(w: World, s: Setup, id: nat)
    requires CouncilSound(w)
    requires Act(w, s, Execute(id)).Ok?
    ensures CouncilSound(Act(w, s, Execute(id)).value)
  {
    var after := ExecuteSound(w, id, Execution(id, Calls(Sorted(w.council.proposals[id].messages))));
    ExecuteMakes(w, s, id);
  }

  /** The registers are left alone by the council's own actions. */
  lemma CouncilActSound(w: World, s: Setup, action: Action)
    requires CouncilSound(w)
    requires !action.TokenOp? && !action.Allocate? && !action.WithdrawVested?
    requires Act(w, s, action).Ok?
    ensures CouncilSound(Act(w, s, action).value)
  {
    match action
    case SubmitProposal(submitter, inMars, deposit, text, messages) =>
      SubmitActs(w, s, submitter, inMars, deposit, text, messages);
    case Cast(id, voter, inFavour) => CastActs(w, s, id, voter, inFavour);
    case End(id) => EndActs(w, s, id);
    case Execute(id) => ExecuteActs(w, s, id);
    case Reconfigure(config) => CouncilUntouched(w, w.(council := w.council.(config := config)));
    case Donate(amount) => CouncilUntouched(w, w.(mars := w.mars + amount, donated := w.donated + amount));
  }

  lemma RegistersUntouched(w: World, s: Setup, action: Action)
    requires !action.TokenOp? && !action.Allocate? && !action.WithdrawVested?
    requires Act(w, s, action).Ok?
    ensures var after := Act(w, s, action).value;
            after.xmars == w.xmars && after.vesting == w.vesting && after.height == w.height && after.time == w.time
  {
  }

  lemma ActSound(w: World, s: Setup, action: Action)
    requires Sound(w, s.unlock)
    requires Act(w, s, action).Ok?
    ensures Sound(Act(w, s, action).value, s.unlock)
  {
    match action
    case TokenOp(op) => TokenOpSound(w, s.unlock, op);
    case Allocate(user, amount, schedule) =>
      V.CreateKeepsSound(w.vesting, s.unlock, w.height, w.time, user, amount, schedule);
      VestingSound(w, s.unlock, V.CreateAllocation(w.vesting, w.height, user, amount, schedule).value);
    case WithdrawVested(user) =>
      V.WithdrawRefusals(w.vesting, s.unlock, w.height, w.time, user);
      VestingSound(w, s.unlock, V.Withdraw(w.vesting, w.height, w.time, user, s.unlock).value);
    case _ =>
      CouncilActSound(w, s, action);
      RegistersUntouched(w, s, action);
  }

  lemma CouncilUntouched(w: World, after: World)
    requires CouncilSound(w)
    requires after == w.(council := after.council, mars := after.mars, donated := after.donated, height := after.height,
                         time := after.time)
    requires after.council == w.council.(config := after.council.config) && after.council.config.Valid()
    requires after.mars - after.donated == w.mars - w.donated && w.height <= after.height
    ensures CouncilSound(after)
  {
    forall id: nat | id in after.council.proposals
      ensures SoundAt(after, id)
    {
      assert SoundAt(w, id);
    }
    forall id: nat | id !in after.council.proposals
      ensures Unused(after, id)
    {
      assert Unused(w, id);
    }
  }

  lemma TimePasses(w: World, unlock: V.Schedule, height: nat, time: nat)
    requires Sound(w, unlock) && w.height <= height && w.time <= time
    ensures Sound(w.(height := height, time := time), unlock)
  {
    CurrentLater(w.xmars.history, w.xmars.balances, w.xmars.supply, w.height, height);
    V.SoundLater(w.vesting, unlock, w.height, w.time, height, time);
    CouncilUntouched(w, w.(height := height, time := time));
  }

  lemma StartSound(s: Setup)
    requires s.config.Valid()
    ensures Sound(Start(s), s.unlock)
  {
    X.InstantiateSynced(s.rows, s.height);
    V.NothingIsSound(s.unlock);
    V.SoundLater(V.NoVesting, s.unlock, 0, 0, Start(s).height, Start(s).time);
    assert Escrow(map[]) == map[];
  }

  lemma {:induction false} EveryRunIsSound(s: Setup, events: seq<Timed>)
    requires s.config.Valid()
    ensures Sound(Run(s, events), s.unlock)
  {
    if events == [] {
      StartSound(s);
    } else {
      var w, e := Run(s, events[..|events| - 1]), events[|events| - 1];
      EveryRunIsSound(s, events[..|events| - 1]);
      TimePasses(w, s.unlock, Max(w.height, e.height), Max(w.time, e.time));
      var timed := w.(height := Max(w.height, e.height), time := Max(w.time, e.time));
      if Act(timed, s, e.action).Ok? {
        ActSound(timed, s, e.action);
      }
    }
  }

  // ---------- what never changes about a proposal ----------

  /** How a proposal and its votes may differ after a step: the terms never change, the status only moves
      forward, and once voting is over the tallies and the votes stay as they are. */
  ghost predicate Follows(p: Proposal, votes: map<Addr, Vote>, p': Proposal, votes': map<Addr, Vote>) {
    && p' == p.(status := p'.status, forVotes := p'.forVotes, againstVotes := p'.againstVotes)
    && (p'.status == p.status
        || (p.status == Active && (p'.status == Passed || p'.status == Rejected))
        || (p.status == Passed && p'.status == Executed))
    && (p.status != Active || p'.status != Active ==>
          votes' == votes && p'.forVotes == p.forVotes && p'.againstVotes == p.againstVotes)
    && (forall a :: a in votes ==> a in votes' && votes'[a] == votes[a])
  }

  ghost predicate FollowsAt(c: State, c': State, id: nat)
    requires id in c.proposals
  {
    && id in c'.proposals
    && Follows(c.proposals[id], VotesOn(c, id), c'.proposals[id], VotesOn(c', id))
  }

  lemma SubmitFollows(c: State, height: nat, submitter: Addr, inMars: bool, deposit: nat, text: Text,
                      messages: seq<Message>, id: nat)
    requires id in c.proposals && c.count + 1 !in c.proposals
    requires Submit(c, height, submitter, inMars, deposit, text, messages).Ok?
    ensures FollowsAt(c, Submit(c, height, submitter, inMars, deposit, text, messages).value, id)
  {
  }

  lemma CastFollows(c: State, r: Registers, height: nat, voter: Addr, target: nat, inFavour: bool, id: nat)
    requires id in c.proposals
    requires CastVote(c, r, height, voter, target, inFavour).Ok?
    ensures FollowsAt(c, CastVote(c, r, height, voter, target, inFavour).value, id)
  {
  }

  lemma EndFollows(c: State, r: Registers, height: nat, staking: Addr, target: nat, id: nat)
    requires id in c.proposals
    requires EndProposal(c, r, height, staking, target).Ok?
    ensures FollowsAt(c, EndProposal(c, r, height, staking, target).value.council, id)
  {
  }

  lemma ExecuteFollows(c: State, height: nat, target: nat, id: nat)
    requires id in c.proposals
    requires ExecuteProposal(c, height, target).Ok?
    ensures FollowsAt(c, ExecuteProposal(c, height, target).value.council, id)
  {
  }

  lemma SameFollows(c: State, c': State, id: nat)
    requires id in c.proposals && c'.proposals == c.proposals && c'.votes == c.votes
    ensures FollowsAt(c, c', id)
  {
  }

  /** Which council a council action leaves. */
  lemma ActCouncil(w: World, s: Setup, action: Action)
    requires Act(w, s, action).Ok?
    ensures var c := Act(w, s, action).value.council;
            match action
            case SubmitProposal(submitter, inMars, deposit, text, messages) =>
              Submit(w.council, w.height, submitter, inMars, deposit, text, messages) == Ok(c)
            case Cast(id, voter, inFavour) => CastVote(w.council, RegistersOf(w), w.height, voter, id, inFavour) == Ok(c)
            case End(id) =>
              var r := EndProposal(w.council, RegistersOf(w), w.height, s.staking, id);
              r.Ok? && r.value.council == c
            case Execute(id) =>
              var r := ExecuteProposal(w.council, w.height, id);
              r.Ok? && r.value.council == c
            case _ => c == w.council.(config := c.config)
  {
  }

  lemma ActFollows(w: World, s: Setup, action: Action, id: nat)
    requires CouncilSound(w) && id in w.council.proposals
    requires Act(w, s, action).Ok?
    ensures FollowsAt(w.council, Act(w, s, action).value.council, id)
  {
    ActCouncil(w, s, action);
    match action
    case SubmitProposal(submitter, inMars, deposit, text, messages) =>
      assert w.council.count + 1 !in w.council.proposals;
      SubmitFollows(w.council, w.height, submitter, inMars, deposit, text, messages, id);
    case Cast(target, voter, inFavour) =>
      CastFollows(w.council, RegistersOf(w), w.height, voter, target, inFavour, id);
    case End(target) => EndFollows(w.council, RegistersOf(w), w.height, s.staking, target, id);
    case Execute(target) => ExecuteFollows(w.council, w.height, target, id);
    case _ => SameFollows(w.council, Act(w, s, action).value.council, id);
  }

  /** In every step of every run. */
  lemma StepFollows(s: Setup, events: seq<Timed>, e: Timed, id: nat)
    requires s.config.Valid() && id in Run(s, events).council.proposals
    ensures FollowsAt(Run(s, events).council, Run(s, events + [e]).council, id)
  {
    var w := Run(s, events);
    assert (events + [e])[..|events|] == events;
    EveryRunIsSound(s, events);
    TimePasses(w, s.unlock, Max(w.height, e.height), Max(w.time, e.time));
    var timed := w.(height := Max(w.height, e.height), time := Max(w.time, e.time));
    SameFollows(w.council, timed.council, id);
    if Act(timed, s, e.action).Ok? {
      ActFollows(timed, s, e.action, id);
    }
  }

  // ---------- what is handed out ----------

  /** Every release is of an ended proposal's deposit to whom its outcome says, and every execution sends
      an executed proposal's messages, sorted. */
  ghost predicate RecordsSound(w: World, staking: Addr) {
    && (forall k :: 0 <= k < |w.releases| ==> ReleaseSound(w.releases[k], w.council.proposals, staking))
    && (forall k :: 0 <= k < |w.executions| ==> ExecutionSound(w.executions[k], w.council.proposals))
  }

  ghost predicate ReleaseSound(r: Release, proposals: map<nat, Proposal>, staking: Addr) {
    && r.id in proposals && proposals[r.id].status != Active
    && r.amount == proposals[r.id].deposit
    && r.recipient == if proposals[r.id].status == Rejected then staking else proposals[r.id].submitter
  }

  ghost predicate ExecutionSound(e: Execution, proposals: map<nat, Proposal>) {
    && e.id in proposals && proposals[e.id].status == Executed
    && e.calls == Calls(Sorted(proposals[e.id].messages))
  }

  lemma ActRecords(w: World, s: Setup, action: Action)
    requires CouncilSound(w)
    requires Act(w, s, action).Ok?
    ensures var after := Act(w, s, action).value;
            && (after.releases == w.releases
                || exists r :: after.releases == w.releases + [r] && ReleaseSound(r, after.council.proposals, s.staking))
            && (after.executions == w.executions
                || exists e :: after.executions == w.executions + [e] && ExecutionSound(e, after.council.proposals))
  {
    var after := Act(w, s, action).value;
    match action
    case End(id) =>
      var passed, release := EndMakes(w, s, id);
      assert ReleaseSound(release, after.council.proposals, s.staking);
      assert after.releases == w.releases + [release];
    case Execute(id) =>
      ExecuteMakes(w, s, id);
      var e := Execution(id, Calls(Sorted(w.council.proposals[id].messages)));
      assert ExecutionSound(e, after.council.proposals);
      assert after.executions == w.executions + [e];
    case _ =>
  }

  lemma ReleaseStays(r: Release, c: State, c': State, staking: Addr)
    requires ReleaseSound(r, c.proposals, staking) && FollowsAt(c, c', r.id)
    ensures ReleaseSound(r, c'.proposals, staking)
  {
  }

  lemma ExecutionStays(e: Execution, c: State, c': State)
    requires ExecutionSound(e, c.proposals) && FollowsAt(c, c', e.id)
    ensures ExecutionSound(e, c'.proposals)
  {
  }

  lemma RecordsGrow(w: World, after: World, staking: Addr)
    requires RecordsSound(w, staking)
    requires forall id: nat :: id in w.council.proposals ==> FollowsAt(w.council, after.council, id)
    requires after.releases == w.releases
             || exists r :: after.releases == w.releases + [r] && ReleaseSound(r, after.council.proposals, staking)
    requires after.executions == w.executions
             || exists e :: after.executions == w.executions + [e] && ExecutionSound(e, after.council.proposals)
    ensures RecordsSound(after, staking)
  {
    forall k | 0 <= k < |w.releases|
      ensures ReleaseSound(w.releases[k], after.council.proposals, staking)
    {
      ReleaseStays(w.releases[k], w.council, after.council, staking);
    }
    forall k | 0 <= k < |w.executions|
      ensures ExecutionSound(w.executions[k], after.council.proposals)
    {
      ExecutionStays(w.executions[k], w.council, after.council);
    }
  }

  lemma RecordsStay(w: World, s: Setup, action: Action)
    requires CouncilSound(w) && RecordsSound(w, s.staking)
    requires Act(w, s, action).Ok?
    ensures RecordsSound(Act(w, s, action).value, s.staking)
  {
    var after := Act(w, s, action).value;
    ActRecords(w, s, action);
    forall id: nat | id in w.council.proposals
      ensures FollowsAt(w.council, after.council, id)
    {
      ActFollows(w, s, action, id);
    }
    RecordsGrow(w, after, s.staking);
  }

  lemma {:induction false} EveryRunRecords(s: Setup, events: seq<Timed>)
    requires s.config.Valid()
    ensures RecordsSound(Run(s, events), s.staking)
  {
    if events != [] {
      var w, e := Run(s, events[..|events| - 1]), events[|events| - 1];
      EveryRunRecords(s, events[..|events| - 1]);
      EveryRunIsSound(s, events[..|events| - 1]);
      TimePasses(w, s.unlock, Max(w.height, e.height), Max(w.time, e.time));
      var timed := w.(height := Max(w.height, e.height), time := Max(w.time, e.time));
      assert RecordsSound(timed, s.staking);
      if Act(timed, s, e.action).Ok? {
        RecordsStay(timed, s, e.action);
      }
    }
  }

  // ---------- turnout ----------

  ghost predicate FreeAddsUp(w: World) {
    X.Balanced(w.xmars) && AddsUp(w.xmars.history)
  }

  lemma ActAddsUp(w: World, s: Setup, action: Action)
    requires Sound(w, s.unlock) && FreeAddsUp(w)
    requires Act(w, s, action).Ok?
    ensures FreeAddsUp(Act(w, s, action).value)
  {
    if action.TokenOp? {
      var after := X.Step(w.xmars, X.Event(w.height, action.op));
      X.StepAdvances(w.xmars, X.Event(w.height, action.op));
      StillAddsUp(w.xmars.history, after.history, after.balances, after.supply, w.height);
    } else if !action.Allocate? && !action.WithdrawVested? {
      RegistersUntouched(w, s, action);
    }
  }

  lemma {:induction false} EveryRunAddsUp(s: Setup, events: seq<Timed>)
    requires s.config.Valid() && X.Balanced(X.Instantiate(s.rows, s.height))
    ensures FreeAddsUp(Run(s, events))
  {
    if events == [] {
      X.EveryBlockAddsUp(s.rows, s.height, []);
    } else {
      var w, e := Run(s, events[..|events| - 1]), events[|events| - 1];
      EveryRunAddsUp(s, events[..|events| - 1]);
      EveryRunIsSound(s, events[..|events| - 1]);
      TimePasses(w, s.unlock, Max(w.height, e.height), Max(w.time, e.time));
      var timed := w.(height := Max(w.height, e.height), time := Max(w.time, e.time));
      if Act(timed, s, e.action).Ok? {
        ActAddsUp(timed, s, e.action);
      }
    }
  }

  lemma TalliesWithinTotal(p: Proposal, votes: map<Addr, Vote>, r: Registers)
    requires Tallied(p, votes, r) && AddsUp(r.free) && AddsUp(r.locked)
    ensures p.startHeight > 0 ==> p.forVotes + p.againstVotes <= TotalPowerAt(r, p.startHeight - 1)
    ensures p.startHeight == 0 ==> p.forVotes + p.againstVotes == 0
  {
    VotesSplit(votes);
    if p.startHeight > 0 {
      PowersWithinTotal(votes, r, p.startHeight - 1);
    } else {
      assert AllPowers(votes) == map[];
    }
  }

  lemma TurnoutAt(w: World, id: nat)
    requires id in w.council.proposals && SoundAt(w, id)
    requires AddsUp(w.xmars.history) && AddsUp(w.vesting.history)
    ensures var p := w.council.proposals[id];
            && p.forVotes == Total(Powers(VotesOn(w.council, id), true))
            && p.againstVotes == Total(Powers(VotesOn(w.council, id), false))
            && (p.startHeight > 0 ==> p.forVotes + p.againstVotes <= TotalPowerAt(RegistersOf(w), p.startHeight - 1))
            && (p.startHeight == 0 ==> p.forVotes + p.againstVotes == 0)
  {
    TalliesWithinTotal(w.council.proposals[id], VotesOn(w.council, id), RegistersOf(w));
  }

  /** In every run all votes on a proposal together stay within the total power its quorum is measured
      against, and each tally is the sum of the recorded votes of its side. The xMARS supply must have
      started out as the sum of the balances; `InitialSupplyExact` says when it did. */
  lemma TurnoutWithinTotalPower(s: Setup, events: seq<Timed>, id: nat)
    requires s.config.Valid() && X.Balanced(X.Instantiate(s.rows, s.height))
    requires id in Run(s, events).council.proposals
    ensures var w := Run(s, events);
            var p := w.council.proposals[id];
            && p.forVotes == Total(Powers(VotesOn(w.council, id), true))
            && p.againstVotes == Total(Powers(VotesOn(w.council, id), false))
            && (p.startHeight > 0 ==> p.forVotes + p.againstVotes <= TotalPowerAt(RegistersOf(w), p.startHeight - 1))
            && (p.startHeight == 0 ==> p.forVotes + p.againstVotes == 0)
  {
    EveryRunIsSound(s, events);
    EveryRunAddsUp(s, events);
    TurnoutAt(Run(s, events), id);
  }
}
