/** Allocations that vest and unlock over time, and the voting power of what is still locked. */
module Vesting {
  import opened Base
  import opened FixedPoint
  import opened Totals
  import opened Snapshots

  datatype Schedule = Schedule(startTime: nat, cliff: nat, duration: nat)

  datatype Allocation = Allocation(granted: nat, withdrawn: nat, vesting: Schedule)

  datatype Vesting = Vesting(allocations: map<Addr, Allocation>, history: History)

  const NoVesting := Vesting(map[], NoHistory)

  /** `amount * part / whole`, rounded down. */
  function Portion(amount: nat, part: nat, whole: nat): nat
    requires whole > 0
  {
    amount * part / whole
  }

  /** How much of an amount a schedule has released: nothing before the cliff, then a linear part, and
      everything in the end. */
  function Released(s: Schedule, amount: nat, time: nat): nat {
    if time < s.startTime + s.cliff then 0
    else if time < s.startTime + s.duration then Portion(amount, time - s.startTime, s.duration)
    else amount
  }

  function Entitled(a: Allocation, unlock: Schedule, time: nat): nat {
    Min(Released(a.vesting, a.granted, time), Released(unlock, a.granted, time))
  }

  function Withdrawable(a: Allocation, unlock: Schedule, time: nat): Result<nat> {
    if a.withdrawn > Entitled(a, unlock, time) then Err(Overflow)
    else
      Ok(Entitled(a, unlock, time) - a.withdrawn)
  }

  function CreateAllocation(v: Vesting, height: nat, user: Addr, amount: nat, schedule: Schedule): Result<Vesting> {
    if user in v.allocations then Err(AllocationExists)
    else
      var captured := CaptureBalance(v.history, user, height, amount);
      Ok(Vesting(v.allocations[user := Allocation(amount, 0, schedule)],
                 CaptureTotal(captured, height, TotalAt(captured, height) + amount)))
  }

  /** Withdraws what can be withdrawn. The token refuses to move nothing, and the call fails with it. */
  function Withdraw(v: Vesting, height: nat, time: nat, user: Addr, unlock: Schedule): Result<Vesting> {
    if user !in v.allocations then Err(NotFound)
    else
      var a := v.allocations[user];
      var amount :- Withdrawable(a, unlock, time);
      :- Need(amount <= BalanceAt(v.history, user, height), Overflow);
      var captured := CaptureBalance(v.history, user, height, BalanceAt(v.history, user, height) - amount);
      :- Need(amount <= TotalAt(captured, height), Overflow);
      :- Need(amount > 0, InvalidZeroAmount);
      Ok(Vesting(v.allocations[user := a.(withdrawn := a.withdrawn + amount)],
                 CaptureTotal(captured, height, TotalAt(captured, height) - amount)))
  }

  // ---------- schedules ----------

  lemma ReleasedGrows(s: Schedule, amount: nat, time: nat, later: nat)
    requires time <= later
    ensures Released(s, amount, time) <= Released(s, amount, later) <= amount
  {
    LinearPart(s, amount, later);
    if s.startTime + s.cliff <= time < s.startTime + s.duration {
      LinearPart(s, amount, time);
      if later < s.startTime + s.duration {
        MulMonotone(time - s.startTime, later - s.startTime, amount);
        FloorMonotone(amount * (time - s.startTime), amount * (later - s.startTime), s.duration);
      }
    }
  }

  lemma LinearPart(s: Schedule, amount: nat, time: nat)
    ensures Released(s, amount, time) <= amount
  {
    if s.startTime + s.cliff <= time < s.startTime + s.duration {
      MulMonotone(time - s.startTime, s.duration, amount);
      FloorBelow(amount * (time - s.startTime), s.duration, amount + 1);
    }
  }

  lemma EntitledGrows(a: Allocation, unlock: Schedule, time: nat, later: nat)
    requires time <= later
    ensures Entitled(a, unlock, time) <= Entitled(a, unlock, later) <= a.granted
    ensures time >= a.vesting.startTime + a.vesting.cliff && time >= a.vesting.startTime + a.vesting.duration
            && time >= unlock.startTime + unlock.cliff && time >= unlock.startTime + unlock.duration ==>
              Entitled(a, unlock, time) == a.granted
  {
    ReleasedGrows(a.vesting, a.granted, time, later);
    ReleasedGrows(unlock, a.granted, time, later);
  }

  /** Nothing is released before the cliff and everything at the end; between them as much as time has passed
      of the duration, rounded down. */
  lemma ReleasedLinearly(s: Schedule, amount: nat, time: nat)
    ensures time < s.startTime + s.cliff ==> Released(s, amount, time) == 0
    ensures s.startTime + s.cliff <= time && s.startTime + s.duration <= time ==> Released(s, amount, time) == amount
    ensures s.startTime + s.cliff <= time < s.startTime + s.duration ==>
              var released := Released(s, amount, time);
              released * s.duration <= amount * (time - s.startTime) < released * s.duration + s.duration
  {
    if s.startTime + s.cliff <= time < s.startTime + s.duration {
      FloorBounds(amount * (time - s.startTime), s.duration);
    }
  }

  /** A user is entitled to what both schedules have released: neither allows more, and one of them sets it. */
  lemma EntitledByBoth(a: Allocation, unlock: Schedule, time: nat)
    ensures Entitled(a, unlock, time) <= Released(a.vesting, a.granted, time)
    ensures Entitled(a, unlock, time) <= Released(unlock, a.granted, time)
    ensures Entitled(a, unlock, time) == Released(a.vesting, a.granted, time)
            || Entitled(a, unlock, time) == Released(unlock, a.granted, time)
  {
  }

  // ---------- voting power ----------

  /** What each user still has locked. */
  ghost function Powers(allocations: map<Addr, Allocation>): map<Addr, nat> {
    map a | a in allocations :: Locked(allocations[a])
  }

  function Locked(a: Allocation): nat {
    if a.withdrawn <= a.granted then a.granted - a.withdrawn else 0
  }

  /** Nobody has withdrawn more than was due by `time`. */
  ghost predicate WithinSchedule(v: Vesting, unlock: Schedule, time: nat) {
    forall a :: a in v.allocations ==> v.allocations[a].withdrawn <= Entitled(v.allocations[a], unlock, time)
  }

  /** The recorded powers are what is locked, and at every block they add up to the recorded total. */
  ghost predicate Sound(v: Vesting, unlock: Schedule, height: nat, time: nat) {
    && WithinSchedule(v, unlock, time)
    && Current(v.history, Powers(v.allocations), Total(Powers(v.allocations)), height)
    && AddsUp(v.history)
  }

  lemma PowersUpdate(allocations: map<Addr, Allocation>, user: Addr, a: Allocation)
    ensures Powers(allocations[user := a]) == Powers(allocations)[user := Locked(a)]
    ensures Total(Powers(allocations[user := a])) ==
            Total(Powers(allocations)) - Lookup(Powers(allocations), user) + Locked(a)
  {
    TotalUpdate(Powers(allocations), user, Locked(a));
  }

  /** One user's allocation is replaced and both captures are made. */
  ghost function WithAllocation(v: Vesting, height: nat, user: Addr, a: Allocation): Vesting {
    var allocations := v.allocations[user := a];
    Vesting(allocations,
            CaptureTotal(CaptureBalance(v.history, user, height, Locked(a)), height, Total(Powers(allocations))))
  }

  lemma WithAllocationSound(v: Vesting, unlock: Schedule, height: nat, time: nat, user: Addr, a: Allocation)
    requires Sound(v, unlock, height, time)
    requires a.withdrawn <= Entitled(a, unlock, time)
    ensures var after := WithAllocation(v, height, user, a);
            Sound(after, unlock, height, time) && SamePast(v.history, after.history, height)
  {
    var powers := Powers(v.allocations);
    var captured := CaptureBalance(v.history, user, height, Locked(a));
    var total := Total(Powers(v.allocations[user := a]));
    PowersUpdate(v.allocations, user, a);
    BalanceCaptured(v.history, powers, Total(powers), height, user, Locked(a));
    TotalCaptured(captured, powers[user := Locked(a)], Total(powers), height, total);
    PastChains(v.history, captured, CaptureTotal(captured, height, total), height);
    StillAddsUp(v.history, CaptureTotal(captured, height, total), powers[user := Locked(a)], total, height);
  }

  lemma SoundLater(v: Vesting, unlock: Schedule, height: nat, time: nat, height': nat, time': nat)
    requires Sound(v, unlock, height, time) && height <= height' && time <= time'
    ensures Sound(v, unlock, height', time')
  {
    CurrentLater(v.history, Powers(v.allocations), Total(Powers(v.allocations)), height, height');
    forall a | a in v.allocations
      ensures v.allocations[a].withdrawn <= Entitled(v.allocations[a], unlock, time')
    {
      EntitledGrows(v.allocations[a], unlock, time, time');
    }
  }

  lemma RecordedPower(v: Vesting, unlock: Schedule, height: nat, time: nat, user: Addr)
    requires Sound(v, unlock, height, time)
    ensures BalanceAt(v.history, user, height) == Lookup(Powers(v.allocations), user)
    ensures TotalAt(v.history, height) == Total(Powers(v.allocations))
    ensures Lookup(Powers(v.allocations), user) <= Total(Powers(v.allocations))
  {
    CurrentAnswers(v.history, Powers(v.allocations), Total(Powers(v.allocations)), height, height);
    TotalUpdate(Powers(v.allocations), user, 0);
  }

  lemma CreateMakes(v: Vesting, height: nat, user: Addr, amount: nat, schedule: Schedule)
    requires user !in v.allocations
    requires TotalAt(v.history, height) == Total(Powers(v.allocations))
    ensures CreateAllocation(v, height, user, amount, schedule)
         == Ok(WithAllocation(v, height, user, Allocation(amount, 0, schedule)))
  {
    PowersUpdate(v.allocations, user, Allocation(amount, 0, schedule));
  }

  lemma CreateKeepsSound(v: Vesting, unlock: Schedule, height: nat, time: nat, user: Addr, amount: nat, schedule: Schedule)
    requires Sound(v, unlock, height, time)
    requires CreateAllocation(v, height, user, amount, schedule).Ok?
    ensures var after := CreateAllocation(v, height, user, amount, schedule).value;
            Sound(after, unlock, height, time) && SamePast(v.history, after.history, height)
  {
    RecordedPower(v, unlock, height, time, user);
    CreateMakes(v, height, user, amount, schedule);
    WithAllocationSound(v, unlock, height, time, user, Allocation(amount, 0, schedule));
  }

  /** An allocation is made once, for the amount and the schedule named, and gives its power at once. */
  lemma CreateEffect(v: Vesting, unlock: Schedule, height: nat, time: nat, user: Addr, amount: nat, schedule: Schedule)
    requires Sound(v, unlock, height, time)
    ensures CreateAllocation(v, height, user, amount, schedule).Ok? <==> user !in v.allocations
    ensures user !in v.allocations ==>
              var after := CreateAllocation(v, height, user, amount, schedule).value;
              && after.allocations == v.allocations[user := Allocation(amount, 0, schedule)]
              && BalanceAt(after.history, user, height) == amount
              && TotalAt(after.history, height) == TotalAt(v.history, height) + amount
              && forall o :: o != user ==> BalanceAt(after.history, o, height) == BalanceAt(v.history, o, height)
  {
    if user !in v.allocations {
      CreateKeepsSound(v, unlock, height, time, user, amount, schedule);
      var after := CreateAllocation(v, height, user, amount, schedule).value;
      RecordedPower(after, unlock, height, time, user);
      RecordedPower(v, unlock, height, time, user);
      PowersUpdate(v.allocations, user, Allocation(amount, 0, schedule));
      forall o | o != user
        ensures BalanceAt(after.history, o, height) == BalanceAt(v.history, o, height)
      {
        RecordedPower(after, unlock, height, time, o);
        RecordedPower(v, unlock, height, time, o);
      }
    }
  }

  lemma WithdrawMakes(v: Vesting, height: nat, time: nat, user: Addr, unlock: Schedule)
    requires user in v.allocations
    requires BalanceAt(v.history, user, height) == Lookup(Powers(v.allocations), user) <= TotalAt(v.history, height)
    requires TotalAt(v.history, height) == Total(Powers(v.allocations))
    requires v.allocations[user].withdrawn <= Entitled(v.allocations[user], unlock, time) <= v.allocations[user].granted
    ensures var a := v.allocations[user];
            var due := Entitled(a, unlock, time);
            && (Withdraw(v, height, time, user, unlock).Ok? <==> a.withdrawn < due)
            && (a.withdrawn < due ==>
                  Withdraw(v, height, time, user, unlock) == Ok(WithAllocation(v, height, user, a.(withdrawn := due))))
  {
    PowersUpdate(v.allocations, user, v.allocations[user].(withdrawn := Entitled(v.allocations[user], unlock, time)));
  }

  /** None of the subtractions of a withdrawal can fail: it is refused only for a user without an
      allocation, or when nothing more is due. It brings what was withdrawn up to what is due. */
  lemma WithdrawRefusals(v: Vesting, unlock: Schedule, height: nat, time: nat, user: Addr)
    requires Sound(v, unlock, height, time)
    ensures Withdraw(v, height, time, user, unlock).Ok? <==>
              user in v.allocations && v.allocations[user].withdrawn < Entitled(v.allocations[user], unlock, time)
    ensures Withdraw(v, height, time, user, unlock).Ok? ==>
              var after := Withdraw(v, height, time, user, unlock).value;
              && Sound(after, unlock, height, time) && SamePast(v.history, after.history, height)
              && user in after.allocations
              && after.allocations[user].withdrawn == Entitled(v.allocations[user], unlock, time)
              && after.allocations[user].granted == v.allocations[user].granted
              && after.allocations[user].vesting == v.allocations[user].vesting
              && (forall o :: o != user ==> (o in after.allocations <==> o in v.allocations))
              && (forall o :: o != user && o in v.allocations ==> after.allocations[o] == v.allocations[o])
  {
    if user in v.allocations {
      var a := v.allocations[user];
      EntitledGrows(a, unlock, time, time);
      RecordedPower(v, unlock, height, time, user);
      WithdrawMakes(v, height, time, user, unlock);
      EntitledIgnoresWithdrawn(a, Entitled(a, unlock, time), unlock, time);
      WithAllocationSound(v, unlock, height, time, user, a.(withdrawn := Entitled(a, unlock, time)));
    }
  }

  lemma EntitledIgnoresWithdrawn(a: Allocation, withdrawn: nat, unlock: Schedule, time: nat)
    ensures Entitled(a.(withdrawn := withdrawn), unlock, time) == Entitled(a, unlock, time)
  {
  }

  // ---------- runs ----------

  datatype Op =
    | OpCreate(user: Addr, amount: nat, schedule: Schedule)
    | OpWithdraw(user: Addr)

  datatype Event = Event(height: nat, time: nat, op: Op)

  function Apply(v: Vesting, unlock: Schedule, e: Event): Result<Vesting> {
    match e.op
    case OpCreate(user, amount, schedule) => CreateAllocation(v, e.height, user, amount, schedule)
    case OpWithdraw(user) => Withdraw(v, e.height, e.time, user, unlock)
  }

  /** A failed operation changes nothing. */
  function Step(v: Vesting, unlock: Schedule, e: Event): Vesting {
    var r := Apply(v, unlock, e);
    if r.Ok? then r.value else v
  }

  function Run(unlock: Schedule, events: seq<Event>): Vesting {
    if events == [] then NoVesting else Step(Run(unlock, events[..|events| - 1]), unlock, events[|events| - 1])
  }

  /** Block heights and times never fall. */
  ghost predicate Chronological(events: seq<Event>) {
    forall i, j :: 0 <= i < j < |events| ==> events[i].height <= events[j].height && events[i].time <= events[j].time
  }

  function Height(events: seq<Event>): nat {
    if events == [] then 0 else events[|events| - 1].height
  }

  function Time(events: seq<Event>): nat {
    if events == [] then 0 else events[|events| - 1].time
  }

  /** The events up to the end of a block. */
  function UpTo(events: seq<Event>, block: nat): seq<Event> {
    if events == [] then []
    else if events[|events| - 1].height <= block then events
    else UpTo(events[..|events| - 1], block)
  }

  lemma StepKeepsSound(v: Vesting, unlock: Schedule, e: Event)
    requires Sound(v, unlock, e.height, e.time)
    ensures Sound(Step(v, unlock, e), unlock, e.height, e.time)
    ensures SamePast(v.history, Step(v, unlock, e).history, e.height)
  {
    if Apply(v, unlock, e).Ok? {
      match e.op
      case OpCreate(user, amount, schedule) => CreateKeepsSound(v, unlock, e.height, e.time, user, amount, schedule);
      case OpWithdraw(user) => WithdrawRefusals(v, unlock, e.height, e.time, user);
    }
  }

  lemma NothingIsSound(unlock: Schedule)
    ensures Sound(NoVesting, unlock, 0, 0)
  {
    EmptyAddsUp();
    assert Powers(NoVesting.allocations) == map[];
  }

  /** In every run nobody has withdrawn more than was due, and the recorded powers are what is locked. */
  lemma {:induction false} EveryRunIsSound(unlock: Schedule, events: seq<Event>)
    requires Chronological(events)
    ensures Sound(Run(unlock, events), unlock, Height(events), Time(events))
  {
    if events == [] {
      NothingIsSound(unlock);
    } else {
      var rest, e := events[..|events| - 1], events[|events| - 1];
      EveryRunIsSound(unlock, rest);
      SoundLater(Run(unlock, rest), unlock, Height(rest), Time(rest), e.height, e.time);
      StepKeepsSound(Run(unlock, rest), unlock, e);
    }
  }

  lemma LastEventKeepsPast(unlock: Schedule, events: seq<Event>, block: nat)
    requires Chronological(events)
    requires events != [] && block < events[|events| - 1].height
    ensures var v, before := Run(unlock, events), Run(unlock, events[..|events| - 1]);
            && (forall a :: BalanceAt(v.history, a, block) == BalanceAt(before.history, a, block))
            && TotalAt(v.history, block) == TotalAt(before.history, block)
  {
    var rest, e := events[..|events| - 1], events[|events| - 1];
    EveryRunIsSound(unlock, rest);
    SoundLater(Run(unlock, rest), unlock, Height(rest), Time(rest), e.height, e.time);
    StepKeepsSound(Run(unlock, rest), unlock, e);
  }

  /** Asked about a block, the contract answers with what was locked once everything up to the end of
      that block had been executed. */
  lemma {:induction false} LookupReplays(unlock: Schedule, events: seq<Event>, block: nat)
    requires Chronological(events)
    ensures var v, replayed := Run(unlock, events), Run(unlock, UpTo(events, block));
            && (forall a :: BalanceAt(v.history, a, block) == Lookup(Powers(replayed.allocations), a))
            && TotalAt(v.history, block) == Total(Powers(replayed.allocations))
  {
    var v := Run(unlock, events);
    if Height(events) <= block {
      EveryRunIsSound(unlock, events);
      CurrentAnswers(v.history, Powers(v.allocations), Total(Powers(v.allocations)), Height(events), block);
    } else {
      LookupReplays(unlock, events[..|events| - 1], block);
      LastEventKeepsPast(unlock, events, block);
    }
  }

  /** Later events never change the answer about a block that is over. */
  lemma {:induction false} PastIsFixed(unlock: Schedule, events: seq<Event>, more: seq<Event>, block: nat)
    requires Chronological(events + more)
    requires forall e <- more :: block < e.height
    ensures var v, later := Run(unlock, events), Run(unlock, events + more);
            && (forall a :: BalanceAt(later.history, a, block) == BalanceAt(v.history, a, block))
            && TotalAt(later.history, block) == TotalAt(v.history, block)
  {
    if more == [] {
      assert events + more == events;
    } else {
      var n := |more| - 1;
      var all := events + more;
      assert all[..|all| - 1] == events + more[..n];
      assert more[n] in more && all[|all| - 1] == more[n];
      PastIsFixed(unlock, events, more[..n], block);
      LastEventKeepsPast(unlock, all, block);
    }
  }
}
