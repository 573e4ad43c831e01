/** The xMARS token, which records every balance and its supply by block. */
module XMarsToken {
  import opened Base
  import opened Totals
  import opened Snapshots

  datatype XMars = XMars(balances: map<Addr, nat>, supply: nat, history: History)

  const NoXMars := XMars(map[], 0, NoHistory)

  // ---------- operations ----------

  function Debit(x: XMars, height: nat, from: Addr, amount: nat): Result<XMars> {
    var balance := Lookup(x.balances, from);
    :- Need(amount <= balance, Overflow);
    Ok(x.(balances := x.balances[from := balance - amount],
       history := CaptureBalance(x.history, from, height, balance - amount)))
  }

  function Credit(x: XMars, height: nat, to: Addr, amount: nat): XMars {
    var balance := Lookup(x.balances, to) + amount;
    x.(balances := x.balances[to := balance], history := CaptureBalance(x.history, to, height, balance))
  }

  /** Moves tokens between two addresses, which may be the same; either may be missing. */
  function Transfer(x: XMars, height: nat, from: Option<Addr>, to: Option<Addr>, amount: nat): Result<XMars> {
    if amount == 0 then Err(InvalidZeroAmount)
    else
      var debited :- if from.Some? then Debit(x, height, from.value, amount) else Ok(x);
      Ok(if to.Some? then Credit(debited, height, to.value, amount) else debited)
  }

  function Burn(x: XMars, height: nat, from: Addr, amount: nat): Result<XMars> {
    var lowered :- Transfer(x, height, Some(from), None, amount);
    :- Need(amount <= lowered.supply, Overflow);
    Ok(lowered.(supply := lowered.supply - amount,
       history := CaptureTotal(lowered.history, height, lowered.supply - amount)))
  }

  function Mint(x: XMars, height: nat, to: Addr, amount: nat): Result<XMars> {
    if amount == 0 then Err(InvalidZeroAmount)
    else
      var supply := x.supply + amount;
      Transfer(x.(supply := supply, history := CaptureTotal(x.history, height, supply)), height, None, Some(to), amount)
  }

  datatype Row = Row(address: Addr, amount: nat)

  /** The initial accounts, each row overwriting an earlier one of the same address but counting towards
      the supply. */
  function CreateAccounts(rows: seq<Row>, height: nat): XMars {
    if rows == [] then NoXMars
    else
      var x := CreateAccounts(rows[..|rows| - 1], height);
      var row := rows[|rows| - 1];
      XMars(x.balances[row.address := row.amount], x.supply + row.amount,
            CaptureBalance(x.history, row.address, height, row.amount))
  }

  function Instantiate(rows: seq<Row>, height: nat): XMars {
    var x := CreateAccounts(rows, height);
    if x.supply > 0 then x.(history := CaptureTotal(x.history, height, x.supply)) else x
  }

  // ---------- what the operations do ----------

  /** The sender loses the amount and the recipient gains it; to oneself nothing moves. */
  lemma TransferEffect(x: XMars, height: nat, from: Addr, to: Addr, amount: nat)
    ensures Transfer(x, height, Some(from), Some(to), amount).Ok? <==> 0 < amount <= Lookup(x.balances, from)
    ensures Transfer(x, height, Some(from), Some(to), amount).Ok? ==>
              var after := Transfer(x, height, Some(from), Some(to), amount).value;
              && after.supply == x.supply
              && (from != to ==>
                    && Lookup(after.balances, from) == Lookup(x.balances, from) - amount
                    && Lookup(after.balances, to) == Lookup(x.balances, to) + amount)
              && (forall a :: (a != from && a != to) || from == to ==> Lookup(after.balances, a) == Lookup(x.balances, a))
  {
  }

  lemma BurnEffect(x: XMars, height: nat, from: Addr, amount: nat)
    ensures Burn(x, height, from, amount).Ok? <==> 0 < amount <= Lookup(x.balances, from) && amount <= x.supply
    ensures Burn(x, height, from, amount).Ok? ==>
              var after := Burn(x, height, from, amount).value;
              && after.supply == x.supply - amount
              && forall a :: Lookup(after.balances, a) == Lookup(x.balances, a) - if a == from then amount else 0
  {
  }

  lemma MintEffect(x: XMars, height: nat, to: Addr, amount: nat)
    ensures Mint(x, height, to, amount).Ok? <==> amount > 0
    ensures Mint(x, height, to, amount).Ok? ==>
              var after := Mint(x, height, to, amount).value;
              && after.supply == x.supply + amount
              && forall a :: Lookup(after.balances, a) == Lookup(x.balances, a) + if a == to then amount else 0
  {
  }

  // ---------- what every operation keeps ----------

  /** The history records the present. */
  ghost predicate Synced(x: XMars, height: nat) {
    Current(x.history, x.balances, x.supply, height)
  }

  ghost predicate Balanced(x: XMars) {
    Total(x.balances) == x.supply
  }

  /** What a step at `height` does to a synced token: still synced, with the past unchanged. */
  ghost predicate Advances(x: XMars, after: XMars, height: nat) {
    Synced(after, height) && SamePast(x.history, after.history, height)
  }

  lemma DebitAdvances(x: XMars, height: nat, from: Addr, amount: nat)
    requires Synced(x, height) && Debit(x, height, from, amount).Ok?
    ensures var after := Debit(x, height, from, amount).value;
            && Advances(x, after, height) && after.supply == x.supply
            && Total(after.balances) + amount == Total(x.balances)
  {
    BalanceCaptured(x.history, x.balances, x.supply, height, from, Lookup(x.balances, from) - amount);
    TotalUpdate(x.balances, from, Lookup(x.balances, from) - amount);
  }

  lemma CreditAdvances(x: XMars, height: nat, to: Addr, amount: nat)
    requires Synced(x, height)
    ensures var after := Credit(x, height, to, amount);
            && Advances(x, after, height) && after.supply == x.supply
            && Total(after.balances) == Total(x.balances) + amount
  {
    BalanceCaptured(x.history, x.balances, x.supply, height, to, Lookup(x.balances, to) + amount);
    TotalUpdate(x.balances, to, Lookup(x.balances, to) + amount);
  }

  lemma NoChangeAdvances(x: XMars, height: nat)
    requires Synced(x, height)
    ensures Advances(x, x, height)
  {
  }

  lemma TransferAdvances(x: XMars, height: nat, from: Option<Addr>, to: Option<Addr>, amount: nat)
    requires Synced(x, height) && Transfer(x, height, from, to, amount).Ok?
    ensures var after := Transfer(x, height, from, to, amount).value;
            && Advances(x, after, height) && after.supply == x.supply
            && Total(after.balances) + (if from.Some? then amount else 0)
            == Total(x.balances) + (if to.Some? then amount else 0)
  {
    NoChangeAdvances(x, height);
    var debited := x;
    if from.Some? {
      DebitAdvances(x, height, from.value, amount);
      debited := Debit(x, height, from.value, amount).value;
    }
    if to.Some? {
      CreditAdvances(debited, height, to.value, amount);
      PastChains(x.history, debited.history, Credit(debited, height, to.value, amount).history, height);
    }
  }

  lemma BurnAdvances(x: XMars, height: nat, from: Addr, amount: nat)
    requires Synced(x, height) && Burn(x, height, from, amount).Ok?
    ensures var after := Burn(x, height, from, amount).value;
            Advances(x, after, height) && (Balanced(x) ==> Balanced(after))
  {
    TransferAdvances(x, height, Some(from), None, amount);
    var lowered := Transfer(x, height, Some(from), None, amount).value;
    TotalCaptured(lowered.history, lowered.balances, lowered.supply, height, lowered.supply - amount);
    PastChains(x.history, lowered.history, Burn(x, height, from, amount).value.history, height);
  }

  lemma MintAdvances(x: XMars, height: nat, to: Addr, amount: nat)
    requires Synced(x, height) && Mint(x, height, to, amount).Ok?
    ensures var after := Mint(x, height, to, amount).value;
            Advances(x, after, height) && (Balanced(x) ==> Balanced(after))
  {
    var raised := x.(supply := x.supply + amount, history := CaptureTotal(x.history, height, x.supply + amount));
    TotalCaptured(x.history, x.balances, x.supply, height, x.supply + amount);
    CreditAdvances(raised, height, to, amount);
    PastChains(x.history, raised.history, Credit(raised, height, to, amount).history, height);
    assert Mint(x, height, to, amount) == Ok(Credit(raised, height, to, amount));
  }

  // ---------- initial accounts ----------

  /** A row whose address comes again later. */
  ghost predicate Overwritten(rows: seq<Row>, i: nat) {
    i < |rows| && exists j :: i < j < |rows| && rows[j].address == rows[i].address
  }

  /** The amounts that count towards the supply but are in no balance. */
  function Shadowed(rows: seq<Row>, height: nat): nat {
    if rows == [] then 0
    else
      Shadowed(rows[..|rows| - 1], height)
      + Lookup(CreateAccounts(rows[..|rows| - 1], height).balances, rows[|rows| - 1].address)
  }

  lemma {:induction false} AccountsSum(rows: seq<Row>, height: nat)
    ensures var x := CreateAccounts(rows, height);
            x.supply == Total(x.balances) + Shadowed(rows, height)
  {
    if rows != [] {
      AccountsSum(rows[..|rows| - 1], height);
      var x := CreateAccounts(rows[..|rows| - 1], height);
      TotalUpdate(x.balances, rows[|rows| - 1].address, rows[|rows| - 1].amount);
    }
  }

  /** The balance of an address is the amount of its last row. */
  lemma {:induction false} LastRowCounts(rows: seq<Row>, height: nat, a: Addr)
    ensures var balance := Lookup(CreateAccounts(rows, height).balances, a);
            if exists i :: 0 <= i < |rows| && rows[i].address == a then
              exists i :: 0 <= i < |rows| && rows[i].address == a && rows[i].amount == balance && !Overwritten(rows, i)
            else balance == 0
  {
    if rows != [] {
      var n := |rows| - 1;
      if rows[n].address == a {
        assert !Overwritten(rows, n);
      } else {
        LastRowCounts(rows[..n], height, a);
        if i :| 0 <= i < |rows| && rows[i].address == a {
          assert rows[..n][i].address == a;
          var k :| 0 <= k < n && rows[..n][k].address == a && !Overwritten(rows[..n], k)
                   && rows[..n][k].amount == Lookup(CreateAccounts(rows[..n], height).balances, a);
          OverwrittenLonger(rows, k);
        }
      }
    }
  }

  lemma {:induction false} ShadowedExactly(rows: seq<Row>, height: nat)
    ensures Shadowed(rows, height) == 0 <==> forall i :: 0 <= i < |rows| && Overwritten(rows, i) ==> rows[i].amount == 0
  {
    if rows != [] {
      var n := |rows| - 1;
      var a := rows[n].address;
      ShadowedExactly(rows[..n], height);
      LastRowCounts(rows[..n], height, a);
      forall i | 0 <= i < |rows|
        ensures Overwritten(rows, i) <==> Overwritten(rows[..n], i) || (i < n && rows[i].address == a)
      {
        OverwrittenLonger(rows, i);
      }
      if Lookup(CreateAccounts(rows[..n], height).balances, a) > 0 {
        var k :| 0 <= k < n && rows[..n][k].address == a && rows[..n][k].amount > 0;
        assert Overwritten(rows, k) && rows[k].amount > 0;
      } else if Shadowed(rows[..n], height) == 0 {
        forall i | 0 <= i < |rows| && Overwritten(rows, i)
          ensures rows[i].amount == 0
        {
          if !Overwritten(rows[..n], i) {
            LastOfAddress(rows[..n], height, a, i);
          }
        }
      } else {
        var i :| 0 <= i < n && Overwritten(rows[..n], i) && rows[..n][i].amount != 0;
        assert Overwritten(rows, i);
      }
    }
  }

  lemma OverwrittenLonger(rows: seq<Row>, i: nat)
    requires i < |rows|
    ensures var n := |rows| - 1;
            Overwritten(rows, i) <==> Overwritten(rows[..n], i) || (i < n && rows[i].address == rows[n].address)
  {
    var n := |rows| - 1;
    if i < n && Overwritten(rows, i) && rows[i].address != rows[n].address {
      var j :| i < j < |rows| && rows[j].address == rows[i].address;
      assert rows[..n][j].address == rows[..n][i].address;
    }
    if Overwritten(rows[..n], i) {
      var j :| i < j < n && rows[..n][j].address == rows[..n][i].address;
      assert rows[j].address == rows[i].address;
    }
  }

  /** There is only one row of an address that is not overwritten, and its amount is the balance. */
  lemma LastOfAddress(rows: seq<Row>, height: nat, a: Addr, i: nat)
    requires i < |rows| && rows[i].address == a && !Overwritten(rows, i)
    ensures Lookup(CreateAccounts(rows, height).balances, a) == rows[i].amount
  {
    LastRowCounts(rows, height, a);
    var k :| 0 <= k < |rows| && rows[k].address == a && !Overwritten(rows, k)
             && rows[k].amount == Lookup(CreateAccounts(rows, height).balances, a);
    forall p: nat, q: nat | p < q < |rows| && rows[p].address == rows[q].address
      ensures Overwritten(rows, p)
    {
    }
    assert k == i;
  }

  /** The supply starts out as the sum of the balances exactly when no row with tokens is overwritten. */
  lemma InitialSupplyExact(rows: seq<Row>, height: nat)
    ensures Balanced(Instantiate(rows, height)) <==>
              forall i :: 0 <= i < |rows| && Overwritten(rows, i) ==> rows[i].amount == 0
  {
    AccountsSum(rows, height);
    ShadowedExactly(rows, height);
  }

  lemma {:induction false} CreateAccountsCurrent(rows: seq<Row>, height: nat)
    ensures var x := CreateAccounts(rows, height);
            Current(x.history, x.balances, 0, height) && SamePast(NoHistory, x.history, height)
  {
    if rows == [] {
      NothingRecorded(height);
    } else {
      var x, row := CreateAccounts(rows[..|rows| - 1], height), rows[|rows| - 1];
      CreateAccountsCurrent(rows[..|rows| - 1], height);
      BalanceCaptured(x.history, x.balances, 0, height, row.address, row.amount);
      PastChains(NoHistory, x.history, CreateAccounts(rows, height).history, height);
    }
  }

  lemma InstantiateSynced(rows: seq<Row>, height: nat)
    ensures Synced(Instantiate(rows, height), height)
    ensures SamePast(NoHistory, Instantiate(rows, height).history, height)
  {
    CreateAccountsCurrent(rows, height);
    var x := CreateAccounts(rows, height);
    if x.supply > 0 {
      TotalCaptured(x.history, x.balances, 0, height, x.supply);
      PastChains(NoHistory, x.history, Instantiate(rows, height).history, height);
    }
  }

  // ---------- runs ----------

  datatype Op =
    | OpTransfer(from: Addr, to: Addr, amount: nat)
    | OpBurn(from: Addr, amount: nat)
    | OpMint(to: Addr, amount: nat)

  datatype Event = Event(height: nat, op: Op)

  function Apply(x: XMars, height: nat, op: Op): Result<XMars> {
    match op
    case OpTransfer(from, to, amount) => Transfer(x, height, Some(from), Some(to), amount)
    case OpBurn(from, amount) => Burn(x, height, from, amount)
    case OpMint(to, amount) => Mint(x, height, to, amount)
  }

  /** A failed operation changes nothing. */
  function Step(x: XMars, e: Event): XMars {
    var r := Apply(x, e.height, e.op);
    if r.Ok? then r.value else x
  }

  function Run(x: XMars, events: seq<Event>): XMars {
    if events == [] then x else Step(Run(x, events[..|events| - 1]), events[|events| - 1])
  }

  /** Block heights never fall, starting from that of the instantiation. */
  ghost predicate Chronological(start: nat, events: seq<Event>) {
    && (forall i :: 0 <= i < |events| ==> start <= events[i].height)
    && (forall i, j :: 0 <= i < j < |events| ==> events[i].height <= events[j].height)
  }

  function Height(start: nat, events: seq<Event>): nat {
    if events == [] then start else events[|events| - 1].height
  }

  lemma StepAdvances(x: XMars, e: Event)
    requires Synced(x, e.height)
    ensures Advances(x, Step(x, e), e.height)
    ensures Balanced(x) ==> Balanced(Step(x, e))
  {
    NoChangeAdvances(x, e.height);
    if Apply(x, e.height, e.op).Ok? {
      match e.op
      case OpTransfer(from, to, amount) => TransferAdvances(x, e.height, Some(from), Some(to), amount);
      case OpBurn(from, amount) => BurnAdvances(x, e.height, from, amount);
      case OpMint(to, amount) => MintAdvances(x, e.height, to, amount);
    }
  }

  lemma {:induction false} RunStaysSynced(rows: seq<Row>, start: nat, events: seq<Event>)
    requires Chronological(start, events)
    ensures var x := Run(Instantiate(rows, start), events);
            && Synced(x, Height(start, events))
            && (Balanced(Instantiate(rows, start)) ==> Balanced(x))
  {
    InstantiateSynced(rows, start);
    if events != [] {
      var rest, e := events[..|events| - 1], events[|events| - 1];
      RunStaysSynced(rows, start, rest);
      var x := Run(Instantiate(rows, start), rest);
      CurrentLater(x.history, x.balances, x.supply, Height(start, rest), e.height);
      StepAdvances(x, e);
    }
  }

  /** The events up to the end of a block. */
  function UpTo(events: seq<Event>, block: nat): seq<Event> {
    if events == [] then []
    else if events[|events| - 1].height <= block then events
    else UpTo(events[..|events| - 1], block)
  }

  /** Asked about a block, the contract answers with the balances there were once everything up to the
      end of that block had been executed. */
  lemma {:induction false} LookupReplays(rows: seq<Row>, start: nat, events: seq<Event>, block: nat)
    requires Chronological(start, events) && start <= block
    ensures var x := Run(Instantiate(rows, start), events);
            var replayed := Run(Instantiate(rows, start), UpTo(events, block));
            && (forall a :: BalanceAt(x.history, a, block) == Lookup(replayed.balances, a))
            && TotalAt(x.history, block) == replayed.supply
  {
    var x := Run(Instantiate(rows, start), events);
    RunStaysSynced(rows, start, events);
    if Height(start, events) <= block {
      CurrentAnswers(x.history, x.balances, x.supply, Height(start, events), block);
    } else {
      LookupReplays(rows, start, events[..|events| - 1], block);
      LastEventKeepsPast(rows, start, events, block);
    }
  }

  lemma LastEventKeepsPast(rows: seq<Row>, start: nat, events: seq<Event>, block: nat)
    requires Chronological(start, events)
    requires events != [] && block < events[|events| - 1].height
    ensures var x := Run(Instantiate(rows, start), events);
            var before := Run(Instantiate(rows, start), events[..|events| - 1]);
            && (forall a :: BalanceAt(x.history, a, block) == BalanceAt(before.history, a, block))
            && TotalAt(x.history, block) == TotalAt(before.history, block)
  {
    var rest, e := events[..|events| - 1], events[|events| - 1];
    var before := Run(Instantiate(rows, start), rest);
    RunStaysSynced(rows, start, rest);
    CurrentLater(before.history, before.balances, before.supply, Height(start, rest), e.height);
    StepAdvances(before, e);
  }

  /** Later events never change the answer about a block that is over. */
  lemma {:induction false} PastIsFixed(rows: seq<Row>, start: nat, events: seq<Event>, more: seq<Event>, block: nat)
    requires Chronological(start, events + more)
    requires forall e <- more :: block < e.height
    ensures var x := Run(Instantiate(rows, start), events);
            var later := Run(Instantiate(rows, start), events + more);
            && (forall a :: BalanceAt(later.history, a, block) == BalanceAt(x.history, a, block))
            && TotalAt(later.history, block) == TotalAt(x.history, block)
  {
    if more == [] {
      assert events + more == events;
    } else {
      var n := |more| - 1;
      var all := events + more;
      assert all[..|all| - 1] == events + more[..n];
      assert more[n] in more && all[|all| - 1] == more[n];
      PastIsFixed(rows, start, events, more[..n], block);
      LastEventKeepsPast(rows, start, all, block);
    }
  }

  /** At every block the recorded balances add up to the recorded supply, provided they did at the
      start. */
  lemma {:induction false} EveryBlockAddsUp(rows: seq<Row>, start: nat, events: seq<Event>)
    requires Chronological(start, events)
    requires Balanced(Instantiate(rows, start))
    ensures AddsUp(Run(Instantiate(rows, start), events).history)
  {
    var x := Run(Instantiate(rows, start), events);
    RunStaysSynced(rows, start, events);
    if events == [] {
      InstantiateSynced(rows, start);
      EmptyAddsUp();
      StillAddsUp(NoHistory, x.history, x.balances, x.supply, start);
    } else {
      var rest, e := events[..|events| - 1], events[|events| - 1];
      EveryBlockAddsUp(rows, start, rest);
      var before := Run(Instantiate(rows, start), rest);
      RunStaysSynced(rows, start, rest);
      CurrentLater(before.history, before.balances, before.supply, Height(start, rest), e.height);
      StepAdvances(before, e);
      StillAddsUp(before.history, x.history, x.balances, x.supply, e.height);
    }
  }

  // ---------- the contract ----------

  /** The token contract's storage. */
  class XMarsStore {
    var balances: map<Addr, nat>
    var totalSupply: nat
    var balanceSnapshots: map<Addr, Series>
    var supplySnapshots: Series

    ghost function Contents(): XMars
      reads this
    {
      XMars(balances, totalSupply, History(balanceSnapshots, supplySnapshots))
    }

    /** The loop over the initial accounts, and the first capture of the supply. */
    constructor (rows: seq<Row>, height: nat)
      ensures Contents() == Instantiate(rows, height)
    {
      balances, totalSupply, balanceSnapshots, supplySnapshots := map[], 0, map[], map[];
      new;
      for i := 0 to |rows|
        invariant Contents() == CreateAccounts(rows[..i], height)
      {
        assert rows[..i + 1][..i] == rows[..i];
        balances := balances[rows[i].address := rows[i].amount];
        CaptureBalanceSnapshot(height, rows[i].address, rows[i].amount);
        totalSupply := totalSupply + rows[i].amount;
      }
      assert rows[..|rows|] == rows;
      if totalSupply > 0 {
        CaptureTotalSupplySnapshot(height, totalSupply);
      }
    }

    method CaptureBalanceSnapshot(height: nat, a: Addr, balance: nat)
      modifies this`balanceSnapshots
      ensures History(balanceSnapshots, supplySnapshots) ==
              CaptureBalance(old(History(balanceSnapshots, supplySnapshots)), a, height, balance)
    {
      balanceSnapshots := balanceSnapshots[a := SeriesOf(balanceSnapshots, a)[height := balance]];
    }

    method CaptureTotalSupplySnapshot(height: nat, supply: nat)
      modifies this`supplySnapshots
      ensures History(balanceSnapshots, supplySnapshots) ==
              CaptureTotal(old(History(balanceSnapshots, supplySnapshots)), height, supply)
    {
      supplySnapshots := supplySnapshots[height := supply];
    }

    method ExecuteTransfer(height: nat, from: Option<Addr>, to: Option<Addr>, amount: nat) returns (r: Check)
      modifies this`balances, this`balanceSnapshots
      ensures r.Pass? <==> Transfer(old(Contents()), height, from, to, amount).Ok?
      ensures r.Pass? ==> Ok(Contents()) == Transfer(old(Contents()), height, from, to, amount)
      ensures r.Fail? ==> Contents() == old(Contents())
    {
      if amount == 0 {
        return Fail(InvalidZeroAmount);
      }
      if from.Some? {
        var balance := Lookup(balances, from.value);
        if balance < amount {
          return Fail(Overflow);
        }
        balances := balances[from.value := balance - amount];
        CaptureBalanceSnapshot(height, from.value, balance - amount);
      }
      if to.Some? {
        var balance := Lookup(balances, to.value) + amount;
        balances := balances[to.value := balance];
        CaptureBalanceSnapshot(height, to.value, balance);
      }
      return Pass;
    }

    /** The balance is lowered before the supply; if the supply is too small the chain takes that back. */
    method ExecuteBurn(height: nat, from: Addr, amount: nat) returns (r: Check)
      modifies this
      ensures r.Pass? <==> Burn(old(Contents()), height, from, amount).Ok?
      ensures r.Pass? ==> Ok(Contents()) == Burn(old(Contents()), height, from, amount)
      ensures r.Fail? ==> Contents() == old(Contents())
    {
      var balancesBefore, snapshotsBefore := balances, balanceSnapshots;
      var moved := ExecuteTransfer(height, Some(from), None, amount);
      if moved.Fail? {
        return moved;
      }
      if totalSupply < amount {
        balances, balanceSnapshots := balancesBefore, snapshotsBefore;
        return Fail(Overflow);
      }
      totalSupply := totalSupply - amount;
      CaptureTotalSupplySnapshot(height, totalSupply);
      return Pass;
    }

    method ExecuteMint(height: nat, to: Addr, amount: nat) returns (r: Check)
      modifies this
      ensures r.Pass? <==> Mint(old(Contents()), height, to, amount).Ok?
      ensures r.Pass? ==> Ok(Contents()) == Mint(old(Contents()), height, to, amount)
      ensures r.Fail? ==> Contents() == old(Contents())
    {
      if amount == 0 {
        return Fail(InvalidZeroAmount);
      }
      totalSupply := totalSupply + amount;
      CaptureTotalSupplySnapshot(height, totalSupply);
      r := ExecuteTransfer(height, None, Some(to), amount);
    }
  }
}
