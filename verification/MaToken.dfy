/** The liquidity token of one market: balances, supply, and the hooks that carry the balances and
    supply from before each change. */
module MaToken {
  import opened Base
  import opened Totals

  datatype Token = Token(balances: map<Addr, nat>, supply: nat)

  const EmptyToken := Token(map[], 0)

  /** What a change of balance tells the other contracts: the incentives contract about one holder,
      the lending contract about a completed transfer. */
  datatype Hook =
    | BalanceChange(user: Addr, balanceBefore: nat, supplyBefore: nat)
    | FinalizeTransfer(sender: Addr, recipient: Addr, senderBefore: nat, recipientBefore: nat, amount: nat)

  function BalanceOf(t: Token, a: Addr): nat {
    Lookup(t.balances, a)
  }

  function Mint(t: Token, to: Addr, amount: nat): Result<Token> {
    if amount == 0 then Err(InvalidZeroAmount)
    else Ok(Token(t.balances[to := BalanceOf(t, to) + amount], t.supply + amount))
  }

  function Burn(t: Token, from: Addr, amount: nat): Result<Token> {
    if amount == 0 then Err(InvalidZeroAmount)
    else if BalanceOf(t, from) < amount || t.supply < amount then Err(Overflow)
    else Ok(Token(t.balances[from := BalanceOf(t, from) - amount], t.supply - amount))
  }

  function Transfer(t: Token, from: Addr, to: Addr, amount: nat): Result<Token> {
    if from == to then Err(SenderIsRecipient)
    else if amount == 0 then Err(InvalidZeroAmount)
    else if BalanceOf(t, from) < amount then Err(Overflow)
    else Ok(t.(balances := t.balances[from := BalanceOf(t, from) - amount][to := BalanceOf(t, to) + amount]))
  }

  // ---------- what the operations do ----------

  lemma MintEffect(t: Token, to: Addr, amount: nat)
    ensures Mint(t, to, amount).Ok? <==> amount > 0
    ensures Mint(t, to, amount).Ok? ==>
              var after := Mint(t, to, amount).value;
              && after.supply == t.supply + amount
              && forall a :: BalanceOf(after, a) == BalanceOf(t, a) + if a == to then amount else 0
  {
  }

  lemma BurnEffect(t: Token, from: Addr, amount: nat)
    ensures Burn(t, from, amount).Ok? <==> 0 < amount <= BalanceOf(t, from) && amount <= t.supply
    ensures Burn(t, from, amount).Ok? ==>
              var after := Burn(t, from, amount).value;
              && after.supply == t.supply - amount
              && forall a :: BalanceOf(after, a) == BalanceOf(t, a) - if a == from then amount else 0
  {
  }

  /** The sender loses and the recipient gains the amount, and nobody else's balance moves. */
  lemma TransferMoves(t: Token, from: Addr, to: Addr, amount: nat)
    ensures Transfer(t, from, to, amount).Ok? <==> from != to && 0 < amount <= BalanceOf(t, from)
    ensures Transfer(t, from, to, amount).Ok? ==>
              var after := Transfer(t, from, to, amount).value;
              && after.supply == t.supply
              && BalanceOf(after, from) == BalanceOf(t, from) - amount
              && BalanceOf(after, to) == BalanceOf(t, to) + amount
              && forall a :: a != from && a != to ==> BalanceOf(after, a) == BalanceOf(t, a)
  {
  }

  // ---------- supply and balances ----------

  /** The supply is the sum of the balances. */
  ghost predicate Balanced(t: Token) {
    Total(t.balances) == t.supply
  }

  lemma HoldingsWithinSupply(t: Token, a: Addr)
    requires Balanced(t)
    ensures BalanceOf(t, a) <= t.supply
  {
    TotalUpdate(t.balances, a, 0);
  }

  lemma MintKeepsBalanced(t: Token, to: Addr, amount: nat)
    requires Balanced(t) && Mint(t, to, amount).Ok?
    ensures Balanced(Mint(t, to, amount).value)
  {
    TotalUpdate(t.balances, to, BalanceOf(t, to) + amount);
  }

  lemma BurnKeepsBalanced(t: Token, from: Addr, amount: nat)
    requires Balanced(t) && Burn(t, from, amount).Ok?
    ensures Balanced(Burn(t, from, amount).value)
  {
    TotalUpdate(t.balances, from, BalanceOf(t, from) - amount);
  }

  lemma TransferKeepsBalanced(t: Token, from: Addr, to: Addr, amount: nat)
    requires Balanced(t) && Transfer(t, from, to, amount).Ok?
    ensures Balanced(Transfer(t, from, to, amount).value)
  {
    var debited := t.balances[from := BalanceOf(t, from) - amount];
    TotalUpdate(t.balances, from, BalanceOf(t, from) - amount);
    TotalUpdate(debited, to, BalanceOf(t, to) + amount);
  }

  /** In a balanced token the burn of a holding is refused only for being zero or too large: the
      supply always covers it. */
  lemma BurnOfHoldingSucceeds(t: Token, from: Addr, amount: nat)
    requires Balanced(t)
    ensures Burn(t, from, amount).Ok? <==> 0 < amount <= BalanceOf(t, from)
  {
    HoldingsWithinSupply(t, from);
  }

  /** The token contract's storage. */
  class TokenStore {
    var balances: map<Addr, nat>
    var totalSupply: nat

    ghost function Contents(): Token
      reads this
    {
      Token(balances, totalSupply)
    }

    constructor ()
      ensures Contents() == EmptyToken
    {
      balances := map[];
      totalSupply := 0;
    }

    method DecreaseBalance(user: Addr, amount: nat) returns (r: Result<nat>)
      modifies this`balances
      ensures r == if old(BalanceOf(Contents(), user)) < amount then Err(Overflow) else Ok(old(BalanceOf(Contents(), user)))
      ensures r.Ok? ==> balances == old(balances)[user := r.value - amount]
      ensures r.Err? ==> balances == old(balances)
    {
      var previous := Lookup(balances, user);
      if previous < amount {
        return Err(Overflow);
      }
      balances := balances[user := previous - amount];
      return Ok(previous);
    }

    method IncreaseBalance(user: Addr, amount: nat) returns (previous: nat)
      modifies this`balances
      ensures previous == old(BalanceOf(Contents(), user))
      ensures balances == old(balances)[user := previous + amount]
    {
      previous := Lookup(balances, user);
      balances := balances[user := previous + amount];
    }

    /** Moves tokens. The hooks report both balances and the supply as they were before the move. */
    method ExecuteTransfer(from: Addr, to: Addr, amount: nat, finalize: bool) returns (r: Result<seq<Hook>>)
      modifies this
      ensures r.Ok? <==> Transfer(old(Contents()), from, to, amount).Ok?
      ensures r.Err? ==> Transfer(old(Contents()), from, to, amount) == Err(r.error) && Contents() == old(Contents())
      ensures r.Ok? ==> Ok(Contents()) == Transfer(old(Contents()), from, to, amount)
      ensures r.Ok? ==>
                var fromBefore, toBefore := old(BalanceOf(Contents(), from)), old(BalanceOf(Contents(), to));
                r.value ==
                (if finalize then [FinalizeTransfer(from, to, fromBefore, toBefore, amount)] else [])
                + [BalanceChange(from, fromBefore, old(totalSupply)), BalanceChange(to, toBefore, old(totalSupply))]
    {
      if from == to {
        return Err(SenderIsRecipient);
      }
      if amount == 0 {
        return Err(InvalidZeroAmount);
      }
      var fromBefore :- DecreaseBalance(from, amount);
      var toBefore := IncreaseBalance(to, amount);
      var hooks := [];
      if finalize {
        hooks := hooks + [FinalizeTransfer(from, to, fromBefore, toBefore, amount)];
      }
      hooks := hooks + [BalanceChange(from, fromBefore, totalSupply)];
      hooks := hooks + [BalanceChange(to, toBefore, totalSupply)];
      return Ok(hooks);
    }

    method ExecuteMint(to: Addr, amount: nat) returns (r: Result<Hook>)
      modifies this
      ensures r.Ok? <==> Mint(old(Contents()), to, amount).Ok?
      ensures r.Err? ==> Contents() == old(Contents())
      ensures r.Ok? ==> Ok(Contents()) == Mint(old(Contents()), to, amount)
      ensures r.Ok? ==> r.value == BalanceChange(to, old(BalanceOf(Contents(), to)), old(totalSupply))
    {
      if amount == 0 {
        return Err(InvalidZeroAmount);
      }
      var supplyBefore := totalSupply;
      totalSupply := totalSupply + amount;
      var before := IncreaseBalance(to, amount);
      return Ok(BalanceChange(to, before, supplyBefore));
    }

    /** The balance is lowered before the supply; if the supply is too small the chain takes that back. In a
        balanced token this cannot happen. */
    method ExecuteBurn(from: Addr, amount: nat) returns (r: Result<Hook>)
      modifies this
      ensures r.Ok? <==> Burn(old(Contents()), from, amount).Ok?
      ensures r.Ok? ==> Ok(Contents()) == Burn(old(Contents()), from, amount)
      ensures r.Ok? ==> r.value == BalanceChange(from, old(BalanceOf(Contents(), from)), old(totalSupply))
      ensures r.Err? ==> Burn(old(Contents()), from, amount) == Err(r.error) && Contents() == old(Contents())
    {
      if amount == 0 {
        return Err(InvalidZeroAmount);
      }
      var before := balances;
      var balanceBefore :- DecreaseBalance(from, amount);
      var supplyBefore := totalSupply;
      if totalSupply < amount {
        balances := before;
        return Err(Overflow);
      }
      totalSupply := totalSupply - amount;
      return Ok(BalanceChange(from, balanceBefore, supplyBefore));
    }
  }
}
