/** Liquidity tokens and their incentives together: over every run no more is credited than was
    emitted, up to the rounding of each settlement, and what was emitted while somebody held the token is
    credited or due, up to the same and the rounding of each rise of an index. */
module RewardConservation {
  import opened Base
  import opened FixedPoint
  import opened Totals
  import opened MaToken
  import opened Incentives

  /** What has happened in one pool so far: rewards credited to all users, rewards emitted since the
      incentive was set and those of them emitted while somebody held the token, settlements at which an
      index moved, and the supplies at which the pool's own index was raised, added up. */
  datatype Account = Account(credited: nat, emitted: nat, held: nat, settlements: nat, raised: nat)

  const NoAccount := Account(0, 0, 0, 0, 0)

  datatype World = World(
    tokens: map<Addr, Token>,
    rewards: Rewards,
    accounts: map<Addr, Account>,
    paid: nat,
    now: nat)

  const Genesis := World(map[], Rewards(map[], map[]), map[], 0, 0)

  function TokenAt(tokens: map<Addr, Token>, a: Addr): Token {
    if a in tokens then tokens[a] else EmptyToken
  }

  function AccountAt(accounts: map<Addr, Account>, a: Addr): Account {
    if a in accounts then accounts[a] else NoAccount
  }

  /** The account once the pool's index was brought up to date at `supply`. */
  function Raised(acc: Account, before: Pool, supply: nat, now: nat): Account {
    if before.lastUpdated < now && before.emission > 0 then acc.(raised := acc.raised + supply) else acc
  }

  function Recorded(acc: Account, before: Pool, supply: nat, now: nat, user: Addr, t: Settlement): Account {
    Raised(acc, before, supply, now).(
    credited := acc.credited + t.credit,
    settlements := acc.settlements + if IndexOf(before, user) == t.pool.index then 0 else 1)
  }

  // ---------- steps ----------

  /** The hook a token sends about `user` before its balance changes from what it is in `t`. */
  function HookFor(t: Token, user: Addr): Hook {
    BalanceChange(user, BalanceOf(t, user), t.supply)
  }

  /** One hook of `token`, handled by the incentives contract. Completed transfers are not its concern. */
  function Deliver(w: World, token: Addr, h: Hook): Result<World> {
    if !h.BalanceChange? then Ok(w)
    else
      var rewards :- BalanceChanged(w.rewards, token, h.user, h.balanceBefore, h.supplyBefore, w.now);
      if token !in w.rewards.pools then Ok(w)
      else
        var p := w.rewards.pools[token];
        var t :- Settle(p, h.user, h.balanceBefore, h.supplyBefore, w.now);
        Ok(w.(rewards := rewards,
           accounts := w.accounts[token := Recorded(AccountAt(w.accounts, token), p, h.supplyBefore, w.now, h.user, t)]))
  }

  datatype Action =
    | DeployToken(token: Addr)
    | MintTo(token: Addr, to: Addr, amount: nat)
    | BurnFrom(token: Addr, from: Addr, amount: nat)
    | Move(token: Addr, from: Addr, to: Addr, amount: nat)
    | SetEmission(token: Addr, emission: nat)
    | ClaimRewards(user: Addr)

  /** A change of balances goes through only if the incentives contract accepts every hook. */
  ghost function Act(w: World, action: Action): Result<World> {
    match action
    case DeployToken(a) =>
      if a in w.tokens then Err(InvalidParams) else Ok(w.(tokens := w.tokens[a := EmptyToken]))
    case MintTo(a, to, amount) =>
      var t := TokenAt(w.tokens, a);
      var minted :- Mint(t, to, amount);
      var w1 :- Deliver(w, a, HookFor(t, to));
      if a in w.tokens then Ok(w1.(tokens := w1.tokens[a := minted])) else Err(NotFound)
    case BurnFrom(a, from, amount) =>
      var t := TokenAt(w.tokens, a);
      var burned :- Burn(t, from, amount);
      var w1 :- Deliver(w, a, HookFor(t, from));
      if a in w.tokens then Ok(w1.(tokens := w1.tokens[a := burned])) else Err(NotFound)
    case Move(a, from, to, amount) =>
      var t := TokenAt(w.tokens, a);
      var moved :- Transfer(t, from, to, amount);
      var w1 :- Deliver(w, a, HookFor(t, from));
      var w2 :- Deliver(w1, a, HookFor(t, to));
      if a in w.tokens then Ok(w2.(tokens := w2.tokens[a := moved])) else Err(NotFound)
    case SetEmission(a, emission) =>
      var rewards :- SetIncentive(w.rewards, w.tokens, a, emission, w.now);
      var acc := AccountAt(w.accounts, a);
      Ok(w.(rewards := rewards,
         accounts := w.accounts[a := if a in w.rewards.pools then
                                       Raised(acc, w.rewards.pools[a], TokenAt(w.tokens, a).supply, w.now)
                                     else acc]))
    case ClaimRewards(user) =>
      if !Claimable(w.rewards, w.tokens, user, w.now) then Err(NotFound)
      else
        Ok(w.(rewards := Claimed(w.rewards, w.tokens, user, w.now),
           accounts := ClaimAccounts(w, user),
           paid := w.paid + Unclaimed(w.rewards, w.tokens, user, w.now)))
  }

  ghost function ClaimAccounts(w: World, user: Addr): map<Addr, Account>
    requires Claimable(w.rewards, w.tokens, user, w.now)
  {
    map a | a in w.rewards.pools ::
      var p := w.rewards.pools[a];
      if BalanceOf(w.tokens[a], user) == 0 then AccountAt(w.accounts, a)
      else
        Recorded(AccountAt(w.accounts, a), p, w.tokens[a].supply, w.now, user,
                 ClaimedPool(p, w.tokens[a], user, w.now).value)
  }

  /** Time passes: every pool emits. */
  function Elapse(w: World, now: nat): World
    requires w.now <= now
  {
    var accounts := map a | a in w.rewards.pools ::
                      var acc := AccountAt(w.accounts, a);
                      var emitted := w.rewards.pools[a].emission * (now - w.now);
                      acc.(
                      emitted := acc.emitted + emitted,
                      held := acc.held + if TokenAt(w.tokens, a).supply > 0 then emitted else 0);
    w.(accounts := accounts, now := now)
  }

  datatype Timed = Timed(now: nat, action: Action)

  ghost function Step(w: World, e: Timed): World {
    var w1 := Elapse(w, if e.now > w.now then e.now else w.now);
    var r := Act(w1, e.action);
    if r.Ok? then r.value else w1
  }

  ghost function Run(events: seq<Timed>): World {
    if events == [] then Genesis else Step(Run(events[..|events| - 1]), events[|events| - 1])
  }

  // ---------- one pool ----------

  /** No user's index is ahead of the pool's. */
  ghost predicate Ordered(userIndex: map<Addr, nat>, index: nat) {
    forall u :: Lookup(userIndex, u) <= index
  }

  function Due(balance: nat, gap: nat): nat {
    balance * gap
  }

  /** What each holder would be credited at `index`, before rounding and in units of one over ONE. */
  ghost function Gaps(balances: map<Addr, nat>, userIndex: map<Addr, nat>, index: nat): map<Addr, nat>
    requires Ordered(userIndex, index)
  {
    map u | u in balances :: Due(balances[u], index - Lookup(userIndex, u))
  }

  /** Credits, what is due to holders at the stored index, and what was emitted since are covered by
      the emission and less than one unit for each settlement. */
  predicate Within(credited: nat, due: nat, pending: nat, emitted: nat, settlements: nat) {
    ONE * credited + due + pending * ONE <= ONE * emitted + (ONE - 1) * settlements
  }

  /** What was emitted while somebody held the token is credited, due or pending, but for less than one unit
      for each settlement and one part in the supply for each rise of the index. */
  predicate Served(credited: nat, due: nat, pending: nat, held: nat, settlements: nat, raised: nat) {
    ONE * held <= ONE * credited + due + pending * ONE + (ONE - 1) * settlements + raised
  }

  lemma WithinBounds(credited: nat, due: nat, pending: nat, emitted: nat, settlements: nat)
    requires Within(credited, due, pending, emitted, settlements)
    ensures credited <= emitted + settlements
    ensures settlements > 0 ==> credited < emitted + settlements
  {
  }

  function EmittedSince(p: Pool, now: nat): nat
    requires p.lastUpdated <= now
  {
    p.emission * (now - p.lastUpdated)
  }

  function HeldSince(p: Pool, supply: nat, now: nat): nat
    requires p.lastUpdated <= now
  {
    if supply > 0 then EmittedSince(p, now) else 0
  }

  ghost predicate Covered(p: Pool, t: Token, acc: Account, now: nat) {
    && Ordered(p.userIndex, p.index)
    && p.lastUpdated <= now
    && Within(acc.credited, Total(Gaps(t.balances, p.userIndex, p.index)), EmittedSince(p, now), acc.emitted,
              acc.settlements)
    && Served(acc.credited, Total(Gaps(t.balances, p.userIndex, p.index)), HeldSince(p, t.supply, now), acc.held,
              acc.settlements, acc.raised)
  }

  lemma DueGrows(balance: nat, gap: nat, growth: nat)
    ensures Due(balance, gap + growth) == Due(balance, gap) + balance * growth
  {
  }

  /** Raising the index by `growth` makes every holder's gap grow with the balance. */
  lemma GapsGrow(balances: map<Addr, nat>, userIndex: map<Addr, nat>, index: nat, growth: nat)
    requires Ordered(userIndex, index)
    ensures Ordered(userIndex, index + growth)
    ensures Total(Gaps(balances, userIndex, index + growth)) == Total(Gaps(balances, userIndex, index)) + Total(balances) * growth
  {
    var before, after := Gaps(balances, userIndex, index), Gaps(balances, userIndex, index + growth);
    forall u | u in balances
      ensures after[u] == before[u] + Scaled(balances, growth)[u]
    {
      DueGrows(balances[u], index - Lookup(userIndex, u), growth);
    }
    TotalSum(after, before, Scaled(balances, growth));
    TotalScale(balances, growth);
  }

  /** Settling one user closes that user's gap and no other. */
  lemma GapClosed(balances: map<Addr, nat>, userIndex: map<Addr, nat>, index: nat, user: Addr)
    requires Ordered(userIndex, index)
    ensures Ordered(userIndex[user := index], index)
    ensures Total(Gaps(balances, userIndex[user := index], index)) + Due(Lookup(balances, user), index - Lookup(userIndex, user))
         == Total(Gaps(balances, userIndex, index))
  {
    var before := Gaps(balances, userIndex, index);
    GapsWithoutUser(balances, userIndex, index, user);
    if user in balances {
      TotalUpdate(before, user, 0);
    }
  }

  lemma GapsWithoutUser(balances: map<Addr, nat>, userIndex: map<Addr, nat>, index: nat, user: Addr)
    requires Ordered(userIndex, index)
    ensures Ordered(userIndex[user := index], index)
    ensures var before, after := Gaps(balances, userIndex, index), Gaps(balances, userIndex[user := index], index);
            after == if user in balances then before[user := 0] else before
  {
    var moved := userIndex[user := index];
    assert forall u :: Lookup(moved, u) == if u == user then index else Lookup(userIndex, u);
    var before, after := Gaps(balances, userIndex, index), Gaps(balances, moved, index);
    forall u | u in balances
      ensures after[u] == if u == user then 0 else before[u]
    {
    }
  }

  lemma PartsGivenOut(emitted: nat, supply: nat)
    requires supply > 0
    ensures supply * FromRatio(emitted, supply) <= emitted * ONE < supply * FromRatio(emitted, supply) + supply
  {
    FloorBounds(emitted * ONE, supply);
  }

  /** Raising the index by `growth` turns what is pending into what is due, up to a rounding below. */
  lemma RaiseKeepsBounds(acc: Account, due: nat, emitted: nat, supply: nat, growth: nat)
    requires supply > 0 && supply * growth <= emitted * ONE < supply * growth + supply
    requires Within(acc.credited, due, emitted, acc.emitted, acc.settlements)
    requires Served(acc.credited, due, emitted, acc.held, acc.settlements, acc.raised)
    ensures Within(acc.credited, due + supply * growth, 0, acc.emitted, acc.settlements)
    ensures Served(acc.credited, due + supply * growth, 0, acc.held, acc.settlements, acc.raised + supply)
  {
  }

  lemma IndexRaised(p: Pool, t: Token, acc: Account, now: nat)
    requires Covered(p, t, acc, now) && Balanced(t)
    requires p.lastUpdated < now && t.supply > 0 && p.emission > 0
    ensures var growth := FromRatio(p.emission * (now - p.lastUpdated), t.supply);
            Covered(p.(index := p.index + growth, lastUpdated := now), t, acc.(raised := acc.raised + t.supply), now)
  {
    var emitted := EmittedSince(p, now);
    var growth := FromRatio(emitted, t.supply);
    PartsGivenOut(emitted, t.supply);
    GapsGrow(t.balances, p.userIndex, p.index, growth);
    RaiseKeepsBounds(acc, Total(Gaps(t.balances, p.userIndex, p.index)), emitted, t.supply, growth);
    CoveredAnew(p.(index := p.index + growth, lastUpdated := now), t, acc.(raised := acc.raised + t.supply), now,
                Total(Gaps(t.balances, p.userIndex, p.index)) + t.supply * growth);
  }

  /** Nothing is pending in a pool that is up to date. */
  lemma CoveredAnew(q: Pool, t: Token, acc: Account, now: nat, due: nat)
    requires Ordered(q.userIndex, q.index) && q.lastUpdated == now
    requires due == Total(Gaps(t.balances, q.userIndex, q.index))
    requires Within(acc.credited, due, 0, acc.emitted, acc.settlements)
    requires Served(acc.credited, due, 0, acc.held, acc.settlements, acc.raised)
    ensures Covered(q, t, acc, now)
  {
    assert EmittedSince(q, now) == 0;
  }

  lemma IndexStays(p: Pool, t: Token, acc: Account, now: nat)
    requires Covered(p, t, acc, now)
    requires p.lastUpdated == now || t.supply == 0 || p.emission == 0
    ensures Covered(p.(lastUpdated := now), t, acc, now)
  {
  }

  /** Bringing the index up to date never fails and gives out what was emitted, up to its rounding. */
  lemma UpdatedCovered(p: Pool, t: Token, acc: Account, now: nat)
    requires Covered(p, t, acc, now) && Balanced(t)
    ensures Updated(p, t.supply, now).Ok?
    ensures var q := Updated(p, t.supply, now).value;
            && Covered(q, t, Raised(acc, p, t.supply, now), now)
            && q.lastUpdated == now && q.userIndex == p.userIndex && q.emission == p.emission
            && (p.lastUpdated == now ==> q == p)
  {
    if now != p.lastUpdated && t.supply != 0 && p.emission != 0 {
      IndexRaised(p, t, acc, now);
    } else {
      IndexStays(p, t, acc, now);
    }
  }

  /** The difference of two rounded-down products is less than one unit off the exact one. */
  lemma CreditBound(balance: nat, low: nat, high: nat)
    requires low <= high
    ensures MulFloor(balance, low) <= MulFloor(balance, high)
    ensures ONE * (MulFloor(balance, high) - MulFloor(balance, low)) <= Due(balance, high - low) + ONE - 1
    ensures Due(balance, high - low) <= ONE * (MulFloor(balance, high) - MulFloor(balance, low)) + ONE - 1
  {
    MulFloorMonotoneRate(balance, low, high);
    FloorBounds(balance * low, ONE);
    FloorBounds(balance * high, ONE);
    DueGrows(balance, low, high - low);
  }

  /** A settlement with the true balance and supply never fails and stays covered. */
  lemma SettleCovered(p: Pool, t: Token, acc: Account, user: Addr, now: nat)
    requires Covered(p, t, acc, now) && Balanced(t)
    ensures Settle(p, user, BalanceOf(t, user), t.supply, now).Ok?
    ensures var s := Settle(p, user, BalanceOf(t, user), t.supply, now).value;
            && Covered(s.pool, t, Recorded(acc, p, t.supply, now, user, s), now)
            && s.pool.lastUpdated == now
            && IndexOf(s.pool, user) == s.pool.index
            && (forall o :: o != user ==> IndexOf(s.pool, o) == IndexOf(p, o))
            && (p.lastUpdated == now ==> s.pool.index == p.index)
  {
    UpdatedCovered(p, t, acc, now);
    var q := Updated(p, t.supply, now).value;
    assert Settle(p, user, BalanceOf(t, user), t.supply, now) == SettleAt(q, user, BalanceOf(t, user));
    SettleAtCovered(q, t, Raised(acc, p, t.supply, now), user, now);
  }

  /** A settlement once the index is up to date. */
  function SettleAt(q: Pool, user: Addr, balance: nat): Result<Settlement> {
    if IndexOf(q, user) == q.index then Ok(Settlement(q, 0))
    else
      var credit :- AccruedRewards(balance, IndexOf(q, user), q.index);
      Ok(Settlement(q.(userIndex := q.userIndex[user := q.index]), credit))
  }

  lemma SettleAtCovered(q: Pool, t: Token, acc: Account, user: Addr, now: nat)
    requires Covered(q, t, acc, now) && q.lastUpdated == now
    ensures SettleAt(q, user, BalanceOf(t, user)).Ok?
    ensures var s := SettleAt(q, user, BalanceOf(t, user)).value;
            && Covered(s.pool, t,
                       acc.(credited := acc.credited + s.credit,
                            settlements := acc.settlements + if IndexOf(q, user) == s.pool.index then 0 else 1), now)
            && s.pool.lastUpdated == now && s.pool.index == q.index
            && IndexOf(s.pool, user) == s.pool.index
            && (forall o :: o != user ==> IndexOf(s.pool, o) == IndexOf(q, o))
  {
    if IndexOf(q, user) != q.index {
      SettleUpdated(q, t, acc, user, now);
    }
  }

  /** The same once the index is up to date. */
  lemma SettleUpdated(q: Pool, t: Token, acc: Account, user: Addr, now: nat)
    requires Covered(q, t, acc, now) && q.lastUpdated == now
    requires IndexOf(q, user) != q.index
    ensures AccruedRewards(BalanceOf(t, user), IndexOf(q, user), q.index).Ok?
    ensures var credit := AccruedRewards(BalanceOf(t, user), IndexOf(q, user), q.index).value;
            Covered(q.(userIndex := q.userIndex[user := q.index]), t,
                    acc.(credited := acc.credited + credit, settlements := acc.settlements + 1), now)
  {
    CreditBound(BalanceOf(t, user), IndexOf(q, user), q.index);
    GapClosed(t.balances, q.userIndex, q.index, user);
  }

  /** Balances may change where the user's index is the pool's. */
  lemma BalancesMove(p: Pool, t: Token, after: Token, acc: Account, now: nat)
    requires Covered(p, t, acc, now)
    requires forall u :: BalanceOf(after, u) == BalanceOf(t, u) || IndexOf(p, u) == p.index
    requires after.supply == t.supply || p.lastUpdated == now
    ensures Covered(p, after, acc, now)
  {
    GapsWithin(p, t, after);
    GapsWithin(p, after, t);
  }

  lemma GapsWithin(p: Pool, t: Token, after: Token)
    requires Ordered(p.userIndex, p.index)
    requires forall u :: BalanceOf(after, u) == BalanceOf(t, u) || IndexOf(p, u) == p.index
    ensures Total(Gaps(after.balances, p.userIndex, p.index)) <= Total(Gaps(t.balances, p.userIndex, p.index))
  {
    var gaps, later := Gaps(t.balances, p.userIndex, p.index), Gaps(after.balances, p.userIndex, p.index);
    forall u | u in later
      ensures later[u] <= Lookup(gaps, u)
    {
      assert BalanceOf(after, u) == BalanceOf(t, u) || IndexOf(p, u) == p.index;
    }
    TotalMonotone(later, gaps);
  }

  lemma EmissionElapses(p: Pool, t: Token, acc: Account, now: nat, later: nat)
    requires Covered(p, t, acc, now) && now <= later
    ensures var emitted := p.emission * (later - now);
            Covered(p, t, acc.(emitted := acc.emitted + emitted,
                               held := acc.held + if t.supply > 0 then emitted else 0), later)
  {
    DueGrows(p.emission, now - p.lastUpdated, later - now);
  }

  // ---------- the whole world ----------

  ghost function Credits(accounts: map<Addr, Account>): map<Addr, nat> {
    map a | a in accounts :: accounts[a].credited
  }

  ghost predicate Conserving(w: World) {
    && (forall a :: a in w.tokens ==> Balanced(w.tokens[a]))
    && w.accounts.Keys == w.rewards.pools.Keys
    && (forall a :: a in w.rewards.pools ==>
                      Covered(w.rewards.pools[a], TokenAt(w.tokens, a), w.accounts[a], w.now))
    && Total(w.rewards.unclaimed) + w.paid == Total(Credits(w.accounts))
  }

  lemma TokenBalanced(w: World, a: Addr)
    requires Conserving(w)
    ensures Balanced(TokenAt(w.tokens, a))
  {
  }

  ghost predicate SettledIn(w: World, token: Addr, user: Addr) {
    token in w.rewards.pools ==> IndexOf(w.rewards.pools[token], user) == w.rewards.pools[token].index
  }

  /** The incentives contract accepts every hook that tells the truth about balance and supply. So no
      change of balances is ever refused on its account. */
  lemma HooksNeverFail(w: World, token: Addr, user: Addr)
    requires Conserving(w)
    ensures var h := HookFor(TokenAt(w.tokens, token), user);
            BalanceChanged(w.rewards, token, h.user, h.balanceBefore, h.supplyBefore, w.now).Ok?
            && Deliver(w, token, h).Ok?
  {
    if token in w.rewards.pools {
      TokenBalanced(w, token);
      SettleCovered(w.rewards.pools[token], TokenAt(w.tokens, token), w.accounts[token], user, w.now);
    }
  }

  lemma CreditsAfter(accounts: map<Addr, Account>, a: Addr, acc: Account)
    requires a in accounts
    ensures Total(Credits(accounts[a := acc])) == Total(Credits(accounts)) - accounts[a].credited + acc.credited
  {
    assert Credits(accounts[a := acc]) == Credits(accounts)[a := acc.credited];
    TotalUpdate(Credits(accounts), a, acc.credited);
  }

  /** One pool and its account are replaced, and a credit is recorded for a user. */
  function WithPool(w: World, token: Addr, pool: Pool, acc: Account, user: Addr, credit: nat): World {
    w.(rewards := Rewards(w.rewards.pools[token := pool], Credited(w.rewards.unclaimed, user, credit)),
    accounts := w.accounts[token := acc])
  }

  lemma CreditedTotal(unclaimed: map<Addr, nat>, user: Addr, credit: nat)
    ensures Total(Credited(unclaimed, user, credit)) == Total(unclaimed) + credit
  {
    TotalUpdate(unclaimed, user, Lookup(unclaimed, user) + credit);
  }

  lemma WithPoolCovered(w: World, token: Addr, pool: Pool, acc: Account, user: Addr, credit: nat, a: Addr)
    requires Conserving(w) && token in w.rewards.pools
    requires Covered(pool, TokenAt(w.tokens, token), acc, w.now)
    requires a in w.rewards.pools
    ensures var after := WithPool(w, token, pool, acc, user, credit);
            Covered(after.rewards.pools[a], TokenAt(after.tokens, a), after.accounts[a], after.now)
  {
  }

  lemma WithPoolTotals(w: World, token: Addr, pool: Pool, acc: Account, user: Addr, credit: nat)
    requires token in w.accounts
    requires acc.credited == w.accounts[token].credited + credit
    ensures var after := WithPool(w, token, pool, acc, user, credit);
            && Total(Credits(after.accounts)) == Total(Credits(w.accounts)) + credit
            && Total(after.rewards.unclaimed) == Total(w.rewards.unclaimed) + credit
  {
    CreditsAfter(w.accounts, token, acc);
    CreditedTotal(w.rewards.unclaimed, user, credit);
  }

  lemma WithPoolConserves(w: World, token: Addr, pool: Pool, acc: Account, user: Addr, credit: nat)
    requires Conserving(w) && token in w.rewards.pools
    requires Covered(pool, TokenAt(w.tokens, token), acc, w.now)
    requires acc.credited == w.accounts[token].credited + credit
    ensures Conserving(WithPool(w, token, pool, acc, user, credit))
  {
    forall a | a in w.rewards.pools
      ensures var after := WithPool(w, token, pool, acc, user, credit);
              Covered(after.rewards.pools[a], TokenAt(after.tokens, a), after.accounts[a], after.now)
    {
      WithPoolCovered(w, token, pool, acc, user, credit, a);
    }
    WithPoolTotals(w, token, pool, acc, user, credit);
  }

  lemma DeliverParts(w: World, token: Addr, user: Addr) returns (s: Settlement)
    requires token in w.rewards.pools && token in w.accounts
    requires var t := TokenAt(w.tokens, token);
             Settle(w.rewards.pools[token], user, BalanceOf(t, user), t.supply, w.now).Ok?
    ensures var t := TokenAt(w.tokens, token);
            var p := w.rewards.pools[token];
            && Settle(p, user, BalanceOf(t, user), t.supply, w.now) == Ok(s)
            && Deliver(w, token, HookFor(t, user))
            == Ok(WithPool(w, token, s.pool, Recorded(w.accounts[token], p, t.supply, w.now, user, s), user, s.credit))
  {
    var t := TokenAt(w.tokens, token);
    s := Settle(w.rewards.pools[token], user, BalanceOf(t, user), t.supply, w.now).value;
  }

  ghost predicate UpToDate(w: World, token: Addr) {
    token in w.rewards.pools ==> w.rewards.pools[token].lastUpdated == w.now
  }

  lemma DeliverConserves(w: World, token: Addr, user: Addr) returns (after: World)
    requires Conserving(w)
    ensures Deliver(w, token, HookFor(TokenAt(w.tokens, token), user)) == Ok(after)
    ensures Conserving(after) && after.tokens == w.tokens
    ensures SettledIn(after, token, user) && UpToDate(after, token)
    ensures UpToDate(w, token) ==> forall o :: SettledIn(w, token, o) ==> SettledIn(after, token, o)
  {
    if token in w.rewards.pools {
      TokenBalanced(w, token);
      var t, p := TokenAt(w.tokens, token), w.rewards.pools[token];
      SettleCovered(p, t, w.accounts[token], user, w.now);
      var s := DeliverParts(w, token, user);
      var acc := Recorded(w.accounts[token], p, t.supply, w.now, user, s);
      after := WithPool(w, token, s.pool, acc, user, s.credit);
      WithPoolConserves(w, token, s.pool, acc, user, s.credit);
    } else {
      after := w;
    }
  }

  /** The balances of settled users change, with the token's books still balanced. */
  lemma TokenChanges(w: World, token: Addr, after: Token)
    requires Conserving(w) && Balanced(after)
    requires forall u :: BalanceOf(after, u) == BalanceOf(TokenAt(w.tokens, token), u) || SettledIn(w, token, u)
    requires after.supply == TokenAt(w.tokens, token).supply || UpToDate(w, token)
    ensures Conserving(w.(tokens := w.tokens[token := after]))
  {
    var w' := w.(tokens := w.tokens[token := after]);
    forall a | a in w'.rewards.pools
      ensures Covered(w'.rewards.pools[a], TokenAt(w'.tokens, a), w'.accounts[a], w'.now)
    {
      assert Covered(w.rewards.pools[a], TokenAt(w.tokens, a), w.accounts[a], w.now);
      if a == token {
        BalancesMove(w.rewards.pools[a], TokenAt(w.tokens, a), after, w.accounts[a], w.now);
      }
    }
  }

  lemma TransferTouchesTwo(t: Token, from: Addr, to: Addr, amount: nat)
    requires Transfer(t, from, to, amount).Ok?
    ensures forall u :: u != from && u != to ==> BalanceOf(Transfer(t, from, to, amount).value, u) == BalanceOf(t, u)
  {
  }

  lemma MoveConserves(w: World, a: Addr, from: Addr, to: Addr, amount: nat, moved: Token)
    requires Conserving(w)
    requires Transfer(TokenAt(w.tokens, a), from, to, amount) == Ok(moved)
    ensures Deliver(w, a, HookFor(TokenAt(w.tokens, a), from)).Ok?
    ensures var w1 := Deliver(w, a, HookFor(TokenAt(w.tokens, a), from)).value;
            && Deliver(w1, a, HookFor(TokenAt(w.tokens, a), to)).Ok?
            && var w2 := Deliver(w1, a, HookFor(TokenAt(w.tokens, a), to)).value;
               Conserving(w2.(tokens := w2.tokens[a := moved]))
  {
    TokenBalanced(w, a);
    TransferKeepsBalanced(TokenAt(w.tokens, a), from, to, amount);
    var w1 := DeliverConserves(w, a, from);
    var w2 := DeliverConserves(w1, a, to);
    assert SettledIn(w2, a, from) && SettledIn(w2, a, to);
    TransferTouchesTwo(TokenAt(w.tokens, a), from, to, amount);
    TokenChanges(w2, a, moved);
  }

  lemma SupplyChangeConserves(w: World, a: Addr, user: Addr, after: Token)
    requires Conserving(w) && Balanced(after)
    requires forall u :: u != user ==> BalanceOf(after, u) == BalanceOf(TokenAt(w.tokens, a), u)
    ensures Deliver(w, a, HookFor(TokenAt(w.tokens, a), user)).Ok?
    ensures var w1 := Deliver(w, a, HookFor(TokenAt(w.tokens, a), user)).value;
            Conserving(w1.(tokens := w1.tokens[a := after]))
  {
    var w1 := DeliverConserves(w, a, user);
    TokenChanges(w1, a, after);
  }

  lemma NewPoolCovered(t: Token, emission: nat, now: nat)
    ensures Covered(Pool(emission, 0, now, map[]), t, NoAccount, now)
  {
    TotalOfZeros(Gaps(t.balances, map[], 0));
  }

  lemma NewAccountTotals(accounts: map<Addr, Account>, a: Addr)
    requires a !in accounts
    ensures Total(Credits(accounts[a := NoAccount])) == Total(Credits(accounts))
  {
    assert Credits(accounts[a := NoAccount]) == Credits(accounts)[a := 0];
    TotalExtend(Credits(accounts), a, 0);
  }

  lemma NewIncentiveConserves(w: World, a: Addr, emission: nat)
    requires Conserving(w) && a !in w.rewards.pools
    ensures Conserving(w.(rewards := w.rewards.(pools := w.rewards.pools[a := Pool(emission, 0, w.now, map[])]),
                       accounts := w.accounts[a := NoAccount]))
  {
    NewPoolCovered(TokenAt(w.tokens, a), emission, w.now);
    NewAccountTotals(w.accounts, a);
  }

  lemma NewEmissionCovered(p: Pool, t: Token, acc: Account, now: nat, emission: nat)
    requires Covered(p, t, acc, now) && p.lastUpdated == now
    ensures Covered(p.(emission := emission), t, acc, now)
  {
  }

  lemma SetEmissionParts(w: World, a: Addr, emission: nat, q: Pool)
    requires a in w.rewards.pools && a in w.accounts
    requires Updated(w.rewards.pools[a], TokenAt(w.tokens, a).supply, w.now) == Ok(q)
    requires Act(w, SetEmission(a, emission)).Ok?
    ensures var acc := Raised(w.accounts[a], w.rewards.pools[a], TokenAt(w.tokens, a).supply, w.now);
            Act(w, SetEmission(a, emission)) == Ok(WithPool(w, a, q.(emission := emission), acc, a, 0))
  {
  }

  lemma SetEmissionConserves(w: World, a: Addr, emission: nat)
    requires Conserving(w)
    requires Act(w, SetEmission(a, emission)).Ok?
    ensures Conserving(Act(w, SetEmission(a, emission)).value)
  {
    if a in w.rewards.pools {
      TokenBalanced(w, a);
      var t, p := TokenAt(w.tokens, a), w.rewards.pools[a];
      UpdatedCovered(p, t, w.accounts[a], w.now);
      var q := Updated(p, t.supply, w.now).value;
      var acc := Raised(w.accounts[a], p, t.supply, w.now);
      NewEmissionCovered(q, t, acc, w.now, emission);
      WithPoolConserves(w, a, q.(emission := emission), acc, a, 0);
      SetEmissionParts(w, a, emission, q);
    } else {
      NewIncentiveConserves(w, a, emission);
    }
  }

  /** A claim fails only for an incentive whose address is no token. */
  lemma ClaimsNeverFail(w: World, user: Addr)
    requires Conserving(w)
    ensures Claimable(w.rewards, w.tokens, user, w.now) <==> w.rewards.pools.Keys <= w.tokens.Keys
  {
    if w.rewards.pools.Keys <= w.tokens.Keys {
      forall a | a in w.rewards.pools
        ensures ClaimedPool(w.rewards.pools[a], w.tokens[a], user, w.now).Ok?
      {
        SettleCovered(w.rewards.pools[a], w.tokens[a], w.accounts[a], user, w.now);
      }
    }
  }

  lemma ClaimCovers(w: World, user: Addr, a: Addr)
    requires Conserving(w) && a in w.rewards.pools
    requires Claimable(w.rewards, w.tokens, user, w.now)
    ensures Covered(Claimed(w.rewards, w.tokens, user, w.now).pools[a], w.tokens[a], ClaimAccounts(w, user)[a], w.now)
  {
    SettleCovered(w.rewards.pools[a], w.tokens[a], w.accounts[a], user, w.now);
  }

  lemma ClaimTotals(w: World, user: Addr)
    requires w.accounts.Keys == w.rewards.pools.Keys
    requires Claimable(w.rewards, w.tokens, user, w.now)
    ensures Total(Credits(ClaimAccounts(w, user))) + Lookup(w.rewards.unclaimed, user)
         == Total(Credits(w.accounts)) + Unclaimed(w.rewards, w.tokens, user, w.now)
    ensures Total(w.rewards.unclaimed[user := 0]) + Lookup(w.rewards.unclaimed, user) == Total(w.rewards.unclaimed)
  {
    TotalSum(Credits(ClaimAccounts(w, user)), Credits(w.accounts), Accruals(w.rewards, w.tokens, user, w.now));
    TotalUpdate(w.rewards.unclaimed, user, 0);
  }

  lemma ClaimConserves(w: World, user: Addr)
    requires Conserving(w)
    requires Claimable(w.rewards, w.tokens, user, w.now)
    ensures Conserving(Act(w, ClaimRewards(user)).value)
  {
    forall a | a in w.rewards.pools
      ensures Covered(Claimed(w.rewards, w.tokens, user, w.now).pools[a], TokenAt(w.tokens, a),
                      ClaimAccounts(w, user)[a], w.now)
    {
      ClaimCovers(w, user, a);
    }
    ClaimTotals(w, user);
  }

  lemma ActConserves(w: World, action: Action)
    requires Conserving(w)
    requires Act(w, action).Ok?
    ensures Conserving(Act(w, action).value)
  {
    match action
    case DeployToken(a) =>
      TokenChanges(w, a, EmptyToken);
    case MintTo(a, to, amount) =>
      TokenBalanced(w, a);
      MintKeepsBalanced(TokenAt(w.tokens, a), to, amount);
      SupplyChangeConserves(w, a, to, Mint(TokenAt(w.tokens, a), to, amount).value);
    case BurnFrom(a, from, amount) =>
      TokenBalanced(w, a);
      BurnKeepsBalanced(TokenAt(w.tokens, a), from, amount);
      SupplyChangeConserves(w, a, from, Burn(TokenAt(w.tokens, a), from, amount).value);
    case Move(a, from, to, amount) =>
      MoveConserves(w, a, from, to, amount, Transfer(TokenAt(w.tokens, a), from, to, amount).value);
    case SetEmission(a, emission) =>
      SetEmissionConserves(w, a, emission);
    case ClaimRewards(user) =>
      ClaimConserves(w, user);
  }

  lemma ElapseCovers(w: World, now: nat, a: Addr) returns (acc: Account)
    requires Conserving(w) && w.now <= now && a in w.rewards.pools
    ensures a in Elapse(w, now).accounts && acc == Elapse(w, now).accounts[a]
    ensures acc.credited == w.accounts[a].credited
    ensures Covered(w.rewards.pools[a], TokenAt(w.tokens, a), acc, now)
  {
    acc := Elapse(w, now).accounts[a];
    EmissionElapses(w.rewards.pools[a], TokenAt(w.tokens, a), w.accounts[a], w.now, now);
  }

  lemma ElapseConserves(w: World, now: nat)
    requires Conserving(w) && w.now <= now
    ensures Conserving(Elapse(w, now))
  {
    var after := Elapse(w, now);
    forall a | a in after.rewards.pools
      ensures Covered(after.rewards.pools[a], TokenAt(after.tokens, a), after.accounts[a], now)
      ensures after.accounts[a].credited == w.accounts[a].credited
    {
      var acc := ElapseCovers(w, now, a);
    }
    assert Credits(after.accounts) == Credits(w.accounts);
  }

  lemma {:induction false} EveryRunConserves(events: seq<Timed>)
    ensures Conserving(Run(events))
  {
    if events != [] {
      var before, e := Run(events[..|events| - 1]), events[|events| - 1];
      EveryRunConserves(events[..|events| - 1]);
      var now := if e.now > before.now then e.now else before.now;
      ElapseConserves(before, now);
      if Act(Elapse(before, now), e.action).Ok? {
        ActConserves(Elapse(before, now), e.action);
      }
    }
  }

  /** For each token, all users together are credited at most what was emitted plus one unit for each
      settlement; less than that once there is a settlement. */
  lemma CreditsWithinEmission(events: seq<Timed>, token: Addr)
    ensures var acc := AccountAt(Run(events).accounts, token);
            && acc.credited <= acc.emitted + acc.settlements
            && (acc.settlements > 0 ==> acc.credited < acc.emitted + acc.settlements)
  {
    EveryRunConserves(events);
    var w := Run(events);
    if token in w.accounts {
      var acc := w.accounts[token];
      var p, t := w.rewards.pools[token], TokenAt(w.tokens, token);
      WithinBounds(acc.credited, Total(Gaps(t.balances, p.userIndex, p.index)), EmittedSince(p, w.now), acc.emitted,
                   acc.settlements);
    }
  }

  /** The other half: what was emitted while somebody held the token has been credited or is due to holders,
      up to less than one unit for each settlement and, in parts of one over ONE, the supplies at which the
      index was raised. */
  lemma EmissionIsServed(events: seq<Timed>, token: Addr)
    returns (p: Pool, t: Token, acc: Account, due: nat, pending: nat)
    requires token in Run(events).rewards.pools
    ensures p == Run(events).rewards.pools[token] && t == TokenAt(Run(events).tokens, token)
    ensures acc == AccountAt(Run(events).accounts, token)
    ensures Ordered(p.userIndex, p.index) && due == Total(Gaps(t.balances, p.userIndex, p.index))
    ensures p.lastUpdated <= Run(events).now && pending == HeldSince(p, t.supply, Run(events).now)
    ensures ONE * acc.held <= ONE * acc.credited + due + ONE * pending + (ONE - 1) * acc.settlements + acc.raised
  {
    EveryRunConserves(events);
    var w := Run(events);
    p, t, acc := w.rewards.pools[token], TokenAt(w.tokens, token), w.accounts[token];
    due, pending := CoveredIsServed(p, t, acc, w.now);
  }

  lemma CoveredIsServed(p: Pool, t: Token, acc: Account, now: nat) returns (due: nat, pending: nat)
    requires Covered(p, t, acc, now)
    ensures Ordered(p.userIndex, p.index) && p.lastUpdated <= now
    ensures due == Total(Gaps(t.balances, p.userIndex, p.index))
    ensures pending == HeldSince(p, t.supply, now)
    ensures ONE * acc.held <= ONE * acc.credited + due + ONE * pending + (ONE - 1) * acc.settlements + acc.raised
  {
    due := Total(Gaps(t.balances, p.userIndex, p.index));
    pending := HeldSince(p, t.supply, now);
  }

  ghost function Bounds(accounts: map<Addr, Account>): map<Addr, nat> {
    map a | a in accounts :: accounts[a].emitted + accounts[a].settlements
  }

  /** Everything ever paid out, and everything that could be claimed without a further settlement, is
      within what all pools have emitted and one unit per settlement. */
  lemma PayoutsWithinEmission(events: seq<Timed>)
    ensures var w := Run(events);
            && w.paid + Total(w.rewards.unclaimed) == Total(Credits(w.accounts)) <= Total(Bounds(w.accounts))
  {
    EveryRunConserves(events);
    var w := Run(events);
    forall a | a in w.accounts
      ensures Credits(w.accounts)[a] <= Lookup(Bounds(w.accounts), a)
    {
      CreditsWithinEmission(events, a);
    }
    TotalMonotone(Credits(w.accounts), Bounds(w.accounts));
  }
}
