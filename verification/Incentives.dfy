/** Rewards for holders of liquidity tokens: an index of rewards per token, and settlements of what
    has accrued to a user since the user's own index. */
module Incentives {
  import opened Base
  import opened FixedPoint
  import opened Totals
  import opened MaToken

  /** The incentive of one token, with the index at which each user was last settled. */
  datatype Pool = Pool(emission: nat, index: nat, lastUpdated: nat, userIndex: map<Addr, nat>)

  /** The contract's storage: the pools by token, and what was settled but not yet claimed by user. */
  datatype Rewards = Rewards(pools: map<Addr, Pool>, unclaimed: map<Addr, nat>)

  function IndexOf(p: Pool, user: Addr): nat {
    Lookup(p.userIndex, user)
  }

  /** The pool with its index brought up to `now`. Nothing is distributed while nobody holds the token
      or nothing is emitted. */
  function Updated(p: Pool, supply: nat, now: nat): Result<Pool> {
    if now != p.lastUpdated && supply != 0 && p.emission != 0 then
      :- Need(p.lastUpdated <= now, Overflow);
      Ok(p.(index := p.index + FromRatio(p.emission * (now - p.lastUpdated), supply), lastUpdated := now))
    else
      Ok(p.(lastUpdated := now))
  }

  /** While somebody holds the token the index rises by what was emitted since, spread over the supply and
      rounded down; otherwise it stays. */
  lemma IndexRisesByEmission(p: Pool, supply: nat, now: nat) returns (q: Pool)
    requires p.lastUpdated <= now
    ensures Updated(p, supply, now) == Ok(q)
    ensures q == p.(index := q.index, lastUpdated := now) && q.index >= p.index
    ensures supply > 0 ==>
              (q.index - p.index) * supply <= p.emission * (now - p.lastUpdated) * ONE
              < (q.index - p.index) * supply + supply
    ensures supply == 0 ==> q.index == p.index
  {
    q := Updated(p, supply, now).value;
    if supply > 0 {
      FloorBounds(p.emission * (now - p.lastUpdated) * ONE, supply);
    }
  }

  function AccruedRewards(balance: nat, userIndex: nat, poolIndex: nat): Result<nat> {
    if MulFloor(balance, userIndex) > MulFloor(balance, poolIndex) then Err(Overflow)
    else
      Ok(MulFloor(balance, poolIndex) - MulFloor(balance, userIndex))
  }

  datatype Settlement = Settlement(pool: Pool, credit: nat)

  /** Brings the pool and one user up to date; the user is credited if the index has moved. */
  function Settle(p: Pool, user: Addr, balance: nat, supply: nat, now: nat): Result<Settlement> {
    var q :- Updated(p, supply, now);
    if IndexOf(q, user) == q.index then Ok(Settlement(q, 0))
    else
      var credit :- AccruedRewards(balance, IndexOf(q, user), q.index);
      Ok(Settlement(q.(userIndex := q.userIndex[user := q.index]), credit))
  }

  function Credited(unclaimed: map<Addr, nat>, user: Addr, credit: nat): map<Addr, nat> {
    if credit == 0 then unclaimed else unclaimed[user := Lookup(unclaimed, user) + credit]
  }

  /** The answer to a hook of `token`. A token without an incentive is none of this contract's business. */
  function BalanceChanged(s: Rewards, token: Addr, user: Addr, balanceBefore: nat, supplyBefore: nat, now: nat):
    Result<Rewards>
  {
    if token !in s.pools then Ok(s)
    else
      var t :- Settle(s.pools[token], user, balanceBefore, supplyBefore, now);
      Ok(Rewards(s.pools[token := t.pool], Credited(s.unclaimed, user, t.credit)))
  }

  /** A new emission counts from now on: the index is first brought up to date at the old one. */
  function SetIncentive(s: Rewards, tokens: map<Addr, Token>, token: Addr, emission: nat, now: nat): Result<Rewards>
  {
    if token !in s.pools then Ok(s.(pools := s.pools[token := Pool(emission, 0, now, map[])]))
    else
      :- Need(token in tokens, NotFound);
      var q :- Updated(s.pools[token], tokens[token].supply, now);
      Ok(s.(pools := s.pools[token := q.(emission := emission)]))
  }

  // ---------- what hooks and new incentives do ----------

  /** A settlement credits the difference of the user's balance at the raised index and at the user's own,
      each rounded down, and moves no other user's index. */
  lemma SettleEffect(p: Pool, user: Addr, balance: nat, supply: nat, now: nat) returns (q: Pool, credit: nat)
    requires p.lastUpdated <= now && IndexOf(p, user) <= p.index
    ensures Settle(p, user, balance, supply, now) == Ok(Settlement(q, credit))
    ensures q.emission == p.emission && q.lastUpdated == now && IndexOf(q, user) == q.index >= p.index
    ensures supply > 0 ==>
              (q.index - p.index) * supply <= p.emission * (now - p.lastUpdated) * ONE
              < (q.index - p.index) * supply + supply
    ensures supply == 0 ==> q.index == p.index
    ensures MulFloor(balance, IndexOf(p, user)) + credit == MulFloor(balance, q.index)
    ensures forall o :: o != user ==> IndexOf(q, o) == IndexOf(p, o)
  {
    var raised := IndexRisesByEmission(p, supply, now);
    MulFloorMonotoneRate(balance, IndexOf(p, user), raised.index);
    var t := Settle(p, user, balance, supply, now).value;
    q, credit := t.pool, t.credit;
  }

  /** A hook credits one user in one pool, and is ignored for a token without an incentive. */
  lemma BalanceChangedEffect(s: Rewards, token: Addr, user: Addr, balance: nat, supply: nat, now: nat)
    returns (t: Rewards, credit: nat)
    requires token in s.pools ==>
               s.pools[token].lastUpdated <= now && IndexOf(s.pools[token], user) <= s.pools[token].index
    ensures BalanceChanged(s, token, user, balance, supply, now) == Ok(t)
    ensures token !in s.pools ==> t == s && credit == 0
    ensures token in s.pools ==>
              && t.pools.Keys == s.pools.Keys
              && Settle(s.pools[token], user, balance, supply, now) == Ok(Settlement(t.pools[token], credit))
              && (forall a :: a in s.pools && a != token ==> t.pools[a] == s.pools[a])
              && Lookup(t.unclaimed, user) == Lookup(s.unclaimed, user) + credit
              && (forall o :: o != user ==> Lookup(t.unclaimed, o) == Lookup(s.unclaimed, o))
  {
    credit := 0;
    if token in s.pools {
      var q;
      q, credit := SettleEffect(s.pools[token], user, balance, supply, now);
    }
    t := BalanceChanged(s, token, user, balance, supply, now).value;
  }

  /** A new emission counts from now on, and what the old one gave until now is in the index. */
  lemma SetIncentiveEffect(s: Rewards, tokens: map<Addr, Token>, token: Addr, emission: nat, now: nat)
    returns (t: Rewards)
    requires token in s.pools ==> token in tokens && s.pools[token].lastUpdated <= now
    ensures SetIncentive(s, tokens, token, emission, now) == Ok(t)
    ensures t.unclaimed == s.unclaimed && t.pools.Keys == s.pools.Keys + {token}
    ensures forall a :: a in s.pools && a != token ==> t.pools[a] == s.pools[a]
    ensures t.pools[token].emission == emission && t.pools[token].lastUpdated == now
    ensures token !in s.pools ==> t.pools[token].index == 0 && t.pools[token].userIndex == map[]
    ensures token in s.pools ==>
              var p, q, supply := s.pools[token], t.pools[token], tokens[token].supply;
              && q.userIndex == p.userIndex && q.index >= p.index
              && (supply > 0 ==>
                    (q.index - p.index) * supply <= p.emission * (now - p.lastUpdated) * ONE
                    < (q.index - p.index) * supply + supply)
              && (supply == 0 ==> q.index == p.index)
  {
    if token in s.pools {
      var q := IndexRisesByEmission(s.pools[token], tokens[token].supply, now);
    }
    t := SetIncentive(s, tokens, token, emission, now).value;
  }

  // ---------- claims ----------

  /** A claim leaves the pools alone in which the user holds nothing. */
  function ClaimedPool(p: Pool, t: Token, user: Addr, now: nat): Result<Settlement> {
    if BalanceOf(t, user) == 0 then Ok(Settlement(p, 0)) else Settle(p, user, BalanceOf(t, user), t.supply, now)
  }

  ghost predicate Claimable(s: Rewards, tokens: map<Addr, Token>, user: Addr, now: nat) {
    && s.pools.Keys <= tokens.Keys
    && forall a :: a in s.pools ==> ClaimedPool(s.pools[a], tokens[a], user, now).Ok?
  }

  ghost predicate Pending(p: Pool, t: Token, user: Addr, now: nat, credit: nat) {
    ClaimedPool(p, t, user, now).Ok? && ClaimedPool(p, t, user, now).value.credit == credit
  }

  /** What each pool still owes the user. */
  ghost function Accruals(s: Rewards, tokens: map<Addr, Token>, user: Addr, now: nat): map<Addr, nat>
    requires Claimable(s, tokens, user, now)
  {
    map a | a in s.pools :: ClaimedPool(s.pools[a], tokens[a], user, now).value.credit
  }

  /** What a query reports as unclaimed. */
  ghost function Unclaimed(s: Rewards, tokens: map<Addr, Token>, user: Addr, now: nat): nat
    requires Claimable(s, tokens, user, now)
  {
    Lookup(s.unclaimed, user) + Total(Accruals(s, tokens, user, now))
  }

  ghost function Claimed(s: Rewards, tokens: map<Addr, Token>, user: Addr, now: nat): Rewards
    requires Claimable(s, tokens, user, now)
  {
    Rewards(map a | a in s.pools :: ClaimedPool(s.pools[a], tokens[a], user, now).value.pool, s.unclaimed[user := 0])
  }

  /** A pool whose user has just been settled owes nothing more in the same block. */
  lemma SettledOwesNothing(p: Pool, user: Addr, balance: nat, supply: nat, now: nat)
    requires Settle(p, user, balance, supply, now).Ok?
    ensures var q := Settle(p, user, balance, supply, now).value.pool;
            IndexOf(q, user) == q.index && Settle(q, user, balance, supply, now) == Ok(Settlement(q, 0))
  {
  }

  /** Right after a claim a query reports nothing and another claim changes nothing. */
  lemma ClaimLeavesNothing(s: Rewards, tokens: map<Addr, Token>, user: Addr, now: nat)
    requires Claimable(s, tokens, user, now)
    ensures var after := Claimed(s, tokens, user, now);
            && Claimable(after, tokens, user, now)
            && Unclaimed(after, tokens, user, now) == 0
            && Claimed(after, tokens, user, now) == after
  {
    var after := Claimed(s, tokens, user, now);
    forall a | a in after.pools
      ensures ClaimedPool(after.pools[a], tokens[a], user, now) == Ok(Settlement(after.pools[a], 0))
    {
      if BalanceOf(tokens[a], user) != 0 {
        SettledOwesNothing(s.pools[a], user, BalanceOf(tokens[a], user), tokens[a].supply, now);
      }
    }
    TotalOfZeros(Accruals(after, tokens, user, now));
    assert Claimed(after, tokens, user, now).pools == after.pools;
    assert after.unclaimed[user := 0] == after.unclaimed;
  }

  // ---------- settlements telescope ----------

  /** A settlement of some user at some time, with the balance and the supply in force. */
  datatype Event = Event(user: Addr, balance: nat, supply: nat, now: nat)

  /** The pool and `user`'s credits after a series of settlements of any users. */
  function SettleAll(p: Pool, user: Addr, events: seq<Event>): Result<Settlement> {
    if events == [] then Ok(Settlement(p, 0))
    else
      var e := events[|events| - 1];
      var before :- SettleAll(p, user, events[..|events| - 1]);
      var t :- Settle(before.pool, e.user, e.balance, e.supply, e.now);
      Ok(Settlement(t.pool, before.credit + if e.user == user then t.credit else 0))
  }

  /** While a user's balance stays the same, the credits depend only on where the user's index starts
      and ends, not on how often the user or anyone else was settled in between. */
  lemma {:induction false} SettlementsTelescope(p: Pool, user: Addr, balance: nat, events: seq<Event>)
    requires forall e <- events :: e.user == user ==> e.balance == balance
    requires SettleAll(p, user, events).Ok?
    ensures var end := SettleAll(p, user, events).value;
            && end.credit + MulFloor(balance, IndexOf(p, user)) == MulFloor(balance, IndexOf(end.pool, user))
            && (events != [] && events[|events| - 1].user == user ==> IndexOf(end.pool, user) == end.pool.index)
  {
    if events != [] {
      var rest := events[..|events| - 1];
      assert forall e <- rest :: e in events;
      SettlementsTelescope(p, user, balance, rest);
      assert events[|events| - 1] in events;
    }
  }

  // ---------- the loop over all incentives ----------

  datatype Status = Status(token: Addr, settled: Pool)

  /** What a claim makes of one pool. */
  ghost predicate Settles(e: Status, s: Rewards, tokens: map<Addr, Token>, user: Addr, now: nat) {
    && e.token in s.pools && e.token in tokens
    && var r := ClaimedPool(s.pools[e.token], tokens[e.token], user, now);
       r.Ok? && r.value.pool == e.settled
  }

  ghost predicate Listed(statuses: seq<Status>, a: Addr) {
    exists k :: 0 <= k < |statuses| && statuses[k].token == a
  }

  /** The new states of pools among `done`, those in which the user holds something included. */
  ghost predicate Lists(statuses: seq<Status>, s: Rewards, tokens: map<Addr, Token>, user: Addr, now: nat,
                        done: set<Addr>)
    requires done <= tokens.Keys
  {
    && (forall k :: 0 <= k < |statuses| ==> statuses[k].token in done && Settles(statuses[k], s, tokens, user, now))
    && (forall a :: a in done && BalanceOf(tokens[a], user) > 0 ==> Listed(statuses, a))
  }

  lemma ListsGrow(statuses: seq<Status>, e: Status, s: Rewards, tokens: map<Addr, Token>, user: Addr, now: nat,
                  done: set<Addr>)
    requires done <= tokens.Keys && Lists(statuses, s, tokens, user, now, done)
    requires Settles(e, s, tokens, user, now)
    ensures Lists(statuses + [e], s, tokens, user, now, done + {e.token})
  {
    var longer := statuses + [e];
    forall a | a in done + {e.token} && BalanceOf(tokens[a], user) > 0
      ensures Listed(longer, a)
    {
      if a == e.token {
        assert longer[|statuses|].token == a;
      } else {
        var k :| 0 <= k < |statuses| && statuses[k].token == a;
        assert longer[k].token == a;
      }
    }
  }

  lemma AllPending(s: Rewards, tokens: map<Addr, Token>, user: Addr, now: nat, sums: map<Addr, nat>)
    requires sums.Keys == s.pools.Keys <= tokens.Keys
    requires forall a :: a in sums ==> Pending(s.pools[a], tokens[a], user, now, sums[a])
    ensures Claimable(s, tokens, user, now) && Accruals(s, tokens, user, now) == sums
  {
  }

  lemma RefusedBy(s: Rewards, tokens: map<Addr, Token>, user: Addr, now: nat, token: Addr)
    requires token in s.pools && token in tokens
    requires ClaimedPool(s.pools[token], tokens[token], user, now).Err?
    ensures !Claimable(s, tokens, user, now)
  {
  }

  /** Of the pools not `left`, `sums` holds what each owes the user. */
  ghost predicate Visited(s: Rewards, tokens: map<Addr, Token>, user: Addr, now: nat, left: set<Addr>,
                          sums: map<Addr, nat>)
  {
    && (forall a :: a in s.pools <==> a in sums || a in left)
    && (forall a :: a in sums ==> a in tokens && a !in left)
    && (forall a :: a in sums ==> Pending(s.pools[a], tokens[a], user, now, sums[a]))
  }

  lemma VisitNext(s: Rewards, tokens: map<Addr, Token>, user: Addr, now: nat, left: set<Addr>, sums: map<Addr, nat>,
                  token: Addr, credit: nat)
    requires Visited(s, tokens, user, now, left + {token}, sums) && token !in left
    requires token in s.pools && token in tokens && Pending(s.pools[token], tokens[token], user, now, credit)
    ensures Visited(s, tokens, user, now, left, sums[token := credit])
  {
  }

  /** Adds up what every pool owes the user and collects the pools to be updated. The pools may be
      visited in any order. */
  method ComputeUnclaimedRewards(s: Rewards, tokens: map<Addr, Token>, user: Addr, now: nat)
    returns (r: Result<(nat, seq<Status>)>)
    ensures r.Ok? <==> Claimable(s, tokens, user, now)
    ensures r.Ok? ==> r.value.0 == Unclaimed(s, tokens, user, now)
    ensures r.Ok? ==> s.pools.Keys <= tokens.Keys && Lists(r.value.1, s, tokens, user, now, s.pools.Keys)
  {
    var total := Lookup(s.unclaimed, user);
    var statuses: seq<Status> := [];
    var left := s.pools.Keys;
    ghost var sums: map<Addr, nat> := map[];
    while left != {}
      invariant Visited(s, tokens, user, now, left, sums)
      invariant total == Lookup(s.unclaimed, user) + Total(sums)
      invariant Lists(statuses, s, tokens, user, now, sums.Keys)
      decreases |left|
    {
      var token :| token in left;
      left := left - {token};
      if token !in tokens {
        return Err(NotFound);
      }
      var credit: nat := 0;
      var balance := BalanceOf(tokens[token], user);
      if balance != 0 {
        var r := Settle(s.pools[token], user, balance, tokens[token].supply, now);
        if r.Err? {
          RefusedBy(s, tokens, user, now, token);
          return Err(r.error);
        }
        credit := r.value.credit;
        ListsGrow(statuses, Status(token, r.value.pool), s, tokens, user, now, sums.Keys);
        statuses := statuses + [Status(token, r.value.pool)];
      }
      total := total + credit;
      TotalExtend(sums, token, credit);
      VisitNext(s, tokens, user, now, left, sums, token, credit);
      sums := sums[token := credit];
    }
    assert sums.Keys == s.pools.Keys;
    AllPending(s, tokens, user, now, sums);
    return Ok((total, statuses));
  }

  /** The incentives contract's storage. */
  class IncentivesContract {
    var pools: map<Addr, Pool>
    var unclaimed: map<Addr, nat>

    ghost function Contents(): Rewards
      reads this
    {
      Rewards(pools, unclaimed)
    }

    constructor ()
      ensures Contents() == Rewards(map[], map[])
    {
      pools := map[];
      unclaimed := map[];
    }

    /** The pool is saved before the credit is computed; if that fails the chain takes the pool back. */
    method ExecuteBalanceChange(token: Addr, user: Addr, balanceBefore: nat, supplyBefore: nat, now: nat)
      returns (r: Check)
      modifies this
      ensures r.Pass? <==> BalanceChanged(old(Contents()), token, user, balanceBefore, supplyBefore, now).Ok?
      ensures r.Pass? ==> Ok(Contents()) == BalanceChanged(old(Contents()), token, user, balanceBefore, supplyBefore, now)
      ensures r.Fail? ==> Contents() == old(Contents())
    {
      if token !in pools {
        return Pass;
      }
      var updated := Updated(pools[token], supplyBefore, now);
      if updated.Err? {
        return Fail(updated.error);
      }
      var pool := updated.value;
      var before := pools;
      pools := pools[token := pool];
      if IndexOf(pool, user) != pool.index {
        var credit := AccruedRewards(balanceBefore, IndexOf(pool, user), pool.index);
        if credit.Err? {
          pools := before;
          return Fail(credit.error);
        }
        if credit.value != 0 {
          unclaimed := unclaimed[user := Lookup(unclaimed, user) + credit.value];
        }
        pools := pools[token := pool.(userIndex := pool.userIndex[user := pool.index])];
        assert pools == before[token := pools[token]];
      }
      return Pass;
    }

    method ExecuteSetAssetIncentive(tokens: map<Addr, Token>, token: Addr, emission: nat, now: nat) returns (r: Check)
      modifies this
      ensures r.Pass? <==> SetIncentive(old(Contents()), tokens, token, emission, now).Ok?
      ensures r.Pass? ==> Ok(Contents()) == SetIncentive(old(Contents()), tokens, token, emission, now)
      ensures r.Fail? ==> Contents() == old(Contents())
    {
      var pool := Pool(emission, 0, now, map[]);
      if token in pools {
        if token !in tokens {
          return Fail(NotFound);
        }
        var updated := Updated(pools[token], tokens[token].supply, now);
        if updated.Err? {
          return Fail(updated.error);
        }
        pool := updated.value.(emission := emission);
      }
      pools := pools[token := pool];
      return Pass;
    }

    /** Pays out everything a user has coming. */
    method ExecuteClaimRewards(tokens: map<Addr, Token>, user: Addr, now: nat) returns (r: Result<nat>)
      modifies this
      ensures r.Ok? <==> Claimable(old(Contents()), tokens, user, now)
      ensures r.Ok? ==> Contents() == Claimed(old(Contents()), tokens, user, now)
      ensures r.Ok? ==> r.value == Unclaimed(old(Contents()), tokens, user, now)
      ensures r.Err? ==> Contents() == old(Contents())
    {
      ghost var s := Contents();
      var computed: (nat, seq<Status>) :- ComputeUnclaimedRewards(Rewards(pools, unclaimed), tokens, user, now);
      SaveSettled(computed.1, tokens, user, now);
      unclaimed := unclaimed[user := 0];
      return Ok(computed.0);
    }

    /** Saves the settled pools, which are all those in which the user holds something. */
    method SaveSettled(statuses: seq<Status>, tokens: map<Addr, Token>, user: Addr, now: nat)
      requires Claimable(Contents(), tokens, user, now)
      requires Lists(statuses, Contents(), tokens, user, now, pools.Keys)
      modifies this`pools
      ensures pools == old(Claimed(Contents(), tokens, user, now)).pools
    {
      ghost var s := Contents();
      for k := 0 to |statuses|
        invariant pools.Keys == s.pools.Keys
        invariant forall a :: a in pools ==>
                                pools[a] == if Listed(statuses[..k], a)
                                            then ClaimedPool(s.pools[a], tokens[a], user, now).value.pool
                                            else s.pools[a]
      {
        ListedNext(statuses, k);
        pools := pools[statuses[k].token := statuses[k].settled];
      }
      assert statuses[..|statuses|] == statuses;
    }
  }

  lemma ListedNext(statuses: seq<Status>, k: nat)
    requires k < |statuses|
    ensures forall a :: Listed(statuses[..k + 1], a) <==> Listed(statuses[..k], a) || a == statuses[k].token
  {
    forall a
      ensures Listed(statuses[..k + 1], a) <==> Listed(statuses[..k], a) || a == statuses[k].token
    {
      assert statuses[..k + 1][k] == statuses[k];
      if Listed(statuses[..k], a) {
        var j :| 0 <= j < k && statuses[..k][j].token == a;
        assert statuses[..k + 1][j].token == a;
      }
      if Listed(statuses[..k + 1], a) && a != statuses[k].token {
        var j :| 0 <= j < k + 1 && statuses[..k + 1][j].token == a;
        assert statuses[..k][j].token == a;
      }
    }
  }
}
