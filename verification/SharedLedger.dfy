/** The exchange and the order books as parts of the one token ledger. */
module SharedLedger {
  import opened Uint64
  import opened Balances
  import opened TokenLedger
  import DexChains
  import DexHolding
  import OrderBook

  /** Two pools of the ledger replaced, along with the accounts. */
  function WithPools(l: Ledger, accounts: map<nat, u64>, id: nat, amount: u64, id': nat, amount': u64): (m: Ledger)
  {
    l.(accounts := accounts, pools := l.pools[id := amount][id' := amount'])
  }

  lemma TwoPoolsCount(l: Ledger, accounts: map<nat, u64>, id: nat, amount: u64, id': nat, amount': u64)
    requires id != id'
    ensures Held(WithPools(l, accounts, id, amount, id', amount')) + Total(l.accounts) + Amount(l.pools, id) + Amount(l.pools, id')
            == Held(l) + Total(accounts) + amount + amount'
    ensures Total(l.accounts) + Amount(l.pools, id) + Amount(l.pools, id') <= Held(l)
  {
    TotalUpdate(l.pools, id, amount);
    TotalUpdate(l.pools[id := amount], id', amount');
    TotalUpdate(l.pools[id := amount], id', 0);
    TotalUpdate(l.pools[id' := 0], id, 0);
    TotalUpdate(l.pools, id', 0);
    assert Amount(l.pools[id := amount], id') == Amount(l.pools, id');
    assert Amount(l.pools[id' := 0], id) == Amount(l.pools, id);
  }

  /** The part of the ledger that the exchange with one chain works on. */
  ghost predicate IsExchangeOf(c: DexChains.Chain, l: Ledger, chain: nat)
  {
    && c.accounts == l.accounts
    && c.holding == Amount(l.pools, PoolId(Holding, chain)) && c.pool == Amount(l.pools, PoolId(Liquidity, chain))
  }

  /**
   * Every step of the exchange, seen in the whole ledger, keeps the total supply accounted for; and the
   * ledger's balance is what makes the exchange's own 64-bit bound hold.
   */
  lemma ExchangeConserves(l: Ledger, chain: nat, c: DexChains.Chain, self: nat, s: DexHolding.Step)
    requires ValidChain(chain) && Balanced(l) && IsExchangeOf(c, l, chain)
    requires DexHolding.Sound(c) && DexHolding.Allowed(c, s) && !s.Elsewhere?
    ensures DexHolding.Tokens(c) <= l.supply
    ensures var c' := DexHolding.Take(c, self, s);
            Balanced(WithPools(l, c'.accounts, PoolId(Holding, chain), c'.holding, PoolId(Liquidity, chain), c'.pool))
  {
    var c' := DexHolding.Take(c, self, s);
    PoolIdsAreDisjoint(Holding, chain, Liquidity, chain);
    TwoPoolsCount(l, c'.accounts, PoolId(Holding, chain), c'.holding, PoolId(Liquidity, chain), c'.pool);
    DexHolding.StepKeepsSound(c, self, s);
  }

  /** Every step of an order book, seen in the whole ledger, keeps the total supply accounted for. */
  lemma OrderBookConserves(l: Ledger, chain: nat, m: OrderBook.Market, e: OrderBook.Event)
    requires ValidChain(chain) && Balanced(l)
    requires m.accounts == l.accounts && m.escrow == Amount(l.pools, PoolId(Escrow, chain))
    requires m.escrow >= OrderBook.Owed(m.orders) && OrderBook.Allowed(m, e) && !e.Elsewhere?
    ensures OrderBook.Sound(m)
    ensures var m' := OrderBook.Step(m, e);
            Balanced(l.(accounts := m'.accounts, pools := l.pools[PoolId(Escrow, chain) := m'.escrow]))
  {
    var id := PoolId(Escrow, chain);
    TotalUpdate(l.pools, id, m.escrow);
    assert OrderBook.Sound(m);
    OrderBook.StepKeepsSound(m, e);
    TotalUpdate(l.pools, id, OrderBook.Step(m, e).escrow);
  }
}
