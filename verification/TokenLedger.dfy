/**
 * Where every token is: in an account, in a pool, or staked. Each operation of the state machine moves tokens
 * between these, mints or burns, and the tracked total supply follows.
 */
module TokenLedger {
  import opened Options
  import opened Uint64
  import opened Balances
  import opened Staking
  import opened Rewards
  import Slashing

  // ---------------------------------------------------------------- pool ids

  const MAX_CHAIN: nat := 65535 / 4
  const DAO_POOL: nat := 2 * 65535 + 1

  datatype PoolKind = Committee | Holding | Liquidity | Escrow

  function Addend(kind: PoolKind): (addend: nat)
  {
    match kind
    case Committee => 0
    case Holding => 65535 / 4
    case Liquidity => 2 * 65535 / 4
    case Escrow => 65535
  }

  function PoolId(kind: PoolKind, chain: nat): (id: nat)
  {
    chain + Addend(kind)
  }

  /** checkChainId: zero is reserved, and so is everything above the maximum. */
  predicate ValidChain(chain: nat)
  {
    1 <= chain <= MAX_CHAIN
  }

  /** No two kinds of pool of any two valid chains share an id, and none is the DAO's. */
  lemma PoolIdsAreDisjoint(kind: PoolKind, chain: nat, kind': PoolKind, chain': nat)
    requires ValidChain(chain) && ValidChain(chain')
    ensures PoolId(kind, chain) == PoolId(kind', chain') <==> kind == kind' && chain == chain'
    ensures PoolId(kind, chain) != DAO_POOL
  {
  }

  // ---------------------------------------------------------------- primitives

  /** Accounts, pools and validators, and the supply tracker's total and staked amounts. */
  datatype Ledger = Ledger(accounts: map<nat, u64>, pools: map<nat, u64>, validators: map<nat, Validator>,
                           supply: u64, staked: u64)

  function AccountAdd(l: Ledger, a: nat, amount: u64): (r: Option<Ledger>)
  {
    var accounts :- Credited(l.accounts, a, amount);
    Some(l.(accounts := accounts))
  }

  function AccountSub(l: Ledger, a: nat, amount: u64, spendable: u64): (r: Option<Ledger>)
  {
    var accounts :- Debited(l.accounts, a, amount, spendable);
    Some(l.(accounts := accounts))
  }

  /** PoolAdd has no overflow check. */
  function PoolAdd(l: Ledger, id: nat, amount: u64): (m: Ledger)
  {
    l.(pools := l.pools[id := (Amount(l.pools, id) + amount) % LIMIT])
  }

  function PoolSub(l: Ledger, id: nat, amount: u64): (r: Option<Ledger>)
  {
    if Amount(l.pools, id) < amount then None else Some(l.(pools := l.pools[id := Amount(l.pools, id) - amount]))
  }

  /** AddToTotalSupply has no overflow check either. */
  function AddSupply(l: Ledger, amount: u64): (m: Ledger)
  {
    l.(supply := (l.supply + amount) % LIMIT)
  }

  function SubSupply(l: Ledger, amount: u64): (r: Option<Ledger>)
  {
    if l.supply < amount then None else Some(l.(supply := l.supply - amount))
  }

  /** AddToStakedSupply and SubFromStakedSupply do check. */
  function AddStaked(l: Ledger, amount: u64): (r: Option<Ledger>)
  {
    if l.staked + amount >= LIMIT then None else Some(l.(staked := l.staked + amount))
  }

  function SubStaked(l: Ledger, amount: u64): (r: Option<Ledger>)
  {
    if l.staked < amount then None else Some(l.(staked := l.staked - amount))
  }

  // ---------------------------------------------------------------- operations

  /** From an account into a pool: fees, subsidies, new orders and deposits. */
  function PayIn(l: Ledger, a: nat, id: nat, amount: u64, spendable: u64): (r: Option<Ledger>)
  {
    var paid :- AccountSub(l, a, amount, spendable);
    Some(PoolAdd(paid, id, amount))
  }

  /** From a pool to an account: closed and deleted orders, refunds. */
  function PayOut(l: Ledger, id: nat, a: nat, amount: u64): (r: Option<Ledger>)
  {
    var taken :- PoolSub(l, id, amount);
    AccountAdd(taken, a, amount)
  }

  function Send(l: Ledger, from: nat, to: nat, amount: u64, spendable: u64): (r: Option<Ledger>)
  {
    var paid :- AccountSub(l, from, amount, spendable);
    AccountAdd(paid, to, amount)
  }

  function Stake(l: Ledger, signer: nat, address: nat, v: Validator, spendable: u64): (r: Option<Ledger>)
  {
    if address in l.validators then None
    else
      var paid :- AccountSub(l, signer, v.stake, spendable);
      var counted :- AddStaked(paid, v.stake);
      Some(counted.(validators := l.validators[address := v]))
  }

  /** UpdateValidatorStake: the staked supply is checked for overflow, the stake itself is not. */
  function AddStake(l: Ledger, address: nat, amount: u64): (r: Option<Ledger>)
    requires address in l.validators
  {
    var v := l.validators[address];
    var counted :- AddStaked(l, amount);
    Some(counted.(validators := l.validators[address := v.(stake := (v.stake + amount) % LIMIT)]))
  }

  /** HandleMessageEditStake: a smaller amount than what is staked changes nothing. */
  function EditStake(l: Ledger, signer: nat, address: nat, amount: u64, spendable: u64): (r: Option<Ledger>)
  {
    if address !in l.validators || l.validators[address].unstaking != 0 then None
    else
      var stake := l.validators[address].stake;
      var added := if amount <= stake then 0 else amount - stake;
      var paid :- AccountSub(l, signer, added, spendable);
      AddStake(paid, address, added)
  }

  /** The stake returns to the output address and the validator is deleted. */
  function FinishUnstaking(l: Ledger, address: nat): (r: Option<Ledger>)
  {
    if address !in l.validators then None
    else
      var v := l.validators[address];
      var paid :- AccountAdd(l, v.output, v.stake);
      var counted :- SubStaked(paid, v.stake);
      Some(counted.(validators := l.validators - {address}))
  }

  function MintToPool(l: Ledger, id: nat, amount: u64): (m: Ledger)
  {
    PoolAdd(AddSupply(l, amount), id, amount)
  }

  function MintToAccount(l: Ledger, a: nat, amount: u64): (r: Option<Ledger>)
  {
    if amount == 0 then Some(l) else AccountAdd(AddSupply(l, amount), a, amount)
  }

  /** HandleMessageDAOTransfer */
  function DaoTransfer(l: Ledger, to: nat, amount: u64, mint: bool): (r: Option<Ledger>)
  {
    PayOut(if mint then MintToPool(l, DAO_POOL, amount) else l, DAO_POOL, to, amount)
  }

  /** A slash that is not refused: what the validator loses leaves the total and the staked supply. */
  function Slash(l: Ledger, address: nat, committees: seq<nat>, percent: nat, p: Slashing.Params, height: nat): (r: Option<Ledger>)
  {
    if address !in l.validators then Some(l)
    else
      var v := l.validators[address];
      var cut := v.stake - Reduce(v.stake, percent);
      var burned :- SubSupply(l, cut);
      var counted :- SubStaked(burned, cut);
      Some(counted.(validators := Slashing.Put(l.validators, address, Slashing.Cut(v, committees, percent, p, height))))
  }

  /** The block reward: a cut for the DAO, and the same amount for every subsidized committee. */
  datatype BlockMint = BlockMint(daoCut: u64, perCommittee: u64)

  function MintStats(total: u64, daoPercent: nat, committees: nat): (m: BlockMint)
    requires committees > 0
  {
    var afterDao := Reduce(total, daoPercent);
    BlockMint(total - afterDao, Portion(afterDao, committees))
  }

  function Portion(n: u64, count: nat): (q: u64)
    requires count > 0
    ensures Cost(count, q) <= n
  {
    FloorFits(n, count);
    Floor(n, count)
  }

  function Cost(count: nat, each: nat): (cost: nat)
  {
    count * each
  }

  function MintEach(l: Ledger, chains: seq<nat>, amount: u64): (m: Ledger)
  {
    if chains == [] then l else MintToPool(MintEach(l, chains[..|chains| - 1], amount), chains[|chains| - 1], amount)
  }

  /** FundCommitteeRewardPools, with the halved block reward `total`. */
  function FundPools(l: Ledger, total: u64, daoPercent: nat, chains: seq<nat>): (m: Ledger)
  {
    if total == 0 || |chains| == 0 then l
    else
      var mint := MintStats(total, daoPercent, |chains|);
      MintEach(MintToPool(l, DAO_POOL, mint.daoCut), chains, mint.perCommittee)
  }

  // ---------------------------------------------------------------- reward distribution

  /** The full reward of one stub: its percent of the pool per sample, rounded down. */
  function FullReward(percent: u64, pool: u64, samples: u64): (reward: u64)
  {
    MulDiv(percent, pool, samples * 100)
  }

  /** DistributeCommitteeReward: compounding validators get the full reward as stake, all others the early one. */
  function PayStub(l: Ledger, stub: Stub, pool: u64, samples: u64, penalty: nat): (r: Option<(Ledger, u64)>)
  {
    var full := FullReward(stub.percent, pool, samples);
    var early := Reduce(full, penalty);
    if stub.address in l.validators then
      var v := l.validators[stub.address];
      if v.compound && v.unstaking == 0 then
        var staked :- AddStake(l, stub.address, full);
        Some((staked, full))
      else
        var paid :- AccountAdd(l, v.output, early);
        Some((paid, early))
    else
      var paid :- AccountAdd(l, stub.address, early);
      Some((paid, early))
  }

  function PayStubs(l: Ledger, stubs: seq<Stub>, pool: u64, samples: u64, penalty: nat): (r: Option<(Ledger, u64)>)
  {
    if stubs == [] then Some((l, 0))
    else
      var before :- PayStubs(l, stubs[..|stubs| - 1], pool, samples, penalty);
      PayNext(before.0, before.1, stubs[|stubs| - 1], pool, samples, penalty)
  }

  /** One stub more, added to the total paid so far. */
  function PayNext(l: Ledger, total: u64, stub: Stub, pool: u64, samples: u64, penalty: nat): (r: Option<(Ledger, u64)>)
  {
    var paid :- PayStub(l, stub, pool, samples, penalty);
    if total + paid.1 >= LIMIT then None else Some((paid.0, total + paid.1))
  }

  /** DistributeCommitteeRewards for one committee: what is not paid out of the pool is burned. */
  function Distribute(l: Ledger, chain: nat, c: Collected, penalty: nat): (r: Option<Ledger>)
  {
    if c.stubs == [] then Some(l)
    else
      var pool := Amount(l.pools, chain);
      var paid :- PayStubs(l, c.stubs, pool, c.samples, penalty);
      var burned :- SubSupply(paid.0, if paid.1 <= pool then pool - paid.1 else LIMIT + pool - paid.1);
      Some(burned.(pools := burned.pools[chain := 0]))
  }

  // ---------------------------------------------------------------- conservation

  ghost function Held(l: Ledger): (held: nat)
  {
    Total(l.accounts) + Total(l.pools) + Total(Stakes(l.validators))
  }

  /** Every token is somewhere, nothing else is, and the staked supply is what the validators have staked. */
  ghost predicate Balanced(l: Ledger)
  {
    Held(l) == l.supply && Total(Stakes(l.validators)) == l.staked
  }

  function StakeOf(l: Ledger, a: nat): (stake: u64)
  {
    if a in l.validators then l.validators[a].stake else 0
  }

  lemma AccountAddMoves(l: Ledger, a: nat, amount: u64)
    requires Held(l) < LIMIT
    ensures Held(l) + amount < LIMIT ==> AccountAdd(l, a, amount).Some?
    ensures AccountAdd(l, a, amount).Some? ==>
              var m := AccountAdd(l, a, amount).value;
              && Held(m) == Held(l) + amount && m == l.(accounts := m.accounts)
              && forall b :: Amount(m.accounts, b) == Amount(l.accounts, b) + if b == a then amount else 0
  {
    CreditedMoves(l.accounts, a, amount);
  }

  lemma AccountSubMoves(l: Ledger, a: nat, amount: u64, spendable: u64)
    requires AccountSub(l, a, amount, spendable).Some?
    ensures var m := AccountSub(l, a, amount, spendable).value;
            && Held(m) + amount == Held(l) && m == l.(accounts := m.accounts)
            && forall b :: Amount(m.accounts, b) + (if b == a then amount else 0) == Amount(l.accounts, b)
  {
    DebitedMoves(l.accounts, a, amount, spendable);
  }

  /** While everything fits in 64 bits, the unchecked addition to a pool is exact. */
  lemma PoolAddMoves(l: Ledger, id: nat, amount: u64)
    requires Held(l) + amount < LIMIT
    ensures var m := PoolAdd(l, id, amount);
            && Held(m) == Held(l) + amount && m == l.(pools := m.pools)
            && forall k :: Amount(m.pools, k) == Amount(l.pools, k) + if k == id then amount else 0
  {
    TotalUpdate(l.pools, id, Amount(l.pools, id));
    TotalUpdate(l.pools, id, Amount(l.pools, id) + amount);
  }

  lemma PoolSubMoves(l: Ledger, id: nat, amount: u64)
    requires PoolSub(l, id, amount).Some?
    ensures var m := PoolSub(l, id, amount).value;
            && Held(m) + amount == Held(l) && m == l.(pools := m.pools)
            && forall k :: Amount(m.pools, k) + (if k == id then amount else 0) == Amount(l.pools, k)
  {
    TotalUpdate(l.pools, id, Amount(l.pools, id) - amount);
  }

  lemma StakesUpdate(validators: map<nat, Validator>, a: nat, v: Validator)
    ensures Total(Stakes(validators[a := v])) + (if a in validators then validators[a].stake else 0)
            == Total(Stakes(validators)) + v.stake
    ensures (if a in validators then validators[a].stake else 0) <= Total(Stakes(validators))
  {
    TotalUpdate(Stakes(validators), a, v.stake);
    assert Stakes(validators[a := v]) == Stakes(validators)[a := v.stake];
  }

  lemma StakesRemove(validators: map<nat, Validator>, a: nat)
    requires a in validators
    ensures Total(Stakes(validators - {a})) + validators[a].stake == Total(Stakes(validators))
  {
    TotalAt(Stakes(validators), a);
    assert Stakes(validators - {a}) == Stakes(validators) - {a};
  }

  /** While everything fits in 64 bits, the unchecked addition to a stake is exact. */
  lemma AddStakeIsExact(l: Ledger, a: nat, amount: u64) returns (w: Validator)
    requires a in l.validators && Total(Stakes(l.validators)) == l.staked && l.staked + amount < LIMIT
    ensures w.stake == l.validators[a].stake + amount && w == l.validators[a].(stake := w.stake)
    ensures AddStake(l, a, amount) == Some(l.(validators := l.validators[a := w], staked := l.staked + amount))
  {
    var v := l.validators[a];
    StakesUpdate(l.validators, a, v);
    w := v.(stake := v.stake + amount);
  }

  lemma AddStakeMoves(l: Ledger, a: nat, amount: u64)
    requires a in l.validators && Total(Stakes(l.validators)) == l.staked && l.staked + amount < LIMIT
    ensures AddStake(l, a, amount).Some?
    ensures var m := AddStake(l, a, amount).value;
            && Held(m) == Held(l) + amount && Total(Stakes(m.validators)) == m.staked
            && m == l.(validators := l.validators[a := l.validators[a].(stake := StakeOf(m, a))], staked := l.staked + amount)
            && forall b :: StakeOf(m, b) == StakeOf(l, b) + if b == a then amount else 0
  {
    var w := AddStakeIsExact(l, a, amount);
    StakesUpdate(l.validators, a, w);
    StakeOfUpdate(l, a, w);
  }

  lemma StakeOfUpdate(l: Ledger, a: nat, w: Validator)
    ensures forall m: Ledger, b: nat :: m.validators == l.validators[a := w] ==> StakeOf(m, b) == if b == a then w.stake else StakeOf(l, b)
  {
  }

  // ---------------------------------------------------------------- each operation

  /** Exactly these amounts leave and reach accounts; every other account keeps what it has. */
  ghost predicate Transfers(before: map<nat, u64>, after: map<nat, u64>, from: nat, out: nat, to: nat, back: nat)
  {
    forall k :: Amount(after, k) + (if k == from then out else 0) == Amount(before, k) + if k == to then back else 0
  }

  /** The account can be charged: the amount is spendable, or there is nothing to pay. */
  predicate Affords(l: Ledger, a: nat, amount: u64, spendable: u64)
  {
    amount == 0 || (amount <= spendable && amount <= Amount(l.accounts, a))
  }

  lemma PayInConserves(l: Ledger, a: nat, id: nat, amount: u64, spendable: u64)
    requires Balanced(l)
    ensures PayIn(l, a, id, amount, spendable).Some? <==> Affords(l, a, amount, spendable)
    ensures PayIn(l, a, id, amount, spendable).Some? ==>
            var m := PayIn(l, a, id, amount, spendable).value;
            && Balanced(m) && m == l.(accounts := m.accounts, pools := m.pools)
            && Transfers(l.accounts, m.accounts, a, amount, a, 0) && Transfers(l.pools, m.pools, id, 0, id, amount)
  {
    if Affords(l, a, amount, spendable) {
      AccountSubMoves(l, a, amount, spendable);
      PoolAddMoves(AccountSub(l, a, amount, spendable).value, id, amount);
    }
  }

  /** A payout never fails for the receiving account: it depends only on the pool. */
  lemma PayOutConserves(l: Ledger, id: nat, a: nat, amount: u64)
    requires Balanced(l)
    ensures PayOut(l, id, a, amount).Some? <==> amount <= Amount(l.pools, id)
    ensures PayOut(l, id, a, amount).Some? ==>
              var m := PayOut(l, id, a, amount).value;
              && Balanced(m) && m == l.(accounts := m.accounts, pools := m.pools)
              && Transfers(l.pools, m.pools, id, amount, id, 0) && Transfers(l.accounts, m.accounts, a, 0, a, amount)
  {
    if amount <= Amount(l.pools, id) {
      PoolSubMoves(l, id, amount);
      AccountAddMoves(PoolSub(l, id, amount).value, a, amount);
    }
  }

  lemma SendConserves(l: Ledger, from: nat, to: nat, amount: u64, spendable: u64)
    requires Balanced(l)
    ensures Send(l, from, to, amount, spendable).Some? <==> Affords(l, from, amount, spendable)
    ensures Send(l, from, to, amount, spendable).Some? ==>
            var m := Send(l, from, to, amount, spendable).value;
            && Balanced(m) && m == l.(accounts := m.accounts)
            && Transfers(l.accounts, m.accounts, from, amount, to, amount)
  {
    if Affords(l, from, amount, spendable) {
      AccountSubMoves(l, from, amount, spendable);
      AccountAddMoves(AccountSub(l, from, amount, spendable).value, to, amount);
    }
  }

  lemma StakeConserves(l: Ledger, signer: nat, address: nat, v: Validator, spendable: u64)
    requires Balanced(l)
    ensures Stake(l, signer, address, v, spendable).Some? <==> address !in l.validators && Affords(l, signer, v.stake, spendable)
    ensures Stake(l, signer, address, v, spendable).Some? ==>
            var m := Stake(l, signer, address, v, spendable).value;
            && Balanced(m) && StakeOf(l, address) == 0 && StakeOf(m, address) == v.stake
            && m.validators == l.validators[address := v] && m.pools == l.pools && m.supply == l.supply
            && Transfers(l.accounts, m.accounts, signer, v.stake, signer, 0)
  {
    if Affords(l, signer, v.stake, spendable) {
      AccountSubMoves(l, signer, v.stake, spendable);
      StakesUpdate(l.validators, address, v);
    }
  }

  /** What an account is charged for goes into a validator's stake. */
  lemma ChargedStake(l: Ledger, signer: nat, address: nat, added: u64, spendable: u64)
    requires Balanced(l) && address in l.validators && Affords(l, signer, added, spendable)
    ensures var paid := AccountSub(l, signer, added, spendable);
            && paid.Some? && AddStake(paid.value, address, added).Some?
            && var m := AddStake(paid.value, address, added).value;
               && Balanced(m) && m.pools == l.pools && m.supply == l.supply && StakeOf(m, address) == StakeOf(l, address) + added
               && m.validators == l.validators[address := l.validators[address].(stake := StakeOf(m, address))]
               && Transfers(l.accounts, m.accounts, signer, added, signer, 0)
  {
    AccountSubMoves(l, signer, added, spendable);
    AddStakeMoves(AccountSub(l, signer, added, spendable).value, address, added);
  }

  lemma EditStakeConserves(l: Ledger, signer: nat, address: nat, amount: u64, spendable: u64)
    requires Balanced(l)
    ensures EditStake(l, signer, address, amount, spendable).Some? <==>
              && address in l.validators && l.validators[address].unstaking == 0
              && (amount <= StakeOf(l, address) || Affords(l, signer, amount - StakeOf(l, address), spendable))
    ensures EditStake(l, signer, address, amount, spendable).Some? ==>
            var m := EditStake(l, signer, address, amount, spendable).value;
            && m.pools == l.pools && m.supply == l.supply
            && m.validators == l.validators[address := l.validators[address].(stake := StakeOf(m, address))]
            && Balanced(m) && StakeOf(m, address) == (if amount <= StakeOf(l, address) then StakeOf(l, address) else amount)
            && Transfers(l.accounts, m.accounts, signer, StakeOf(m, address) - StakeOf(l, address), signer, 0)
  {
    var added := if amount <= StakeOf(l, address) then 0 else amount - StakeOf(l, address);
    if address in l.validators && Affords(l, signer, added, spendable) {
      ChargedStake(l, signer, address, added, spendable);
    }
  }

  /** The account is credited before the stake is released; for the moment the tokens count twice. */
  lemma FinishUnstakingConserves(l: Ledger, address: nat)
    requires Balanced(l) && address in l.validators
    ensures FinishUnstaking(l, address).Some?
    ensures var m, v := FinishUnstaking(l, address).value, l.validators[address];
            && Balanced(m) && m.validators == l.validators - {address} && m.pools == l.pools && m.supply == l.supply
            && Transfers(l.accounts, m.accounts, v.output, 0, v.output, v.stake)
  {
    var v := l.validators[address];
    StakesRemove(l.validators, address);
    TotalUpdate(l.accounts, v.output, Amount(l.accounts, v.output));
    AccountAddMoves(l, v.output, v.stake);
  }

  lemma MintToPoolConserves(l: Ledger, id: nat, amount: u64)
    requires Balanced(l) && l.supply + amount < LIMIT
    ensures var m := MintToPool(l, id, amount);
            && Balanced(m) && m.supply == l.supply + amount && m == l.(pools := m.pools, supply := m.supply)
            && Transfers(l.pools, m.pools, id, 0, id, amount)
  {
    PoolAddMoves(AddSupply(l, amount), id, amount);
  }

  lemma MintToAccountConserves(l: Ledger, a: nat, amount: u64)
    requires Balanced(l) && l.supply + amount < LIMIT
    ensures MintToAccount(l, a, amount).Some?
    ensures var m := MintToAccount(l, a, amount).value;
            && Balanced(m) && m.supply == l.supply + amount && m == l.(accounts := m.accounts, supply := m.supply)
            && Transfers(l.accounts, m.accounts, a, 0, a, amount)
  {
    AccountAddMoves(AddSupply(l, amount), a, amount);
  }

  lemma DaoTransferConserves(l: Ledger, to: nat, amount: u64, mint: bool)
    requires Balanced(l) && (mint ==> l.supply + amount < LIMIT)
    ensures DaoTransfer(l, to, amount, mint).Some? <==> mint || amount <= Amount(l.pools, DAO_POOL)
    ensures DaoTransfer(l, to, amount, mint).Some? ==>
              var m := DaoTransfer(l, to, amount, mint).value;
              && Balanced(m) && m.supply == l.supply + (if mint then amount else 0) && m.validators == l.validators
              && Transfers(l.accounts, m.accounts, to, 0, to, amount)
              && Transfers(l.pools, m.pools, DAO_POOL, if mint then 0 else amount, DAO_POOL, 0)
  {
    var m := if mint then MintToPool(l, DAO_POOL, amount) else l;
    if mint {
      MintToPoolConserves(l, DAO_POOL, amount);
    }
    PayOutConserves(m, DAO_POOL, to, amount);
  }

  /** A slash always finds enough supply to burn. */
  lemma SlashConserves(l: Ledger, address: nat, committees: seq<nat>, percent: nat, p: Slashing.Params, height: nat)
    requires Balanced(l)
    ensures Slash(l, address, committees, percent, p, height).Some?
    ensures var m := Slash(l, address, committees, percent, p, height).value;
            && Balanced(m) && m.accounts == l.accounts && m.pools == l.pools
            && m.supply + (StakeOf(l, address) - StakeOf(m, address)) == l.supply
            && IsLeft(StakeOf(m, address), StakeOf(l, address), percent)
            && forall b :: b != address ==> StakeOf(m, b) == StakeOf(l, b)
  {
    if address in l.validators {
      var v := l.validators[address];
      ReduceIsLeft(v.stake, percent);
      var w := Slashing.Cut(v, committees, percent, p, height);
      StakesRemove(l.validators, address);
      if w.Some? {
        StakesUpdate(l.validators, address, w.value);
      }
    }
  }

  lemma {:induction false} MintEachConserves(l: Ledger, chains: seq<nat>, amount: u64)
    requires Balanced(l) && l.supply + Cost(|chains|, amount) < LIMIT
    ensures Balanced(MintEach(l, chains, amount)) && MintEach(l, chains, amount).supply == l.supply + Cost(|chains|, amount)
    ensures var m := MintEach(l, chains, amount);
            && m == l.(pools := m.pools, supply := m.supply)
            && forall id :: Amount(m.pools, id) == Amount(l.pools, id) + Cost(multiset(chains)[id], amount)
  {
    if chains != [] {
      var n := |chains| - 1;
      CostStep(n, amount);
      MintEachConserves(l, chains[..n], amount);
      var m := MintEach(l, chains[..n], amount);
      MintToPoolConserves(m, chains[n], amount);
      forall id ensures Amount(MintEach(l, chains, amount).pools, id) == Amount(l.pools, id) + Cost(multiset(chains)[id], amount) {
        CountStep(chains, id, amount);
      }
    } else {
      assert Cost(0, amount) == 0;
    }
  }

  lemma CostStep(n: nat, amount: nat)
    ensures Cost(n + 1, amount) == Cost(n, amount) + amount
  {
  }

  lemma CountStep(chains: seq<nat>, id: nat, amount: nat)
    requires chains != []
    ensures var n := |chains| - 1;
            Cost(multiset(chains)[id], amount) == Cost(multiset(chains[..n])[id], amount) + if chains[n] == id then amount else 0
  {
    var n := |chains| - 1;
    assert chains == chains[..n] + [chains[n]];
    CostStep(multiset(chains[..n])[id], amount);
  }

  /** The committees' amount is the largest that all of them can be given. */
  lemma PortionIsLargest(n: u64, count: nat)
    requires count > 0
    ensures Cost(count, Portion(n, count)) <= n < Cost(count, Portion(n, count) + 1)
  {
    DivFacts(n, count);
  }

  /**
   * BLOCK REWARD: of the halved amount the DAO gets its percentage rounded up, every subsidized committee the
   * largest amount that the rest covers for all of them, and exactly that much is minted.
   */
  lemma FundPoolsExact(l: Ledger, total: u64, daoPercent: nat, chains: seq<nat>) returns (rest: nat, each: nat)
    requires Balanced(l) && l.supply + total < LIMIT
    ensures var m := FundPools(l, total, daoPercent, chains);
            && Balanced(m)
            && (total == 0 || chains == [] ==> m == l)
            && (total > 0 && chains != [] ==>
                  && IsLeft(rest, total, daoPercent) && rest <= total
                  && Cost(|chains|, each) <= rest < Cost(|chains|, each + 1)
                  && m == l.(pools := m.pools, supply := m.supply)
                  && m.supply == l.supply + (total - rest) + Cost(|chains|, each)
                  && forall id :: Amount(m.pools, id)
                       == Amount(l.pools, id) + Cost(multiset(chains)[id], each) + if id == DAO_POOL then total - rest else 0)
  {
    rest, each := Reduce(total, daoPercent), 0;
    if total > 0 && |chains| > 0 {
      each := Portion(rest, |chains|);
      ReduceIsLeft(total, daoPercent);
      PortionIsLargest(rest, |chains|);
      MintAmounts(l, total - rest, chains, each);
    }
  }

  /** A cut for the DAO, then the same amount for each chain. */
  lemma MintAmounts(l: Ledger, cut: u64, chains: seq<nat>, each: u64)
    requires Balanced(l) && l.supply + cut + Cost(|chains|, each) < LIMIT
    ensures var m := MintEach(MintToPool(l, DAO_POOL, cut), chains, each);
            && Balanced(m) && m == l.(pools := m.pools, supply := m.supply) && m.supply == l.supply + cut + Cost(|chains|, each)
            && forall id :: Amount(m.pools, id)
                 == Amount(l.pools, id) + Cost(multiset(chains)[id], each) + if id == DAO_POOL then cut else 0
  {
    MintToPoolConserves(l, DAO_POOL, cut);
    MintEachConserves(MintToPool(l, DAO_POOL, cut), chains, each);
  }

  /** The block reward never mints more than the halved amount; what does not divide evenly is not minted. */
  lemma FundPoolsConserves(l: Ledger, total: u64, daoPercent: nat, chains: seq<nat>)
    requires Balanced(l) && l.supply + total < LIMIT
    ensures var m := FundPools(l, total, daoPercent, chains); Balanced(m) && l.supply <= m.supply <= l.supply + total
  {
    var rest, each := FundPoolsExact(l, total, daoPercent, chains);
  }

  // ---------------------------------------------------------------- rewards stay within the pool

  /** A payout of at most its percentage: paid * (100 samples) <= percents * pool. */
  predicate WithinShare(paid: nat, percents: nat, pool: nat, samples: nat)
  {
    paid * (samples * 100) <= percents * pool
  }

  lemma ShareAdds(paid: nat, percents: nat, pool: u64, samples: u64, more: nat, percent: u64)
    requires WithinShare(paid, percents, pool, samples) && more <= FullReward(percent, pool, samples)
    ensures WithinShare(paid + more, percents + percent, pool, samples)
  {
    MulDivBound(percent, pool, samples * 100);
    MulMonotone(more, FullReward(percent, pool, samples), samples * 100);
    assert (paid + more) * (samples * 100) == paid * (samples * 100) + more * (samples * 100);
    assert (percents + percent) * pool == percents * pool + percent * pool;
  }

  /** The full reward is the stub's exact part of the pool, less than one token below it. */
  lemma FullRewardIsItsShare(percent: u64, pool: u64, samples: u64, q: nat)
    requires samples > 0 && percent <= samples * 100
    ensures q <= FullReward(percent, pool, samples) <==> WithinShare(q, percent, pool, samples)
  {
    QuotientIsLargest(percent * pool, samples * 100, q);
    QuotientIsLargest(percent * pool, samples * 100, pool + 1);
    MulMonotone(percent, samples * 100, pool);
    RewardFitsPool(percent, pool, samples * 100);
  }

  lemma RewardFitsPool(percent: nat, pool: u64, d: nat)
    requires d > 0 && percent <= d
    ensures Floor(percent * pool, d) <= pool && MulDiv(percent, pool, d) == Floor(percent * pool, d)
  {
    MulMonotone(percent, d, pool);
    DivFacts(percent * pool, d);
    MulCancel(Floor(percent * pool, d), pool, d);
  }

  /** `full` is the largest amount within the stub's percent of the pool per sample. */
  predicate IsFullReward(full: nat, percent: nat, pool: nat, samples: nat)
  {
    if samples == 0 then full == 0 else WithinShare(full, percent, pool, samples) && !WithinShare(full + 1, percent, pool, samples)
  }

  /**
   * One stub's payment: compounded into a validator's own stake in full, or less the early penalty to the
   * validator's output address, or to the address itself if it is no validator.
   */
  ghost predicate StubPaid(l: Ledger, m: Ledger, stub: Stub, pool: u64, samples: u64, penalty: nat, full: nat, paid: nat)
  {
    && IsFullReward(full, stub.percent, pool, samples)
    && m.pools == l.pools && m.supply == l.supply
    && if stub.address in l.validators && l.validators[stub.address].compound && l.validators[stub.address].unstaking == 0
       then
         && paid == full && m.accounts == l.accounts
         && m.validators == l.validators[stub.address := l.validators[stub.address].(stake := StakeOf(m, stub.address))]
         && StakeOf(m, stub.address) == StakeOf(l, stub.address) + full
       else
         && IsLeft(paid, full, penalty) && m.validators == l.validators
         && var to := if stub.address in l.validators then l.validators[stub.address].output else stub.address;
            Transfers(l.accounts, m.accounts, to, 0, to, paid)
  }

  lemma FullRewardIs(percent: u64, pool: u64, samples: u64)
    requires percent <= samples * 100
    ensures IsFullReward(FullReward(percent, pool, samples), percent, pool, samples)
  {
    if samples > 0 {
      var full: nat := FullReward(percent, pool, samples);
      FullRewardIsItsShare(percent, pool, samples, full);
      FullRewardIsItsShare(percent, pool, samples, full + 1);
    }
  }

  /** A stub is paid its reward, to the right place. */
  lemma StubPaysItsRecipient(l: Ledger, stub: Stub, pool: u64, samples: u64, penalty: nat) returns (full: nat)
    requires PayStub(l, stub, pool, samples, penalty).Some? && stub.percent <= samples * 100
    requires Total(Stakes(l.validators)) == l.staked && l.staked + FullReward(stub.percent, pool, samples) < LIMIT
    ensures var (m, paid) := PayStub(l, stub, pool, samples, penalty).value;
            StubPaid(l, m, stub, pool, samples, penalty, full, paid)
  {
    full := FullReward(stub.percent, pool, samples);
    FullRewardIs(stub.percent, pool, samples);
    StubPaysAmount(l, stub, pool, samples, penalty, full);
  }

  lemma StubPaysAmount(l: Ledger, stub: Stub, pool: u64, samples: u64, penalty: nat, full: u64)
    requires PayStub(l, stub, pool, samples, penalty).Some? && full == FullReward(stub.percent, pool, samples)
    requires IsFullReward(full, stub.percent, pool, samples)
    requires Total(Stakes(l.validators)) == l.staked && l.staked + full < LIMIT
    ensures var (m, paid) := PayStub(l, stub, pool, samples, penalty).value;
            StubPaid(l, m, stub, pool, samples, penalty, full, paid)
  {
    if stub.address in l.validators && l.validators[stub.address].compound && l.validators[stub.address].unstaking == 0 {
      AddStakeMoves(l, stub.address, full);
    } else {
      var to := if stub.address in l.validators then l.validators[stub.address].output else stub.address;
      ReduceIsLeft(full, penalty);
      AccountAddTo(l, to, Reduce(full, penalty));
    }
  }

  lemma AccountAddTo(l: Ledger, a: nat, amount: u64)
    requires AccountAdd(l, a, amount).Some?
    ensures var m := AccountAdd(l, a, amount).value;
            m == l.(accounts := m.accounts) && Transfers(l.accounts, m.accounts, a, 0, a, amount)
  {
  }

  lemma ShareFits(paid: nat, percents: nat, pool: u64, samples: u64)
    requires WithinShare(paid, percents, pool, samples) && percents <= samples * 100 && samples > 0
    ensures paid <= pool
  {
    MulMonotone(percents, samples * 100, pool);
    MulCancel(paid, pool, samples * 100);
  }

  lemma {:induction false} SumPercentsLast(stubs: seq<Stub>)
    requires stubs != []
    ensures SumPercents(stubs) == SumPercents(stubs[..|stubs| - 1]) + stubs[|stubs| - 1].percent
  {
    if |stubs| > 1 {
      SumPercentsLast(stubs[1..]);
      assert stubs[..|stubs| - 1][1..] == stubs[1..][..|stubs| - 2];
    }
  }

  /** What the payouts so far have done: the pool is untouched and covers them once more. */
  ghost predicate PaidOut(l: Ledger, m: Ledger, id: nat, total: nat, percents: nat, samples: u64)
  {
    && m.pools == l.pools && m.supply == l.supply && Held(m) == Held(l) + total
    && Total(Stakes(m.validators)) == m.staked
    && total <= Amount(l.pools, id) && WithinShare(total, percents, Amount(l.pools, id), samples)
  }

  /** One more stub still fits in the pool, at the full reward and at the early one. */
  lemma NextStubFits(total: nat, percents: nat, pool: u64, samples: u64, percent: u64, penalty: nat)
    requires total <= pool && WithinShare(total, percents, pool, samples) && percents + percent <= samples * 100
    ensures var full := FullReward(percent, pool, samples);
            && total + full <= pool
            && WithinShare(total + full, percents + percent, pool, samples)
            && WithinShare(total + Reduce(full, penalty), percents + percent, pool, samples)
  {
    var full := FullReward(percent, pool, samples);
    ShareAdds(total, percents, pool, samples, full, percent);
    ShareAdds(total, percents, pool, samples, Reduce(full, penalty), percent);
    if samples > 0 {
      ShareFits(total + full, percents + percent, pool, samples);
    }
  }

  lemma PayNextMoves(l: Ledger, m: Ledger, id: nat, total: u64, percents: nat, c: Collected, stub: Stub, penalty: nat)
    requires Balanced(l) && PaidOut(l, m, id, total, percents, c.samples)
    requires percents + stub.percent <= c.samples * 100
    ensures PayNext(m, total, stub, Amount(l.pools, id), c.samples, penalty).Some?
    ensures var (n, total') := PayNext(m, total, stub, Amount(l.pools, id), c.samples, penalty).value;
            PaidOut(l, n, id, total', percents + stub.percent, c.samples)
  {
    PayStubMoves(l, m, id, total, percents, c, stub, penalty);
  }

  lemma PayStubMoves(l: Ledger, m: Ledger, id: nat, total: nat, percents: nat, c: Collected, stub: Stub, penalty: nat)
    requires Balanced(l) && PaidOut(l, m, id, total, percents, c.samples)
    requires percents + stub.percent <= c.samples * 100
    ensures PayStub(m, stub, Amount(l.pools, id), c.samples, penalty).Some?
    ensures var (n, paid) := PayStub(m, stub, Amount(l.pools, id), c.samples, penalty).value;
            PaidOut(l, n, id, total + paid, percents + stub.percent, c.samples)
  {
    NextStubFits(total, percents, Amount(l.pools, id), c.samples, stub.percent, penalty);
    TotalUpdate(l.pools, id, Amount(l.pools, id));
    PayStubWithin(m, stub, Amount(l.pools, id), c.samples, penalty, Amount(l.pools, id) - total);
  }

  /** A stub whose full reward the pool still covers is paid, wherever it goes. */
  lemma PayStubWithin(m: Ledger, stub: Stub, pool: u64, samples: u64, penalty: nat, room: nat)
    requires FullReward(stub.percent, pool, samples) <= room
    requires Total(Stakes(m.validators)) == m.staked && m.staked + room < LIMIT && Total(m.accounts) + room < LIMIT
    ensures PayStub(m, stub, pool, samples, penalty).Some?
    ensures var (n, paid) := PayStub(m, stub, pool, samples, penalty).value;
            && Held(n) == Held(m) + paid && n.pools == m.pools && n.supply == m.supply
            && Total(Stakes(n.validators)) == n.staked
            && (paid == FullReward(stub.percent, pool, samples) || paid == Reduce(FullReward(stub.percent, pool, samples), penalty))
  {
    var full := FullReward(stub.percent, pool, samples);
    if stub.address in m.validators && m.validators[stub.address].compound && m.validators[stub.address].unstaking == 0 {
      CompoundAgainstPool(m, stub.address, full, room);
    } else {
      var to := if stub.address in m.validators then m.validators[stub.address].output else stub.address;
      CreditAgainstPool(m, to, Reduce(full, penalty), room);
    }
  }

  lemma CompoundAgainstPool(m: Ledger, a: nat, amount: u64, room: nat)
    requires a in m.validators && amount <= room && Total(Stakes(m.validators)) == m.staked && m.staked + room < LIMIT
    ensures AddStake(m, a, amount).Some?
    ensures var n := AddStake(m, a, amount).value;
            && Held(n) == Held(m) + amount && n.pools == m.pools && n.supply == m.supply
            && Total(Stakes(n.validators)) == n.staked
  {
    AddStakeMoves(m, a, amount);
  }

  /** An account credit that a pool still covers cannot overflow. */
  lemma CreditAgainstPool(m: Ledger, a: nat, amount: u64, room: nat)
    requires amount <= room && Total(m.accounts) + room < LIMIT
    ensures AccountAdd(m, a, amount).Some?
    ensures var n := AccountAdd(m, a, amount).value; Held(n) == Held(m) + amount && n == m.(accounts := n.accounts)
  {
    CreditedMoves(m.accounts, a, amount);
  }

  lemma {:induction false} PayStubsMove(l: Ledger, chain: nat, c: Collected, stubs: seq<Stub>, penalty: nat)
    requires Balanced(l) && SumPercents(stubs) <= c.samples * 100
    ensures PayStubs(l, stubs, Amount(l.pools, chain), c.samples, penalty).Some?
    ensures var (m, total) := PayStubs(l, stubs, Amount(l.pools, chain), c.samples, penalty).value;
            PaidOut(l, m, chain, total, SumPercents(stubs), c.samples)
  {
    var pool := Amount(l.pools, chain);
    if stubs == [] {
      NothingPaid(l, chain, c.samples);
    } else {
      var init, last := stubs[..|stubs| - 1], stubs[|stubs| - 1];
      SumPercentsLast(stubs);
      PayStubsMove(l, chain, c, init, penalty);
      var (m, total) := PayStubs(l, init, pool, c.samples, penalty).value;
      PayNextMoves(l, m, chain, total, SumPercents(init), c, last, penalty);
      assert PayStubs(l, stubs, pool, c.samples, penalty) == PayNext(m, total, last, pool, c.samples, penalty);
    }
  }

  lemma NothingPaid(l: Ledger, id: nat, samples: u64)
    requires Balanced(l)
    ensures PaidOut(l, l, id, 0, 0, samples)
  {
  }

  /**
   * REWARD POOL: with at most 100 percent per sample collected, distribution never fails; the payouts stay
   * within the pool, the pool is emptied, and the supply shrinks by exactly the part not paid out.
   */
  lemma DistributeConserves(l: Ledger, chain: nat, c: Collected, penalty: nat)
    requires Balanced(l) && Normal(c)
    ensures Distribute(l, chain, c, penalty).Some?
    ensures var m := Distribute(l, chain, c, penalty).value;
            && Balanced(m)
            && (c.stubs != [] ==>
                  && Amount(m.pools, chain) == 0
                  && (forall id :: id != chain ==> Amount(m.pools, id) == Amount(l.pools, id))
                  && var paid := Total(m.accounts) + Total(Stakes(m.validators)) - Total(l.accounts) - Total(Stakes(l.validators));
                     0 <= paid <= Amount(l.pools, chain) && m.supply == l.supply - (Amount(l.pools, chain) - paid))
  {
    if c.stubs != [] {
      PayStubsMove(l, chain, c, c.stubs, penalty);
      TotalUpdate(l.pools, chain, 0);
    }
  }

  /** The ledger before each stub and at the end, each stub's full reward, and what it is paid. */
  ghost predicate PaysInTurn(ledgers: seq<Ledger>, fulls: seq<nat>, paid: seq<nat>, stubs: seq<Stub>, pool: u64, samples: u64,
                             penalty: nat)
  {
    && |ledgers| == |stubs| + 1 && |fulls| == |paid| == |stubs|
    && forall i :: 0 <= i < |stubs| ==>
         StubPaid(ledgers[i], ledgers[i + 1], stubs[i], pool, samples, penalty, fulls[i], paid[i])
  }

  lemma {:induction false} StubsPayInTurn(l: Ledger, chain: nat, c: Collected, stubs: seq<Stub>, penalty: nat)
    returns (ledgers: seq<Ledger>, fulls: seq<nat>, paid: seq<nat>)
    requires Balanced(l) && SumPercents(stubs) <= c.samples * 100
    ensures PaysInTurn(ledgers, fulls, paid, stubs, Amount(l.pools, chain), c.samples, penalty) && ledgers[0] == l
    ensures SumOf(paid) < LIMIT
    ensures PayStubs(l, stubs, Amount(l.pools, chain), c.samples, penalty) == Some((ledgers[|stubs|], SumOf(paid)))
  {
    ledgers, fulls, paid := [l], [], [];
    if stubs != [] {
      var n := |stubs| - 1;
      SumPercentsLast(stubs);
      ledgers, fulls, paid := StubsPayInTurn(l, chain, c, stubs[..n], penalty);
      var next, full, last := LastPays(l, ledgers[n], chain, c, stubs, penalty, paid);
      ExtendsInTurn(ledgers, fulls, paid, stubs, Amount(l.pools, chain), c.samples, penalty, next, full, last);
      ledgers, fulls, paid := ledgers + [next], fulls + [full], paid + [last];
    }
  }

  lemma LastPays(l: Ledger, m: Ledger, chain: nat, c: Collected, stubs: seq<Stub>, penalty: nat, paid: seq<nat>)
    returns (next: Ledger, full: nat, last: nat)
    requires Balanced(l) && stubs != [] && SumPercents(stubs) <= c.samples * 100
    requires SumPercents(stubs) == SumPercents(stubs[..|stubs| - 1]) + stubs[|stubs| - 1].percent
    requires SumOf(paid) < LIMIT
    requires PayStubs(l, stubs[..|stubs| - 1], Amount(l.pools, chain), c.samples, penalty) == Some((m, SumOf(paid)))
    ensures StubPaid(m, next, stubs[|stubs| - 1], Amount(l.pools, chain), c.samples, penalty, full, last)
    ensures SumOf(paid + [last]) < LIMIT
    ensures PayStubs(l, stubs, Amount(l.pools, chain), c.samples, penalty) == Some((next, SumOf(paid + [last])))
  {
    var n := |stubs| - 1;
    PayStubsMove(l, chain, c, stubs[..n], penalty);
    next, full, last := NextPays(l, m, chain, SumOf(paid), SumPercents(stubs[..n]), c, stubs[n], penalty);
    PayStubsLast(l, stubs, Amount(l.pools, chain), c.samples, penalty, m, paid, next, last);
  }

  lemma PayStubsLast(l: Ledger, stubs: seq<Stub>, pool: u64, samples: u64, penalty: nat, m: Ledger, paid: seq<nat>,
                     next: Ledger, last: nat)
    requires stubs != [] && SumOf(paid) + last < LIMIT
    requires PayStubs(l, stubs[..|stubs| - 1], pool, samples, penalty) == Some((m, SumOf(paid)))
    requires PayNext(m, SumOf(paid), stubs[|stubs| - 1], pool, samples, penalty) == Some((next, SumOf(paid) + last))
    ensures SumOf(paid + [last]) == SumOf(paid) + last
    ensures PayStubs(l, stubs, pool, samples, penalty) == Some((next, SumOf(paid) + last))
  {
    assert (paid + [last])[..|paid|] == paid;
  }

  lemma NextPays(l: Ledger, m: Ledger, chain: nat, total: u64, percents: nat, c: Collected, stub: Stub, penalty: nat)
    returns (next: Ledger, full: nat, last: nat)
    requires Balanced(l) && PaidOut(l, m, chain, total, percents, c.samples) && percents + stub.percent <= c.samples * 100
    ensures StubPaid(m, next, stub, Amount(l.pools, chain), c.samples, penalty, full, last)
    ensures total + last < LIMIT
    ensures PayNext(m, total, stub, Amount(l.pools, chain), c.samples, penalty) == Some((next, total + last))
  {
    var pool := Amount(l.pools, chain);
    PayNextMoves(l, m, chain, total, percents, c, stub, penalty);
    NextStubFits(total, percents, pool, c.samples, stub.percent, penalty);
    StakesStayBelow(l, m, chain, total, percents, c.samples, FullReward(stub.percent, pool, c.samples));
    full := StubPaysItsRecipient(m, stub, pool, c.samples, penalty);
    next, last := PayStub(m, stub, pool, c.samples, penalty).value.0, PayStub(m, stub, pool, c.samples, penalty).value.1;
  }

  /** What the pool still covers fits on top of the stakes. */
  lemma StakesStayBelow(l: Ledger, m: Ledger, id: nat, total: nat, percents: nat, samples: u64, more: nat)
    requires Balanced(l) && PaidOut(l, m, id, total, percents, samples) && total + more <= Amount(l.pools, id)
    ensures m.staked + more < LIMIT
  {
    TotalUpdate(l.pools, id, Amount(l.pools, id));
  }

  lemma ExtendsInTurn(ledgers: seq<Ledger>, fulls: seq<nat>, paid: seq<nat>, stubs: seq<Stub>, pool: u64, samples: u64,
                      penalty: nat, next: Ledger, full: nat, last: nat)
    requires stubs != [] && PaysInTurn(ledgers, fulls, paid, stubs[..|stubs| - 1], pool, samples, penalty)
    requires StubPaid(ledgers[|stubs| - 1], next, stubs[|stubs| - 1], pool, samples, penalty, full, last)
    ensures PaysInTurn(ledgers + [next], fulls + [full], paid + [last], stubs, pool, samples, penalty)
  {
    forall i | 0 <= i < |stubs|
      ensures StubPaid((ledgers + [next])[i], (ledgers + [next])[i + 1], stubs[i], pool, samples, penalty,
                       (fulls + [full])[i], (paid + [last])[i]) {
      if i < |stubs| - 1 {
        assert stubs[..|stubs| - 1][i] == stubs[i];
      }
    }
  }

  /**
   * DISTRIBUTION: the stubs are paid one after the other, each its reward from the pool as it stood at the
   * start; then the pool is empty, and what the payments left of it leaves the supply.
   */
  lemma DistributionPays(l: Ledger, chain: nat, c: Collected, penalty: nat)
    returns (ledgers: seq<Ledger>, fulls: seq<nat>, paid: seq<nat>)
    requires Balanced(l) && Normal(c) && c.stubs != []
    ensures PaysInTurn(ledgers, fulls, paid, c.stubs, Amount(l.pools, chain), c.samples, penalty) && ledgers[0] == l
    ensures SumOf(paid) <= Amount(l.pools, chain) <= l.supply
    ensures Distribute(l, chain, c, penalty)
            == Some(ledgers[|c.stubs|].(pools := l.pools[chain := 0], supply := l.supply - (Amount(l.pools, chain) - SumOf(paid))))
  {
    ledgers, fulls, paid := StubsPayInTurn(l, chain, c, c.stubs, penalty);
    PayStubsMove(l, chain, c, c.stubs, penalty);
    TotalUpdate(l.pools, chain, Amount(l.pools, chain));
  }

  // ---------------------------------------------------------------- runs

  datatype Event =
    | Pays(a: nat, id: nat, amount: u64, spendable: u64)
    | Receives(id: nat, a: nat, amount: u64)
    | Sends(from: nat, to: nat, amount: u64, spendable: u64)
    | NewStake(signer: nat, address: nat, validator: Validator, spendable: u64)
    | EditsStake(signer: nat, address: nat, amount: u64, spendable: u64)
    | Unstakes(address: nat)
    | Faucet(a: nat, amount: u64)
    | Dao(to: nat, amount: u64, mint: bool)
    | Slashes(address: nat, committees: seq<nat>, percent: nat, p: Slashing.Params, height: nat)
    | BlockReward(total: u64, daoPercent: nat, chains: seq<nat>)
    | Distribution(chain: nat, collected: Collected, penalty: nat)
    | Exchange(accounts: map<nat, u64>, pools: map<nat, u64>)

  function Or(r: Option<Ledger>, l: Ledger): (m: Ledger)
  {
    if r.None? then l else r.value
  }

  /** A failed operation changes nothing. */
  function Step(l: Ledger, e: Event): (m: Ledger)
  {
    match e
    case Pays(a, id, amount, spendable) => Or(PayIn(l, a, id, amount, spendable), l)
    case Receives(id, a, amount) => Or(PayOut(l, id, a, amount), l)
    case Sends(from, to, amount, spendable) => Or(Send(l, from, to, amount, spendable), l)
    case NewStake(signer, address, v, spendable) => Or(Stake(l, signer, address, v, spendable), l)
    case EditsStake(signer, address, amount, spendable) => Or(EditStake(l, signer, address, amount, spendable), l)
    case Unstakes(address) => Or(FinishUnstaking(l, address), l)
    case Faucet(a, amount) => Or(MintToAccount(l, a, amount), l)
    case Dao(to, amount, mint) => Or(DaoTransfer(l, to, amount, mint), l)
    case Slashes(address, committees, percent, p, height) => Or(Slash(l, address, committees, percent, p, height), l)
    case BlockReward(total, daoPercent, chains) => FundPools(l, total, daoPercent, chains)
    case Distribution(chain, c, penalty) => Or(Distribute(l, chain, c, penalty), l)
    case Exchange(accounts, pools) => l.(accounts := accounts, pools := pools)
  }

  /** The most an event can mint. */
  function Minted(e: Event): (amount: nat)
  {
    match e
    case Faucet(_, amount) => amount
    case Dao(_, amount, mint) => if mint then amount else 0
    case BlockReward(total, _, _) => total
    case _ => 0
  }

  /**
   * Minting stays below 2^64, stubs are at most 100 percent per sample, and an exchange step keeps the tokens
   * of accounts and pools, as the exchange's own theorem says.
   */
  ghost predicate Allowed(l: Ledger, e: Event)
  {
    && l.supply + Minted(e) < LIMIT
    && (e.Distribution? ==> Normal(e.collected))
    && (e.Exchange? ==> Total(e.accounts) + Total(e.pools) == Total(l.accounts) + Total(l.pools))
  }

  lemma StepConserves(l: Ledger, e: Event)
    requires Balanced(l) && Allowed(l, e)
    ensures Balanced(Step(l, e))
  {
    match e
    case Pays(a, id, amount, spendable) =>
      if PayIn(l, a, id, amount, spendable).Some? {
        PayInConserves(l, a, id, amount, spendable);
      }
    case Receives(id, a, amount) => PayOutConserves(l, id, a, amount);
    case Sends(from, to, amount, spendable) =>
      if Send(l, from, to, amount, spendable).Some? {
        SendConserves(l, from, to, amount, spendable);
      }
    case NewStake(signer, address, v, spendable) =>
      if Stake(l, signer, address, v, spendable).Some? {
        StakeConserves(l, signer, address, v, spendable);
      }
    case EditsStake(signer, address, amount, spendable) =>
      if EditStake(l, signer, address, amount, spendable).Some? {
        EditStakeConserves(l, signer, address, amount, spendable);
      }
    case Unstakes(address) =>
      if address in l.validators {
        FinishUnstakingConserves(l, address);
      }
    case Faucet(a, amount) => MintToAccountConserves(l, a, amount);
    case Dao(to, amount, mint) => DaoTransferConserves(l, to, amount, mint);
    case Slashes(address, committees, percent, p, height) => SlashConserves(l, address, committees, percent, p, height);
    case BlockReward(total, daoPercent, chains) => FundPoolsConserves(l, total, daoPercent, chains);
    case Distribution(chain, c, penalty) => DistributeConserves(l, chain, c, penalty);
    case Exchange(_, _) =>
  }

  ghost predicate IsRun(states: seq<Ledger>, events: seq<Event>)
  {
    && |states| == |events| + 1
    && forall i :: 0 <= i < |events| ==> Allowed(states[i], events[i]) && states[i + 1] == Step(states[i], events[i])
  }

  /** CONSERVATION: in every state of every run, accounts, pools and stakes add up to the tracked total supply. */
  lemma {:induction false} TokensAreConserved(states: seq<Ledger>, events: seq<Event>, i: nat)
    requires IsRun(states, events) && Balanced(states[0]) && i < |states|
    ensures Balanced(states[i])
  {
    if i > 0 {
      TokensAreConserved(states, events, i - 1);
      StepConserves(states[i - 1], events[i - 1]);
    }
  }
}
