/** The token operations as the state machine runs them, one write after the other. */
module TokenMachine {
  import opened Options
  import opened Uint64
  import opened Balances
  import opened Staking
  import opened Rewards
  import opened TokenLedger
  import Slashing

  /** On failure an operation leaves its writes behind; the enclosing transaction drops them. */
  class Tokens {
    var accounts: map<nat, u64>
    var pools: map<nat, u64>
    var validators: map<nat, Validator>
    var supply: u64
    var staked: u64

    function State(): (l: Ledger)
      reads this
    {
      Ledger(accounts, pools, validators, supply, staked)
    }

    constructor (l: Ledger)
      ensures State() == l
    {
      accounts, pools, validators, supply, staked := l.accounts, l.pools, l.validators, l.supply, l.staked;
    }

    method AccountAdd(a: nat, amount: u64) returns (ok: bool)
      modifies this`accounts
      ensures ok <==> TokenLedger.AccountAdd(old(State()), a, amount).Some?
      ensures State() == if ok then TokenLedger.AccountAdd(old(State()), a, amount).value else old(State())
    {
      if amount == 0 {
        return true;
      }
      var balance := Amount(accounts, a);
      if balance > LIMIT - 1 - amount {
        return false;
      }
      accounts := accounts[a := balance + amount];
      return true;
    }

    method AccountSub(a: nat, amount: u64, spendable: u64) returns (ok: bool)
      requires spendable <= Amount(accounts, a)
      modifies this`accounts
      ensures ok <==> TokenLedger.AccountSub(old(State()), a, amount, spendable).Some?
      ensures State() == if ok then TokenLedger.AccountSub(old(State()), a, amount, spendable).value else old(State())
    {
      if amount == 0 {
        return true;
      }
      if spendable < amount {
        return false;
      }
      accounts := accounts[a := Amount(accounts, a) - amount];
      return true;
    }

    method PoolAdd(id: nat, amount: u64)
      modifies this`pools
      ensures State() == TokenLedger.PoolAdd(old(State()), id, amount)
    {
      pools := pools[id := (Amount(pools, id) + amount) % LIMIT];
    }

    method PoolSub(id: nat, amount: u64) returns (ok: bool)
      modifies this`pools
      ensures ok <==> TokenLedger.PoolSub(old(State()), id, amount).Some?
      ensures State() == if ok then TokenLedger.PoolSub(old(State()), id, amount).value else old(State())
    {
      if Amount(pools, id) < amount {
        return false;
      }
      pools := pools[id := Amount(pools, id) - amount];
      return true;
    }

    method SubFromTotalSupply(amount: u64) returns (ok: bool)
      modifies this`supply
      ensures ok <==> SubSupply(old(State()), amount).Some?
      ensures State() == if ok then SubSupply(old(State()), amount).value else old(State())
    {
      if supply < amount {
        return false;
      }
      supply := supply - amount;
      return true;
    }

    method AddToStakedSupply(amount: u64) returns (ok: bool)
      modifies this`staked
      ensures ok <==> AddStaked(old(State()), amount).Some?
      ensures State() == if ok then AddStaked(old(State()), amount).value else old(State())
    {
      if staked > LIMIT - 1 - amount {
        return false;
      }
      staked := staked + amount;
      return true;
    }

    method SubFromStakedSupply(amount: u64) returns (ok: bool)
      modifies this`staked
      ensures ok <==> SubStaked(old(State()), amount).Some?
      ensures State() == if ok then SubStaked(old(State()), amount).value else old(State())
    {
      if staked < amount {
        return false;
      }
      staked := staked - amount;
      return true;
    }

    method MintToPool(id: nat, amount: u64)
      modifies this`supply, this`pools
      ensures State() == TokenLedger.MintToPool(old(State()), id, amount)
    {
      supply := (supply + amount) % LIMIT;
      PoolAdd(id, amount);
    }

    /** AccountDeductFees and HandleMessageSubsidy: exactly the amount moves, and the books stay balanced. */
    method PayIntoPool(a: nat, id: nat, amount: u64, spendable: u64) returns (ok: bool)
      requires spendable <= Amount(accounts, a)
      modifies this
      ensures ok <==> amount <= spendable
      ensures ok ==> State() == PayIn(old(State()), a, id, amount, spendable).value
      ensures ok && Balanced(old(State())) ==>
                && Balanced(State()) && supply == old(supply)
                && Transfers(old(accounts), accounts, a, amount, a, 0) && Transfers(old(pools), pools, id, 0, id, amount)
    {
      ghost var before := State();
      ok := AccountSub(a, amount, spendable);
      if ok {
        PoolAdd(id, amount);
        if Balanced(before) {
          PayInConserves(before, a, id, amount, spendable);
        }
      }
    }

    /** The signer pays exactly the stake of a new validator. */
    method HandleMessageStake(signer: nat, address: nat, v: Validator, spendable: u64) returns (ok: bool)
      requires spendable <= Amount(accounts, signer)
      modifies this
      ensures ok <==> Stake(old(State()), signer, address, v, spendable).Some?
      ensures ok ==> State() == Stake(old(State()), signer, address, v, spendable).value
      ensures ok && Balanced(old(State())) ==>
                && Balanced(State()) && supply == old(supply) && staked == old(staked) + v.stake
                && Transfers(old(accounts), accounts, signer, v.stake, signer, 0)
    {
      ghost var before := State();
      if address in validators {
        return false;
      }
      ok := AccountSub(signer, v.stake, spendable);
      if ok {
        ok := AddToStakedSupply(v.stake);
      }
      if ok {
        validators := validators[address := v];
        if Balanced(before) {
          StakeConserves(before, signer, address, v, spendable);
        }
      }
    }

    /** Adds to a validator's stake and to the staked supply, and to nothing else. */
    method UpdateValidatorStake(address: nat, amount: u64) returns (ok: bool)
      requires address in validators
      modifies this`validators, this`staked
      ensures ok <==> AddStake(old(State()), address, amount).Some?
      ensures ok ==> State() == AddStake(old(State()), address, amount).value
      ensures ok && Balanced(old(State())) ==>
                forall b :: StakeOf(State(), b) == StakeOf(old(State()), b) + if b == address then amount else 0
    {
      ghost var before := State();
      ok := AddToStakedSupply(amount);
      if ok {
        var v := validators[address];
        validators := validators[address := v.(stake := (v.stake + amount) % LIMIT)];
        if Balanced(before) {
          AddStakeMoves(before, address, amount);
        }
      }
    }

    /** The stake becomes the larger of old and requested, and the signer pays exactly the difference. */
    method HandleMessageEditStake(signer: nat, address: nat, amount: u64, spendable: u64) returns (ok: bool)
      requires spendable <= Amount(accounts, signer)
      modifies this
      ensures ok <==> EditStake(old(State()), signer, address, amount, spendable).Some?
      ensures ok ==> State() == EditStake(old(State()), signer, address, amount, spendable).value
      ensures ok && Balanced(old(State())) ==>
                var was, now := StakeOf(old(State()), address), StakeOf(State(), address);
                && Balanced(State()) && supply == old(supply)
                && now == (if amount <= was then was else amount)
                && Transfers(old(accounts), accounts, signer, now - was, signer, 0)
    {
      ghost var before := State();
      if address !in validators || validators[address].unstaking != 0 {
        return false;
      }
      var amountToAdd: u64 := 0;
      if amount > validators[address].stake {
        amountToAdd := amount - validators[address].stake;
      }
      ok := AccountSub(signer, amountToAdd, spendable);
      if ok {
        ok := UpdateValidatorStake(address, amountToAdd);
      }
      if ok && Balanced(before) {
        EditStakeConserves(before, signer, address, amount, spendable);
      }
    }

    /** The end of one validator's unstaking: with balanced books it never fails, and pays the stake out. */
    method FinishOneUnstaking(address: nat) returns (ok: bool)
      modifies this
      ensures ok <==> FinishUnstaking(old(State()), address).Some?
      ensures ok ==> State() == FinishUnstaking(old(State()), address).value
      ensures Balanced(old(State())) && address in old(validators) ==>
                var v := old(validators)[address];
                && ok && Balanced(State()) && supply == old(supply) && address !in validators
                && Transfers(old(accounts), accounts, v.output, 0, v.output, v.stake)
    {
      ghost var before := State();
      if address !in validators {
        return false;
      }
      if Balanced(before) {
        FinishUnstakingConserves(before, address);
      }
      var v := validators[address];
      ok := AccountAdd(v.output, v.stake);
      if ok {
        ok := SubFromStakedSupply(v.stake);
      }
      if ok {
        validators := validators - {address};
      }
    }

    /** With minting the transfer never fails; either way the books stay balanced. */
    method HandleMessageDAOTransfer(to: nat, amount: u64, mint: bool) returns (ok: bool)
      modifies this
      ensures ok <==> DaoTransfer(old(State()), to, amount, mint).Some?
      ensures ok ==> State() == DaoTransfer(old(State()), to, amount, mint).value
      ensures Balanced(old(State())) && old(supply) + (if mint then amount else 0) < LIMIT ==>
                && (ok <==> mint || amount <= Amount(old(pools), DAO_POOL))
                && (ok ==> Balanced(State()) && supply == old(supply) + (if mint then amount else 0)
                           && Transfers(old(accounts), accounts, to, 0, to, amount))
    {
      ghost var before := State();
      if Balanced(before) && supply + (if mint then amount else 0) < LIMIT {
        DaoTransferConserves(before, to, amount, mint);
      }
      if mint {
        MintToPool(DAO_POOL, amount);
      }
      ok := PoolSub(DAO_POOL, amount);
      if ok {
        ok := AccountAdd(to, amount);
      }
    }

    /** The burn of a slash by `percent`, already capped: with balanced books it never fails. */
    method BurnStake(address: nat, committees: seq<nat>, percent: nat, p: Slashing.Params, height: nat) returns (ok: bool)
      modifies this
      ensures ok <==> Slash(old(State()), address, committees, percent, p, height).Some?
      ensures ok ==> State() == Slash(old(State()), address, committees, percent, p, height).value
      ensures Balanced(old(State())) ==>
                && ok && Balanced(State())
                && old(supply) - supply == old(staked) - staked == StakeOf(old(State()), address) - StakeOf(State(), address)
                && StakeOf(State(), address) == Reduce(StakeOf(old(State()), address), percent)
    {
      ghost var before := State();
      if Balanced(before) {
        SlashConserves(before, address, committees, percent, p, height);
      }
      if address !in validators {
        return true;
      }
      var v := validators[address];
      var left := Reduce(v.stake, percent);
      ok := SubFromTotalSupply(v.stake - left);
      if ok {
        ok := SubFromStakedSupply(v.stake - left);
      }
      if ok && left == 0 {
        validators := validators - {address};
      } else if ok {
        validators := validators[address := Slashing.Demoted(v.(stake := left, committees := committees), p, height)];
      }
    }

    method FundCommitteeRewardPools(total: u64, daoPercent: nat, chains: seq<nat>)
      modifies this
      ensures State() == FundPools(old(State()), total, daoPercent, chains)
      ensures Balanced(old(State())) && old(supply) + total < LIMIT ==>
                Balanced(State()) && old(supply) <= supply <= old(supply) + total
    {
      if Balanced(State()) && supply + total < LIMIT {
        FundPoolsConserves(State(), total, daoPercent, chains);
      }
      if |chains| == 0 || total == 0 {
        return;
      }
      var mint := MintStats(total, daoPercent, |chains|);
      MintToPool(DAO_POOL, mint.daoCut);
      ghost var funded := State();
      for i := 0 to |chains|
        invariant State() == MintEach(funded, chains[..i], mint.perCommittee)
      {
        assert chains[..i + 1][..i] == chains[..i];
        MintToPool(chains[i], mint.perCommittee);
      }
      assert chains[..|chains|] == chains;
    }

    method DistributeCommitteeReward(stub: Stub, pool: u64, samples: u64, penalty: nat) returns (ok: bool, paid: u64)
      modifies this
      ensures ok <==> PayStub(old(State()), stub, pool, samples, penalty).Some?
      ensures ok ==> PayStub(old(State()), stub, pool, samples, penalty) == Some((State(), paid))
    {
      var full := FullReward(stub.percent, pool, samples);
      paid := Reduce(full, penalty);
      if stub.address !in validators {
        ok := AccountAdd(stub.address, paid);
        return;
      }
      var v := validators[stub.address];
      if v.compound && v.unstaking == 0 {
        ok := UpdateValidatorStake(stub.address, full);
        return ok, full;
      }
      ok := AccountAdd(v.output, paid);
    }

    method DistributeStubs(stubs: seq<Stub>, pool: u64, samples: u64, penalty: nat) returns (ok: bool, total: u64)
      modifies this
      ensures ok <==> PayStubs(old(State()), stubs, pool, samples, penalty).Some?
      ensures ok ==> PayStubs(old(State()), stubs, pool, samples, penalty) == Some((State(), total))
    {
      ok, total := true, 0;
      for i := 0 to |stubs|
        invariant ok <==> PayStubs(old(State()), stubs[..i], pool, samples, penalty).Some?
        invariant ok ==> PayStubs(old(State()), stubs[..i], pool, samples, penalty) == Some((State(), total))
      {
        assert stubs[..i + 1][..i] == stubs[..i];
        if ok {
          var paid;
          ok, paid := DistributeCommitteeReward(stubs[i], pool, samples, penalty);
          if ok && total > LIMIT - 1 - paid {
            ok := false;
          } else if ok {
            total := total + paid;
          }
        }
      }
      assert stubs[..|stubs|] == stubs;
    }

    /** The rewards of one committee. */
    method DistributeCommitteeRewards(chain: nat, c: Collected, penalty: nat) returns (ok: bool)
      modifies this
      ensures ok <==> Distribute(old(State()), chain, c, penalty).Some?
      ensures ok ==> State() == Distribute(old(State()), chain, c, penalty).value
      ensures Balanced(old(State())) && Normal(c) ==>
                && ok && Balanced(State())
                && (c.stubs != [] ==> Amount(pools, chain) == 0 && old(supply) - supply <= Amount(old(pools), chain))
    {
      if Balanced(State()) && Normal(c) {
        DistributeConserves(State(), chain, c, penalty);
      }
      if |c.stubs| == 0 {
        return true;
      }
      var pool := Amount(pools, chain);
      var total;
      ok, total := DistributeStubs(c.stubs, pool, c.samples, penalty);
      if ok {
        ok := SubFromTotalSupply(if total <= pool then pool - total else LIMIT + pool - total);
      }
      if ok {
        pools := pools[chain := 0];
      }
    }
  }
}
