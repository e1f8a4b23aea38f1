/** Accounts whose balance is partly locked by a vesting schedule. */
module Vesting {
  import opened Options
  import opened Uint64

  /** A vesting tranche of `vesting` tokens, released linearly from `start` to `end`, none before `cliff`. */
  datatype Account = Account(amount: u64, vesting: u64, start: u64, cliff: u64, end: u64)

  datatype Schedule = Schedule(start: u64, cliff: u64, end: u64)

  function Empty(): (a: Account)
  {
    Account(0, 0, 0, 0, 0)
  }

  /** The vested part; the product is taken in 64 bits and wraps. */
  function Vested(a: Account, height: u64): (vested: u64)
  {
    if height < a.start || height < a.cliff then 0
    else if height >= a.end then a.vesting
    else Released(a.vesting, height - a.start, a.end - a.start)
  }

  function Released(v: u64, elapsed: nat, duration: nat): (released: u64)
    requires duration > 0
  {
    FloorFits(Wrapped(v * elapsed), duration);
    Floor(Wrapped(v * elapsed), duration)
  }

  function Wrapped(n: nat): (w: u64)
  {
    n % LIMIT
  }

  function Locked(a: Account, height: u64): (locked: u64)
  {
    var vested := Vested(a, height);
    if vested >= a.vesting then 0 else a.vesting - vested
  }

  function Spendable(a: Account, height: u64): (spendable: u64)
  {
    var locked := Locked(a, height);
    if locked >= a.amount then 0 else a.amount - locked
  }

  /** clearAccountVestingIfFullyVested, run on every write. */
  function Cleared(a: Account, height: u64): (b: Account)
  {
    if a.vesting == 0 || Locked(a, height) != 0 then a else Account(a.amount, 0, 0, 0, 0)
  }

  // ---------------------------------------------------------------- the three updates

  function Credited(a: Account, amount: u64): (r: Option<Account>)
  {
    if a.amount + amount >= LIMIT then None else Some(a.(amount := a.amount + amount))
  }

  function Debited(a: Account, amount: u64, height: u64): (r: Option<Account>)
    ensures r.Some? ==> amount <= Spendable(a, height) && r.value == a.(amount := a.amount - amount)
  {
    if Spendable(a, height) < amount then None else Some(a.(amount := a.amount - amount))
  }

  /** An account still locking tokens takes more only under exactly its own schedule. */
  predicate Compatible(a: Account, s: Schedule, height: u64)
  {
    a.vesting != 0 && Locked(a, height) != 0 ==> a.start == s.start && a.cliff == s.cliff && a.end == s.end
  }

  /** AccountAddWithVesting */
  function Granted(a: Account, amount: u64, s: Schedule, height: u64): (r: Option<Account>)
  {
    if a.amount + amount >= LIMIT || a.vesting + amount >= LIMIT || !Compatible(a, s, height) then None
    else if a.vesting == 0 || Locked(a, height) == 0
    then Some(Account(a.amount + amount, amount, s.start, s.cliff, s.end))
    else Some(a.(amount := a.amount + amount, vesting := a.vesting + amount))
  }

  /** MessageSend.Check on a schedule. */
  predicate ValidSchedule(s: Schedule)
  {
    s.end > s.start && s.start <= s.cliff <= s.end
  }

  // ---------------------------------------------------------------- exactness

  /** The largest product the schedule ever needs fits in 64 bits. */
  predicate Fits(a: Account)
  {
    a.end > a.start ==> NoWrap(a.vesting, a.end - 1 - a.start)
  }

  predicate NoWrap(v: nat, elapsed: nat)
  {
    v * elapsed < LIMIT
  }

  /** What the schedule means: a linear share, rounded down. */
  function ProRata(a: Account, height: u64): (vested: nat)
  {
    if height < a.start || height < a.cliff then 0
    else if height >= a.end then a.vesting
    else Linear(a.vesting, height - a.start, a.end - a.start)
  }

  function Linear(v: nat, elapsed: nat, duration: nat): (share: nat)
    requires duration > 0
  {
    Floor(v * elapsed, duration)
  }

  lemma ShareDrops(n: nat, w: nat, d: nat)
    requires d > 0 && n >= w + d
    ensures Floor(w, d) < Floor(n, d)
  {
    var p, q := Floor(w, d), Floor(n, d);
    DivFacts(n, d);
    DivFacts(w, d);
    assert (p + 1) * d == p * d + d;
    if q <= p {
      MulMonotone(q + 1, p + 1, d);
      assert false;
    }
  }

  lemma WrapLoses(n: nat)
    ensures n < LIMIT ==> Wrapped(n) == n
    ensures n >= LIMIT ==> n >= Wrapped(n) + LIMIT
  {
    assert n == n / LIMIT * LIMIT + n % LIMIT;
  }

  lemma WrapShrinks(n: nat, d: nat)
    requires 0 < d < LIMIT
    ensures Floor(Wrapped(n), d) == Floor(n, d) <==> n < LIMIT
  {
    WrapLoses(n);
    if n >= LIMIT {
      ShareDrops(n, Wrapped(n), d);
    }
  }

  /** The released amount is the linear share exactly when its product does not wrap. */
  lemma ReleasedIsLinear(v: u64, elapsed: nat, duration: nat)
    requires 0 < duration < LIMIT
    ensures Released(v, elapsed, duration) == Linear(v, elapsed, duration) <==> NoWrap(v, elapsed)
  {
    WrapShrinks(v * elapsed, duration);
  }

  lemma NoWrapMonotone(v: nat, elapsed: nat, v': nat, elapsed': nat)
    requires v <= v' && elapsed <= elapsed' && NoWrap(v', elapsed')
    ensures NoWrap(v, elapsed)
  {
    MulMonotone(v, v', elapsed);
    MulMonotone(elapsed, elapsed', v');
  }

  /**
   * EXACT VESTING: the vested amount is the linear share at every height if and only if the schedule's
   * largest product fits in 64 bits, or the cliff leaves no partial height.
   */
  lemma VestedIsProRata(a: Account)
    ensures (forall h: u64 :: Vested(a, h) == ProRata(a, h)) <==> Fits(a) || a.cliff >= a.end
  {
    if Fits(a) || a.cliff >= a.end {
      forall h: u64 ensures Vested(a, h) == ProRata(a, h) {
        VestedAt(a, h);
      }
    } else {
      var h: u64 := a.end - 1;
      ReleasedIsLinear(a.vesting, h - a.start, a.end - a.start);
      assert Vested(a, h) != ProRata(a, h);
    }
  }

  /** `vested` is the part of `v` that `elapsed` is of `duration`, rounded down. */
  predicate IsLinear(vested: nat, v: nat, elapsed: nat, duration: nat)
  {
    vested * duration <= v * elapsed < (vested + 1) * duration
  }

  /**
   * VESTING, HEIGHT BY HEIGHT: nothing is vested before the start or the cliff, all of it from the end on, and
   * in between the linear share, rounded down, if and only if its product fits in 64 bits; what is not vested
   * is locked.
   */
  lemma VestedMeans(a: Account, h: u64)
    ensures h < a.start || h < a.cliff ==> Vested(a, h) == 0
    ensures a.start <= h && a.cliff <= h && a.end <= h ==> Vested(a, h) == a.vesting
    ensures a.start <= h < a.end && a.cliff <= h ==>
              (IsLinear(Vested(a, h), a.vesting, h - a.start, a.end - a.start) <==> NoWrap(a.vesting, h - a.start))
    ensures Locked(a, h) == if Vested(a, h) <= a.vesting then a.vesting - Vested(a, h) else 0
  {
    if a.start <= h < a.end && a.cliff <= h {
      ReleasedIsShare(a.vesting, h - a.start, a.end - a.start);
    }
  }

  lemma ReleasedIsShare(v: u64, elapsed: nat, duration: nat)
    requires 0 < duration < LIMIT
    ensures IsLinear(Released(v, elapsed, duration), v, elapsed, duration) <==> NoWrap(v, elapsed)
  {
    ReleasedIsLinear(v, elapsed, duration);
    DivFacts(v * elapsed, duration);
    var q: nat, r: nat := Linear(v, elapsed, duration), Released(v, elapsed, duration);
    if IsLinear(r, v, elapsed, duration) {
      MulCancelStrict(r, q + 1, duration);
      MulCancelStrict(q, r + 1, duration);
    }
  }

  lemma VestedAt(a: Account, h: u64)
    requires Fits(a) || a.cliff >= a.end
    ensures Vested(a, h) == ProRata(a, h)
  {
    if a.start <= h < a.end && a.cliff <= h {
      NoWrapMonotone(a.vesting, h - a.start, a.vesting, a.end - 1 - a.start);
      ReleasedIsLinear(a.vesting, h - a.start, a.end - a.start);
    }
  }

  lemma LinearFacts(v: nat, elapsed: nat, duration: nat)
    requires duration > 0 && elapsed <= duration
    ensures Linear(v, elapsed, duration) <= v
  {
    MulMonotone(elapsed, duration, v);
    DivFacts(v * elapsed, duration);
    MulCancel(Linear(v, elapsed, duration), v, duration);
  }

  lemma ShareMonotone(n: nat, m: nat, d: nat)
    requires d > 0 && n <= m
    ensures Floor(n, d) <= Floor(m, d)
  {
    DivFacts(n, d);
    DivFacts(m, d);
    if n / d > m / d {
      MulMonotone(m / d + 1, n / d, d);
      assert false;
    }
  }

  lemma LinearMonotone(v: nat, elapsed: nat, v': nat, elapsed': nat, duration: nat)
    requires duration > 0 && v <= v' && elapsed <= elapsed'
    ensures Linear(v, elapsed, duration) <= Linear(v', elapsed', duration)
  {
    MulMonotone(v, v', elapsed);
    MulMonotone(elapsed, elapsed', v');
    ShareMonotone(v * elapsed, v' * elapsed', duration);
  }

  /** Height only releases: while the product fits, nothing spendable becomes locked again. */
  lemma SpendableGrows(a: Account, h: u64, h': u64)
    requires Fits(a) && h <= h'
    ensures Locked(a, h') <= Locked(a, h) && Spendable(a, h) <= Spendable(a, h')
  {
    VestedAt(a, h);
    VestedAt(a, h');
    if a.start <= h < a.end && a.cliff <= h {
      LinearFacts(a.vesting, h - a.start, a.end - a.start);
      if h' < a.end {
        LinearMonotone(a.vesting, h - a.start, a.vesting, h' - a.start, a.end - a.start);
      }
    }
  }

  /** Without that bound it fails: one block later, this account may spend less. */
  lemma SpendableCanFall()
    ensures var a := Account(0x4000_0000_0000_0000, 0x4000_0000_0000_0000, 0, 0, 5);
            !Fits(a) && Spendable(a, 3) > 0 && Spendable(a, 4) == 0
  {
    assert (0x4000_0000_0000_0000 * 4) % LIMIT == 0;
  }

  // ---------------------------------------------------------------- solvency

  /** An account never locks more than it holds, and one without a tranche has no schedule left over. */
  predicate Sound(a: Account, height: u64)
  {
    && Locked(a, height) <= a.amount
    && (a.vesting == 0 ==> a.start == 0 && a.cliff == 0 && a.end == 0)
  }

  /** A larger tranche under the same schedule locks at most the addition more. */
  lemma LargerTranche(a: Account, amount: u64, height: u64)
    requires a.vesting + amount < LIMIT && Fits(a.(vesting := a.vesting + amount))
    ensures Locked(a.(vesting := a.vesting + amount), height) <= Locked(a, height) + amount
  {
    var b := a.(vesting := a.vesting + amount);
    if a.start <= height < a.end && a.cliff <= height {
      NoWrapMonotone(a.vesting, a.end - 1 - a.start, b.vesting, a.end - 1 - a.start);
      VestedAt(a, height);
      VestedAt(b, height);
      LinearMonotone(a.vesting, height - a.start, b.vesting, height - a.start, a.end - a.start);
      LinearFacts(a.vesting, height - a.start, a.end - a.start);
    }
  }

  /** Every update keeps an account sound, and clearing on write leaves an emptied account blank. */
  lemma UpdatesKeepSound(a: Account, amount: u64, s: Schedule, height: u64)
    requires Sound(a, height)
    ensures Credited(a, amount).Some? ==> Sound(Credited(a, amount).value, height)
    ensures Debited(a, amount, height).Some? ==> Sound(Debited(a, amount, height).value, height)
    ensures Granted(a, amount, s, height).Some? && amount > 0 && Fits(Granted(a, amount, s, height).value) ==>
              Sound(Granted(a, amount, s, height).value, height)
    ensures Sound(Cleared(a, height), height) && (a.amount == 0 ==> Cleared(a, height) == Empty())
    ensures Spendable(Cleared(a, height), height) == Spendable(a, height)
  {
    if Granted(a, amount, s, height).Some? && a.vesting != 0 && Locked(a, height) != 0
       && Fits(Granted(a, amount, s, height).value) {
      LargerTranche(a, amount, height);
    }
  }

  /** Before its cliff a vesting send locks its whole amount on top of what was locked, and adds nothing spendable. */
  lemma GrantLocksItsAmount(a: Account, amount: u64, s: Schedule, height: u64)
    requires Sound(a, height) && Granted(a, amount, s, height).Some?
    requires height < s.start || height < s.cliff
    ensures var g := Granted(a, amount, s, height).value;
            && g.amount == a.amount + amount && Locked(g, height) == Locked(a, height) + amount
            && Spendable(g, height) == Spendable(a, height)
  {
  }

  /**
   * A grant succeeds unless a sum overflows or tokens are still locked under another schedule; the account
   * then has the amount more and exactly that schedule, over what was still locked in a running tranche.
   */
  lemma GrantMeans(a: Account, amount: u64, s: Schedule, height: u64)
    ensures Granted(a, amount, s, height).Some? <==>
              && a.amount + amount < LIMIT && a.vesting + amount < LIMIT
              && (Locked(a, height) == 0 || (a.start, a.cliff, a.end) == (s.start, s.cliff, s.end))
    ensures Granted(a, amount, s, height).Some? ==>
              Granted(a, amount, s, height).value
              == Account(a.amount + amount, amount + if Locked(a, height) == 0 then 0 else a.vesting, s.start, s.cliff, s.end)
  {
  }

  /** What a write clears is only a finished schedule. */
  lemma ClearedMeans(a: Account, height: u64)
    ensures Cleared(a, height)
            == if a.vesting > 0 && Locked(a, height) == 0 then Account(a.amount, 0, 0, 0, 0) else a
    ensures Locked(Cleared(a, height), height) == Locked(a, height) && Cleared(a, height).amount == a.amount
    ensures Spendable(Cleared(a, height), height) == Spendable(a, height)
  {
  }

  /** A debit never touches what is locked, and a credit is spendable at once. */
  lemma LockedStaysLocked(a: Account, amount: u64, height: u64)
    requires Sound(a, height)
    ensures Debited(a, amount, height).Some? <==> amount <= Spendable(a, height)
    ensures Debited(a, amount, height).Some? ==>
              Locked(Debited(a, amount, height).value, height) == Locked(a, height)
              && Spendable(Debited(a, amount, height).value, height) == Spendable(a, height) - amount
    ensures Credited(a, amount).Some? <==> a.amount + amount < LIMIT
    ensures Credited(a, amount).Some? ==>
              Locked(Credited(a, amount).value, height) == Locked(a, height)
              && Spendable(Credited(a, amount).value, height) == Spendable(a, height) + amount
  {
  }

  // ---------------------------------------------------------------- runs

  datatype Bank = Bank(accounts: map<nat, Account>, height: u64)

  datatype Event =
    | Credit(to: nat, amount: u64)
    | Debit(from: nat, amount: u64)
    | Send(from: nat, to: nat, amount: u64)
    | SendVesting(from: nat, to: nat, amount: u64, schedule: Schedule)
    | NextBlock

  function Load(accounts: map<nat, Account>, address: nat): (a: Account)
  {
    if address in accounts then accounts[address] else Empty()
  }

  /** SetAccount: clear a finished schedule, and delete an account without tokens. */
  function Save(accounts: map<nat, Account>, address: nat, a: Account, height: u64): (after: map<nat, Account>)
  {
    var b := Cleared(a, height);
    if b.amount == 0 then accounts - {address} else accounts[address := b]
  }

  function SaveOr(b: Bank, address: nat, a: Option<Account>): (r: Option<Bank>)
  {
    if a.None? then None else Some(b.(accounts := Save(b.accounts, address, a.value, b.height)))
  }

  function Move(b: Bank, from: nat, to: nat, amount: u64): (r: Option<Bank>)
  {
    var paid := SaveOr(b, from, Debited(Load(b.accounts, from), amount, b.height));
    if paid.None? then None else SaveOr(paid.value, to, Credited(Load(paid.value.accounts, to), amount))
  }

  /** HandleMessageSend with a schedule: the recipient is checked before the sender pays. */
  function MoveVesting(b: Bank, from: nat, to: nat, amount: u64, s: Schedule): (r: Option<Bank>)
  {
    if !Compatible(Load(b.accounts, to), s, b.height) then None
    else
      var paid := SaveOr(b, from, Debited(Load(b.accounts, from), amount, b.height));
      if paid.None? then None else SaveOr(paid.value, to, Granted(Load(paid.value.accounts, to), amount, s, b.height))
  }

  function Result(b: Bank, e: Event): (r: Option<Bank>)
  {
    match e
    case Credit(to, amount) => if amount == 0 then Some(b) else SaveOr(b, to, Credited(Load(b.accounts, to), amount))
    case Debit(from, amount) =>
      if amount == 0 then Some(b) else SaveOr(b, from, Debited(Load(b.accounts, from), amount, b.height))
    case Send(from, to, amount) => Move(b, from, to, amount)
    case SendVesting(from, to, amount, s) => MoveVesting(b, from, to, amount, s)
    case NextBlock => if b.height + 1 >= LIMIT then None else Some(b.(height := b.height + 1))
  }

  /** A vesting send is checked: a positive amount, a proper schedule, and a tranche whose products fit. */
  predicate Allowed(b: Bank, e: Event)
  {
    && (e.Send? ==> e.amount > 0)
    && (e.SendVesting? ==>
      && e.amount > 0 && ValidSchedule(e.schedule)
      && NoWrap(Load(b.accounts, e.to).vesting + e.amount, e.schedule.end - 1 - e.schedule.start))
  }

  ghost predicate BankSound(b: Bank)
  {
    forall a <- b.accounts :: Sound(b.accounts[a], b.height) && Fits(b.accounts[a])
  }

  function Step(b: Bank, e: Event): (b': Bank)
  {
    if Result(b, e).None? then b else Result(b, e).value
  }

  lemma SavedIsSound(b: Bank, address: nat, a: Account)
    requires BankSound(b) && Sound(a, b.height) && Fits(a)
    ensures BankSound(b.(accounts := Save(b.accounts, address, a, b.height)))
  {
    UpdatesKeepSound(a, 0, Schedule(0, 0, 0), b.height);
  }

  /** What a grant puts into the account fits if the send was checked against a tranche at least as large. */
  lemma GrantFits(a: Account, known: u64, amount: u64, s: Schedule, height: u64)
    requires Granted(a, amount, s, height).Some? && a.vesting <= known && ValidSchedule(s)
    requires NoWrap(known + amount, s.end - 1 - s.start)
    ensures Fits(Granted(a, amount, s, height).value)
  {
    var g := Granted(a, amount, s, height).value;
    NoWrapMonotone(g.vesting, s.end - 1 - s.start, known + amount, s.end - 1 - s.start);
  }

  /** Saving an account and loading it again gives what it holds and locks, and no other account changes. */
  lemma SavedIsLoaded(b: Bank, address: nat, a: Account, other: nat)
    requires Sound(a, b.height)
    ensures var after := Save(b.accounts, address, a, b.height);
            && (other != address ==> Load(after, other) == Load(b.accounts, other))
            && Load(after, address).amount == a.amount && Locked(Load(after, address), b.height) == Locked(a, b.height)
            && Spendable(Load(after, address), b.height) == Spendable(a, b.height)
  {
    ClearedMeans(a, b.height);
    UpdatesKeepSound(a, 0, Schedule(0, 0, 0), b.height);
  }

  /** A plain send between two accounts succeeds exactly if it is funded and fits, and what arrives can be spent. */
  lemma SendMoves(b: Bank, from: nat, to: nat, amount: u64)
    requires BankSound(b) && from != to
    ensures Move(b, from, to, amount).Some? <==>
              amount <= Spendable(Load(b.accounts, from), b.height) && Load(b.accounts, to).amount + amount < LIMIT
    ensures Move(b, from, to, amount).Some? ==>
              var after := Move(b, from, to, amount).value;
              && after.height == b.height
              && Spendable(Load(after.accounts, from), b.height) == Spendable(Load(b.accounts, from), b.height) - amount
              && Locked(Load(after.accounts, from), b.height) == Locked(Load(b.accounts, from), b.height)
              && Spendable(Load(after.accounts, to), b.height) == Spendable(Load(b.accounts, to), b.height) + amount
              && Locked(Load(after.accounts, to), b.height) == Locked(Load(b.accounts, to), b.height)
  {
    var a, c := Load(b.accounts, from), Load(b.accounts, to);
    LockedStaysLocked(a, amount, b.height);
    LockedStaysLocked(c, amount, b.height);
    if Debited(a, amount, b.height).Some? {
      var paid := SaveOr(b, from, Debited(a, amount, b.height)).value;
      SavedIsLoaded(b, from, Debited(a, amount, b.height).value, to);
      if Credited(c, amount).Some? {
        SavedIsLoaded(paid, to, Credited(c, amount).value, from);
      }
    }
  }

  /**
   * A vesting send between two accounts succeeds exactly if it is funded, fits, and the recipient locks nothing
   * under another schedule; before the cliff, what arrives is locked as a whole.
   */
  lemma VestingSendLocks(b: Bank, from: nat, to: nat, amount: u64, s: Schedule)
    requires BankSound(b) && from != to
    requires b.height < s.start || b.height < s.cliff
    requires amount > 0
    ensures var c := Load(b.accounts, to);
            MoveVesting(b, from, to, amount, s).Some? <==>
              && amount <= Spendable(Load(b.accounts, from), b.height)
              && c.amount + amount < LIMIT && c.vesting + amount < LIMIT
              && (Locked(c, b.height) == 0 || (c.start, c.cliff, c.end) == (s.start, s.cliff, s.end))
    ensures MoveVesting(b, from, to, amount, s).Some? ==>
              var after := MoveVesting(b, from, to, amount, s).value;
              && after.height == b.height
              && Spendable(Load(after.accounts, from), b.height) == Spendable(Load(b.accounts, from), b.height) - amount
              && Locked(Load(after.accounts, from), b.height) == Locked(Load(b.accounts, from), b.height)
              && Spendable(Load(after.accounts, to), b.height) == Spendable(Load(b.accounts, to), b.height)
              && Locked(Load(after.accounts, to), b.height) == Locked(Load(b.accounts, to), b.height) + amount
  {
    var a, c := Load(b.accounts, from), Load(b.accounts, to);
    LockedStaysLocked(a, amount, b.height);
    GrantMeans(c, amount, s, b.height);
    if Debited(a, amount, b.height).Some? {
      var paid := SaveOr(b, from, Debited(a, amount, b.height)).value;
      SavedIsLoaded(b, from, Debited(a, amount, b.height).value, to);
      if Granted(c, amount, s, b.height).Some? {
        GrantLocksItsAmount(c, amount, s, b.height);
        SavedIsLoaded(paid, to, Granted(c, amount, s, b.height).value, from);
      }
    }
  }

  lemma DebitKeepsTranche(b: Bank, from: nat, amount: u64, to: nat)
    requires BankSound(b) && Debited(Load(b.accounts, from), amount, b.height).Some?
    ensures var b' := SaveOr(b, from, Debited(Load(b.accounts, from), amount, b.height)).value;
            BankSound(b') && b'.height == b.height && Load(b'.accounts, to).vesting <= Load(b.accounts, to).vesting
  {
    var a := Load(b.accounts, from);
    UpdatesKeepSound(a, amount, Schedule(0, 0, 0), b.height);
    SavedIsSound(b, from, Debited(a, amount, b.height).value);
  }

  lemma CreditKeepsSound(b: Bank, to: nat, amount: u64)
    requires BankSound(b) && Credited(Load(b.accounts, to), amount).Some?
    ensures BankSound(SaveOr(b, to, Credited(Load(b.accounts, to), amount)).value)
  {
    UpdatesKeepSound(Load(b.accounts, to), amount, Schedule(0, 0, 0), b.height);
    SavedIsSound(b, to, Credited(Load(b.accounts, to), amount).value);
  }

  lemma GrantKeepsSound(b: Bank, to: nat, known: u64, amount: u64, s: Schedule)
    requires BankSound(b) && amount > 0 && ValidSchedule(s) && Granted(Load(b.accounts, to), amount, s, b.height).Some?
    requires Load(b.accounts, to).vesting <= known && NoWrap(known + amount, s.end - 1 - s.start)
    ensures BankSound(SaveOr(b, to, Granted(Load(b.accounts, to), amount, s, b.height)).value)
  {
    var a := Load(b.accounts, to);
    GrantFits(a, known, amount, s, b.height);
    UpdatesKeepSound(a, amount, s, b.height);
    SavedIsSound(b, to, Granted(a, amount, s, b.height).value);
  }

  lemma StepKeepsSound(b: Bank, e: Event)
    requires BankSound(b) && Allowed(b, e)
    ensures BankSound(Step(b, e))
  {
    if Result(b, e).Some? {
      match e
      case Credit(to, amount) =>
        if amount > 0 {
          CreditKeepsSound(b, to, amount);
        }
      case Debit(from, amount) =>
        if amount > 0 {
          DebitKeepsTranche(b, from, amount, from);
        }
      case Send(from, to, amount) =>
        DebitKeepsTranche(b, from, amount, to);
        CreditKeepsSound(SaveOr(b, from, Debited(Load(b.accounts, from), amount, b.height)).value, to, amount);
      case SendVesting(from, to, amount, s) =>
        DebitKeepsTranche(b, from, amount, to);
        GrantKeepsSound(SaveOr(b, from, Debited(Load(b.accounts, from), amount, b.height)).value, to,
                        Load(b.accounts, to).vesting, amount, s);
      case NextBlock =>
        forall a | a in b.accounts ensures Sound(b.accounts[a], b.height + 1) {
          SpendableGrows(b.accounts[a], b.height, b.height + 1);
        }
    }
  }

  ghost predicate IsRun(states: seq<Bank>, events: seq<Event>)
  {
    && |states| == |events| + 1
    && forall i :: 0 <= i < |events| ==> Allowed(states[i], events[i]) && states[i + 1] == Step(states[i], events[i])
  }

  /**
   * VESTING SOLVENCY: in every state of every run each account locks at most its balance, so what it may
   * spend and what it locks always add up to what it holds.
   */
  lemma {:induction false} VestingStaysSolvent(states: seq<Bank>, events: seq<Event>, i: nat)
    requires IsRun(states, events) && BankSound(states[0]) && i < |states|
    ensures BankSound(states[i])
    ensures forall a <- states[i].accounts ::
              var acc := states[i].accounts[a];
              Spendable(acc, states[i].height) + Locked(acc, states[i].height) == acc.amount
  {
    if i > 0 {
      VestingStaysSolvent(states, events, i - 1);
      StepKeepsSound(states[i - 1], events[i - 1]);
    }
  }
}
