/** One committee's order book: sell orders whose tokens wait in an escrow pool. */
module OrderBook {
  import opened Options
  import opened Uint64
  import opened Balances

  /** The buyer an order is locked for, and until when. */
  datatype Buyer = Buyer(receive: nat, send: nat, deadline: nat)

  datatype SellOrder = SellOrder(amount: u64, requested: u64, seller: nat, sellerReceive: nat, buyer: Option<Buyer>)

  datatype Market = Market(accounts: map<nat, u64>, escrow: u64, orders: map<nat, SellOrder>)

  datatype LockOrder = LockOrder(id: nat, buyer: Buyer)

  datatype Instructions = Instructions(locks: seq<LockOrder>, resets: seq<nat>, closes: seq<nat>)

  // ---------------------------------------------------------------- the messages

  /** Tokens from an account into escrow. */
  function Deposit(m: Market, address: nat, amount: u64, spendable: u64): (r: Option<Market>)
    requires spendable <= Amount(m.accounts, address)
  {
    var debited := Debited(m.accounts, address, amount, spendable);
    if debited.None? then None else Some(m.(accounts := debited.value, escrow := (m.escrow + amount) % LIMIT))
  }

  /** Tokens out of escrow to an account. */
  function Release(m: Market, address: nat, amount: u64): (r: Option<Market>)
  {
    var credited := Credited(m.accounts, address, amount);
    if m.escrow < amount || credited.None? then None
    else Some(m.(accounts := credited.value, escrow := m.escrow - amount))
  }

  /** HandleMessageCreateOrder */
  function Create(m: Market, id: nat, o: SellOrder, minimum: u64, spendable: u64): (r: Option<Market>)
    requires spendable <= Amount(m.accounts, o.seller)
  {
    var paid := Deposit(m, o.seller, o.amount, spendable);
    if o.amount < minimum || paid.None? then None
    else Some(paid.value.(orders := m.orders[id := o.(buyer := None)]))
  }

  /** HandleMessageEditOrder: the difference moves between the seller and escrow. */
  function Edit(m: Market, id: nat, amount: u64, requested: u64, receive: nat, minimum: u64, spendable: u64): (r: Option<Market>)
    requires id in m.orders ==> spendable <= Amount(m.accounts, m.orders[id].seller)
  {
    if id !in m.orders || m.orders[id].buyer.Some? || amount < minimum then None
    else
      var o := m.orders[id];
      var moved := if amount > o.amount then Deposit(m, o.seller, amount - o.amount, spendable)
                   else if amount < o.amount then Release(m, o.seller, o.amount - amount)
                   else Some(m);
      if moved.None? then None
      else Some(moved.value.(orders := m.orders[id := SellOrder(amount, requested, o.seller, receive, None)]))
  }

  /** HandleMessageDeleteOrder */
  function Delete(m: Market, id: nat): (r: Option<Market>)
  {
    if id !in m.orders || m.orders[id].buyer.Some? then None
    else
      var released := Release(m, m.orders[id].seller, m.orders[id].amount);
      if released.None? then None else Some(released.value.(orders := m.orders - {id}))
  }

  // ---------------------------------------------------------------- the committee's instructions

  function Lock(m: Market, lock: LockOrder): (r: Option<Market>)
  {
    if lock.id !in m.orders || m.orders[lock.id].buyer.Some? then None
    else Some(m.(orders := m.orders[lock.id := m.orders[lock.id].(buyer := Some(lock.buyer))]))
  }

  function Reset(m: Market, id: nat): (r: Option<Market>)
  {
    if id !in m.orders then None else Some(m.(orders := m.orders[id := m.orders[id].(buyer := None)]))
  }

  function Close(m: Market, id: nat): (r: Option<Market>)
  {
    if id !in m.orders || m.orders[id].buyer.None? then None
    else
      var released := Release(m, m.orders[id].buyer.value.receive, m.orders[id].amount);
      if released.None? then None else Some(released.value.(orders := m.orders - {id}))
  }

  /** An instruction that fails is skipped. */
  function Or(r: Option<Market>, m: Market): (m': Market)
  {
    if r.None? then m else r.value
  }

  function LockAll(m: Market, locks: seq<LockOrder>): (m': Market)
  {
    if locks == [] then m
    else
      var before := LockAll(m, locks[..|locks| - 1]);
      Or(Lock(before, locks[|locks| - 1]), before)
  }

  /** A reset is skipped when the same instruction set closes the order. */
  function ResetAll(m: Market, resets: seq<nat>, closes: seq<nat>): (m': Market)
  {
    if resets == [] then m
    else
      var before, id := ResetAll(m, resets[..|resets| - 1], closes), resets[|resets| - 1];
      if id in closes then before else Or(Reset(before, id), before)
  }

  function CloseAll(m: Market, closes: seq<nat>): (m': Market)
  {
    if closes == [] then m
    else
      var before := CloseAll(m, closes[..|closes| - 1]);
      Or(Close(before, closes[|closes| - 1]), before)
  }

  /** HandleCommitteeSwaps */
  function Swaps(m: Market, i: Instructions): (m': Market)
  {
    CloseAll(ResetAll(LockAll(m, i.locks), i.resets, i.closes), i.closes)
  }

  // ---------------------------------------------------------------- escrow

  /** What each order has in escrow. */
  function Amounts(orders: map<nat, SellOrder>): (amounts: map<nat, u64>)
  {
    map id | id in orders :: orders[id].amount
  }

  ghost function Owed(orders: map<nat, SellOrder>): (owed: nat)
  {
    Total(Amounts(orders))
  }

  function AmountOf(orders: map<nat, SellOrder>, id: nat): (amount: u64)
  {
    if id in orders then orders[id].amount else 0
  }

  ghost function Tokens(m: Market): (tokens: nat)
  {
    Total(m.accounts) + m.escrow
  }

  lemma OwedUpdate(orders: map<nat, SellOrder>, id: nat, o: SellOrder)
    ensures Owed(orders[id := o]) + AmountOf(orders, id) == Owed(orders) + o.amount
  {
    TotalUpdate(Amounts(orders), id, o.amount);
    assert Amounts(orders[id := o]) == Amounts(orders)[id := o.amount];
  }

  lemma OwedRemove(orders: map<nat, SellOrder>, id: nat)
    ensures Owed(orders - {id}) + AmountOf(orders, id) == Owed(orders)
  {
    TotalAt(Amounts(orders), id);
    assert Amounts(orders - {id}) == Amounts(orders) - {id};
  }

  /** All tokens fit in 64 bits, and the escrow pool covers the orders. */
  ghost predicate Sound(m: Market)
  {
    Tokens(m) < LIMIT && m.escrow >= Owed(m.orders)
  }

  /** Escrow that no order accounts for. */
  ghost function Surplus(m: Market): (surplus: int)
  {
    m.escrow - Owed(m.orders)
  }

  lemma DepositMoves(m: Market, address: nat, amount: u64, spendable: u64)
    requires Tokens(m) < LIMIT && spendable <= Amount(m.accounts, address) && Deposit(m, address, amount, spendable).Some?
    ensures var m' := Deposit(m, address, amount, spendable).value;
            && Tokens(m') == Tokens(m) && m'.escrow == m.escrow + amount && m'.orders == m.orders
            && forall a :: Amount(m'.accounts, a) + (if a == address then amount else 0) == Amount(m.accounts, a)
  {
    DebitedMoves(m.accounts, address, amount, spendable);
    TotalUpdate(m.accounts, address, Amount(m.accounts, address));
  }

  /** While all tokens fit, releasing what the pool has never fails. */
  lemma ReleaseMoves(m: Market, address: nat, amount: u64)
    requires Tokens(m) < LIMIT
    ensures Release(m, address, amount).Some? <==> amount <= m.escrow
    ensures Release(m, address, amount).Some? ==>
              var m' := Release(m, address, amount).value;
              && Tokens(m') == Tokens(m) && m'.escrow == m.escrow - amount && m'.orders == m.orders
              && forall a :: Amount(m'.accounts, a) == Amount(m.accounts, a) + if a == address then amount else 0
  {
    CreditedMoves(m.accounts, address, amount);
  }

  lemma OrderCovered(m: Market, id: nat)
    requires Sound(m) && id in m.orders
    ensures m.orders[id].amount <= m.escrow
  {
    OwedRemove(m.orders, id);
  }

  // ---------------------------------------------------------------- runs

  datatype Event =
    | Creates(id: nat, order: SellOrder, minimum: u64, spendable: u64)
    | Edits(id: nat, amount: u64, requested: u64, receive: nat, minimum: u64, spendable: u64)
    | Deletes(id: nat)
    | Committee(instructions: Instructions)
    | Elsewhere(accounts: map<nat, u64>)

  /** `Elsewhere` is any transaction outside the book: it changes accounts as it likes. */
  ghost predicate Allowed(m: Market, e: Event)
  {
    match e
    case Creates(_, o, _, spendable) => spendable <= Amount(m.accounts, o.seller)
    case Edits(id, _, _, _, _, spendable) => id in m.orders ==> spendable <= Amount(m.accounts, m.orders[id].seller)
    case Elsewhere(accounts) => Total(accounts) + m.escrow < LIMIT
    case _ => true
  }

  ghost function Step(m: Market, e: Event): (m': Market)
    requires Allowed(m, e)
  {
    match e
    case Creates(id, o, minimum, spendable) => Or(Create(m, id, o, minimum, spendable), m)
    case Edits(id, amount, requested, receive, minimum, spendable) =>
      Or(Edit(m, id, amount, requested, receive, minimum, spendable), m)
    case Deletes(id) => Or(Delete(m, id), m)
    case Committee(i) => Swaps(m, i)
    case Elsewhere(accounts) => m.(accounts := accounts)
  }

  /** The seller pays into escrow what the order grew by, or gets back what it shrank by; nobody else is touched. */
  ghost predicate SellerPays(m: Market, m': Market, seller: nat, before: nat, after: nat)
  {
    forall a :: Amount(m'.accounts, a) + (if a == seller then after else 0) == Amount(m.accounts, a) + if a == seller then before else 0
  }

  lemma CreateKeeps(m: Market, id: nat, o: SellOrder, minimum: u64, spendable: u64)
    requires Sound(m) && spendable <= Amount(m.accounts, o.seller)
    ensures Create(m, id, o, minimum, spendable).Some? <==> minimum <= o.amount <= spendable || minimum == o.amount == 0
    ensures Create(m, id, o, minimum, spendable).Some? ==>
            var m' := Create(m, id, o, minimum, spendable).value;
            && Sound(m') && Tokens(m') == Tokens(m)
            && m'.orders == m.orders[id := SellOrder(o.amount, o.requested, o.seller, o.sellerReceive, None)]
            && Surplus(m') == Surplus(m) + AmountOf(m.orders, id)
            && SellerPays(m, m', o.seller, 0, o.amount) && m'.escrow == m.escrow + o.amount
  {
    if Create(m, id, o, minimum, spendable).Some? {
      DepositMoves(m, o.seller, o.amount, spendable);
      OwedUpdate(m.orders, id, o.(buyer := None));
    }
  }

  /** The difference between an order's old and new amount moves between its seller and escrow. */
  lemma EditMoves(m: Market, id: nat, amount: u64, spendable: u64)
    requires Sound(m) && id in m.orders && spendable <= Amount(m.accounts, m.orders[id].seller)
    requires m.orders[id].amount <= m.escrow
    ensures var o := m.orders[id];
            && (amount > o.amount ==>
                  var r := Deposit(m, o.seller, amount - o.amount, spendable);
                  && (r.Some? <==> amount <= o.amount + spendable)
                  && (r.Some? ==> Tokens(r.value) == Tokens(m) && r.value.escrow == m.escrow + amount - o.amount
                                  && SellerPays(m, r.value, o.seller, o.amount, amount)))
            && (amount < o.amount ==>
                  var r := Release(m, o.seller, o.amount - amount);
                  && r.Some? && Tokens(r.value) == Tokens(m) && r.value.escrow == m.escrow + amount - o.amount
                  && SellerPays(m, r.value, o.seller, o.amount, amount))
  {
    var o := m.orders[id];
    if amount > o.amount {
      if Deposit(m, o.seller, amount - o.amount, spendable).Some? {
        DepositMoves(m, o.seller, amount - o.amount, spendable);
      }
    } else if amount < o.amount {
      ReleaseMoves(m, o.seller, o.amount - amount);
    }
  }

  lemma EditKeeps(m: Market, id: nat, amount: u64, requested: u64, receive: nat, minimum: u64, spendable: u64)
    requires Sound(m) && (id in m.orders ==> spendable <= Amount(m.accounts, m.orders[id].seller))
    ensures Edit(m, id, amount, requested, receive, minimum, spendable).Some? <==>
              && id in m.orders && m.orders[id].buyer.None? && minimum <= amount
              && amount <= m.orders[id].amount + spendable
    ensures Edit(m, id, amount, requested, receive, minimum, spendable).Some? ==>
            var m' := Edit(m, id, amount, requested, receive, minimum, spendable).value;
            && Sound(m') && Tokens(m') == Tokens(m) && Surplus(m') == Surplus(m)
            && m'.orders == m.orders[id := SellOrder(amount, requested, m.orders[id].seller, receive, None)]
            && SellerPays(m, m', m.orders[id].seller, m.orders[id].amount, amount)
            && m'.escrow - m.escrow == amount - m.orders[id].amount
  {
    if id in m.orders {
      OrderCovered(m, id);
      EditMoves(m, id, amount, spendable);
      OwedUpdate(m.orders, id, SellOrder(amount, requested, m.orders[id].seller, receive, None));
    }
  }

  /** Deleting an open order never lacks funds. */
  lemma DeleteKeeps(m: Market, id: nat)
    requires Sound(m)
    ensures Delete(m, id).Some? <==> id in m.orders && m.orders[id].buyer.None?
    ensures Delete(m, id).Some? ==>
              && Sound(Delete(m, id).value) && Tokens(Delete(m, id).value) == Tokens(m)
              && Surplus(Delete(m, id).value) == Surplus(m)
              && SellerPays(m, Delete(m, id).value, m.orders[id].seller, m.orders[id].amount, 0)
              && Delete(m, id).value.escrow == m.escrow - m.orders[id].amount
  {
    if id in m.orders {
      OrderCovered(m, id);
      ReleaseMoves(m, m.orders[id].seller, m.orders[id].amount);
      OwedRemove(m.orders, id);
    }
  }

  /** Closing a locked order never lacks funds. */
  lemma CloseKeeps(m: Market, id: nat)
    requires Sound(m)
    ensures Close(m, id).Some? <==> id in m.orders && m.orders[id].buyer.Some?
    ensures Close(m, id).Some? ==>
              Sound(Close(m, id).value) && Tokens(Close(m, id).value) == Tokens(m) && Surplus(Close(m, id).value) == Surplus(m)
  {
    if id in m.orders && m.orders[id].buyer.Some? {
      OrderCovered(m, id);
      ReleaseMoves(m, m.orders[id].buyer.value.receive, m.orders[id].amount);
      OwedRemove(m.orders, id);
    }
  }

  /** Locking and resetting move nothing. */
  ghost predicate OnlyBuyers(m: Market, m': Market)
  {
    && m'.accounts == m.accounts && m'.escrow == m.escrow && m'.orders.Keys == m.orders.Keys
    && forall id <- m.orders :: m'.orders[id] == m.orders[id].(buyer := m'.orders[id].buyer)
  }

  lemma OnlyBuyersKeeps(m: Market, m': Market)
    requires Sound(m) && OnlyBuyers(m, m')
    ensures Sound(m') && Tokens(m') == Tokens(m) && Surplus(m') == Surplus(m)
  {
    assert Amounts(m'.orders) == Amounts(m.orders);
  }

  lemma {:induction false} LockAllOnlyBuyers(m: Market, locks: seq<LockOrder>)
    ensures OnlyBuyers(m, LockAll(m, locks))
    ensures forall id <- m.orders :: m.orders[id].buyer.Some? ==> LockAll(m, locks).orders[id] == m.orders[id]
    ensures forall id, k: nat :: id in m.orders && m.orders[id].buyer.None? && FirstNames(locks, k, id) ==>
              LockAll(m, locks).orders[id].buyer == Some(locks[k].buyer)
  {
    if locks != [] {
      LockAllOnlyBuyers(m, locks[..|locks| - 1]);
    }
    forall id, k: nat | id in m.orders && m.orders[id].buyer.None? && FirstNames(locks, k, id)
      ensures LockAll(m, locks).orders[id].buyer == Some(locks[k].buyer) {
      FirstLockWins(m, locks, id);
    }
  }

  /** Lock number k is the first of the list that names the order. */
  ghost predicate FirstNames(locks: seq<LockOrder>, k: nat, id: nat)
  {
    k < |locks| && locks[k].id == id && forall j :: 0 <= j < k ==> locks[j].id != id
  }

  /**
   * FIRST LOCK WINS: a free order ends up locked for exactly the buyer of the first lock that names it, and
   * stays free if none does; a locked order keeps its buyer.
   */
  lemma {:induction false} FirstLockWins(m: Market, locks: seq<LockOrder>, id: nat)
    requires id in m.orders
    ensures id in LockAll(m, locks).orders
    ensures var o, o' := m.orders[id], LockAll(m, locks).orders[id];
            && (o.buyer.Some? || (forall lock <- locks :: lock.id != id) ==> o' == o)
            && (forall k: nat :: o.buyer.None? && FirstNames(locks, k, id) ==> o' == o.(buyer := Some(locks[k].buyer)))
  {
    if locks != [] {
      var init, lock := locks[..|locks| - 1], locks[|locks| - 1];
      FirstLockWins(m, init, id);
      assert locks == init + [lock];
      forall k: nat | m.orders[id].buyer.None? && FirstNames(locks, k, id)
        ensures LockAll(m, locks).orders[id] == m.orders[id].(buyer := Some(locks[k].buyer)) {
        if k < |init| {
          assert FirstNames(init, k, id);
        } else {
          assert forall j :: 0 <= j < |init| ==> locks[j].id != id;
        }
      }
    }
  }

  lemma {:induction false} ResetAllOnlyBuyers(m: Market, resets: seq<nat>, closes: seq<nat>)
    ensures OnlyBuyers(m, ResetAll(m, resets, closes))
    ensures forall id <- m.orders ::
              ResetAll(m, resets, closes).orders[id].buyer
              == if id in resets && id !in closes then None else m.orders[id].buyer
  {
    if resets != [] {
      ResetAllOnlyBuyers(m, resets[..|resets| - 1], closes);
      assert resets == resets[..|resets| - 1] + [resets[|resets| - 1]];
    }
  }

  lemma {:induction false} CloseAllKeeps(m: Market, closes: seq<nat>)
    requires Sound(m)
    ensures var m' := CloseAll(m, closes);
            && Sound(m') && Tokens(m') == Tokens(m) && Surplus(m') == Surplus(m)
            && (forall id :: id in m'.orders <==> id in m.orders && !(id in closes && m.orders[id].buyer.Some?))
            && (forall id <- m'.orders :: m'.orders[id] == m.orders[id])
  {
    if closes != [] {
      var init, id := closes[..|closes| - 1], closes[|closes| - 1];
      assert closes == init + [id];
      CloseAllKeeps(m, init);
      CloseKeeps(CloseAll(m, init), id);
    }
  }

  lemma SwapsKeep(m: Market, i: Instructions)
    requires Sound(m)
    ensures Sound(Swaps(m, i)) && Tokens(Swaps(m, i)) == Tokens(m) && Surplus(Swaps(m, i)) == Surplus(m)
  {
    var m1 := LockAll(m, i.locks);
    var m2 := ResetAll(m1, i.resets, i.closes);
    LockAllOnlyBuyers(m, i.locks);
    OnlyBuyersKeeps(m, m1);
    ResetAllOnlyBuyers(m1, i.resets, i.closes);
    OnlyBuyersKeeps(m1, m2);
    CloseAllKeeps(m2, i.closes);
  }

  /** Surplus appears only where a new order takes the place of an old one with the same id. */
  lemma StepKeepsSound(m: Market, e: Event)
    requires Sound(m) && Allowed(m, e)
    ensures Sound(Step(m, e)) && (!e.Elsewhere? ==> Tokens(Step(m, e)) == Tokens(m))
    ensures Surplus(Step(m, e)) == Surplus(m)
            || (e.Creates? && Surplus(Step(m, e)) == Surplus(m) + AmountOf(m.orders, e.id))
  {
    match e
    case Creates(id, o, minimum, spendable) =>
      if Create(m, id, o, minimum, spendable).Some? {
        CreateKeeps(m, id, o, minimum, spendable);
      }
    case Edits(id, amount, requested, receive, minimum, spendable) =>
      if Edit(m, id, amount, requested, receive, minimum, spendable).Some? {
        EditKeeps(m, id, amount, requested, receive, minimum, spendable);
      }
    case Deletes(id) => DeleteKeeps(m, id);
    case Committee(i) => SwapsKeep(m, i);
    case Elsewhere(_) =>
  }

  ghost predicate IsRun(states: seq<Market>, events: seq<Event>)
  {
    && |states| == |events| + 1
    && forall i :: 0 <= i < |events| ==> Allowed(states[i], events[i]) && states[i + 1] == Step(states[i], events[i])
  }

  /** Order ids come from transaction hashes: no order is created under an id that is still in the book. */
  ghost predicate FreshIds(states: seq<Market>, events: seq<Event>)
    requires |states| == |events| + 1
  {
    forall i :: 0 <= i < |events| && events[i].Creates? ==> events[i].id !in states[i].orders
  }

  /**
   * ESCROW: in every state of every run, whatever else happens to the accounts, the pool covers the sum of its
   * orders; with fresh order ids it holds exactly what it held beyond the orders at the start. The book itself
   * neither makes nor loses a token.
   */
  lemma {:induction false} EscrowAlwaysCovers(states: seq<Market>, events: seq<Event>, i: nat)
    requires IsRun(states, events) && Sound(states[0]) && i < |states|
    ensures Sound(states[i]) && Surplus(states[i]) >= Surplus(states[0])
    ensures (forall j :: 0 <= j < |events| ==> !events[j].Elsewhere?) ==> Tokens(states[i]) == Tokens(states[0])
    ensures FreshIds(states, events) ==> Surplus(states[i]) == Surplus(states[0])
  {
    if i > 0 {
      EscrowAlwaysCovers(states, events, i - 1);
      StepKeepsSound(states[i - 1], events[i - 1]);
    }
  }

  // ---------------------------------------------------------------- locked orders

  /** Which instructions of one set can touch a locked order: a reset without a close, or a close. */
  predicate Resets(e: Event, id: nat)
  {
    e.Committee? && id in e.instructions.resets && id !in e.instructions.closes
  }

  predicate Closes(e: Event, id: nat)
  {
    e.Committee? && id in e.instructions.closes
  }

  /**
   * A locked order stays exactly as it is until the committee resets or closes it: not created anew, it
   * cannot be edited, deleted or locked again. A reset only frees it, and a close removes it.
   */
  lemma LockedOrderIsFixed(m: Market, e: Event, id: nat)
    requires Sound(m) && Allowed(m, e) && id in m.orders && m.orders[id].buyer.Some?
    requires e.Creates? ==> e.id != id
    ensures var m' := Step(m, e);
            && (Closes(e, id) <==> id !in m'.orders)
            && (Resets(e, id) ==> id in m'.orders && m'.orders[id] == m.orders[id].(buyer := None))
            && (!Closes(e, id) && !Resets(e, id) ==> id in m'.orders && m'.orders[id] == m.orders[id])
  {
    if e.Committee? {
      var i := e.instructions;
      var m1 := LockAll(m, i.locks);
      var m2 := ResetAll(m1, i.resets, i.closes);
      LockAllOnlyBuyers(m, i.locks);
      OnlyBuyersKeeps(m, m1);
      ResetAllOnlyBuyers(m1, i.resets, i.closes);
      OnlyBuyersKeeps(m1, m2);
      CloseAllKeeps(m2, i.closes);
    }
  }

  /** An order locked by instruction set `n` carries the buyer of its first lock until a reset or a close. */
  lemma {:induction false} LockHoldsItsBuyer(states: seq<Market>, events: seq<Event>, n: nat, c: nat, id: nat, lock: LockOrder)
    requires IsRun(states, events) && Sound(states[0])
    requires LockedAt(states, events, n, id, lock) && n < c <= |events|
    requires forall j :: n < j < c ==> Undisturbed(events[j], id)
    ensures id in states[c].orders && states[c].orders[id] == states[n].orders[id].(buyer := Some(lock.buyer))
    decreases c
  {
    EscrowAlwaysCovers(states, events, c - 1);
    if c == n + 1 {
      LockSetLocks(states[n], events[n].instructions, id, lock);
    } else {
      LockHoldsItsBuyer(states, events, n, c - 1, id, lock);
      LockedOrderIsFixed(states[c - 1], events[c - 1], id);
    }
  }

  /** The event neither frees nor removes the order, nor puts another in its place. */
  predicate Undisturbed(e: Event, id: nat)
  {
    !Resets(e, id) && !Closes(e, id) && !(e.Creates? && e.id == id)
  }

  /** Instruction set `n` finds the order free, and `lock` is its first lock of that order. */
  ghost predicate LockedAt(states: seq<Market>, events: seq<Event>, n: nat, id: nat, lock: LockOrder)
    requires |states| == |events| + 1
  {
    && n < |events| && events[n].Committee? && Undisturbed(events[n], id)
    && id in states[n].orders && states[n].orders[id].buyer.None?
    && exists k: nat :: FirstNames(events[n].instructions.locks, k, id) && lock == events[n].instructions.locks[k]
  }

  lemma LockSetLocks(m: Market, i: Instructions, id: nat, lock: LockOrder)
    requires Sound(m) && id in m.orders && m.orders[id].buyer.None? && Undisturbed(Committee(i), id)
    requires exists k: nat :: FirstNames(i.locks, k, id) && lock == i.locks[k]
    ensures id in Swaps(m, i).orders && Swaps(m, i).orders[id] == m.orders[id].(buyer := Some(lock.buyer))
  {
    var m1 := LockAll(m, i.locks);
    var m2 := ResetAll(m1, i.resets, i.closes);
    FirstLockWins(m, i.locks, id);
    LockAllOnlyBuyers(m, i.locks);
    OnlyBuyersKeeps(m, m1);
    ResetAllOnlyBuyers(m1, i.resets, i.closes);
    OnlyBuyersKeeps(m1, m2);
    CloseAllKeeps(m2, i.closes);
  }

  /**
   * A CLOSE PAYS THE LOCK'S BUYER: in every run, closing an order pays its amount to the receiving address of
   * the lock instruction that locked it, once, and to nobody else.
   */
  lemma ClosePaysTheLocksBuyer(states: seq<Market>, events: seq<Event>, n: nat, c: nat, id: nat, lock: LockOrder, a: nat)
    requires IsRun(states, events) && Sound(states[0])
    requires LockedAt(states, events, n, id, lock) && n < c < |events|
    requires forall j :: n < j < c ==> Undisturbed(events[j], id)
    requires events[c].Committee? && id in events[c].instructions.closes
    requires forall x <- events[c].instructions.closes :: x == id
    ensures states[c + 1].orders.Keys == states[c].orders.Keys - {id}
    ensures Amount(states[c + 1].accounts, a)
            == Amount(states[c].accounts, a) + if a == lock.buyer.receive then states[n].orders[id].amount else 0
  {
    EscrowAlwaysCovers(states, events, c);
    LockHoldsItsBuyer(states, events, n, c, id, lock);
    OneClosePays(states[c], events[c].instructions, id, a);
  }

  lemma OneClosePays(m: Market, i: Instructions, id: nat, a: nat)
    requires Sound(m) && id in m.orders && m.orders[id].buyer.Some?
    requires id in i.closes && forall x <- i.closes :: x == id
    ensures Swaps(m, i).orders.Keys == m.orders.Keys - {id}
    ensures Amount(Swaps(m, i).accounts, a)
            == Amount(m.accounts, a) + if a == m.orders[id].buyer.value.receive then m.orders[id].amount else 0
  {
    var m1 := LockAll(m, i.locks);
    var mid := ResetAll(m1, i.resets, i.closes);
    LockAllOnlyBuyers(m, i.locks);
    OnlyBuyersKeeps(m, m1);
    ResetAllOnlyBuyers(m1, i.resets, i.closes);
    OnlyBuyersKeeps(m1, mid);
    assert mid.orders[id] == m.orders[id];
    ClosesPayOnce(mid, i.closes, id, a);
  }

  /** However often a list names the one order it closes, it is paid out once. */
  lemma ClosesPayOnce(m: Market, closes: seq<nat>, id: nat, a: nat)
    requires Sound(m) && id in m.orders && m.orders[id].buyer.Some?
    requires id in closes && forall x <- closes :: x == id
    ensures CloseAll(m, closes).orders == m.orders - {id}
    ensures Amount(CloseAll(m, closes).accounts, a)
            == Amount(m.accounts, a) + if a == m.orders[id].buyer.value.receive then m.orders[id].amount else 0
  {
    CloseAllKeeps(m, closes);
    CloseAllPays(m, closes, a);
    DueWithout(m.orders, id, a);
  }

  lemma DueWithout(orders: map<nat, SellOrder>, id: nat, a: nat)
    requires id in orders && orders[id].buyer.Some?
    ensures DueTo(orders, a) == DueTo(orders - {id}, a) + if a == orders[id].buyer.value.receive then orders[id].amount else 0
  {
    TotalAt(DueAmounts(orders, a), id);
    assert DueAmounts(orders - {id}, a) == DueAmounts(orders, a) - {id};
  }

  /** What the locked orders owe to one receiving address. */
  function DueAmounts(orders: map<nat, SellOrder>, a: nat): (amounts: map<nat, u64>)
  {
    map id | id in orders && orders[id].buyer.Some? && orders[id].buyer.value.receive == a :: orders[id].amount
  }

  ghost function DueTo(orders: map<nat, SellOrder>, a: nat): (due: nat)
  {
    Total(DueAmounts(orders, a))
  }

  lemma ClosePaysOnce(m: Market, id: nat, a: nat)
    requires Sound(m)
    ensures var m' := Or(Close(m, id), m);
            Amount(m'.accounts, a) + DueTo(m'.orders, a) == Amount(m.accounts, a) + DueTo(m.orders, a)
  {
    CloseKeeps(m, id);
    if Close(m, id).Some? {
      var o := m.orders[id];
      ReleaseMoves(m, o.buyer.value.receive, o.amount);
      TotalAt(DueAmounts(m.orders, a), id);
      assert DueAmounts(m.orders - {id}, a) == DueAmounts(m.orders, a) - {id};
    }
  }

  lemma {:induction false} CloseAllPays(m: Market, closes: seq<nat>, a: nat)
    requires Sound(m)
    ensures var m' := CloseAll(m, closes);
            Amount(m'.accounts, a) + DueTo(m'.orders, a) == Amount(m.accounts, a) + DueTo(m.orders, a)
  {
    if closes != [] {
      CloseAllPays(m, closes[..|closes| - 1], a);
      CloseAllKeeps(m, closes[..|closes| - 1]);
      ClosePaysOnce(CloseAll(m, closes[..|closes| - 1]), closes[|closes| - 1], a);
    }
  }

  /**
   * CLOSING PAYS ONCE: an instruction set removes exactly the closed orders that were locked, and every
   * address receives exactly the amounts of the removed orders that were locked for it, even if an order
   * is named more than once.
   */
  lemma ClosingPaysOnce(m: Market, i: Instructions, a: nat)
    requires Sound(m)
    ensures var mid, m' := ResetAll(LockAll(m, i.locks), i.resets, i.closes), Swaps(m, i);
            && mid.accounts == m.accounts && mid.orders.Keys == m.orders.Keys
            && (forall id :: id in m'.orders <==> id in mid.orders && !(id in i.closes && mid.orders[id].buyer.Some?))
            && Amount(m'.accounts, a) == Amount(m.accounts, a) + DueTo(mid.orders, a) - DueTo(m'.orders, a)
  {
    var m1 := LockAll(m, i.locks);
    var m2 := ResetAll(m1, i.resets, i.closes);
    LockAllOnlyBuyers(m, i.locks);
    OnlyBuyersKeeps(m, m1);
    ResetAllOnlyBuyers(m1, i.resets, i.closes);
    OnlyBuyersKeeps(m1, m2);
    CloseAllKeeps(m2, i.closes);
    CloseAllPays(m2, i.closes, a);
  }

  // ---------------------------------------------------------------- in place

  class Book {
    var accounts: map<nat, u64>
    var escrow: u64
    var orders: map<nat, SellOrder>

    function State(): (m: Market)
      reads this
    {
      Market(accounts, escrow, orders)
    }

    constructor (m: Market)
      ensures State() == m
    {
      accounts, escrow, orders := m.accounts, m.escrow, m.orders;
    }

    method AccountAdd(address: nat, amount: u64) returns (ok: bool)
      modifies this`accounts
      ensures ok <==> Credited(old(accounts), address, amount).Some?
      ensures accounts == if ok then Credited(old(accounts), address, amount).value else old(accounts)
    {
      if amount == 0 {
        return true;
      }
      var balance := Amount(accounts, address);
      if balance > LIMIT - 1 - amount {
        return false;
      }
      accounts := accounts[address := balance + amount];
      return true;
    }

    method AccountSub(address: nat, amount: u64, spendable: u64) returns (ok: bool)
      requires spendable <= Amount(accounts, address)
      modifies this`accounts
      ensures ok <==> Debited(old(accounts), address, amount, spendable).Some?
      ensures accounts == if ok then Debited(old(accounts), address, amount, spendable).value else old(accounts)
    {
      if amount == 0 {
        return true;
      }
      if spendable < amount {
        return false;
      }
      accounts := accounts[address := Amount(accounts, address) - amount];
      return true;
    }

    method HandleMessageCreateOrder(id: nat, o: SellOrder, minimum: u64, spendable: u64) returns (ok: bool)
      requires spendable <= Amount(accounts, o.seller)
      modifies this
      ensures ok <==> Create(old(State()), id, o, minimum, spendable).Some?
      ensures ok ==> State() == Create(old(State()), id, o, minimum, spendable).value
      ensures ok && Sound(old(State())) ==>
                && Sound(State()) && escrow == old(escrow) + o.amount && SellerPays(old(State()), State(), o.seller, 0, o.amount)
    {
      ghost var before := State();
      if Sound(before) && Create(before, id, o, minimum, spendable).Some? {
        CreateKeeps(before, id, o, minimum, spendable);
      }
      if o.amount < minimum {
        return false;
      }
      ok := AccountSub(o.seller, o.amount, spendable);
      if ok {
        escrow := (escrow + o.amount) % LIMIT;
        orders := orders[id := o.(buyer := None)];
      }
    }

    method HandleMessageEditOrder(id: nat, amount: u64, requested: u64, receive: nat, minimum: u64, spendable: u64)
      returns (ok: bool)
      requires id in orders ==> spendable <= Amount(accounts, orders[id].seller)
      modifies this
      ensures ok <==> Edit(old(State()), id, amount, requested, receive, minimum, spendable).Some?
      ensures ok ==> State() == Edit(old(State()), id, amount, requested, receive, minimum, spendable).value
      ensures ok && Sound(old(State())) ==>
                && Sound(State()) && escrow - old(escrow) == amount - old(orders)[id].amount
                && SellerPays(old(State()), State(), old(orders)[id].seller, old(orders)[id].amount, amount)
    {
      ghost var before := State();
      if Sound(before) && Edit(before, id, amount, requested, receive, minimum, spendable).Some? {
        EditKeeps(before, id, amount, requested, receive, minimum, spendable);
      }
      if id !in orders || orders[id].buyer.Some? || amount < minimum {
        return false;
      }
      var o := orders[id];
      ok := true;
      if amount > o.amount {
        ok := AccountSub(o.seller, amount - o.amount, spendable);
        escrow := (escrow + (amount - o.amount)) % LIMIT;
      } else if amount < o.amount {
        if escrow < o.amount - amount {
          return false;
        }
        escrow := escrow - (o.amount - amount);
        ok := AccountAdd(o.seller, o.amount - amount);
      }
      if ok {
        orders := orders[id := SellOrder(amount, requested, o.seller, receive, None)];
      }
    }

    method HandleMessageDeleteOrder(id: nat) returns (ok: bool)
      modifies this
      ensures ok <==> Delete(old(State()), id).Some?
      ensures ok ==> State() == Delete(old(State()), id).value
      ensures Sound(old(State())) ==> (ok <==> id in old(orders) && old(orders)[id].buyer.None?)
      ensures ok && Sound(old(State())) ==>
                && Sound(State()) && escrow == old(escrow) - old(orders)[id].amount
                && SellerPays(old(State()), State(), old(orders)[id].seller, old(orders)[id].amount, 0)
    {
      ghost var before := State();
      if Sound(before) {
        DeleteKeeps(before, id);
      }
      if id !in orders || orders[id].buyer.Some? || escrow < orders[id].amount {
        return false;
      }
      var o := orders[id];
      escrow := escrow - o.amount;
      ok := AccountAdd(o.seller, o.amount);
      if ok {
        orders := orders - {id};
      }
    }

    /** Locking touches only the named order, and only if nobody has it. */
    method Locking(lock: LockOrder)
      modifies this`orders
      ensures State() == Or(Lock(old(State()), lock), old(State()))
      ensures OnlyBuyers(old(State()), State())
      ensures forall id <- orders :: old(orders)[id].buyer.Some? || id != lock.id ==> orders[id] == old(orders)[id]
      ensures lock.id in old(orders) && old(orders)[lock.id].buyer.None? ==>
                lock.id in orders && orders[lock.id] == old(orders)[lock.id].(buyer := Some(lock.buyer))
    {
      if lock.id in orders && orders[lock.id].buyer.None? {
        orders := orders[lock.id := orders[lock.id].(buyer := Some(lock.buyer))];
      }
    }

    /** Resetting frees the named order and touches nothing else. */
    method Resetting(id: nat)
      modifies this`orders
      ensures State() == Or(Reset(old(State()), id), old(State()))
      ensures OnlyBuyers(old(State()), State())
      ensures forall k <- orders :: orders[k].buyer == if k == id then None else old(orders)[k].buyer
    {
      if id in orders {
        orders := orders[id := orders[id].(buyer := None)];
      }
    }

    /** Both legs are checked before either moves, so a failing close changes nothing. */
    method Closing(id: nat)
      modifies this
      ensures State() == Or(Close(old(State()), id), old(State()))
      ensures Sound(old(State())) ==> Sound(State())
      ensures Sound(old(State())) ==> forall a ::
                Amount(accounts, a) + DueTo(orders, a) == Amount(old(accounts), a) + DueTo(old(orders), a)
      ensures Sound(old(State())) ==>
                (id in orders <==> id in old(orders) && old(orders)[id].buyer.None?)
    {
      ghost var before := State();
      if Sound(before) {
        CloseKeeps(before, id);
        forall a ensures Amount(Or(Close(before, id), before).accounts, a) + DueTo(Or(Close(before, id), before).orders, a)
                         == Amount(before.accounts, a) + DueTo(before.orders, a) {
          ClosePaysOnce(before, id, a);
        }
      }
      if id !in orders || orders[id].buyer.None? {
        return;
      }
      var o := orders[id];
      var receive := o.buyer.value.receive;
      if Amount(accounts, receive) > LIMIT - 1 - o.amount || escrow < o.amount {
        return;
      }
      escrow := escrow - o.amount;
      var ok := AccountAdd(receive, o.amount);
      orders := orders - {id};
    }

    method CloseSet(closes: seq<nat>) returns (ids: set<nat>)
      ensures forall id :: id in ids <==> id in closes
    {
      ids := {};
      for k := 0 to |closes|
        invariant forall id :: id in ids <==> id in closes[..k]
      {
        ids := ids + {closes[k]};
        assert closes[..k + 1] == closes[..k] + [closes[k]];
      }
      assert closes[..|closes|] == closes;
    }

    method HandleCommitteeSwaps(i: Instructions)
      modifies this
      ensures State() == Swaps(old(State()), i)
    {
      var closeSet := CloseSet(i.closes);
      for k := 0 to |i.locks|
        invariant State() == LockAll(old(State()), i.locks[..k])
      {
        assert i.locks[..k + 1][..k] == i.locks[..k];
        Locking(i.locks[k]);
      }
      assert i.locks[..|i.locks|] == i.locks;
      ghost var locked := State();
      for k := 0 to |i.resets|
        invariant State() == ResetAll(locked, i.resets[..k], i.closes)
      {
        assert i.resets[..k + 1][..k] == i.resets[..k];
        if i.resets[k] !in closeSet {
          Resetting(i.resets[k]);
        }
      }
      assert i.resets[..|i.resets|] == i.resets;
      ghost var reset := State();
      for k := 0 to |i.closes|
        invariant State() == CloseAll(reset, i.closes[..k])
      {
        assert i.closes[..k + 1][..k] == i.closes[..k];
        Closing(i.closes[k]);
      }
      assert i.closes[..|i.closes|] == i.closes;
    }
  }

  // ---------------------------------------------------------------- the instructions a nested chain derives

  /** An order as the root chain lists it. */
  datatype Listed = Listed(id: nat, order: SellOrder)

  /** A payment found in a recent block. */
  datatype Payment = Payment(from: nat, to: nat, amount: u64)

  /** What the parsed blocks contain: lock requests, close requests, and the payments made with them. */
  datatype Found = Found(locks: map<nat, LockOrder>, closes: set<nat>, sends: map<nat, seq<Payment>>)

  /** Some payment settles the order: exact amount, from the locked buyer, to where the seller asked. */
  ghost predicate Paid(sends: seq<Payment>, o: SellOrder)
  {
    o.buyer.Some? && Payment(o.buyer.value.send, o.sellerReceive, o.requested) in sends
  }

  method HasValidSend(sends: seq<Payment>, o: SellOrder) returns (valid: bool)
    requires o.buyer.Some?
    ensures valid <==> Paid(sends, o)
  {
    valid := false;
    for i := 0 to |sends|
      invariant valid <==> Paid(sends[..i], o)
    {
      assert sends[..i + 1] == sends[..i] + [sends[i]];
      var p := sends[i];
      if p.amount == o.requested && p.from == o.buyer.value.send && p.to == o.sellerReceive {
        valid := true;
      }
    }
    assert sends[..|sends|] == sends;
  }

  /**
   * ProcessRootChainOrderBook: an order is listed for locking, resetting or closing exactly when its state
   * and the found transactions call for it; in particular it is closed only for an exact payment by the
   * locked buyer before the deadline.
   */
  method ProcessRootChainOrderBook(book: seq<Listed>, f: Found, height: nat) returns (i: Instructions)
    requires forall id <- f.locks :: f.locks[id].id == id
    ensures forall l :: l in i.locks <==> exists o <- book :: o.order.buyer.None? && o.id in f.locks && l == f.locks[o.id]
    ensures forall id :: id in i.resets <==>
              exists o <- book :: o.id == id && o.order.buyer.Some? && o.order.buyer.value.deadline < height
    ensures forall id :: id in i.closes <==>
              exists o <- book :: o.id == id && o.order.buyer.Some? && height <= o.order.buyer.value.deadline
                && id in f.closes && id in f.sends && Paid(f.sends[id], o.order)
  {
    var locks: seq<LockOrder>, resets: seq<nat>, closes: seq<nat> := [], [], [];
    for n := 0 to |book|
      invariant forall l :: l in locks <==> exists o <- book[..n] :: o.order.buyer.None? && o.id in f.locks && l == f.locks[o.id]
      invariant forall id :: id in resets <==>
                  exists o <- book[..n] :: o.id == id && o.order.buyer.Some? && o.order.buyer.value.deadline < height
      invariant forall id :: id in closes <==>
                  exists o <- book[..n] :: o.id == id && o.order.buyer.Some? && height <= o.order.buyer.value.deadline
                    && id in f.closes && id in f.sends && Paid(f.sends[id], o.order)
    {
      assert book[..n + 1] == book[..n] + [book[n]];
      var o := book[n];
      if o.order.buyer.None? {
        if o.id in f.locks {
          locks := locks + [f.locks[o.id]];
        }
      } else if height > o.order.buyer.value.deadline {
        resets := resets + [o.id];
      } else if o.id in f.closes && o.id in f.sends {
        var valid := HasValidSend(f.sends[o.id], o.order);
        if valid {
          closes := closes + [o.id];
        }
      }
    }
    assert book[..|book|] == book;
    i := Instructions(locks, resets, closes);
  }
}
