/**
 * Runs of the two chains: each keeps collecting operations, includes late ones in the block that locks a
 * batch, publishes its locked batch at the end of a block, and processes any batch the other chain has
 * ever published, however stale. Outside additions to the pools, the liveness fallback and committee
 * resets are not part of these runs.
 */
module DexMirror {
  import opened Options
  import opened Uint64
  import opened LpPoints
  import opened LpWithdrawals
  import opened LpDeposits
  import opened AmmOrders
  import opened DexBatches
  import opened DexChains

  datatype Side = A | B
  {
    function Opposite(): (s: Side) { if this == A then B else A }
  }

  /** A batch that a chain has applied to its ledger: whose it was, and the receipts of its orders. */
  datatype Entry = Entry(owner: Side, batch: Batch, receipts: seq<u64>)

  datatype Node = Node(chain: Chain, published: set<Batch>, applied: seq<Entry>, height: nat)

  datatype Net = Net(a: Node, b: Node)
  {
    function At(side: Side): (n: Node) { if side == A then a else b }
    function With(side: Side, n: Node): (net: Net) { if side == A then this.(a := n) else this.(b := n) }
  }

  datatype Event =
    | Process(side: Side, remote: Batch, keyed: seq<Keyed>, sorted: seq<Keyed>)
    | Collect(side: Side, chain: Chain)
    | IncludeLate(side: Side)
    | NextBlock(side: Side)

  /** Collecting operations touches accounts, holding pool and next batch only. */
  predicate Collects(c: Chain, c': Chain)
  {
    && c'.pool == c.pool && c'.table == c.table && c'.locked == c.locked
    && c'.next.receipts == c.next.receipts && c'.next.receiptHash == c.next.receiptHash
  }

  predicate Enabled(s: Net, e: Event)
  {
    match e
    case Process(side, remote, keyed, sorted) =>
      IsEmpty(remote) || (remote in s.At(side.Opposite()).published && Shuffled(remote, keyed, sorted))
    case Collect(side, chain) => Collects(s.At(side).chain, chain)
    case IncludeLate(_) => true
    case NextBlock(_) => true
  }

  /** The batches a chain applies when it processes `remote`. */
  function Performed(side: Side, c: Chain, remote: Batch, keyed: seq<Keyed>, sorted: seq<Keyed>): (entries: seq<Entry>)
  {
    if IsEmpty(remote) || !SettleOwn(c, remote).Done? then []
    else
      var done := SettleOwn(c, remote);
      var executed := ExecuteRemote(done.chain, done.shadow, remote, keyed, sorted);
      (if IsEmpty(c.locked) then [] else [Entry(side, c.locked, remote.receipts)])
      + (if executed.None? then [] else [Entry(side.Opposite(), remote, executed.value.2)])
  }

  /** HandleDexBatch on one node: nothing happens without liquidity, and an error changes nothing. */
  function ProcessOn(side: Side, n: Node, remote: Batch, keyed: seq<Keyed>, sorted: seq<Keyed>): (n': Node)
  {
    var handled := HandleRemote(n.chain, remote, keyed, sorted, n.height);
    if n.chain.pool == 0 || handled.None? then n
    else n.(chain := handled.value, applied := n.applied + Performed(side, n.chain, remote, keyed, sorted))
  }

  function Apply(s: Net, e: Event): (t: Net)
  {
    match e
    case Process(side, remote, keyed, sorted) => s.With(side, ProcessOn(side, s.At(side), remote, keyed, sorted))
    case Collect(side, chain) => s.With(side, s.At(side).(chain := chain))
    case IncludeLate(side) => s.With(side, s.At(side).(chain := Include(s.At(side).chain, s.At(side).height)))
    case NextBlock(side) =>
      var n := s.At(side);
      s.With(side, n.(height := n.height + 1,
                      published := n.published + if IsEmpty(n.chain.locked) then {} else {n.chain.locked}))
  }

  // ---------------------------------------------------------------- the common ledger

  /** Both reserves and the point table, as the log of applied batches determines them. */
  datatype Global = Global(a: u64, b: u64, table: Table)
  {
    function Part(side: Side): (amount: u64) { if side == A then a else b }
  }

  function Oriented(g: Global, owner: Side): (l: Ledger)
  {
    Ledger(g.Part(owner), g.Part(owner.Opposite()), g.table)
  }

  function Placed(l: Ledger, owner: Side): (g: Global)
  {
    if owner == A then Global(l.x, l.y, l.table) else Global(l.y, l.x, l.table)
  }

  function Replay1(g: Global, e: Entry): (r: Option<Global>)
  {
    if |e.receipts| != |e.batch.orders| then None
    else
      var o := Settle(Oriented(g, e.owner), e.batch, e.receipts);
      if o.None? then None else Some(Placed(o.value.ledger, e.owner))
  }

  /** The ledger after a log of batches. */
  function Replay(g: Global, log: seq<Entry>): (r: Option<Global>)
  {
    if log == [] then Some(g)
    else
      var before := Replay(g, log[..|log| - 1]);
      if before.None? then None else Replay1(before.value, log[|log| - 1])
  }

  // ---------------------------------------------------------------- the invariant

  /** How many hash links a batch has behind it. */
  function Depth(b: Batch): (d: nat)
  {
    match b.receiptHash
    case NoHash => 0
    case EmptyHash => 1
    case HashOf(batch) => 1 + Depth(batch)
  }

  predicate Ascending(log: seq<Entry>)
  {
    forall i, j :: 0 <= i < j < |log| ==> Depth(log[i].batch) < Depth(log[j].batch)
  }

  /** The node's own reserve and its point table are those of the log it has applied. */
  ghost predicate Follows(g0: Global, n: Node, side: Side)
  {
    && Replay(g0, n.applied).Some?
    && Replay(g0, n.applied).value.Part(side) == n.chain.pool
    && Replay(g0, n.applied).value.table == n.chain.table
  }

  ghost predicate NodeInv(g0: Global, n: Node, side: Side)
  {
    && Follows(g0, n, side)
    && n.chain.next.receipts == []
    && (IsEmpty(n.chain.locked) ==> n.published == {})
    && (!IsEmpty(n.chain.locked) ==> Depth(n.chain.locked) >= 2 && n.chain.locked.lockedHeight <= n.height)
    && (n.chain.locked in n.published ==> n.chain.locked.lockedHeight < n.height)
    && (forall r <- n.published :: Depth(r) >= 2 && (r == n.chain.locked || Depth(r) < Depth(n.chain.locked)))
    && Ascending(n.applied)
  }

  /** A batch locked before the chain had seen any batch of the other one. */
  predicate First(n: Node)
  {
    !IsEmpty(n.chain.locked) && Depth(n.chain.locked) == 2 && n.applied == []
  }

  /** `lead` has answered the locked batch of `wait`; `wait` has not yet processed the answer. */
  ghost predicate Answered(g0: Global, lead: Node, wait: Node, leader: Side)
  {
    var mine, theirs := lead.chain.locked, wait.chain.locked;
    && !IsEmpty(theirs) && theirs in wait.published
    && mine.receiptHash == HashOf(theirs)
    && |mine.receipts| == |theirs.orders|
    && lead.applied == wait.applied + [Entry(leader.Opposite(), theirs, mine.receipts)]
    && Follows(g0, wait, leader.Opposite())
    && mine.poolSize == Replay(g0, wait.applied).value.Part(leader)
    && Depth(mine) == Depth(theirs) + 1
  }

  predicate Idle(n: Node)
  {
    IsEmpty(n.chain.locked) && n.applied == []
  }

  predicate Opening(n: Node)
  {
    First(n) && n.chain.locked.poolSize == n.chain.pool
  }

  /** Neither chain has a batch; one has its first; both locked a first batch; or one answered the other. */
  ghost predicate Mode(g0: Global, me: Node, other: Node, side: Side)
  {
    || (Idle(me) && Idle(other))
    || (Opening(me) && Idle(other))
    || (Idle(me) && Opening(other))
    || (First(me) && First(other))
    || Answered(g0, me, other, side)
    || Answered(g0, other, me, side.Opposite())
  }

  ghost predicate PairInv(g0: Global, me: Node, other: Node, side: Side)
  {
    NodeInv(g0, me, side) && NodeInv(g0, other, side.Opposite()) && Mode(g0, me, other, side)
  }

  ghost predicate Inv(g0: Global, s: Net)
  {
    PairInv(g0, s.a, s.b, A)
  }

  // ---------------------------------------------------------------- each step keeps it

  lemma ReplayExtends(g0: Global, log: seq<Entry>, e: Entry)
    requires Replay(g0, log).Some?
    ensures Replay(g0, log + [e]) == Replay1(Replay(g0, log).value, e)
  {
    assert (log + [e])[..|log|] == log;
  }

  lemma OrientedPlaced(l: Ledger, owner: Side)
    ensures Oriented(Placed(l, owner), owner) == l
    ensures Oriented(Placed(l, owner), owner.Opposite()) == Ledger(l.y, l.x, l.table)
  {
  }

  /** The answering chain's mid-point: its own batch settled, its shadow equal to the other's reserve. */
  lemma SettlingFollowsLog(g0: Global, lead: Node, wait: Node, leader: Side)
    requires Answered(g0, lead, wait, leader) && Follows(g0, lead, leader)
    requires SettleOwn(wait.chain, lead.chain.locked).Done?
    ensures var done, g := SettleOwn(wait.chain, lead.chain.locked), Replay(g0, lead.applied).value;
            && LedgerOf(done.chain, done.shadow, true) == Oriented(g, leader.Opposite())
            && done.chain.next == wait.chain.next && IsEmpty(done.chain.locked)
  {
    var remote := lead.chain.locked;
    SettleOwnFollowsLedger(wait.chain, remote);
    assert LedgerOf(wait.chain, remote.poolSize, true) == Oriented(Replay(g0, wait.applied).value, leader.Opposite());
    ReplayExtends(g0, wait.applied, Entry(leader.Opposite(), wait.chain.locked, remote.receipts));
    OrientedPlaced(Settle(LedgerOf(wait.chain, remote.poolSize, true), wait.chain.locked, remote.receipts).value.ledger,
                   leader.Opposite());
  }

  /** Executing the other chain's batch extends the log by exactly that batch and its receipts. */
  lemma ExecutingFollowsLog(g0: Global, log: seq<Entry>, c: Chain, shadow: u64, remote: Batch, owner: Side,
                            keyed: seq<Keyed>, sorted: seq<Keyed>)
    requires Replay(g0, log).Some? && LedgerOf(c, shadow, false) == Oriented(Replay(g0, log).value, owner)
    requires Shuffled(remote, keyed, sorted) && ExecuteRemote(c, shadow, remote, keyed, sorted).Some?
    ensures var (c', _, receipts) := ExecuteRemote(c, shadow, remote, keyed, sorted).value;
            var more := log + [Entry(owner, remote, receipts)];
            && |receipts| == |remote.orders|
            && Replay(g0, more).Some?
            && Replay(g0, more).value.Part(owner.Opposite()) == c'.pool
            && Replay(g0, more).value.table == c'.table
            && c'.next == c.next && c'.locked == c.locked
  {
    var receipts := ExecuteRemote(c, shadow, remote, keyed, sorted).value.2;
    ExecuteRemoteFollowsLedger(c, shadow, remote, keyed, sorted);
    MirroredExecution(LedgerOf(c, shadow, false), remote, keyed, sorted);
    ReplayExtends(g0, log, Entry(owner, remote, receipts));
  }

  /** What processing a batch can do: nothing, or settle, execute and rotate. */
  lemma Processed(side: Side, n: Node, remote: Batch, keyed: seq<Keyed>, sorted: seq<Keyed>)
    requires !IsEmpty(remote)
    ensures var n' := ProcessOn(side, n, remote, keyed, sorted);
            n' == n
            || (&& SettleOwn(n.chain, remote).Done?
                && var done := SettleOwn(n.chain, remote);
                   && ExecuteRemote(done.chain, done.shadow, remote, keyed, sorted).Some?
                   && var (c, _, receipts) := ExecuteRemote(done.chain, done.shadow, remote, keyed, sorted).value;
                      && n' == n.(chain := Rotate(c, HashOf(remote), done.chain.pool, receipts, n.height),
                                  applied := n.applied + (if IsEmpty(n.chain.locked) then [] else [Entry(side, n.chain.locked, remote.receipts)])
                                             + [Entry(side.Opposite(), remote, receipts)]))
  {
    if n.chain.pool > 0 {
      match SettleOwn(n.chain, remote)
      case Waiting => assert n.applied + [] == n.applied;
      case Failed =>
      case Done(mid, shadow) =>
        var executed := ExecuteRemote(mid, shadow, remote, keyed, sorted);
        if executed.Some? {
          var e := [Entry(side.Opposite(), remote, executed.value.2)];
          var own := if IsEmpty(n.chain.locked) then [] else [Entry(side, n.chain.locked, remote.receipts)];
          assert n.applied + (own + e) == n.applied + own + e;
        }
    }
  }

  lemma AscendingExtends(log: seq<Entry>, e: Entry)
    requires Ascending(log) && (log != [] ==> Depth(log[|log| - 1].batch) < Depth(e.batch))
    ensures Ascending(log + [e])
  {
  }

  /** Rotation with a hash deeper than every batch the chain published keeps its bookkeeping. */
  lemma RotationKeepsNode(g0: Global, n: Node, side: Side, c: Chain, remote: Batch, pool: u64, receipts: seq<u64>)
    requires IsEmpty(c.locked) && c.next.receipts == [] && Depth(remote) >= 1
    requires n.chain == Rotate(c, HashOf(remote), pool, receipts, n.height)
    requires Follows(g0, n, side) && Ascending(n.applied)
    requires forall r <- n.published :: 2 <= Depth(r) <= Depth(remote)
    ensures NodeInv(g0, n, side)
    ensures n.chain.locked.receiptHash == HashOf(remote) && n.chain.locked.receipts == receipts
    ensures n.chain.locked.poolSize == pool && Depth(n.chain.locked) == Depth(remote) + 1
    ensures n.chain.pool == c.pool && n.chain.table == c.table
  {
  }

  /** A chain whose log has just been extended by `remote` takes the lead with a batch answering it. */
  lemma TakesTheLead(g0: Global, lead: Node, wait: Node, wait': Node, leader: Side, c: Chain, pool: u64, receipts: seq<u64>)
    requires NodeInv(g0, lead, leader) && lead.chain.locked in lead.published && !IsEmpty(lead.chain.locked)
    requires var remote := lead.chain.locked;
             && wait' == wait.(chain := Rotate(c, HashOf(remote), pool, receipts, wait.height),
                               applied := lead.applied + [Entry(leader, remote, receipts)])
             && |receipts| == |remote.orders| && IsEmpty(c.locked) && c.next.receipts == []
             && Replay(g0, wait'.applied).Some?
             && Replay(g0, wait'.applied).value.Part(leader.Opposite()) == c.pool
             && Replay(g0, wait'.applied).value.table == c.table
             && pool == Replay(g0, lead.applied).value.Part(leader.Opposite())
             && (forall r <- wait.published :: 2 <= Depth(r) <= Depth(remote))
             && (lead.applied != [] ==> Depth(lead.applied[|lead.applied| - 1].batch) < Depth(remote))
    ensures NodeInv(g0, wait', leader.Opposite()) && Answered(g0, wait', lead, leader.Opposite())
  {
    var remote := lead.chain.locked;
    AscendingExtends(lead.applied, Entry(leader, remote, receipts));
    assert Follows(g0, wait', leader.Opposite());
    RotationKeepsNode(g0, wait', leader.Opposite(), c, remote, pool, receipts);
    assert leader.Opposite().Opposite() == leader;
  }

  /** The step that carries the protocol: the waiting chain processes its answer and takes the lead. */
  lemma AnswerIsProcessed(g0: Global, lead: Node, wait: Node, leader: Side, keyed: seq<Keyed>, sorted: seq<Keyed>)
    requires NodeInv(g0, lead, leader) && NodeInv(g0, wait, leader.Opposite()) && Answered(g0, lead, wait, leader)
    requires lead.chain.locked in lead.published && Shuffled(lead.chain.locked, keyed, sorted)
    ensures var wait' := ProcessOn(leader.Opposite(), wait, lead.chain.locked, keyed, sorted);
            wait' == wait || (NodeInv(g0, wait', leader.Opposite()) && Answered(g0, wait', lead, leader.Opposite()))
  {
    var side, remote := leader.Opposite(), lead.chain.locked;
    var wait' := ProcessOn(side, wait, remote, keyed, sorted);
    Processed(side, wait, remote, keyed, sorted);
    if wait' != wait {
      SettlingFollowsLog(g0, lead, wait, leader);
      var done := SettleOwn(wait.chain, remote);
      var (c, _, receipts) := ExecuteRemote(done.chain, done.shadow, remote, keyed, sorted).value;
      ExecutingFollowsLog(g0, lead.applied, done.chain, done.shadow, remote, leader, keyed, sorted);
      TakesTheLead(g0, lead, wait, wait', leader, c, done.chain.pool, receipts);
    }
  }

  /** The first answer: a chain without a batch processes the other's first batch. */
  lemma FirstIsProcessed(g0: Global, lead: Node, wait: Node, leader: Side, keyed: seq<Keyed>, sorted: seq<Keyed>)
    requires NodeInv(g0, lead, leader) && NodeInv(g0, wait, leader.Opposite())
    requires Opening(lead) && Idle(wait)
    requires lead.chain.locked in lead.published && Shuffled(lead.chain.locked, keyed, sorted)
    ensures var wait' := ProcessOn(leader.Opposite(), wait, lead.chain.locked, keyed, sorted);
            wait' == wait || (NodeInv(g0, wait', leader.Opposite()) && Answered(g0, wait', lead, leader.Opposite()))
  {
    var side, remote := leader.Opposite(), lead.chain.locked;
    var wait' := ProcessOn(side, wait, remote, keyed, sorted);
    Processed(side, wait, remote, keyed, sorted);
    if wait' != wait {
      var (c, _, receipts) := ExecuteRemote(wait.chain, remote.poolSize, remote, keyed, sorted).value;
      ExecutingFollowsLog(g0, [], wait.chain, remote.poolSize, remote, leader, keyed, sorted);
      TakesTheLead(g0, lead, wait, wait', leader, c, wait.chain.pool, receipts);
    }
  }

  /** An answer that is processed without error is applied: the waiting chain's log overtakes the leader's by one. */
  lemma AnswerMovesOn(g0: Global, lead: Node, wait: Node, leader: Side, keyed: seq<Keyed>, sorted: seq<Keyed>)
    requires Answered(g0, lead, wait, leader) && wait.chain.pool > 0
    requires HandleRemote(wait.chain, lead.chain.locked, keyed, sorted, wait.height).Some?
    ensures var wait' := ProcessOn(leader.Opposite(), wait, lead.chain.locked, keyed, sorted);
            && |wait'.applied| == |lead.applied| + 1 && lead.applied <= wait'.applied
            && wait'.applied[|lead.applied|].batch == lead.chain.locked && wait'.applied[|lead.applied|].owner == leader
            && wait'.chain.locked.receiptHash == HashOf(lead.chain.locked)
  {
    var remote := lead.chain.locked;
    assert SettleOwn(wait.chain, remote).Done?;
    Processed(leader.Opposite(), wait, remote, keyed, sorted);
    var done := SettleOwn(wait.chain, remote);
    SettleOwnFollowsLedger(wait.chain, remote);
    var c := ExecuteRemote(done.chain, done.shadow, remote, keyed, sorted).value.0;
    assert c.locked == done.chain.locked;
    assert HandleRemote(wait.chain, remote, keyed, sorted, wait.height)
        == Some(Rotate(c, HashOf(remote), done.chain.pool, ExecuteRemote(done.chain, done.shadow, remote, keyed, sorted).value.2, wait.height));
  }

  /** A batch whose own link count is not one above the locked batch's is no answer to it. */
  lemma OnlyTheNextLinkAnswers(side: Side, n: Node, remote: Batch, keyed: seq<Keyed>, sorted: seq<Keyed>)
    requires !IsEmpty(n.chain.locked) && !IsEmpty(remote) && Depth(remote) != Depth(n.chain.locked) + 1
    ensures ProcessOn(side, n, remote, keyed, sorted) == n
  {
    assert SettleOwn(n.chain, remote) == Waiting;
    Processed(side, n, remote, keyed, sorted);
  }

  /** Without a batch of the other chain, a chain can only lock its own first batch. */
  lemma ProcessEmpty(g0: Global, me: Node, other: Node, side: Side, remote: Batch, keyed: seq<Keyed>, sorted: seq<Keyed>)
    requires PairInv(g0, me, other, side) && IsEmpty(remote)
    ensures PairInv(g0, ProcessOn(side, me, remote, keyed, sorted), other, side)
  {
    var me' := ProcessOn(side, me, remote, keyed, sorted);
    assert me.applied + [] == me.applied;
    if me' != me {
      assert Idle(me) && me'.chain == Rotate(me.chain, Hash(remote), me.chain.pool, [], me.height);
      assert Depth(me'.chain.locked) == 2;
      assert Opening(me') && NodeInv(g0, me', side);
    }
  }

  lemma ProcessPublished(g0: Global, me: Node, other: Node, side: Side, remote: Batch, keyed: seq<Keyed>, sorted: seq<Keyed>)
    requires PairInv(g0, me, other, side) && !IsEmpty(remote)
    requires remote in other.published && Shuffled(remote, keyed, sorted)
    ensures PairInv(g0, ProcessOn(side, me, remote, keyed, sorted), other, side)
  {
    if IsEmpty(me.chain.locked) {
      assert Idle(me) && Opening(other);
      FirstIsProcessed(g0, other, me, side.Opposite(), keyed, sorted);
    } else if Answered(g0, other, me, side.Opposite()) && remote == other.chain.locked {
      AnswerIsProcessed(g0, other, me, side.Opposite(), keyed, sorted);
    } else {
      assert Depth(remote) != Depth(me.chain.locked) + 1;
      OnlyTheNextLinkAnswers(side, me, remote, keyed, sorted);
    }
  }

  lemma IncludeKeepsInv(g0: Global, me: Node, other: Node, side: Side)
    requires PairInv(g0, me, other, side)
    ensures PairInv(g0, me.(chain := Include(me.chain, me.height)), other, side)
  {
    IncludeKeepsMarks(me.chain, me.height);
    MarksKeepInv(g0, me, other, side, Include(me.chain, me.height));
  }

  /** The locked batch may gain operations, but keeps its marks, and keeps everything once its block is over. */
  predicate SameMarks(c: Chain, c': Chain, height: nat)
  {
    && (c'.pool, c'.table, c'.next.receipts) == (c.pool, c.table, c.next.receipts)
    && (c'.locked.receiptHash, c'.locked.receipts, c'.locked.poolSize, c'.locked.lockedHeight)
       == (c.locked.receiptHash, c.locked.receipts, c.locked.poolSize, c.locked.lockedHeight)
    && (IsEmpty(c'.locked) <==> IsEmpty(c.locked))
    && (IsEmpty(c.locked) || c.locked.lockedHeight != height ==> c'.locked == c.locked)
  }

  lemma IncludeKeepsMarks(c: Chain, height: nat)
    ensures SameMarks(c, Include(c, height), height)
  {
  }

  lemma MarksKeepInv(g0: Global, me: Node, other: Node, side: Side, c: Chain)
    requires PairInv(g0, me, other, side) && SameMarks(me.chain, c, me.height)
    ensures PairInv(g0, me.(chain := c), other, side)
  {
    assert Depth(c.locked) == Depth(me.chain.locked);
    MarksKeepNode(g0, me, side, c);
  }

  lemma MarksKeepNode(g0: Global, me: Node, side: Side, c: Chain)
    requires NodeInv(g0, me, side) && SameMarks(me.chain, c, me.height)
    ensures NodeInv(g0, me.(chain := c), side)
  {
    assert Depth(c.locked) == Depth(me.chain.locked);
  }

  lemma CollectKeepsInv(g0: Global, me: Node, other: Node, side: Side, c: Chain)
    requires PairInv(g0, me, other, side) && Collects(me.chain, c)
    ensures PairInv(g0, me.(chain := c), other, side)
  {
  }

  lemma NextBlockKeepsInv(g0: Global, me: Node, other: Node, side: Side, me': Node)
    requires PairInv(g0, me, other, side)
    requires me' == me.(height := me.height + 1,
                        published := me.published + if IsEmpty(me.chain.locked) then {} else {me.chain.locked})
    ensures PairInv(g0, me', other, side)
  {
  }

  lemma InvFromEitherSide(g0: Global, s: Net, side: Side)
    ensures Inv(g0, s) <==> PairInv(g0, s.At(side), s.At(side.Opposite()), side)
  {
  }

  lemma StepKeepsInv(g0: Global, s: Net, e: Event)
    requires Inv(g0, s) && Enabled(s, e)
    ensures Inv(g0, Apply(s, e))
  {
    var side := e.side;
    var me, other, t := s.At(side), s.At(side.Opposite()), Apply(s, e);
    InvFromEitherSide(g0, s, side);
    assert t.At(side.Opposite()) == other;
    match e {
      case Process(_, remote, keyed, sorted) =>
        if IsEmpty(remote) {
          ProcessEmpty(g0, me, other, side, remote, keyed, sorted);
        } else {
          ProcessPublished(g0, me, other, side, remote, keyed, sorted);
        }
      case Collect(_, c) => CollectKeepsInv(g0, me, other, side, c);
      case IncludeLate(_) => IncludeKeepsInv(g0, me, other, side);
      case NextBlock(_) => NextBlockKeepsInv(g0, me, other, side, t.At(side));
    }
    InvFromEitherSide(g0, t, side);
  }

  // ---------------------------------------------------------------- whole runs

  function Exec(s: Net, trace: seq<Event>): (t: Net)
  {
    if trace == [] then s else Apply(Exec(s, trace[..|trace| - 1]), trace[|trace| - 1])
  }

  predicate IsRun(s: Net, trace: seq<Event>)
  {
    forall i :: 0 <= i < |trace| ==> Enabled(Exec(s, trace[..i]), trace[i])
  }

  /** Both chains start with the same point table and without any batch. */
  predicate Start(s: Net)
  {
    && s.a.chain.table == s.b.chain.table
    && forall side: Side :: var n := s.At(side);
         Idle(n) && n.published == {} && n.chain.next.receipts == []
  }

  lemma {:induction false} RunsKeepInv(s: Net, trace: seq<Event>)
    requires Start(s) && IsRun(s, trace)
    ensures Inv(Global(s.a.chain.pool, s.b.chain.pool, s.a.chain.table), Exec(s, trace))
  {
    var g0 := Global(s.a.chain.pool, s.b.chain.pool, s.a.chain.table);
    if trace == [] {
      assert s.At(A) == s.a && s.At(B) == s.b;
      assert NodeInv(g0, s.a, A) && NodeInv(g0, s.b, B);
    } else {
      var before := trace[..|trace| - 1];
      forall i | 0 <= i < |before| ensures Enabled(Exec(s, before[..i]), before[i]) {
        assert before[..i] == trace[..i];
      }
      RunsKeepInv(s, before);
      StepKeepsInv(g0, Exec(s, before), trace[|trace| - 1]);
    }
  }

  /** Distinct depths make distinct batches. */
  lemma AscendingNeverRepeats(log: seq<Entry>, i: nat, j: nat)
    requires Ascending(log) && i < j < |log|
    ensures log[i].batch != log[j].batch
  {
  }

  lemma ModePrefixes(g0: Global, me: Node, other: Node, side: Side)
    requires Mode(g0, me, other, side)
    ensures me.applied <= other.applied || other.applied <= me.applied
    ensures -1 <= |me.applied| - |other.applied| <= 1
  {
  }

  /**
   * MIRROR: after every run, one chain's log of applied batches extends the other's by at most one batch; no
   * batch is applied twice; and each chain's reserve and point table are those its log determines from
   * the common start. So two chains that have applied equally many batches hold one ledger between them.
   */
  lemma ChainsMirror(s: Net, trace: seq<Event>)
    requires Start(s) && IsRun(s, trace)
    ensures var g0, t := Global(s.a.chain.pool, s.b.chain.pool, s.a.chain.table), Exec(s, trace);
            && (t.a.applied <= t.b.applied || t.b.applied <= t.a.applied)
            && -1 <= |t.a.applied| - |t.b.applied| <= 1
            && (forall side: Side :: Follows(g0, t.At(side), side))
            && (forall side: Side, i: nat, j: nat :: i < j < |t.At(side).applied| ==>
                  t.At(side).applied[i].batch != t.At(side).applied[j].batch)
  {
    var g0, t := Global(s.a.chain.pool, s.b.chain.pool, s.a.chain.table), Exec(s, trace);
    RunsKeepInv(s, trace);
    ModePrefixes(g0, t.a, t.b, A);
    forall side: Side, i: nat, j: nat | i < j < |t.At(side).applied|
      ensures t.At(side).applied[i].batch != t.At(side).applied[j].batch
    {
      AscendingNeverRepeats(t.At(side).applied, i, j);
    }
  }
}
