/**
 * Applying a block's transactions. Accounts are read through a cache; each transaction runs on a wrapped store
 * that is written through when it succeeds and dropped when it fails; transactions beyond the block size
 * run on one more wrapper that is always dropped.
 */
module StateMachine {
  import opened Options
  import opened Uint64
  import opened Vesting
  import opened Staking

  type Accounts = map<nat, Account>

  /** The key-value store: accounts and validators under their own prefixes, everything else by key. */
  datatype Store = Store(accounts: Accounts, validators: map<nat, Validator>, other: map<nat, seq<nat>>)

  /** Percent slashed in this block, per validator and committee; only what is not zero is kept. */
  type Tracker = map<(nat, nat), nat>

  /** GetTotalSlashPercent */
  function TotalSlash(t: Tracker, k: (nat, nat)): (percent: nat)
  {
    if k in t then t[k] else 0
  }

  /** AddSlash: the tracker is never changed in any other way. */
  function AddSlash(t: Tracker, k: (nat, nat), percent: nat): (after: Tracker)
  {
    if percent == 0 then t else t[k := TotalSlash(t, k) + percent]
  }

  /** A transaction's working memory: what it has read and computed so far, and at the end its result. */
  type Memo = seq<nat>

  /**
   * One interaction of a transaction with the state: change an account, look at one, change a validator or
   * any other key, or read a total of the slash tracker and add to it. Each may depend on all that was read
   * before, and may fail.
   */
  datatype Step =
    | OnAccount(who: Memo -> nat, run: (Memo, Account) -> Option<(Memo, Account)>)
    | OnLook(who: Memo -> nat, look: (Memo, Account) -> Option<Memo>)
    | OnKey(key: Memo -> nat, change: (Memo, Option<seq<nat>>) -> Option<(Memo, Option<seq<nat>>)>)
    | OnValidator(whose: Memo -> nat, alter: (Memo, Option<Validator>) -> Option<(Memo, Option<Validator>)>)
    | OnSlash(whom: Memo -> (nat, nat), add: (Memo, nat) -> Option<(Memo, nat)>)

  datatype Tx = Tx(id: nat, size: nat)

  /**
   * What does not change within a block: its height and size limit, what each transaction does at each
   * index, and which transactions pass the checks and signature verification made before the first one runs.
   */
  datatype Block = Block(height: u64, limit: nat, program: (nat, Tx) -> seq<Step>, checked: Tx -> bool)

  // ---------------------------------------------------------------- accounts through the cache

  datatype World = World(store: Store, cache: Accounts, tracker: Tracker)

  function GetAccount(w: World, address: nat): (a: Account)
  {
    if address in w.cache then w.cache[address] else Load(w.store.accounts, address)
  }

  function SetAccount(w: World, address: nat, a: Account, height: u64): (w': World)
  {
    World(w.store.(accounts := Save(w.store.accounts, address, a, height)),
          w.cache[address := Cleared(a, height)], w.tracker)
  }

  function LookUp<V>(other: map<nat, V>, key: nat): (v: Option<V>)
  {
    if key in other then Some(other[key]) else None
  }

  function Put<V>(other: map<nat, V>, key: nat, v: Option<V>): (after: map<nat, V>)
  {
    if v.None? then other - {key} else other[key := v.value]
  }

  function RunStep(w: World, m: Memo, step: Step, height: u64): (r: Option<(World, Memo)>)
  {
    match step
    case OnAccount(who, run) =>
      var done := run(m, GetAccount(w, who(m)));
      if done.None? then None else Some((SetAccount(w, who(m), done.value.1, height), done.value.0))
    case OnLook(who, look) =>
      var done := look(m, GetAccount(w, who(m)));
      if done.None? then None else Some((w, done.value))
    case OnKey(key, change) =>
      var done := change(m, LookUp(w.store.other, key(m)));
      if done.None? then None
      else Some((w.(store := w.store.(other := Put(w.store.other, key(m), done.value.1))), done.value.0))
    case OnValidator(whose, alter) =>
      var done := alter(m, LookUp(w.store.validators, whose(m)));
      if done.None? then None
      else Some((w.(store := w.store.(validators := Put(w.store.validators, whose(m), done.value.1))), done.value.0))
    case OnSlash(whom, add) =>
      var done := add(m, TotalSlash(w.tracker, whom(m)));
      if done.None? then None
      else Some((w.(tracker := AddSlash(w.tracker, whom(m), done.value.1)), done.value.0))
  }

  /** ApplyTransaction */
  function Execute(w: World, program: seq<Step>, height: u64): (r: Option<(World, Memo)>)
  {
    if program == [] then Some((w, []))
    else
      var before := Execute(w, program[..|program| - 1], height);
      if before.None? then None else RunStep(before.value.0, before.value.1, program[|program| - 1], height)
  }

  // ---------------------------------------------------------------- applying a list of transactions

  /** How far a list of transactions has been applied. */
  datatype Progress = Progress(
    world: World,          // what the next transaction sees
    base: Store,           // the store without the oversize wrapper
    oversize: bool,        // the size limit has been hit
    atLimit: Tracker,      // the slash tracker, as of the limit
    kept: seq<Tx>, results: seq<Memo>, size: nat,
    failed: seq<Tx>, excluded: seq<Tx>,
    seen: set<Tx>)

  function Begin(w: World): (p: Progress)
  {
    Progress(w, w.store, false, w.tracker, [], [], 0, [], [], {})
  }

  predicate TooLarge(b: Block, p: Progress, tx: Tx)
  {
    p.oversize || tx.size + p.size > b.limit
  }

  /** A transaction that passed the checks and is no duplicate. */
  function RunTx(b: Block, p: Progress, tx: Tx): (p': Progress)
  {
    var over := TooLarge(b, p, tx);
    var done := Execute(p.world, b.program(|p.kept|, tx), b.height);
    var q := p.(seen := p.seen + {tx}, oversize := over);
    if done.None? then q.(world := p.world.(cache := map[]), failed := p.failed + [tx])
    else
      var (w, memo) := done.value;
      if over then q.(world := w, excluded := p.excluded + [tx])
      else q.(world := w, base := w.store, atLimit := w.tracker, kept := p.kept + [tx], results := p.results + [memo],
              size := p.size + tx.size)
  }

  /** One transaction of the list: None aborts the whole block. */
  function ApplyOne(b: Block, p: Progress, tx: Tx, allowOversize: bool): (r: Option<Progress>)
  {
    if !b.checked(tx) then Some(p.(failed := p.failed + [tx]))
    else if tx in p.seen then None
    else if TooLarge(b, p, tx) && !p.oversize && !allowOversize then None
    else Some(RunTx(b, p, tx))
  }

  function ApplyAll(b: Block, w: World, txs: seq<Tx>, allowOversize: bool): (r: Option<Progress>)
  {
    if txs == [] then Some(Begin(w))
    else
      var before := ApplyAll(b, w, txs[..|txs| - 1], allowOversize);
      if before.None? then None else ApplyOne(b, before.value, txs[|txs| - 1], allowOversize)
  }

  /** The state left behind: the store is set back to the original one, the caches and tracker stay. */
  function End(p: Progress): (w: World)
  {
    p.world.(store := p.base)
  }

  // ---------------------------------------------------------------- the cache agrees with the store

  /** Every cached account is what the store would return. */
  ghost predicate Coherent(w: World)
  {
    forall a <- w.cache :: w.cache[a] == Load(w.store.accounts, a)
  }

  /** Without a tranche there is no schedule left over. */
  predicate Tidy(a: Account)
  {
    a.vesting == 0 ==> a.start == 0 && a.cliff == 0 && a.end == 0
  }

  ghost predicate AllTidy(accounts: Accounts)
  {
    forall a <- accounts :: Tidy(accounts[a])
  }

  /** Cache and store agree, and every stored account is tidy. */
  ghost predicate Ready(w: World)
  {
    Coherent(w) && AllTidy(w.store.accounts)
  }

  /** What the account operations guarantee of an account they write: it is emptied only when nothing is locked. */
  predicate Writable(a: Account, height: u64)
  {
    Tidy(a) && (a.amount > 0 || Locked(a, height) == 0)
  }

  ghost predicate KeepsTidy(program: seq<Step>, height: u64)
  {
    forall i :: 0 <= i < |program| && program[i].OnAccount? ==>
      forall m: Memo, a: Account :: Tidy(a) && program[i].run(m, a).Some? ==> Writable(program[i].run(m, a).value.1, height)
  }

  /** One write keeps the cache coherent exactly when it leaves no blank account with a schedule behind. */
  lemma SetAccountKeepsCoherent(w: World, address: nat, a: Account, height: u64)
    requires Coherent(w)
    ensures Coherent(SetAccount(w, address, a, height)) <==> a.amount > 0 || Cleared(a, height) == Empty()
  {
    var w' := SetAccount(w, address, a, height);
    assert w'.cache[address] == Cleared(a, height);
    assert forall k <- w'.cache :: k != address ==> k in w.cache && Load(w'.store.accounts, k) == Load(w.store.accounts, k);
  }

  lemma StepKeepsCoherent(w: World, m: Memo, step: Step, height: u64)
    requires Coherent(w) && AllTidy(w.store.accounts) && KeepsTidy([step], height)
    requires RunStep(w, m, step, height).Some?
    ensures Coherent(RunStep(w, m, step, height).value.0) && AllTidy(RunStep(w, m, step, height).value.0.store.accounts)
  {
    if step.OnAccount? {
      assert [step][0] == step;
      var a := GetAccount(w, step.who(m));
      var a' := step.run(m, a).value.1;
      assert Tidy(a) && Writable(a', height);
      SetAccountKeepsCoherent(w, step.who(m), a', height);
    }
  }

  /** Two worlds that differ only in what their caches hold. */
  ghost predicate SameState(w: World, v: World)
  {
    w.store == v.store && w.tracker == v.tracker && Coherent(w) && Coherent(v)
  }

  ghost predicate SameOutcome(r: Option<(World, Memo)>, s: Option<(World, Memo)>)
  {
    && (r.Some? <==> s.Some?)
    && (r.Some? ==> SameState(r.value.0, s.value.0) && r.value.1 == s.value.1)
  }

  lemma StepIgnoresCache(w: World, v: World, m: Memo, step: Step, height: u64)
    requires SameState(w, v) && AllTidy(w.store.accounts) && KeepsTidy([step], height)
    ensures SameOutcome(RunStep(w, m, step, height), RunStep(v, m, step, height))
  {
    if RunStep(w, m, step, height).Some? {
      StepKeepsCoherent(w, m, step, height);
      StepKeepsCoherent(v, m, step, height);
    }
  }

  /**
   * CACHE COHERENCE: a transaction reads and leaves the same state whatever coherent cache it starts from,
   * and leaves the cache coherent, deleted accounts included.
   */
  lemma {:induction false} ExecuteIgnoresCache(w: World, v: World, program: seq<Step>, height: u64)
    requires SameState(w, v) && AllTidy(w.store.accounts) && KeepsTidy(program, height)
    ensures SameOutcome(Execute(w, program, height), Execute(v, program, height))
    ensures Execute(w, program, height).Some? ==> AllTidy(Execute(w, program, height).value.0.store.accounts)
  {
    if program != [] {
      var init, last := program[..|program| - 1], program[|program| - 1];
      ExecuteIgnoresCache(w, v, init, height);
      var before := Execute(w, init, height);
      if before.Some? {
        assert [last][0] == program[|program| - 1];
        var (w1, m) := before.value;
        StepIgnoresCache(w1, Execute(v, init, height).value.0, m, last, height);
        if RunStep(w1, m, last, height).Some? {
          StepKeepsCoherent(w1, m, last, height);
        }
      }
    }
  }

  /**
   * READ, THEN WRITE: an interaction succeeds exactly if its change accepts what is there; it then leaves
   * what the change says, cleared of a finished schedule if it is an account, and nothing else is touched.
   */
  lemma StepMeans(w: World, m: Memo, step: Step, height: u64)
    ensures var r := RunStep(w, m, step, height);
            match step {
              case OnAccount(who, run) =>
                && r.Some? == run(m, GetAccount(w, who(m))).Some?
                && (r.Some? ==>
                      && r.value.1 == run(m, GetAccount(w, who(m))).value.0
                      && (forall a :: GetAccount(r.value.0, a)
                            == if a == who(m) then Cleared(run(m, GetAccount(w, a)).value.1, height) else GetAccount(w, a))
                      && r.value.0.store.other == w.store.other && r.value.0.store.validators == w.store.validators
                      && r.value.0.tracker == w.tracker)
              case OnLook(who, look) =>
                && r.Some? == look(m, GetAccount(w, who(m))).Some?
                && (r.Some? ==> r.value == (w, look(m, GetAccount(w, who(m))).value))
              case OnKey(key, change) =>
                && r.Some? == change(m, LookUp(w.store.other, key(m))).Some?
                && (r.Some? ==>
                      && r.value.1 == change(m, LookUp(w.store.other, key(m))).value.0
                      && (forall k :: LookUp(r.value.0.store.other, k)
                            == if k == key(m) then change(m, LookUp(w.store.other, k)).value.1 else LookUp(w.store.other, k))
                      && r.value.0 == w.(store := w.store.(other := r.value.0.store.other)))
              case OnValidator(whose, alter) =>
                && r.Some? == alter(m, LookUp(w.store.validators, whose(m))).Some?
                && (r.Some? ==>
                      && r.value.1 == alter(m, LookUp(w.store.validators, whose(m))).value.0
                      && (forall a :: LookUp(r.value.0.store.validators, a)
                            == if a == whose(m) then alter(m, LookUp(w.store.validators, a)).value.1 else LookUp(w.store.validators, a))
                      && r.value.0 == w.(store := w.store.(validators := r.value.0.store.validators)))
              case OnSlash(whom, add) =>
                && r.Some? == add(m, TotalSlash(w.tracker, whom(m))).Some?
                && (r.Some? ==>
                      && r.value.1 == add(m, TotalSlash(w.tracker, whom(m))).value.0
                      && (forall k :: TotalSlash(r.value.0.tracker, k)
                            == TotalSlash(w.tracker, k) + if k == whom(m) then add(m, TotalSlash(w.tracker, k)).value.1 else 0)
                      && r.value.0 == w.(tracker := r.value.0.tracker))
            }
  {
  }

  // ---------------------------------------------------------------- filter, then replay

  ghost predicate Safe(b: Block)
  {
    forall i: nat, tx: Tx :: KeepsTidy(b.program(i, tx), b.height)
  }

  /** How a strict run over the kept transactions stands against the filtering run. */
  ghost predicate Matches(b: Block, p: Progress, q: Progress)
  {
    && Ready(p.world) && Ready(q.world)
    && q.base == q.world.store == p.base && q.world.tracker == p.atLimit && q.atLimit == p.atLimit
    && !q.oversize && q.kept == p.kept && q.results == p.results && q.size == p.size
    && q.failed == [] && q.excluded == [] && q.seen <= p.seen
    && (!p.oversize ==> p.world.store == p.base && p.world.tracker == p.atLimit && p.excluded == [])
  }

  lemma RunTxFacts(b: Block, p: Progress, v: World, tx: Tx)
    requires Safe(b) && Ready(p.world) && SameState(p.world, v)
    ensures Ready(RunTx(b, p, tx).world)
    ensures SameOutcome(Execute(p.world, b.program(|p.kept|, tx), b.height), Execute(v, b.program(|p.kept|, tx), b.height))
  {
    ExecuteIgnoresCache(p.world, v, b.program(|p.kept|, tx), b.height);
  }

  /** A transaction that is not kept leaves the block's state alone. */
  lemma DroppedLeavesNoTrace(b: Block, p: Progress, q: Progress, tx: Tx)
    requires Safe(b) && Matches(b, p, q) && RunTx(b, p, tx).kept == p.kept
    ensures Matches(b, RunTx(b, p, tx), q)
  {
    RunTxFacts(b, p, p.world, tx);
  }

  lemma KeptIsReplayed(b: Block, p: Progress, q: Progress, tx: Tx)
    requires Safe(b) && Matches(b, p, q) && b.checked(tx) && tx !in p.seen
    requires RunTx(b, p, tx).kept != p.kept
    ensures ApplyOne(b, q, tx, false).Some? && Matches(b, RunTx(b, p, tx), ApplyOne(b, q, tx, false).value)
  {
    RunTxFacts(b, p, q.world, tx);
    RunTxFacts(b, q, p.world, tx);
  }

  lemma KeptGrows(b: Block, p: Progress, tx: Tx)
    ensures var p' := RunTx(b, p, tx); p'.kept == p.kept || p'.kept == p.kept + [tx]
  {
  }

  /** FILTER, THEN REPLAY, prefix by prefix. */
  lemma {:induction false} KeptReplays(b: Block, w: World, v: World, txs: seq<Tx>)
    requires Safe(b) && Ready(w) && SameState(w, v) && ApplyAll(b, w, txs, true).Some?
    ensures ApplyAll(b, v, ApplyAll(b, w, txs, true).value.kept, false).Some?
    ensures Matches(b, ApplyAll(b, w, txs, true).value, ApplyAll(b, v, ApplyAll(b, w, txs, true).value.kept, false).value)
  {
    if txs != [] {
      var init, tx := txs[..|txs| - 1], txs[|txs| - 1];
      KeptReplays(b, w, v, init);
      var p := ApplyAll(b, w, init, true).value;
      var q := ApplyAll(b, v, p.kept, false).value;
      if b.checked(tx) {
        KeptGrows(b, p, tx);
        if RunTx(b, p, tx).kept == p.kept {
          DroppedLeavesNoTrace(b, p, q, tx);
        } else {
          KeptIsReplayed(b, p, q, tx);
          assert (p.kept + [tx])[..|p.kept|] == p.kept;
        }
      }
    }
  }

  // ---------------------------------------------------------------- what oversize transactions leave behind

  /** No total of `t` is below that of `before`. */
  ghost predicate Grown(before: Tracker, t: Tracker)
  {
    forall k :: TotalSlash(t, k) >= TotalSlash(before, k)
  }

  ghost predicate Raised(before: Tracker, t: Tracker)
  {
    exists k :: TotalSlash(t, k) > TotalSlash(before, k)
  }

  predicate StepSlashes(w: World, m: Memo, step: Step)
  {
    && step.OnSlash?
    && var done := step.add(m, TotalSlash(w.tracker, step.whom(m)));
       done.Some? && done.value.1 > 0
  }

  /** Somewhere in its execution the transaction adds a slash. */
  predicate Slashes(w: World, program: seq<Step>, height: u64)
  {
    program != []
    && var n := |program| - 1;
       || Slashes(w, program[..n], height)
       || (Execute(w, program[..n], height).Some?
           && var (w1, m) := Execute(w, program[..n], height).value;
              StepSlashes(w1, m, program[n]))
  }

  /** From `before` to `t` totals only rise, and one does exactly if a slash was added. */
  ghost predicate Tracks(before: Tracker, t: Tracker, slashed: bool)
  {
    Grown(before, t) && if slashed then Raised(before, t) else t == before
  }

  lemma StepTracks(w: World, m: Memo, step: Step, height: u64)
    requires RunStep(w, m, step, height).Some?
    ensures Tracks(w.tracker, RunStep(w, m, step, height).value.0.tracker, StepSlashes(w, m, step))
  {
    var t := RunStep(w, m, step, height).value.0.tracker;
    if StepSlashes(w, m, step) {
      assert TotalSlash(t, step.whom(m)) > TotalSlash(w.tracker, step.whom(m));
    } else {
      assert t == w.tracker;
    }
  }

  lemma TracksCompose(t0: Tracker, t1: Tracker, t2: Tracker, first: bool, second: bool)
    requires Tracks(t0, t1, first) && Tracks(t1, t2, second)
    ensures Tracks(t0, t2, first || second)
  {
    if first {
      var k :| TotalSlash(t1, k) > TotalSlash(t0, k);
      assert TotalSlash(t2, k) > TotalSlash(t0, k);
    } else if second {
      var k :| TotalSlash(t2, k) > TotalSlash(t1, k);
      assert TotalSlash(t2, k) > TotalSlash(t0, k);
    }
  }

  /** An execution leaves the tracker alone, or raises a total and lowers none, as it adds a slash or not. */
  lemma {:induction false} ExecuteTracks(w: World, program: seq<Step>, height: u64)
    requires Execute(w, program, height).Some?
    ensures Tracks(w.tracker, Execute(w, program, height).value.0.tracker, Slashes(w, program, height))
  {
    if program != [] {
      var n := |program| - 1;
      ExecuteTracks(w, program[..n], height);
      var (w1, m) := Execute(w, program[..n], height).value;
      StepTracks(w1, m, program[n], height);
      TracksCompose(w.tracker, w1.tracker, Execute(w, program, height).value.0.tracker,
                    Slashes(w, program[..n], height), StepSlashes(w1, m, program[n]));
    }
  }

  /** The i-th transaction runs oversize, succeeds, and adds a slash. */
  ghost predicate SlashesOversize(b: Block, w: World, txs: seq<Tx>, i: nat)
    requires i < |txs|
  {
    var r := ApplyAll(b, w, txs[..i], true);
    r.Some? && b.checked(txs[i])
    && var p := r.value;
       && TooLarge(b, p, txs[i])
       && Execute(p.world, b.program(|p.kept|, txs[i]), b.height).Some?
       && Slashes(p.world, b.program(|p.kept|, txs[i]), b.height)
  }

  ghost predicate NoneSlashesOversize(b: Block, w: World, txs: seq<Tx>)
  {
    forall i: nat :: i < |txs| ==> !SlashesOversize(b, w, txs, i)
  }

  /** How the tracker stands against what it was at the limit. */
  ghost predicate TrackerSince(p: Progress, clean: bool)
  {
    && Tracks(p.atLimit, p.world.tracker, !clean)
    && (!p.oversize ==> p.world.tracker == p.atLimit)
  }

  lemma RunTxTracks(b: Block, p: Progress, tx: Tx, clean: bool)
    requires TrackerSince(p, clean)
    ensures var program := b.program(|p.kept|, tx);
            TrackerSince(RunTx(b, p, tx), clean && !(TooLarge(b, p, tx) && Execute(p.world, program, b.height).Some?
                                                     && Slashes(p.world, program, b.height)))
  {
    var program := b.program(|p.kept|, tx);
    var done := Execute(p.world, program, b.height);
    if done.Some? {
      ExecuteTracks(p.world, program, b.height);
      TracksCompose(p.atLimit, p.world.tracker, done.value.0.tracker, !clean, Slashes(p.world, program, b.height));
    }
    assert !p.oversize ==> clean;
  }

  lemma NoneSlashesStep(b: Block, w: World, txs: seq<Tx>)
    requires txs != []
    ensures var n := |txs| - 1;
            NoneSlashesOversize(b, w, txs) <==> NoneSlashesOversize(b, w, txs[..n]) && !SlashesOversize(b, w, txs, n)
  {
    var n := |txs| - 1;
    forall i: nat | i < n ensures SlashesOversize(b, w, txs, i) <==> SlashesOversize(b, w, txs[..n], i) {
      assert txs[..n][..i] == txs[..i];
    }
  }

  lemma {:induction false} TrackerMovesOnlyBySlashes(b: Block, w: World, txs: seq<Tx>)
    requires ApplyAll(b, w, txs, true).Some?
    ensures TrackerSince(ApplyAll(b, w, txs, true).value, NoneSlashesOversize(b, w, txs))
  {
    if txs != [] {
      var init, tx := txs[..|txs| - 1], txs[|txs| - 1];
      TrackerMovesOnlyBySlashes(b, w, init);
      NoneSlashesStep(b, w, txs);
      if b.checked(tx) {
        RunTxTracks(b, ApplyAll(b, w, init, true).value, tx, NoneSlashesOversize(b, w, init));
      }
    }
  }

  /** The sizes of the transactions that pass the checks. */
  function CheckedSize(b: Block, txs: seq<Tx>): (size: nat)
  {
    if txs == [] then 0
    else CheckedSize(b, txs[..|txs| - 1]) + if b.checked(txs[|txs| - 1]) then txs[|txs| - 1].size else 0
  }

  /** A list that fits as a whole never hits the limit. */
  lemma {:induction false} FittingListStaysInSize(b: Block, w: World, txs: seq<Tx>)
    requires ApplyAll(b, w, txs, true).Some? && CheckedSize(b, txs) <= b.limit
    ensures var p := ApplyAll(b, w, txs, true).value;
            !p.oversize && p.size <= CheckedSize(b, txs) && p.excluded == []
  {
    if txs != [] {
      FittingListStaysInSize(b, w, txs[..|txs| - 1]);
    }
  }

  /**
   * FILTER, THEN REPLAY: the in-size transactions kept from any list, applied as a strict block from the
   * same state, all succeed and are all kept, with the same results and the same store. The slash trackers
   * agree if and only if no oversize transaction that succeeds adds a slash; they do, and the cache still
   * agrees with the store, whenever the checked transactions fit in the block together.
   */
  lemma FilterThenReplay(b: Block, w: World, v: World, txs: seq<Tx>)
    requires Safe(b) && Ready(w) && SameState(w, v) && ApplyAll(b, w, txs, true).Some?
    ensures var p := ApplyAll(b, w, txs, true).value;
            && ApplyAll(b, v, p.kept, false).Some?
            && var q := ApplyAll(b, v, p.kept, false).value;
               && q.kept == p.kept && q.failed == [] && q.excluded == [] && q.results == p.results
               && End(q).store == End(p).store && Coherent(End(q))
               && (End(q).tracker == End(p).tracker <==> NoneSlashesOversize(b, w, txs))
               && (CheckedSize(b, txs) <= b.limit ==>
                     p.excluded == [] && End(q).tracker == End(p).tracker && Coherent(End(p)))
  {
    KeptReplays(b, w, v, txs);
    TrackerMovesOnlyBySlashes(b, w, txs);
    var p := ApplyAll(b, w, txs, true).value;
    if Raised(p.atLimit, p.world.tracker) {
      var k :| TotalSlash(p.world.tracker, k) > TotalSlash(p.atLimit, k);
    }
    if CheckedSize(b, txs) <= b.limit {
      FittingListStaysInSize(b, w, txs);
    }
  }

  // ---------------------------------------------------------------- the cache after oversize transactions

  predicate WritesAccounts(program: seq<Step>)
  {
    exists i :: 0 <= i < |program| && program[i].OnAccount?
  }

  lemma {:induction false} LookingLeavesAccounts(w: World, program: seq<Step>, height: u64)
    requires !WritesAccounts(program) && Execute(w, program, height).Some?
    ensures var w' := Execute(w, program, height).value.0; w'.cache == w.cache && w'.store.accounts == w.store.accounts
  {
    if program != [] {
      var n := |program| - 1;
      assert !program[n].OnAccount?;
      assert forall i :: 0 <= i < n ==> program[..n][i] == program[i];
      LookingLeavesAccounts(w, program[..n], height);
    }
  }

  /** The i-th transaction runs oversize, succeeds, and is one that writes accounts. */
  ghost predicate WritesOversize(b: Block, w: World, txs: seq<Tx>, i: nat)
    requires i < |txs|
  {
    var r := ApplyAll(b, w, txs[..i], true);
    r.Some? && b.checked(txs[i])
    && var p := r.value;
       && TooLarge(b, p, txs[i])
       && Execute(p.world, b.program(|p.kept|, txs[i]), b.height).Some?
       && WritesAccounts(b.program(|p.kept|, txs[i]))
  }

  lemma {:induction false} AccountsMoveOnlyByWrites(b: Block, w: World, txs: seq<Tx>)
    requires ApplyAll(b, w, txs, true).Some? && forall i: nat :: i < |txs| ==> !WritesOversize(b, w, txs, i)
    ensures var p := ApplyAll(b, w, txs, true).value; p.world.store.accounts == p.base.accounts
    ensures var p := ApplyAll(b, w, txs, true).value; !p.oversize ==> p.world.store == p.base
  {
    if txs != [] {
      var n := |txs| - 1;
      forall i: nat | i < n ensures !WritesOversize(b, w, txs[..n], i) {
        assert txs[..n][..i] == txs[..i];
        assert !WritesOversize(b, w, txs, i);
      }
      AccountsMoveOnlyByWrites(b, w, txs[..n]);
      var p := ApplyAll(b, w, txs[..n], true).value;
      var program := b.program(|p.kept|, txs[n]);
      assert !WritesOversize(b, w, txs, n);
      if b.checked(txs[n]) && TooLarge(b, p, txs[n]) && Execute(p.world, program, b.height).Some? {
        LookingLeavesAccounts(p.world, program, b.height);
      }
    }
  }

  /**
   * The cache agrees with the restored store if and only if no account in it was left changed by the
   * oversize transactions; so it does whenever none of those that succeed writes accounts.
   */
  lemma CacheAfterOversize(b: Block, w: World, txs: seq<Tx>)
    requires Safe(b) && Ready(w) && ApplyAll(b, w, txs, true).Some?
    ensures var p := ApplyAll(b, w, txs, true).value;
            && (Coherent(End(p)) <==>
                  forall a <- p.world.cache :: Load(p.world.store.accounts, a) == Load(p.base.accounts, a))
            && ((forall i: nat :: i < |txs| ==> !WritesOversize(b, w, txs, i)) ==> Coherent(End(p)))
  {
    KeptReplays(b, w, w, txs);
    if forall i: nat :: i < |txs| ==> !WritesOversize(b, w, txs, i) {
      AccountsMoveOnlyByWrites(b, w, txs);
    }
  }

  // ---------------------------------------------------------------- what a strict block is

  /** The transactions one after the other, without checks, limits or rollback. */
  function Sequence(b: Block, w: World, txs: seq<Tx>): (r: Option<(World, seq<Memo>)>)
  {
    if txs == [] then Some((w, []))
    else
      var n := |txs| - 1;
      var before :- Sequence(b, w, txs[..n]);
      var done :- Execute(before.0, b.program(n, txs[n]), b.height);
      Some((done.0, before.1 + [done.1]))
  }

  function SumSizes(txs: seq<Tx>): (size: nat)
  {
    if txs == [] then 0 else SumSizes(txs[..|txs| - 1]) + txs[|txs| - 1].size
  }

  predicate Distinct(txs: seq<Tx>)
  {
    forall i, j :: 0 <= i < j < |txs| ==> txs[i] != txs[j]
  }

  /** Every transaction passes the checks, none comes twice, and together they fit. */
  predicate Admissible(b: Block, txs: seq<Tx>)
  {
    (forall tx <- txs :: b.checked(tx)) && Distinct(txs) && SumSizes(txs) <= b.limit
  }

  /** The state of a strict block without failures. */
  ghost predicate IsSequence(p: Progress, txs: seq<Tx>, end: (World, seq<Memo>))
  {
    && p.kept == txs && p.failed == [] && p.excluded == [] && !p.oversize
    && p.world == end.0 && p.base == end.0.store && p.results == end.1
    && p.size == SumSizes(txs) && p.seen == set tx | tx in txs
  }

  lemma LastOf(txs: seq<Tx>)
    requires txs != []
    ensures var n := |txs| - 1;
            && (forall tx :: tx in txs <==> tx in txs[..n] || tx == txs[n])
            && (Distinct(txs) <==> Distinct(txs[..n]) && txs[n] !in txs[..n])
  {
    var n := |txs| - 1;
    assert txs == txs[..n] + [txs[n]];
    if Distinct(txs[..n]) && txs[n] !in txs[..n] {
      forall i, j | 0 <= i < j < |txs| ensures txs[i] != txs[j] {
        assert i < n && txs[i] == txs[..n][i];
        assert j < n ==> txs[j] == txs[..n][j];
      }
    }
  }

  lemma FailuresStay(b: Block, p: Progress, tx: Tx)
    requires ApplyOne(b, p, tx, false).Some? && ApplyOne(b, p, tx, false).value.failed == []
    ensures p.failed == [] && b.checked(tx) && tx !in p.seen
    ensures Execute(p.world, b.program(|p.kept|, tx), b.height).Some?
    ensures !p.oversize ==> tx.size + p.size <= b.limit
  {
  }

  /**
   * A block is accepted whole, strictly, if and only if its transactions are admissible and succeed one after
   * the other; it then keeps them all in order and ends where that sequence ends.
   */
  lemma {:induction false} StrictIsSequential(b: Block, w: World, txs: seq<Tx>)
    ensures ApplyAll(b, w, txs, false).Some? && ApplyAll(b, w, txs, false).value.failed == []
            <==> Admissible(b, txs) && Sequence(b, w, txs).Some?
    ensures Admissible(b, txs) && Sequence(b, w, txs).Some? ==>
              IsSequence(ApplyAll(b, w, txs, false).value, txs, Sequence(b, w, txs).value)
  {
    if txs != [] {
      var init, tx := txs[..|txs| - 1], txs[|txs| - 1];
      LastOf(txs);
      StrictIsSequential(b, w, init);
      if ApplyAll(b, w, txs, false).Some? && ApplyAll(b, w, txs, false).value.failed == [] {
        FailuresStay(b, ApplyAll(b, w, init, false).value, tx);
      }
      if Admissible(b, txs) && Sequence(b, w, txs).Some? {
        assert init + [tx] == txs;
      }
    }
  }

  /**
   * WHERE IT ENDS UP: a transaction aborts the block if it passed the checks and is a duplicate, or would be
   * the first not to fit in a strict block. Otherwise it fails if it did not pass or does not succeed, and a
   * successful one is kept exactly if the limit has not been hit before and it fits; hitting it is final.
   */
  lemma TxEndsUp(b: Block, p: Progress, tx: Tx, allowOversize: bool)
    ensures var fits := tx.size + p.size <= b.limit;
            var succeeds := Execute(p.world, b.program(|p.kept|, tx), b.height).Some?;
            match ApplyOne(b, p, tx, allowOversize) {
              case None => b.checked(tx) && (tx in p.seen || (!fits && !p.oversize && !allowOversize))
              case Some(q) =>
                && (b.checked(tx) ==> tx !in p.seen && (fits || p.oversize || allowOversize))
                && (q.failed == p.failed + [tx] <==> !b.checked(tx) || !succeeds)
                && (q.excluded == p.excluded + [tx] <==> b.checked(tx) && succeeds && (p.oversize || !fits))
                && (q.kept == p.kept + [tx] <==> b.checked(tx) && succeeds && !p.oversize && fits)
                && (q.oversize <==> p.oversize || (b.checked(tx) && !fits))
                && q.size == p.size + (if q.kept == p.kept + [tx] then tx.size else 0)
                && (forall t :: t in q.seen <==> t in p.seen || (t == tx && b.checked(tx)))
            }
  {
    if ApplyOne(b, p, tx, allowOversize).Some? {
      var q := ApplyOne(b, p, tx, allowOversize).value;
      assert |p.kept + [tx]| == |p.kept| + 1 && |p.failed + [tx]| == |p.failed| + 1 && |p.excluded + [tx]| == |p.excluded| + 1;
    }
  }

  /** How often a transaction occurs in a list. */
  function Times(txs: seq<Tx>, t: Tx): (n: nat)
  {
    if txs == [] then 0 else Times(txs[..|txs| - 1], t) + if txs[|txs| - 1] == t then 1 else 0
  }

  function Listed(p: Progress, t: Tx): (n: nat)
  {
    Times(p.kept, t) + Times(p.failed, t) + Times(p.excluded, t)
  }

  /** One of the three lists has grown by one transaction. */
  predicate GrownBy(p: Progress, q: Progress, tx: Tx)
  {
    || (q.kept == p.kept + [tx] && q.failed == p.failed && q.excluded == p.excluded)
    || (q.kept == p.kept && q.failed == p.failed + [tx] && q.excluded == p.excluded)
    || (q.kept == p.kept && q.failed == p.failed && q.excluded == p.excluded + [tx])
  }

  lemma OneMoreListed(p: Progress, q: Progress, tx: Tx, t: Tx)
    requires GrownBy(p, q, tx)
    ensures Listed(q, t) == Listed(p, t) + if tx == t then 1 else 0
  {
    OneMore(p.kept, tx, t);
    OneMore(p.failed, tx, t);
    OneMore(p.excluded, tx, t);
  }

  lemma OneMore(txs: seq<Tx>, tx: Tx, t: Tx)
    ensures Times(txs + [tx], t) == Times(txs, t) + if tx == t then 1 else 0
  {
    assert (txs + [tx])[..|txs|] == txs;
  }

  lemma EachStepGrows(b: Block, p: Progress, tx: Tx, allowOversize: bool)
    requires ApplyOne(b, p, tx, allowOversize).Some?
    ensures GrownBy(p, ApplyOne(b, p, tx, allowOversize).value, tx)
  {
  }

  /** Filtering loses no transaction: each ends up kept, failed or excluded, as often as it was in the list. */
  lemma {:induction false} EveryTxIsAccountedFor(b: Block, w: World, txs: seq<Tx>, allowOversize: bool, t: Tx)
    requires ApplyAll(b, w, txs, allowOversize).Some?
    ensures Listed(ApplyAll(b, w, txs, allowOversize).value, t) == Times(txs, t)
  {
    if txs != [] {
      var init, tx := txs[..|txs| - 1], txs[|txs| - 1];
      EveryTxIsAccountedFor(b, w, init, allowOversize, t);
      var p := ApplyAll(b, w, init, allowOversize).value;
      EachStepGrows(b, p, tx, allowOversize);
      OneMoreListed(p, ApplyOne(b, p, tx, allowOversize).value, tx, t);
    }
  }

  /** So what filtering keeps is an admissible block that succeeds in sequence and ends in the same store. */
  lemma FilterKeepsASequence(b: Block, w: World, txs: seq<Tx>)
    requires Safe(b) && Ready(w) && ApplyAll(b, w, txs, true).Some?
    ensures var p := ApplyAll(b, w, txs, true).value;
            && Admissible(b, p.kept) && Sequence(b, w, p.kept).Some?
            && Sequence(b, w, p.kept).value.0.store == End(p).store && Sequence(b, w, p.kept).value.1 == p.results
  {
    FilterThenReplay(b, w, w, txs);
    StrictIsSequential(b, w, ApplyAll(b, w, txs, true).value.kept);
  }

  // ---------------------------------------------------------------- a block whose oversize part leaves traces

  /** A block with room for one transaction; each credits an account and slashes a validator by ten percent. */
  function Slashing(): (b: Block)
  {
    Block(1, 1, (i, tx) => SlashingProgram(), tx => true)
  }

  function SlashingProgram(): (program: seq<Step>)
  {
    [OnAccount(Payee, Paid), OnSlash(Victim, Slashed)]
  }

  function Payee(m: Memo): (address: nat) { 7 }

  function Victim(m: Memo): (k: (nat, nat)) { (3, 1) }

  function Paid(m: Memo, a: Account): (r: Option<(Memo, Account)>)
  {
    if a.amount + 5 >= LIMIT then None else Some((m, a.(amount := a.amount + 5)))
  }

  function Slashed(m: Memo, total: nat): (r: Option<(Memo, nat)>)
  {
    Some((m, 10))
  }

  lemma SlashingIsSafe()
    ensures Safe(Slashing())
  {
    forall i: nat, tx: Tx ensures KeepsTidy(Slashing().program(i, tx), 1) {
      assert Slashing().program(i, tx) == SlashingProgram();
      forall m: Memo, a: Account | Tidy(a) && Paid(m, a).Some? ensures Writable(Paid(m, a).value.1, 1) {
      }
    }
  }

  /** One of these transactions adds five to the account and ten to the tracker. */
  lemma SlashingRuns(w: World, amount: u64)
    requires GetAccount(w, 7) == Account(amount, 0, 0, 0, 0) && amount <= 5
    ensures Execute(w, SlashingProgram(), 1).Some?
    ensures var w' := Execute(w, SlashingProgram(), 1).value.0;
            && w'.tracker == w.tracker[(3, 1) := TotalSlash(w.tracker, (3, 1)) + 10]
            && w'.cache == w.cache[7 := Account(amount + 5, 0, 0, 0, 0)]
            && w'.store.accounts == w.store.accounts[7 := Account(amount + 5, 0, 0, 0, 0)]
  {
    ExecuteTwo(w, OnAccount(Payee, Paid), OnSlash(Victim, Slashed), 1);
  }

  function Blank(): (w: World)
  {
    World(Store(map[], map[], map[]), map[], map[])
  }

  /** One of these transactions that fits is kept, with what it wrote and slashed. */
  lemma FittingIsKept(p: Progress, tx: Tx, amount: u64)
    requires !TooLarge(Slashing(), p, tx) && GetAccount(p.world, 7) == Account(amount, 0, 0, 0, 0) && amount <= 5
    ensures var q := RunTx(Slashing(), p, tx);
            && q.kept == p.kept + [tx] && q.excluded == p.excluded && q.size == p.size + tx.size && q.seen == p.seen + {tx}
            && q.base == q.world.store && q.atLimit == q.world.tracker && !q.oversize
            && TotalSlash(q.world.tracker, (3, 1)) == TotalSlash(p.world.tracker, (3, 1)) + 10
            && GetAccount(q.world, 7) == Account(amount + 5, 0, 0, 0, 0) == Load(q.base.accounts, 7)
  {
    SlashingRuns(p.world, amount);
  }

  /** One that does not fit is excluded, and the store it wrote is dropped. */
  lemma LargeIsExcluded(p: Progress, tx: Tx, amount: u64)
    requires TooLarge(Slashing(), p, tx) && GetAccount(p.world, 7) == Account(amount, 0, 0, 0, 0) && amount <= 5
    ensures var q := RunTx(Slashing(), p, tx);
            && q.kept == p.kept && q.excluded == p.excluded + [tx] && q.base == p.base && q.atLimit == p.atLimit
            && TotalSlash(q.world.tracker, (3, 1)) == TotalSlash(p.world.tracker, (3, 1)) + 10
            && 7 in q.world.cache && q.world.cache[7] == Account(amount + 5, 0, 0, 0, 0)
  {
    SlashingRuns(p.world, amount);
  }

  /**
   * Oversize transactions do leave something behind: of two transactions the second is excluded, but its
   * slash stays on the tracker, and the cache keeps an account value the store does not have.
   */
  lemma OversizeLeavesTraces()
    ensures var b, w, txs := Slashing(), Blank(), [Tx(0, 1), Tx(1, 1)];
            && Safe(b) && Ready(w)
            && ApplyAll(b, w, txs, true).Some?
            && var p := ApplyAll(b, w, txs, true).value;
               && p.kept == [txs[0]] && p.excluded == [txs[1]]
               && TotalSlash(p.atLimit, (3, 1)) == 10 && TotalSlash(End(p).tracker, (3, 1)) == 20
               && Load(End(p).store.accounts, 7).amount == 5 && GetAccount(End(p), 7).amount == 10 && !Coherent(End(p))
  {
    var b, w, first, second := Slashing(), Blank(), Tx(0, 1), Tx(1, 1);
    var txs := [first, second];
    assert txs[..1] == [first] && [first][..0] == [];
    SlashingIsSafe();
    FittingIsKept(Begin(w), first, 0);
    var p := RunTx(b, Begin(w), first);
    assert ApplyAll(b, w, [first], true) == Some(p);
    LargeIsExcluded(p, second, 5);
    var q := RunTx(b, p, second);
    assert ApplyAll(b, w, txs, true) == Some(q);
    assert End(q).cache[7].amount == 10;
  }

  lemma ExecuteTwo(w: World, s: Step, t: Step, height: u64)
    ensures var r := RunStep(w, [], s, height);
            Execute(w, [s, t], height) == if r.None? then None else RunStep(r.value.0, r.value.1, t, height)
  {
    assert [s, t][..1] == [s] && [s][..0] == [];
    assert Execute(w, [s], height) == RunStep(w, [], s, height);
  }

  // ---------------------------------------------------------------- transfers as programs

  /** A schedule of zeroes is an ordinary send. */
  predicate HasSchedule(s: Schedule)
  {
    s.start != 0 || s.end != 0
  }

  function KeepMemo(m: Memo, a: Option<Account>): (r: Option<(Memo, Account)>)
  {
    if a.None? then None else Some((m, a.value))
  }

  function CheckRecipient(to: nat, s: Schedule, height: u64): (step: Step)
  {
    OnLook(m => to, (m: Memo, a: Account) => if HasSchedule(s) && !Compatible(a, s, height) then None else Some(m))
  }

  function TakeFrom(from: nat, amount: u64, height: u64): (step: Step)
  {
    OnAccount(m => from, (m, a) => KeepMemo(m, Debited(a, amount, height)))
  }

  function GiveTo(to: nat, amount: u64, s: Schedule, height: u64): (step: Step)
  {
    OnAccount(m => to, (m, a) => KeepMemo(m, Given(a, amount, s, height)))
  }

  /** HandleMessageSend */
  function SendProgram(from: nat, to: nat, amount: u64, s: Schedule, height: u64): (program: seq<Step>)
  {
    [CheckRecipient(to, s, height), TakeFrom(from, amount, height), GiveTo(to, amount, s, height)]
  }

  lemma TakingStep(w: World, m: Memo, from: nat, amount: u64, height: u64)
    ensures var paid := Debited(GetAccount(w, from), amount, height);
            RunStep(w, m, TakeFrom(from, amount, height), height)
            == if paid.None? then None else Some((SetAccount(w, from, paid.value, height), m))
  {
  }

  function Given(a: Account, amount: u64, s: Schedule, height: u64): (r: Option<Account>)
  {
    if HasSchedule(s) then Granted(a, amount, s, height) else Credited(a, amount)
  }

  lemma GivingStep(w: World, m: Memo, to: nat, amount: u64, s: Schedule, height: u64)
    ensures var given := Given(GetAccount(w, to), amount, s, height);
            RunStep(w, m, GiveTo(to, amount, s, height), height)
            == if given.None? then None else Some((SetAccount(w, to, given.value, height), m))
  {
  }

  lemma TakingIsSafe(a: Account, amount: u64, height: u64)
    requires amount > 0 && Tidy(a) && Debited(a, amount, height).Some?
    ensures Writable(Debited(a, amount, height).value, height)
  {
    assert Locked(Debited(a, amount, height).value, height) == Locked(a, height);
  }

  /** Every send of a positive amount meets what the replay theorem asks of a program, schedule or not. */
  lemma SendsAreSafe(from: nat, to: nat, amount: u64, s: Schedule, height: u64)
    requires amount > 0
    ensures KeepsTidy(SendProgram(from, to, amount, s, height), height)
  {
    var take, give := TakeFrom(from, amount, height), GiveTo(to, amount, s, height);
    forall m: Memo, a: Account | Tidy(a) && take.run(m, a).Some? ensures Writable(take.run(m, a).value.1, height) {
      assert take.run(m, a) == KeepMemo(m, Debited(a, amount, height));
      TakingIsSafe(a, amount, height);
    }
    forall m: Memo, a: Account | Tidy(a) && give.run(m, a).Some? ensures Writable(give.run(m, a).value.1, height) {
      assert give.run(m, a) == KeepMemo(m, Given(a, amount, s, height));
    }
  }

  /** The three steps of a send, one after the other. */
  lemma SendUnfolds(w: World, from: nat, to: nat, amount: u64, s: Schedule, height: u64)
    ensures var r := Execute(w, SendProgram(from, to, amount, s, height), height);
            var paid := Debited(GetAccount(w, from), amount, height);
            if (HasSchedule(s) && !Compatible(GetAccount(w, to), s, height)) || paid.None? then r.None?
            else
              var w1 := SetAccount(w, from, paid.value, height);
              var given := Given(GetAccount(w1, to), amount, s, height);
              (r.None? <==> given.None?) && (r.Some? ==> r.value.0 == SetAccount(w1, to, given.value, height))
  {
    var look := CheckRecipient(to, s, height);
    ExecuteThree(w, look, TakeFrom(from, amount, height), GiveTo(to, amount, s, height), height);
    assert RunStep(w, [], look, height)
        == if HasSchedule(s) && !Compatible(GetAccount(w, to), s, height) then None else Some((w, []));
    TakingStep(w, [], from, amount, height);
    var paid := Debited(GetAccount(w, from), amount, height);
    if paid.Some? {
      GivingStep(SetAccount(w, from, paid.value, height), [], to, amount, s, height);
    }
  }

  /** The sender has the amount less, all of it from what it could spend. */
  predicate Pays(a: Account, a': Account, amount: nat, height: u64)
  {
    a'.amount == a.amount - amount && Locked(a', height) == Locked(a, height) && Spendable(a', height) == Spendable(a, height) - amount
  }

  /**
   * The recipient has the amount more: spendable at once, or in a tranche under the schedule, on top of what
   * was still locked, and locked as a whole until the cliff.
   */
  predicate Receives(b: Account, b': Account, amount: nat, s: Schedule, height: u64)
  {
    && b'.amount == b.amount + amount
    && (s.start == 0 && s.end == 0 ==>
          Locked(b', height) == Locked(b, height) && Spendable(b', height) == Spendable(b, height) + amount)
    && (s.start != 0 || s.end != 0 ==>
          && (height < s.start || height < s.cliff ==>
                Locked(b', height) == Locked(b, height) + amount && Spendable(b', height) == Spendable(b, height))
          && (Locked(b', height) > 0 ==>
                && (b'.start, b'.cliff, b'.end) == (s.start, s.cliff, s.end)
                && b'.vesting == amount + if Locked(b, height) == 0 then 0 else b.vesting))
  }

  /** What a send leaves behind. */
  ghost predicate Delivered(w: World, w': World, from: nat, to: nat, amount: nat, s: Schedule, height: u64)
  {
    && (forall k :: k != from && k != to ==> GetAccount(w', k) == GetAccount(w, k))
    && (from == to ==> GetAccount(w', to).amount == GetAccount(w, to).amount)
    && (from != to ==>
          && Pays(GetAccount(w, from), GetAccount(w', from), amount, height)
          && Receives(GetAccount(w, to), GetAccount(w', to), amount, s, height))
  }

  /** The recipient can take the amount under this schedule, if there is one. */
  predicate CanTake(b: Account, amount: u64, s: Schedule, height: u64)
  {
    && b.amount + amount < LIMIT
    && (s.start != 0 || s.end != 0 ==>
          && b.vesting + amount < LIMIT
          && (Locked(b, height) == 0 || (b.start, b.cliff, b.end) == (s.start, s.cliff, s.end)))
  }

  /** Writing the account clears at most a finished schedule, so the recipient receives either way. */
  lemma GivenIsReceived(b: Account, amount: u64, s: Schedule, height: u64)
    requires Sound(b, height)
    ensures Given(b, amount, s, height).Some? <==> CanTake(b, amount, s, height)
    ensures Given(b, amount, s, height).Some? ==>
              Receives(b, Cleared(Given(b, amount, s, height).value, height), amount, s, height)
  {
    GrantMeans(b, amount, s, height);
    LockedStaysLocked(b, amount, height);
    if Given(b, amount, s, height).Some? {
      ClearedMeans(Given(b, amount, s, height).value, height);
      if HasSchedule(s) && (height < s.start || height < s.cliff) {
        GrantLocksItsAmount(b, amount, s, height);
      }
    }
  }

  lemma TakenIsPaid(a: Account, amount: u64, height: u64)
    requires Sound(a, height)
    ensures Debited(a, amount, height).Some? <==> amount <= Spendable(a, height)
    ensures Debited(a, amount, height).Some? ==> Pays(a, Cleared(Debited(a, amount, height).value, height), amount, height)
  {
    LockedStaysLocked(a, amount, height);
    if Debited(a, amount, height).Some? {
      ClearedMeans(Debited(a, amount, height).value, height);
    }
  }

  lemma SelfSendKeeps(w: World, from: nat, amount: u64, s: Schedule, height: u64)
    requires amount > 0 && Execute(w, SendProgram(from, from, amount, s, height), height).Some?
    ensures GetAccount(Execute(w, SendProgram(from, from, amount, s, height), height).value.0, from).amount == GetAccount(w, from).amount
    ensures forall k :: k != from ==>
              GetAccount(Execute(w, SendProgram(from, from, amount, s, height), height).value.0, k) == GetAccount(w, k)
  {
    SendUnfolds(w, from, from, amount, s, height);
  }

  /** Between two accounts, the check of the recipient decides nothing that giving does not. */
  lemma SendBetween(w: World, from: nat, to: nat, amount: u64, s: Schedule, height: u64)
    requires from != to
    ensures var r, paid, given := Execute(w, SendProgram(from, to, amount, s, height), height),
                                  Debited(GetAccount(w, from), amount, height), Given(GetAccount(w, to), amount, s, height);
            && (r.Some? <==> paid.Some? && given.Some?)
            && (r.Some? ==>
                  forall k :: GetAccount(r.value.0, k)
                              == if k == from then Cleared(paid.value, height)
                                 else if k == to then Cleared(given.value, height)
                                 else GetAccount(w, k))
  {
    SendUnfolds(w, from, to, amount, s, height);
    GrantMeans(GetAccount(w, to), amount, s, height);
  }

  /**
   * SEND: between two accounts a send succeeds exactly if the sender can spend the amount and the recipient
   * can take it; it then delivers, and a send with a schedule leaves its amount locked at the recipient.
   */
  lemma SendDelivers(w: World, from: nat, to: nat, amount: u64, s: Schedule, height: u64)
    requires amount > 0 && Sound(GetAccount(w, from), height) && Sound(GetAccount(w, to), height)
    ensures var r := Execute(w, SendProgram(from, to, amount, s, height), height);
            && (from != to ==>
                  (r.Some? <==> amount <= Spendable(GetAccount(w, from), height) && CanTake(GetAccount(w, to), amount, s, height)))
            && (r.Some? ==> Delivered(w, r.value.0, from, to, amount, s, height))
  {
    if from == to {
      if Execute(w, SendProgram(from, to, amount, s, height), height).Some? {
        SelfSendKeeps(w, from, amount, s, height);
      }
    } else {
      SendBetween(w, from, to, amount, s, height);
      TakenIsPaid(GetAccount(w, from), amount, height);
      GivenIsReceived(GetAccount(w, to), amount, s, height);
    }
  }

  lemma ExecuteThree(w: World, s: Step, t: Step, u: Step, height: u64)
    ensures var r := RunStep(w, [], s, height);
            Execute(w, [s, t, u], height)
            == if r.None? then None
               else
                 var q := RunStep(r.value.0, r.value.1, t, height);
                 if q.None? then None else RunStep(q.value.0, q.value.1, u, height)
  {
    ExecuteTwo(w, s, t, height);
    assert [s, t, u][..2] == [s, t];
  }

  lemma AmountLocksNothing(a: Account, amount: u64, height: u64)
    ensures Locked(a.(amount := amount), height) == Locked(a, height)
  {
  }

  // ---------------------------------------------------------------- the state machine itself

  /** One account's balance changes by this much, and no other account changes at all. */
  ghost predicate Shifted(w: World, w': World, address: nat, change: int)
  {
    && GetAccount(w', address).amount == GetAccount(w, address).amount + change
    && forall k :: k != address ==> GetAccount(w', k) == GetAccount(w, k)
  }

  class Machine {
    var store: Store
    var cache: Accounts
    var tracker: Tracker
    const height: u64

    constructor (store: Store, tracker: Tracker, height: u64)
      ensures State() == World(store, map[], tracker) && this.height == height
    {
      this.store, this.cache, this.tracker, this.height := store, map[], tracker, height;
    }

    function State(): (w: World)
      reads this
    {
      World(store, cache, tracker)
    }

    /** Reads through the cache; while cache and store agree, that is what the store holds. */
    method Get(address: nat) returns (a: Account)
      ensures a == GetAccount(State(), address)
      ensures Coherent(State()) ==> a == Load(store.accounts, address)
    {
      if address in cache {
        return cache[address];
      }
      return Load(store.accounts, address);
    }

    /** Reading back gives the cleared account, no other account changes, and cache and store keep agreeing. */
    method Set(address: nat, a: Account)
      modifies this`store, this`cache
      ensures State() == SetAccount(old(State()), address, a, height)
      ensures forall k :: GetAccount(State(), k) == if k == address then Cleared(a, height) else GetAccount(old(State()), k)
      ensures Writable(a, height) && Ready(old(State())) ==> Ready(State())
    {
      if Coherent(State()) {
        SetAccountKeepsCoherent(State(), address, a, height);
      }
      var b := Cleared(a, height);
      cache := cache[address := b];
      if b.amount == 0 {
        store := store.(accounts := store.accounts - {address});
      } else {
        store := store.(accounts := store.accounts[address := b]);
      }
    }

    method AccountAdd(address: nat, amount: u64) returns (ok: bool)
      modifies this`store, this`cache
      ensures !ok ==> State() == old(State())
      ensures ok ==> Shifted(old(State()), State(), address, amount)
      ensures Ready(old(State())) ==> Ready(State())
      ensures amount == 0 ==> ok && State() == old(State())
      ensures amount > 0 ==>
                var r := Credited(GetAccount(old(State()), address), amount);
                (ok <==> r.Some?) && (ok ==> State() == SetAccount(old(State()), address, r.value, height))
    {
      if amount == 0 {
        return true;
      }
      var a := Get(address);
      if a.amount > LIMIT - 1 - amount {
        return false;
      }
      Set(address, a.(amount := a.amount + amount));
      return true;
    }

    method AccountSub(address: nat, amount: u64) returns (ok: bool)
      modifies this`store, this`cache
      ensures !ok ==> State() == old(State())
      ensures ok ==> Shifted(old(State()), State(), address, 0 - amount)
      ensures Ready(old(State())) ==> Ready(State())
      ensures amount == 0 ==> ok && State() == old(State())
      ensures amount > 0 ==>
                var r := Debited(GetAccount(old(State()), address), amount, height);
                (ok <==> r.Some?) && (ok ==> State() == SetAccount(old(State()), address, r.value, height))
    {
      if amount == 0 {
        return true;
      }
      var a := Get(address);
      if Spendable(a, height) < amount {
        return false;
      }
      Set(address, a.(amount := a.amount - amount));
      return true;
    }

    method AccountAddWithVesting(address: nat, amount: u64, s: Schedule) returns (ok: bool)
      requires amount > 0
      modifies this`store, this`cache
      ensures !ok ==> State() == old(State())
      ensures ok ==> Shifted(old(State()), State(), address, amount)
      ensures Ready(old(State())) ==> Ready(State())
      ensures var r := Granted(GetAccount(old(State()), address), amount, s, height);
              (ok <==> r.Some?) && (ok ==> State() == SetAccount(old(State()), address, r.value, height))
    {
      var a := Get(address);
      if a.amount > LIMIT - 1 - amount || a.vesting > LIMIT - 1 - amount || !Compatible(a, s, height) {
        return false;
      }
      AmountLocksNothing(a, a.amount + amount, height);
      a := a.(amount := a.amount + amount);
      if a.vesting == 0 || Locked(a, height) == 0 {
        a := a.(vesting := amount, start := s.start, cliff := s.cliff, end := s.end);
      } else {
        a := a.(vesting := a.vesting + amount);
      }
      Set(address, a);
      return true;
    }

    method HandleMessageSend(from: nat, to: nat, amount: u64, s: Schedule) returns (ok: bool)
      requires amount > 0
      modifies this`store, this`cache
      ensures ok <==> Execute(old(State()), SendProgram(from, to, amount, s, height), height).Some?
      ensures ok ==> State() == Execute(old(State()), SendProgram(from, to, amount, s, height), height).value.0
      ensures ok && Sound(GetAccount(old(State()), from), height) && Sound(GetAccount(old(State()), to), height) ==>
                Delivered(old(State()), State(), from, to, amount, s, height)
    {
      if Sound(GetAccount(State(), from), height) && Sound(GetAccount(State(), to), height) {
        SendDelivers(State(), from, to, amount, s, height);
      }
      SendUnfolds(State(), from, to, amount, s, height);
      if HasSchedule(s) {
        var recipient := Get(to);
        if !Compatible(recipient, s, height) {
          return false;
        }
      }
      ok := AccountSub(from, amount);
      if ok && HasSchedule(s) {
        ok := AccountAddWithVesting(to, amount, s);
      } else if ok {
        ok := AccountAdd(to, amount);
      }
    }

    method Interact(m: Memo, step: Step) returns (ok: bool, m': Memo)
      modifies this
      ensures ok <==> RunStep(old(State()), m, step, height).Some?
      ensures ok ==> (State(), m') == RunStep(old(State()), m, step, height).value
    {
      m' := m;
      match step
      case OnAccount(who, run) =>
        var a := Get(who(m));
        var done := run(m, a);
        if done.None? {
          return false, m;
        }
        Set(who(m), done.value.1);
        return true, done.value.0;
      case OnLook(who, look) =>
        var a := Get(who(m));
        var done := look(m, a);
        if done.None? {
          return false, m;
        }
        return true, done.value;
      case OnKey(key, change) =>
        var done := change(m, LookUp(store.other, key(m)));
        if done.None? {
          return false, m;
        }
        store := store.(other := Put(store.other, key(m), done.value.1));
        return true, done.value.0;
      case OnValidator(whose, alter) =>
        var done := alter(m, LookUp(store.validators, whose(m)));
        if done.None? {
          return false, m;
        }
        store := store.(validators := Put(store.validators, whose(m), done.value.1));
        return true, done.value.0;
      case OnSlash(whom, add) =>
        var done := add(m, TotalSlash(tracker, whom(m)));
        if done.None? {
          return false, m;
        }
        tracker := AddSlash(tracker, whom(m), done.value.1);
        return true, done.value.0;
    }

    /** On failure the state is left half changed: the caller drops it. */
    method ApplyTransaction(program: seq<Step>) returns (ok: bool, memo: Memo)
      modifies this
      ensures ok <==> Execute(old(State()), program, height).Some?
      ensures ok ==> (State(), memo) == Execute(old(State()), program, height).value
    {
      ok, memo := true, [];
      for i := 0 to |program|
        invariant ok <==> Execute(old(State()), program[..i], height).Some?
        invariant ok ==> Execute(old(State()), program[..i], height) == Some((State(), memo))
      {
        assert program[..i + 1][..i] == program[..i];
        if ok {
          ok, memo := Interact(memo, program[i]);
        }
      }
      assert program[..|program|] == program;
    }

    /** One transaction that passed the checks: written through, or rolled back. */
    method DeliverTx(b: Block, p: Progress, tx: Tx) returns (p': Progress)
      requires b.height == height && p.world == State()
      modifies this
      ensures p' == RunTx(b, p, tx) && State() == p'.world
    {
      p' := p.(seen := p.seen + {tx}, oversize := TooLarge(b, p, tx));
      var currentStore, preTxSlashTracker := store, tracker;
      var ok, memo := ApplyTransaction(b.program(|p.kept|, tx));
      if !ok {
        cache := map[];
        tracker := preTxSlashTracker;
        store := currentStore;
        p' := p'.(world := State(), failed := p.failed + [tx]);
      } else if p'.oversize {
        p' := p'.(world := State(), excluded := p.excluded + [tx]);
      } else {
        p' := p'.(world := State(), base := store, atLimit := tracker, kept := p.kept + [tx], results := p.results + [memo],
                  size := p.size + tx.size);
      }
    }

    /** The loop over a block's transactions; on success the store is set back to the original one. */
    method ApplyTransactions(b: Block, txs: seq<Tx>, allowOversize: bool) returns (r: Option<Progress>)
      requires b.height == height
      modifies this
      ensures r == ApplyAll(b, old(State()), txs, allowOversize)
      ensures r.Some? ==> State() == End(r.value)
    {
      var p := Begin(State());
      for i := 0 to |txs|
        invariant ApplyAll(b, old(State()), txs[..i], allowOversize) == Some(p) && p.world == State()
      {
        assert txs[..i + 1][..i] == txs[..i];
        var tx := txs[i];
        if !b.checked(tx) {
          p := p.(failed := p.failed + [tx]);
        } else if tx in p.seen || (tx.size + p.size > b.limit && !p.oversize && !allowOversize) {
          AbortIsFinal(b, old(State()), txs, allowOversize, i + 1);
          store := p.base;
          return None;
        } else {
          p := DeliverTx(b, p, tx);
        }
      }
      assert txs[..|txs|] == txs;
      store := p.base;
      return Some(p);
    }
  }

  lemma {:induction false} AbortIsFinal(b: Block, w: World, txs: seq<Tx>, allowOversize: bool, i: nat)
    requires i <= |txs| && ApplyAll(b, w, txs[..i], allowOversize).None?
    ensures ApplyAll(b, w, txs, allowOversize).None?
  {
    if i == |txs| {
      assert txs[..i] == txs;
    } else {
      assert txs[..|txs| - 1][..i] == txs[..i];
      AbortIsFinal(b, w, txs[..|txs| - 1], allowOversize, i);
    }
  }
}
