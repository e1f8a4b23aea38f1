/**
 * Slashes inside a transaction: the slashing of module Slashing written as interactions of module
 * StateMachine, so that the rollback of a failed transaction is the one a block really performs.
 */
module SlashPrograms {
  import opened Options
  import opened Uint64
  import opened Staking
  import Vesting
  import StateMachine
  import Slashing

  type Memo = StateMachine.Memo

  /** One slash: a committee cuts a validator by a percentage. */
  type Cut = (nat, nat, nat)

  function At(m: Memo, i: nat): (n: nat)
  {
    if i < |m| then m[i] else 0
  }

  function Flag(on: bool): (n: nat)
  {
    if on then 1 else 0
  }

  /** First look: is there such a validator, and does it serve the committee? */
  function Look(chain: nat): (f: (Memo, Option<Validator>) -> Option<(Memo, Option<Validator>)>)
  {
    (m: Memo, v: Option<Validator>) => Some(([Flag(v.Some? && chain in v.value.committees)], v))
  }

  /** Then the tracker: what is left under the cap is added, and remembered with whether the cap was reached. */
  function Track(percent: nat, p: Slashing.Params): (f: (Memo, nat) -> Option<(Memo, nat)>)
  {
    (m: Memo, total: nat) =>
      if At(m, 0) == 0 || total >= p.max then Some(([0], 0))
      else Some(([1, Slashing.Capped(total, percent, p.max), Flag(total + percent >= p.max)],
                 Slashing.Capped(total, percent, p.max)))
  }

  /** Last the validator: less stake, one committee less at the cap, or gone. */
  function Alter(chain: nat, p: Slashing.Params, height: nat): (f: (Memo, Option<Validator>) -> Option<(Memo, Option<Validator>)>)
  {
    (m: Memo, v: Option<Validator>) =>
      if At(m, 0) == 0 || v.None? then Some((m, v))
      else
        var committees := if At(m, 2) == 1 then Slashing.Without(v.value.committees, chain) else v.value.committees;
        Some((m, Slashing.Cut(v.value, committees, At(m, 1), p, height)))
  }

  function Whose(address: nat): (f: Memo -> nat)
  {
    m => address
  }

  function Whom(address: nat, chain: nat): (f: Memo -> (nat, nat))
  {
    m => (address, chain)
  }

  function Looking(cut: Cut): (s: StateMachine.Step)
  {
    StateMachine.OnValidator(Whose(cut.0), Look(cut.1))
  }

  function Tracking(cut: Cut, p: Slashing.Params): (s: StateMachine.Step)
  {
    StateMachine.OnSlash(Whom(cut.0, cut.1), Track(cut.2, p))
  }

  function Altering(cut: Cut, p: Slashing.Params, height: nat): (s: StateMachine.Step)
  {
    StateMachine.OnValidator(Whose(cut.0), Alter(cut.1, p, height))
  }

  /** The slashes of a transaction, one after the other. */
  function Program(cuts: seq<Cut>, p: Slashing.Params, height: nat): (program: seq<StateMachine.Step>)
  {
    if cuts == [] then []
    else
      var cut := cuts[|cuts| - 1];
      Program(cuts[..|cuts| - 1], p, height) + [Looking(cut), Tracking(cut, p), Altering(cut, p, height)]
  }

  function Refuse(m: Memo, a: Vesting.Account): (r: Option<Memo>)
  {
    None
  }

  /** A transaction that slashes, and then perhaps fails. */
  function Transaction(cuts: seq<Cut>, fails: bool, p: Slashing.Params, height: nat): (program: seq<StateMachine.Step>)
  {
    Program(cuts, p, height) + if fails then [StateMachine.OnLook(Whose(0), Refuse)] else []
  }

  /** The machine's validators and tracker are those of the slashing model. */
  ghost predicate Shows(w: StateMachine.World, s: Slashing.State)
  {
    && w.store.validators == s.validators
    && forall a: nat, c: nat :: StateMachine.TotalSlash(w.tracker, (a, c)) == Slashing.At(s.tracker, (a, c))
  }

  /** Nothing but validators and tracker has changed. */
  predicate SameElse(w: StateMachine.World, v: StateMachine.World)
  {
    v.cache == w.cache && v.store.accounts == w.store.accounts && v.store.other == w.store.other
  }

  lemma PutSame(validators: map<nat, Validator>, address: nat)
    ensures StateMachine.Put(validators, address, StateMachine.LookUp(validators, address)) == validators
  {
  }

  /** The world after a slash that is not refused. */
  function Landed(w: StateMachine.World, cut: Cut, applied: nat, v: Option<Validator>): (w': StateMachine.World)
  {
    w.(tracker := StateMachine.AddSlash(w.tracker, (cut.0, cut.1), applied),
       store := w.store.(validators := StateMachine.Put(w.store.validators, cut.0, v)))
  }

  predicate Refused(w: StateMachine.World, cut: Cut, p: Slashing.Params)
  {
    || cut.0 !in w.store.validators || cut.1 !in w.store.validators[cut.0].committees
    || StateMachine.TotalSlash(w.tracker, (cut.0, cut.1)) >= p.max
  }

  /** The validator after the slash. */
  function After(w: StateMachine.World, cut: Cut, p: Slashing.Params, height: nat): (v: Option<Validator>)
    requires !Refused(w, cut, p)
  {
    var v, total := w.store.validators[cut.0], StateMachine.TotalSlash(w.tracker, (cut.0, cut.1));
    var committees := if total + cut.2 >= p.max then Slashing.Without(v.committees, cut.1) else v.committees;
    Slashing.Cut(v, committees, Slashing.Capped(total, cut.2, p.max), p, height)
  }

  /** The three interactions of one slash, from any memory. */
  lemma OneSlashRuns(w: StateMachine.World, m: Memo, cut: Cut, p: Slashing.Params, height: nat, h: u64) returns (w': StateMachine.World, m': Memo)
    ensures w' == if Refused(w, cut, p) then w
                  else Landed(w, cut, Slashing.Capped(StateMachine.TotalSlash(w.tracker, (cut.0, cut.1)), cut.2, p.max),
                              After(w, cut, p, height))
    ensures var r := StateMachine.RunStep(w, m, Looking(cut), h);
            && r.Some?
            && var q := StateMachine.RunStep(r.value.0, r.value.1, Tracking(cut, p), h);
               q.Some? && StateMachine.RunStep(q.value.0, q.value.1, Altering(cut, p, height), h) == Some((w', m'))
  {
    LookRuns(w, m, cut, h);
    if Refused(w, cut, p) {
      var m1 := [Flag(cut.0 in w.store.validators && cut.1 in w.store.validators[cut.0].committees)];
      RefusedRuns(w, m1, cut, p, height, h);
      w', m' := w, [0];
    } else {
      LandedRuns(w, [1], cut, p, height, h);
      var total := StateMachine.TotalSlash(w.tracker, (cut.0, cut.1));
      var applied := Slashing.Capped(total, cut.2, p.max);
      w', m' := Landed(w, cut, applied, After(w, cut, p, height)), [1, applied, Flag(total + cut.2 >= p.max)];
    }
  }

  lemma LookRuns(w: StateMachine.World, m: Memo, cut: Cut, h: u64)
    ensures StateMachine.RunStep(w, m, Looking(cut), h)
            == Some((w, [Flag(cut.0 in w.store.validators && cut.1 in w.store.validators[cut.0].committees)]))
  {
    PutSame(w.store.validators, cut.0);
  }

  /** A refused slash adds nothing and alters nothing. */
  lemma RefusedRuns(w: StateMachine.World, m: Memo, cut: Cut, p: Slashing.Params, height: nat, h: u64)
    requires At(m, 0) == 0 || StateMachine.TotalSlash(w.tracker, (cut.0, cut.1)) >= p.max
    ensures StateMachine.RunStep(w, m, Tracking(cut, p), h) == Some((w, [0]))
    ensures StateMachine.RunStep(w, [0], Altering(cut, p, height), h) == Some((w, [0]))
  {
    PutSame(w.store.validators, cut.0);
  }

  lemma LandedRuns(w: StateMachine.World, m: Memo, cut: Cut, p: Slashing.Params, height: nat, h: u64)
    requires At(m, 0) == 1 && !Refused(w, cut, p)
    ensures var total := StateMachine.TotalSlash(w.tracker, (cut.0, cut.1));
            var applied := Slashing.Capped(total, cut.2, p.max);
            var m2 := [1, applied, Flag(total + cut.2 >= p.max)];
            var w2 := w.(tracker := StateMachine.AddSlash(w.tracker, (cut.0, cut.1), applied));
            && StateMachine.RunStep(w, m, Tracking(cut, p), h) == Some((w2, m2))
            && StateMachine.RunStep(w2, m2, Altering(cut, p, height), h)
               == Some((Landed(w, cut, applied, After(w, cut, p, height)), m2))
  {
    var total := StateMachine.TotalSlash(w.tracker, (cut.0, cut.1));
    var applied := Slashing.Capped(total, cut.2, p.max);
    var m2: Memo := [1, applied, Flag(total + cut.2 >= p.max)];
    var w2 := w.(tracker := StateMachine.AddSlash(w.tracker, (cut.0, cut.1), applied));
    assert Track(cut.2, p)(m, total) == Some((m2, applied));
    assert StateMachine.RunStep(w, m, Tracking(cut, p), h) == Some((w2, m2));
    assert At(m2, 0) == 1 && At(m2, 1) == applied && At(m2, 2) == Flag(total + cut.2 >= p.max);
    var v := StateMachine.LookUp(w2.store.validators, cut.0);
    assert Alter(cut.1, p, height)(m2, v) == Some((m2, After(w, cut, p, height)));
  }

  lemma SlashIsShown(w: StateMachine.World, s: Slashing.State, cut: Cut, p: Slashing.Params, height: nat)
    requires Shows(w, s)
    ensures var t := Slashing.Slash(s, cut.0, cut.1, cut.2, p, height);
            if Refused(w, cut, p) then t == s
            else Shows(Landed(w, cut, Slashing.Capped(StateMachine.TotalSlash(w.tracker, (cut.0, cut.1)), cut.2, p.max),
                              After(w, cut, p, height)), t)
  {
  }

  lemma OneMore(w: StateMachine.World, program: seq<StateMachine.Step>, s: StateMachine.Step, h: u64)
    ensures var before := StateMachine.Execute(w, program, h);
            StateMachine.Execute(w, program + [s], h)
            == if before.None? then None else StateMachine.RunStep(before.value.0, before.value.1, s, h)
  {
    assert (program + [s])[..|program|] == program;
  }

  lemma ThreeMore(w: StateMachine.World, program: seq<StateMachine.Step>, s: StateMachine.Step, t: StateMachine.Step,
                  u: StateMachine.Step, h: u64)
    requires StateMachine.Execute(w, program, h).Some?
    ensures var before := StateMachine.Execute(w, program, h).value;
            var r := StateMachine.RunStep(before.0, before.1, s, h);
            StateMachine.Execute(w, program + [s, t, u], h)
            == if r.None? then None
               else
                 var q := StateMachine.RunStep(r.value.0, r.value.1, t, h);
                 if q.None? then None else StateMachine.RunStep(q.value.0, q.value.1, u, h)
  {
    OneMore(w, program, s, h);
    OneMore(w, program + [s], t, h);
    OneMore(w, program + [s] + [t], u, h);
    assert program + [s] + [t] + [u] == program + [s, t, u];
  }

  /** Executing the program of a list of slashes does what the slashing model says, and nothing else. */
  lemma {:induction false} ProgramSlashes(w: StateMachine.World, s: Slashing.State, cuts: seq<Cut>, p: Slashing.Params, height: nat, h: u64)
    requires Shows(w, s)
    ensures StateMachine.Execute(w, Program(cuts, p, height), h).Some?
    ensures var w' := StateMachine.Execute(w, Program(cuts, p, height), h).value.0;
            Shows(w', Slashing.SlashAll(s, cuts, p, height)) && SameElse(w, w')
  {
    if cuts != [] {
      var init, cut := cuts[..|cuts| - 1], cuts[|cuts| - 1];
      ProgramSlashes(w, s, init, p, height, h);
      var (w1, m1) := StateMachine.Execute(w, Program(init, p, height), h).value;
      ThreeMore(w, Program(init, p, height), Looking(cut), Tracking(cut, p), Altering(cut, p, height), h);
      var w2, m2 := OneSlashRuns(w1, m1, cut, p, height, h);
      SlashIsShown(w1, Slashing.SlashAll(s, init, p, height), cut, p, height);
    }
  }

  lemma FailingFails(w: StateMachine.World, program: seq<StateMachine.Step>, h: u64)
    ensures StateMachine.Execute(w, program + [StateMachine.OnLook(Whose(0), Refuse)], h) == None
  {
    OneMore(w, program, StateMachine.OnLook(Whose(0), Refuse), h);
  }

  /** What a delivered transaction leaves: its own world, or the one before without the cache. */
  lemma WorldAfter(b: StateMachine.Block, q: StateMachine.Progress, tx: StateMachine.Tx)
    ensures var done := StateMachine.Execute(q.world, b.program(|q.kept|, tx), b.height);
            StateMachine.RunTx(b, q, tx).world == if done.None? then q.world.(cache := map[]) else done.value.0
  {
  }

  /**
   * A transaction of slashes in a block is one event of the slashing model: delivered, it slashes; failed, it
   * is rolled back with what it added to the tracker. So the cap holds over blocks with failing transactions.
   */
  lemma DeliveredSlashesAreOneEvent(b: StateMachine.Block, q: StateMachine.Progress, tx: StateMachine.Tx, s: Slashing.State,
                                    cuts: seq<Cut>, fails: bool, p: Slashing.Params, height: nat)
    requires Shows(q.world, s) && b.program(|q.kept|, tx) == Transaction(cuts, fails, p, height)
    ensures Shows(StateMachine.RunTx(b, q, tx).world, Slashing.Step(s, Slashing.Transaction(cuts, fails), p, height))
  {
    WorldAfter(b, q, tx);
    var w' := StateMachine.RunTx(b, q, tx).world;
    if fails {
      FailingFails(q.world, Program(cuts, p, height), b.height);
      assert w' == q.world.(cache := map[]);
    } else {
      ProgramSlashes(q.world, s, cuts, p, height, b.height);
      assert Transaction(cuts, fails, p, height) == Program(cuts, p, height);
      assert Shows(w', Slashing.SlashAll(s, cuts, p, height));
    }
  }
}
