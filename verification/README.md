# Verification of a NestBFT chain with a cross-chain exchange

This project models three parts of the node in Dafny and proves what they promise.

**Consensus (`bft/`).** `Replica` states what each phase of NestBFT does to one replica's state; `BftNode` runs the
same phases on mutable fields. `Consensus` runs a committee of such replicas, any of which may be faulty, over a
growing log of signed votes, and proves agreement. `Unjustified` shows the run that breaks agreement when one
hypothesis is dropped. `LockRounds` says when the round of a lock can fall, `Unlocking` gives a run in which a locked
replica votes for another value, and `Participation` says what a replica has done when it decides. `Quorum`,
`VoteSets`, `PeerRounds` (in `Pacemaker.dfy`) and `Evidence` cover majorities, vote tallies, round synchronisation and
double-sign evidence.

**Exchange (`fsm/dex.go`).** `AmmOrders`, `LpPoints`, `LpWithdrawals` and `LpDeposits` are the arithmetic of one batch;
`DexBatches` composes it, seen from both chains. `DexChains` is one chain's side, `DexNode` the same with the loops and
updates in place. `DexMirror` runs two chains against each other, `DexHolding` one chain against anything the other may
send, and `DexPayouts` says who is paid what.

**Token ledger (`fsm/`).** `Vesting`, `StateMachine` (transactions, cache and rollback), `Slashing`, `OrderBook`,
`Rewards`, `SupplyList`, `Committees`, `TokenLedger` and `TokenMachine` cover the rest of the state; `SlashPrograms`
writes slashes as the interactions of a transaction, and `SharedLedger` places exchange and order books inside the one
ledger. `Staking`, `Balances`, `Uint64` and `Options` are shared.

Functions named like an operation give its result as a value; `None` is an error, after which the source drops all
changes with the enclosing transaction. The classes carry the source's loops and updates and are proved equal to these
functions; the theorems over runs are about the functions. 64-bit wrap-around, truncation and rounding are written out
wherever the source does not guard against them.

## Hypotheses

- Hashes are injective, so a hash is represented by what was hashed. Signatures cannot be forged: in a run the log holds
  every vote signed, and for evidence a certificate whose signature verifies has its signers' votes in that log.
- Consensus runs stay within one height and one root height, without resets. Faulty validators hold less than a third of
  the power where a theorem says so, and sign anything at any time.
- A leader message carries a certificate of the previous phase of the same round (`bft/prop.go:12-16`), and its HighQC
  is genuine; the code validates only the attached certificate itself (`bft/msg.go:81-112`).
- Agreement is for runs in which no proposal shown to a locked replica differs from its HighQC in exactly one hash. The
  comment at `bft/bft.go:691` asks for equal hashes, the condition at `bft/bft.go:692` refuses only when both differ. The
  model keeps the written condition; `Replica.SafeNodeMeetsItsRule` says that the two agree exactly without such
  proposals, and `Unjustified.AgreementNeedsJustification` gives a run in which one of them costs agreement.
- A signature of a known validator is always recorded: the multi-key refuses only an index out of range
  (`lib/crypto/bls.go:409-411`), and the index comes from the same validator set. `VoteSets.AddVoteKeepsExact` says what
  would happen otherwise.
- Order ids are fresh: they are taken from transaction hashes (`fsm/transaction.go:323`) and replays are refused. Where a
  theorem does not need this, it is stated without; an id in use again would leave escrow without an order.
- Order keys within a batch are distinct, and withdrawal percentages are at most 100 (`lib/certificate.go:893-898`).
- In the mirror runs nothing outside the exchange touches a liquidity pool, there is no liveness fallback and no
  committee reset, and batches arrive as published, in any order and any number of times. The holding-pool runs allow
  all of these.
- The transactions of a block are arbitrary programs over accounts, keys and slash tracker that empty an account only
  when nothing in it is locked; sends are proved to be such programs.
- New committee lists name no committee twice (`fsm/message_helpers.go:979-994`), and all stakes together stay below 2^64.
- Conservation holds while minting keeps the supply below 2^64, which the source does not check; the maximum slash per
  committee is between 1 and 100 (`fsm/gov_params.go:281`).

## What turned out to be false

- The written safe-node condition does not give agreement: see above.
- The round of a correct replica's lock can fall: any ELECTION-VOTE may carry a certificate of a round its receiver has
  not reached (`bft/vote.go:130-137` compares only with the present lock), and a receiver still to precommit then locks
  lower. `LockRounds.LockCanFall` is such a run; without such adoptions a lock never falls (`LockRounds.LocksNeverFall`),
  and `LockRounds.StepLowersLock` gives the exact step. Agreement does not depend on it.
- Oversize transactions are not traceless. The store is restored, but their slashes stay on the tracker and the account
  cache keeps what they wrote (`StateMachine.OversizeLeavesTraces`). The trackers of a filtering run and of its replay
  agree if and only if no oversize transaction that succeeds adds a slash, and all is well whenever the checked
  transactions fit together (`StateMachine.FilterThenReplay`, `StateMachine.CacheAfterOversize`).
- Vesting is not linear at every height: the product is taken in 64 bits (`fsm/account.go:108`).
  `Vesting.VestedIsProRata` gives the exact condition and `Vesting.SpendableCanFall` an account that violates it.
- The pacemaker's threshold is not always out of reach of the faulty. The comment at `bft/bft.go:568` asks for a third of
  the power; half of the majority, rounded down, can be less. `PeerRounds.FaultyAloneFallShort` says exactly when power
  below a third is enough, `PeerRounds.CorrectReachesPeerRound` that otherwise a correct validator has reached the round,
  and `PeerRounds.FaultyCanSetTheRound` gives a committee in which a faulty quarter sets it.
- A repeated withdrawal is not always paid its share: when a batch asks for more than all points, the asked part of a
  large reserve is cut to 64 bits (`LpWithdrawals.AskedPartCanBeCut`); `LpWithdrawals.WithdrawalGetsItsShare` gives the
  exact condition. Solvency does not depend on it.

## Model

| member | source | states |
|---|---|---|
| Quorum.PowerUnion | lib/consensus.go:51-85 | Voting power obeys inclusion-exclusion over any two signer sets. |
| Quorum.MajorityIsLeast | lib/consensus.go:66-67 | A power is a majority if and only if it is more than two thirds of the total. |
| Quorum.TotalIsEveryone | lib/consensus.go:51-56 | The total is the power of all validators together. |
| Quorum.QuorumIntersection | lib/consensus.go:70-85 | Two signer sets that each reach MinimumMaj23 share more than a third of the total power. |
| Quorum.HonestInIntersection | lib/consensus.go:70-85 | With faulty power below a third, two quorums share a correct validator. |
| Replica.ViewAdvances | bft/bft.go:161-199 | Every handled phase moves (round, phase) strictly forward, except waiting in COMMIT-PROCESS, which changes nothing; a sent vote carries the view in which it was sent. |
| Replica.SafeNodeMeetsItsRule | bft/bft.go:682-706 | The safe-node test, written out hash by hash and round by round, and that it agrees with the documented one for every lock if and only if the proposal differs from its HighQC in both hashes or in neither. |
| Replica.LockFollowsPrecommit | bft/bft.go:430-458 | The lock changes only together with a PRECOMMIT vote, and is then for exactly the voted value; no other phase touches it. |
| Replica.VotesAreForTheProposal | bft/bft.go:606-620 | A value is voted for only as the stored proposal of the stored proposer, and decided only as that. |
| Replica.LockedVoteIsSafe | bft/bft.go:335-391 | A locked replica votes if and only if the proposal is acceptable and its HighQC shares a hash with it and is for the locked value or of a later round. |
| Replica.VotesExactlyWhenSafe | bft/bft.go:335-391 | In PROPOSE-VOTE exactly one vote, for the message's value and sender, goes out if there is an acceptable message and either no lock or a safe HighQC, and nothing otherwise. |
| Replica.VotesExactlyForItsProposal | bft/bft.go:430-526 | A replica precommits, or decides, if and only if the message comes from its proposer and is for its stored proposal. |
| Replica.LeaderNeedsMajority | bft/bft.go:399-490 | In PRECOMMIT and COMMIT only the proposer can end the round, and does so exactly without a majority; every other replica moves on. |
| Replica.RoundsStartAfresh | bft/bft.go:548-579 | ELECTION-VOTE votes for the elected leader; the pacemaker moves to the next round or the peers' later one, forgets proposal and proposer, and keeps the lock. |
| Replica.AdoptsExactlyLater | bft/vote.go:114-143 | A certificate is adopted, with what is attached, if and only if it is the first or of a later round; else nothing changes. |
| Unlocking.LockedReplicaUnlocks | bft/bft.go:687-706 | A reachable run in which a replica locked on one value votes for another one because its HighQC is of a later round. |
| Replica.SilenceEndsTheRound | bft/bft.go:530-579 | A voting phase sends nothing if and only if the pacemaker is next; lock and round are then untouched. |
| Replica.LockedLeaderReproposes | bft/bft.go:288-330 | A leader with a lock proposes the value of its lock again; only one without a lock proposes something new, and neither without a majority; nothing else of its state changes. |
| Replica.AdoptionRaisesLock | bft/vote.go:114-143 | Adopting a HighQC never lowers the round of the lock, never moves the view, and replaces the lock by that HighQC or not at all. |
| Consensus.RunsKeepInv | bft/bft.go:335-526 | In every state of every justified run locks are certified, precommits follow the propose-vote certificate of their round, later votes of a precommitted replica are carried by a certificate of that or a later round, and decisions are certified. |
| Consensus.NoHonestEquivocation | bft/bft.go:161-199 | In every run, with no hypothesis about proposals, a correct replica's votes are ordered by (round, phase) and it signs at most one payload per view. |
| Consensus.OneValuePerView | bft/vote.go:27-38 | One view certifies at most one value. |
| Consensus.CommitFixesValue | bft/bft.go:430-458 | Once a value has a commit certificate in round r, every propose-vote certificate of round r or later is for that value. |
| Consensus.CommitNeedsProposeVotes | bft/bft.go:430-458 | A commit certificate rests on the propose-vote certificate of its own round. |
| Consensus.CommitsAgree | bft/bft.go:498-526 | Two commit certificates of any two rounds carry the same block and results. |
| Consensus.Agreement | bft/bft.go:335-526 | Agreement over every justified run with faulty power below a third: commit certificates, later propose-vote certificates and decisions never differ. |
| Consensus.ProposeVoteCarried | bft/bft.go:335-391 | A correct replica's propose-vote follows its own lock or a certificate of a later round, whichever value the leader proposes. |
| Participation.DecidersVoted | bft/bft.go:335-526 | In every run a correct replica has cast both its votes of the round in which it decides. |
| Participation.DecidersPrecommitted | bft/bft.go:430-526 | In a justified run it has precommitted exactly the value it decides, even if it adopted another lock in between. |
| LockRounds.StepLowersLock | bft/bft.go:430-458 | A step lowers a correct replica's lock if and only if that replica precommits in a round below that of its lock. |
| LockRounds.LocksNeverFall | bft/vote.go:114-143 | In every run in which certificates are adopted only by replicas that have reached their round, a correct replica's lock round never falls between any two points. |
| LockRounds.LockCanFall | bft/vote.go:130-137 | A run with less than a third faulty and genuine certificates in which a replica waiting in round 0 adopts the certificate of round 1 and then locks in round 0. |
| Unjustified.AgreementNeedsJustification | bft/bft.go:687-706 | A concrete run in which a proposal keeping one of the two hashes of its HighQC passes the written safe-node test and two different blocks get commit certificates. |
| PeerRounds.TallyPeerRound | bft/bft.go:548-579 | The sorted prefix-sum loop returns the largest reported round that known validators holding the threshold have reached, or 0 if there is none. |
| PeerRounds.PeerRoundIsUnique | bft/bft.go:548-579 | At most one round meets that description, so map order does not matter. |
| PeerRounds.ThresholdIsHalf | bft/bft.go:566-572 | A power reaches the threshold if and only if it is at least half of the majority, rounded down. |
| PeerRounds.FaultyAloneFallShort | bft/bft.go:566-572 | Power below a third reaches the threshold if and only if the total leaves a remainder of one by three and the power is all that is left below the third. |
| PeerRounds.CorrectReachesPeerRound | bft/bft.go:566-579 | Unless the total leaves a remainder of one, every round the pacemaker catches up with has been reached by a correct validator. |
| PeerRounds.FaultyCanSetTheRound | bft/bft.go:566-579 | Otherwise the faulty can set it alone: a committee in which one validator with a quarter of the power does. |
| BftNode.BFT.HandlePhase | bft/bft.go:161-199 | One turn of the phase loop does to the replica's fields exactly what the step function says and leaves the pacemaker reports alone. |
| BftNode.BFT.Pacemaker | bft/bft.go:548-579 | The local round strictly increases, to the tallied peer round if that is ahead. |
| BftNode.BFT.NewHeight | bft/bft.go:658-680 | Back to round 0 and ELECTION; the lock survives exactly when locks are kept. |
| VoteSets.AddVoteKeepsExact | bft/vote.go:67-111 | One arrival keeps counted power equal to the power of the enabled signers if and only if it is not a known validator's first vote, with power, whose signature goes unrecorded. |
| VoteSets.ArrivalCounts | bft/vote.go:67-111 | Unknown signers are turned away, repeated ones count once, a new one's power counts even if its signature is not taken, and only a taken one signs; no other set is touched. |
| VoteSets.TallyIsExact | bft/vote.go:51-111 | Over any arrival sequence with accepted signatures each vote set counts exactly the power of the known validators that voted for its payload. |
| VoteSets.MajorityIsUnique | bft/vote.go:27-38 | With faulty power below a third at most one payload of a view reaches a majority. |
| VoteSets.Votes.Add | bft/vote.go:51-111 | Adding a vote in place updates the sets as the tally function says, for every outcome, and extends any tally by exactly this arrival. |
| VoteSets.Votes.GetMajorityVote | bft/vote.go:27-38 | Finds a payload with a majority exactly when the view has one, in whatever order the map is read. |
| Evidence.AddDoubleSigner | bft/evidence.go:115-127 | Adds one (height, signer) pair, keeping one entry per signer. |
| Evidence.GetDoubleSigners | lib/consensus.go:307-335 | Exactly the committee members that signed both certificates. |
| Evidence.AcceptedMeans | bft/evidence.go:189-235 | A piece is accepted exactly if both certificates are present, bear one header of a known and recent root height, carry no block or results, verify their signatures, sign different payloads, and are for a phase after PROPOSE. |
| Evidence.NamedMeans | bft/evidence.go:98-131 | A pair is named exactly if some piece has two certificates of that root height both signed by that committee member and its case is open. |
| Evidence.ProcessDSE | bft/evidence.go:68-134 | Refuses the list if any piece is unacceptable, and else names exactly the punishable (height, signer) pairs of all pieces; every piece it goes by verifies on both sides. |
| Evidence.ValidateByzantineEvidence | bft/evidence.go:17-46 | Accepts the claimed double signers if and only if the evidence is acceptable and supports every claimed height of each; evidence it goes by verifies on both sides. |
| Evidence.HonestNeverNamed | bft/evidence.go:68-134 | If signatures cannot be forged, no accepted piece names a correct replica, in any run. |
| Evidence.HonestNeverListed | bft/evidence.go:68-134 | If signatures cannot be forged, nobody on the list that a whole body of evidence yields is correct, in any run. |
| Evidence.ConflictNamesAThird | bft/evidence.go:189-235 | Two conflicting full certificates for one view name signers holding more than a third of the power, counting those whose case at that height is already closed. |
| Uint64.MulDivExact | lib/util.go:995-1007 | A share of at most the whole is the exact quotient: nothing is truncated to 64 bits. |
| Uint64.ReduceIsLeft | fsm/byzantine.go:340-348 | Reducing by a percentage leaves the exact rest rounded down, and nothing from 100 percent on. |
| Uint64.SqrtProductGrows | lib/util.go:979-987 | The root of a product never falls as a factor grows. |
| AmmOrders.ComputeDYFacts | fsm/dex.go:846-866 | The output leaves part of the reserve and never lowers the product of the reserves. |
| AmmOrders.ComputeDYIsLargest | fsm/dex.go:846-866 | The output is the largest amount that keeps the product of the reserves with the 1% fee counted on the input. |
| AmmOrders.OrderGetsTheMost | fsm/dex.go:338-370 | A filled order gets the most the pool can give at that moment; a refused one could not get its request without costing the pool. |
| AmmOrders.FillFailsOnlyOnOverflow | fsm/dex.go:338-370 | An order aborts its batch if and only if the pool could fill it but its amount no longer fits in the reserve. |
| AmmOrders.FillMoves | fsm/dex.go:338-370 | A filled order moves both reserves by exactly its amount and its output, a refused one neither, and only its own result is recorded. |
| AmmOrders.FillAllSucceeds | fsm/dex.go:338-370 | While all amounts fit in the reserve a batch of orders never fails. |
| AmmOrders.FillsInTurn | fsm/dex.go:338-370 | Each order meets the reserves that its predecessors in the sorted list leave. |
| AmmOrders.SettlementIsExact | fsm/dex.go:279-318 | Receipts are accepted if and only if they sum to nothing or to less than the shadow reserve; the shadow gives up their sum and the own reserve gains the amounts of the orders that got something. |
| AmmOrders.SumByPermutation | fsm/dex.go:333-372 | A sum over orders does not depend on their order. |
| AmmOrders.FillAllExecutes | fsm/dex.go:338-370 | After executing any list of orders with distinct keys: product not lower, reserves positive, every filled order at or above its request, and the reserves moved by exactly the bought and paid sums. |
| AmmOrders.BatchExecution | fsm/dex.go:324-387 | For every execution order x*y never falls, y stays positive, filled orders get what they asked, and the receipts add up to exactly the drop in y. |
| AmmOrders.OrdersMirror | fsm/dex.go:279-387 | Executing in hash order on one chain and settling in original order on the other end in the same reserves. |
| LpPoints.Credit | fsm/account.go:926-960 | Searching and updating the list in place adds points as specified, and fails on overflow or a full table. |
| LpPoints.AddPointsFacts | fsm/account.go:926-960 | Credits exactly one address; the tracked total stays the sum over distinct holders. |
| LpPoints.AddPointsSucceeds | fsm/account.go:926-960 | Adding points fails if and only if the total overflows or a newcomer finds the table full. |
| LpPoints.PointsOfMeans | fsm/account.go:910-921 | An address has the points of its entry in the list. |
| LpPoints.RemovePointsFacts | fsm/account.go:964-988 | Debits exactly one address by no more than it holds, without wrap-around; the total stays the sum. |
| LpPoints.RemovePointsSucceeds | fsm/account.go:964-988 | Removing at most what is held fails if and only if the address is unknown or no point at all would be left. |
| LpWithdrawals.FirstPassLoop | fsm/dex.go:407-428 | The first pass adds up what every withdrawal asks for against the untouched table, or fails on overflow. |
| LpWithdrawals.FirstPassIsTheSum | fsm/dex.go:407-428 | The first pass is the sum of every withdrawal's floored percentage of the points held at the start, and the batch fails if that overflows. |
| LpWithdrawals.PayAllKeepsProRata | fsm/dex.go:438-474 | The second pass removes at most the counted points, lowers no other holder, and pays at most in proportion to the points removed. |
| LpWithdrawals.WithdrawalGetsItsShare | fsm/dex.go:436-474 | Each withdrawal burns its percentage of the points it still holds and is paid both shares of the asked totals for them, each less than one token below the exact share; the totals are exact if and only if they fit in 64 bits. |
| LpWithdrawals.WithdrawalsRun | fsm/dex.go:396-486 | Holders, one after the other, burn their floored percentage of what they still hold and are paid its floored part of both totals; others are passed over; the sums paid leave the reserves, and nothing happens if nothing is asked. |
| LpWithdrawals.WithdrawalsSucceed | fsm/dex.go:396-486 | Withdrawals that ask for fewer points than there are never fail. |
| LpWithdrawals.AskedPartCanBeCut | fsm/dex.go:436-437 | A concrete pool and repeated withdrawal whose asked part of the reserve is truncated. |
| LpWithdrawals.WithdrawalsAreSolvent | fsm/dex.go:396-486 | For any batch, repeated withdrawals by one holder included, payments come out of the reserves exactly, each reserve per remaining point never falls, and reserves and points stay positive. |
| LpDeposits.DepositMintsExactly | fsm/dex.go:490-585 | Every depositor gets its amount's part of the minted points, rounded down; the dead address gets the dust, less than one point per deposit, and a new pool's first points, the root of x*y; nothing else changes hands and the reserve grows by the sum of the deposits. |
| LpDeposits.TotalIsTheSum | fsm/dex.go:506-515 | The deposits' total is their sum, and the batch fails if that overflows. |
| LpDeposits.SeededStarts | fsm/dex.go:520-529 | A pool without points first gives the dead address the integer root of x*y; any other starts from the table it has. |
| LpDeposits.DepositFailsOnlyOnOverflow | fsm/dex.go:490-585 | While the table has room, a deposit batch fails if and only if the reserve or the points no longer fit in 64 bits. |
| LpDeposits.DepositDoesNotDilute | fsm/dex.go:526-542 | Points grow no faster than the geometric mean: (L + totalDL) * oldK <= L * newK. |
| LpDeposits.MintIsTheMost | fsm/dex.go:526-542 | The minted points are the most that do not dilute, as long as they fit in 64 bits. |
| LpDeposits.MintFailsOnlyOnOverflow | fsm/dex.go:526-542 | Minting fails if and only if a reserve is empty or overflows: the check on falling roots never fires. |
| LpDeposits.DepositKeepsWellFormed | fsm/dex.go:490-585 | Any deposit batch that succeeds keeps the total equal to the sum over distinct holders and lowers nothing; without deposits, or with an empty reserve, it changes nothing. |
| DexBatches.MirroredExecution | fsm/dex.go:164-276 | From the same reserves and points, settling with the receipts of a batch's execution succeeds and gives the same reserves, table and payments. |
| DexBatches.HashIsInjective | fsm/dex.go:214-215 | A batch is recognised by its hash: only the placeholder of an empty batch could stand for another. |
| DexBatches.ExecutionInOrder | fsm/dex.go:255-276 | Execution fills the orders first, then runs withdrawals and deposits on the reserves they leave, and fails only where one of these does. |
| DexBatches.LiquidityInOrder | fsm/dex.go:262-273 | Withdrawals are paid before deposits join, from the reserves as they then stand. |
| DexBatches.LiquidityFacts | fsm/dex.go:396-585 | Withdrawals and deposits of a batch keep the table well formed and both reserves positive, and move the reserves by exactly what is paid and deposited. |
| DexBatches.ExecutionIsCovered | fsm/dex.go:324-486 | What leaves the paying reserve is exactly the receipts and the withdrawal payments. |
| DexChains.SettleOwnFollowsLedger | fsm/dex.go:209-252 | A settled own batch moves pool, shadow, table and holding pool exactly as the shared ledger says. |
| DexChains.ExecuteRemoteFollowsLedger | fsm/dex.go:255-276 | An executed remote batch moves pool, shadow and table exactly as the shared ledger says, with its receipts. |
| DexChains.RotationMeans | fsm/dex.go:591-621 | While a batch is locked nothing rotates; otherwise the collected operations are locked under exactly this hash, pool size, height and receipts, and the next batch is empty. |
| DexChains.OrderIsAccepted | fsm/message.go:501-532 | An order is accepted if and only if there is a pool, the batch is another chain's and has room, and the amount is spendable; it is then last in the batch and its amount in the holding pool. |
| DexChains.DepositIsAccepted | fsm/message.go:535-570 | The same for a deposit, which also needs room for another liquidity provider. |
| DexChains.WithdrawalIsAccepted | fsm/message.go:573-604 | A withdrawal is accepted if and only if there is a pool, the batch is another chain's and has room, and the sender holds points. |
| DexMirror.SettlingFollowsLog | fsm/dex.go:164-206 | At the mid-point the answering chain's reserve, table and shadow of the other reserve are those of the other chain's log. |
| DexMirror.AnswerIsProcessed | fsm/dex.go:164-206 | Processing the answer to its locked batch puts a chain exactly one batch ahead of the other, or changes nothing. |
| DexMirror.AnswerMovesOn | fsm/dex.go:164-206 | An answer processed without error is applied: the waiting chain's log overtakes the other's by exactly that batch, and it locks a batch that answers it. |
| DexMirror.FirstIsProcessed | fsm/dex.go:164-206 | A chain without a batch that processes the other's first batch takes the lead by that batch. |
| DexMirror.OnlyTheNextLinkAnswers | fsm/dex.go:209-229 | A stale batch of the other chain is never taken for an answer. |
| DexMirror.StepKeepsInv | fsm/dex.go:62-206 | Every event of the two chains keeps the mirror invariant. |
| DexMirror.RunsKeepInv | fsm/dex.go:164-679 | The mirror invariant holds after every run from a common start. |
| DexMirror.ChainsMirror | fsm/dex.go:164-621 | After every run the logs of applied batches are prefixes of one another and differ by at most one batch, no batch is applied twice, and each chain's reserve and points are those of its log. |
| DexHolding.SettlementIsFunded | fsm/dex.go:209-252 | A sound chain settles its own batch if and only if the shared ledger can: holding pool and credits never fail; tokens are conserved. |
| DexHolding.ExecutionIsFunded | fsm/dex.go:255-276 | A sound chain executes the other's batch if and only if the shared ledger can: no payout or credit fails; tokens are conserved. |
| DexHolding.Lifecycle | fsm/dex.go:164-206 | A batch that does not answer a locked one changes nothing; otherwise it is handled if and only if the shared ledger can settle the own batch and then execute the other, and the chain ends with that ledger's reserve and points and its collected operations locked with the hash, receipts and mid-point reserve. |
| DexHolding.FallbackIsFunded | fsm/dex.go:681-714 | The liveness fallback of a sound chain never lacks funds and conserves tokens. |
| DexHolding.MessagesKeepSound | fsm/message.go:501-604 | New orders, deposits and withdrawals keep the holding pool covering and tokens unchanged. |
| DexHolding.IncludeKeepsSound | fsm/dex.go:624-678 | Same-block inclusion moves operations between the batches without changing what is owed. |
| DexHolding.StepKeepsSound | fsm/dex.go:164-714 | Every step keeps the chain sound, and every step of the exchange keeps its tokens. |
| DexHolding.HoldingAlwaysCovers | fsm/dex.go:164-714 | In every state of every run the holding pool covers all orders and deposits of the next and locked batches, committee resets included. |
| DexPayouts.CreditAllPays | fsm/dex.go:373-386 | Paying a list of dues credits every address with exactly what it is due. |
| DexPayouts.SettlementPays | fsm/dex.go:209-318 | Settling credits every address with exactly its failed orders and its share of the withdrawals. |
| DexPayouts.ExecutionPays | fsm/dex.go:255-486 | Executing credits every address with exactly the receipts of its orders and its share of the withdrawals. |
| DexPayouts.FallbackPays | fsm/dex.go:681-714 | The fallback returns to every sender exactly what it has in the locked batch, takes it from the holding pool, adopts the given points and touches nothing else. |
| DexPayouts.HoldingCostsTheSender | fsm/message.go:514-522 | A new order or deposit costs its sender exactly its amount and nobody else anything. |
| DexPayouts.IncludeKeepsOrder | fsm/dex.go:624-678 | Late operations join in the order they came, as many as fit, within the limits, in the block that locked the batch and no other; nothing else of the batches changes. |
| DexNode.DexChain.HandleOrderReceipts | fsm/dex.go:279-318 | The in-place loop settles orders, refunds and ledgers exactly as the function over the batch, failing exactly when it does. |
| DexNode.FillOrders | fsm/dex.go:338-370 | The loop over the sorted orders fills them as specified, or fails on overflow. |
| DexNode.DexChain.PayReceipts | fsm/dex.go:372-386 | The payout loop pays the receipts in original order, failing exactly when pool or account cannot take one. |
| DexNode.DexChain.HandleDexBatchOrders | fsm/dex.go:324-387 | Both loops together execute the remote orders as specified; the tracked reserve equals the stored pool. |
| DexNode.DexChain.HandleBatchWithdraw | fsm/dex.go:396-486 | Both passes in place equal the withdrawal function, for either role of the chain. |
| DexNode.DexChain.HandleBatchDeposit | fsm/dex.go:490-585 | The deposit loops in place equal the deposit function, for either role of the chain. |
| DexNode.DexChain.HandleReceiptsForOurLockedBatch | fsm/dex.go:209-252 | Waiting, failing or settling exactly as specified; waiting changes nothing. |
| DexNode.DexChain.HandleRemoteChainLockedBatch | fsm/dex.go:255-276 | Orders, withdrawals, deposits of the remote batch in order, with its receipts. |
| DexNode.DexChain.RotateDexBatches | fsm/dex.go:591-621 | A locked batch stays as it is; else the next batch is locked with hash, pool size and receipts; no operation is lost or reordered. |
| DexNode.DexChain.HandleRemoteDexBatch | fsm/dex.go:164-206 | The whole lifecycle step in place equals the step function used by the mirror and holding theorems. |
| DexNode.DexChain.IncludeSameBlockDex | fsm/dex.go:624-678 | Operations move from the next to the locked batch without loss or reordering, exactly as many as fit. |
| DexNode.DexChain.HandleMessageDexLimitOrder | fsm/message.go:501-532 | An accepted order costs its sender exactly its amount, which the holding pool gains; coverage and tokens are kept. |
| DexNode.DexChain.HandleMessageDexLiquidityDeposit | fsm/message.go:535-570 | An accepted deposit costs its sender exactly its amount, which the holding pool gains; coverage and tokens are kept. |
| DexNode.DexChain.HandleMessageDexLiquidityWithdraw | fsm/message.go:573-604 | Only a holder's withdrawal is accepted, within the batch limit, and the chain stays sound. |
| DexNode.DexChain.HandleLivenessFallback | fsm/dex.go:681-714 | Refunds the locked operations, adopts the given points, drops the batch. |
| Vesting.VestedIsProRata | fsm/account.go:94-109 | The vested amount is the linear share at every height if and only if the largest product of the schedule fits in 64 bits or the cliff leaves no partial height. |
| Vesting.VestedMeans | fsm/account.go:94-125 | At every height: nothing before start or cliff, everything from the end on, and in between the floored linear share if and only if its product fits in 64 bits; the rest is locked. |
| Vesting.SpendableGrows | fsm/account.go:112-139 | While the product fits, locked never grows and spendable never falls as height grows. |
| Vesting.SpendableCanFall | fsm/account.go:94-139 | A concrete account whose product wraps and whose spendable amount falls by one block passing. |
| Vesting.UpdatesKeepSound | fsm/account.go:194-278 | Credits, debits and vesting grants keep locked at or below the balance; clearing leaves an emptied account blank and the spendable amount unchanged. |
| Vesting.GrantLocksItsAmount | fsm/account.go:232-258 | Before its cliff a vesting send locks its whole amount on top of what was locked, and adds nothing spendable. |
| Vesting.GrantMeans | fsm/account.go:215-258 | A grant succeeds if and only if no sum overflows and nothing is locked under another schedule; the account then has exactly that schedule, over what was still locked in a running tranche. |
| Vesting.ClearedMeans | fsm/account.go:329-340 | A write clears exactly a finished schedule, which changes neither what is locked nor what can be spent. |
| Vesting.LockedStaysLocked | fsm/account.go:194-279 | A debit succeeds exactly up to the spendable amount and leaves the locked part alone; a credit is spendable at once. |
| Vesting.SendMoves | fsm/message.go:56-73 | Between two accounts a plain send succeeds if and only if it is spendable and fits; what arrives can be spent and no lock changes. |
| Vesting.VestingSendLocks | fsm/message.go:56-73 | Between two accounts a vesting send succeeds if and only if it is spendable, fits, and the recipient locks nothing under another schedule; before its cliff all of it is locked at the recipient. |
| Vesting.VestingStaysSolvent | fsm/account.go:94-340 | In every run of sends, merges, spends and blocks, every account locks at most its balance, and spendable plus locked is the balance. |
| StateMachine.SetAccountKeepsCoherent | fsm/account.go:142-163 | One write keeps cache and store in agreement if and only if it leaves tokens or a blank account. |
| StateMachine.ExecuteIgnoresCache | fsm/account.go:17-35 | A transaction has the same outcome from any coherent cache and leaves the cache coherent, deleted accounts included. |
| StateMachine.DroppedLeavesNoTrace | fsm/state.go:281-303 | A failed or oversize transaction leaves the block's kept state alone. |
| StateMachine.KeptReplays | fsm/state.go:205-322 | For every prefix, the strict run over the kept transactions reaches the filtering run's store, results and in-size tracker. |
| StateMachine.FilterThenReplay | fsm/state.go:205-322 | The kept in-size transactions replay as a strict block: all succeed, same results, same store. The slash trackers agree if and only if no oversize transaction that succeeds adds a slash; trackers and cache agree whenever the checked transactions fit in the block together. |
| StateMachine.ExecuteTracks | fsm/byzantine.go:447-456 | A transaction leaves the slash tracker as it was, or raises a total and lowers none, according to whether it adds a slash. |
| StateMachine.TrackerMovesOnlyBySlashes | fsm/state.go:268-316 | Since the limit the tracker has moved if and only if an oversize transaction that succeeded added a slash. |
| StateMachine.FittingListStaysInSize | fsm/state.go:268-280 | A list whose checked transactions fit together never hits the limit. |
| StateMachine.CacheAfterOversize | fsm/state.go:244-246 | The cache agrees with the restored store if and only if no cached account was left changed by oversize transactions; so it does when none that succeeds writes accounts. |
| StateMachine.StrictIsSequential | fsm/state.go:205-322 | A strict block is accepted whole if and only if its transactions are checked, distinct, within the size limit and succeed one after the other; it then ends where that sequence ends. |
| StateMachine.FilterKeepsASequence | fsm/state.go:205-322 | What filtering keeps is such a block, and its sequence ends in the store the filtering leaves. |
| StateMachine.EveryTxIsAccountedFor | fsm/state.go:250-317 | Every transaction of the list ends up kept, failed or excluded, exactly once. |
| StateMachine.TxEndsUp | fsm/state.go:250-317 | A transaction aborts the block exactly as a duplicate or as the first that does not fit in a strict block; it fails exactly if a check or its execution fails, and a successful one is kept exactly while the limit has not been hit and it fits. |
| StateMachine.OversizeLeavesTraces | fsm/state.go:244-317 | A block with room for one of two transactions: the second is excluded, but its slash stays on the tracker and the cache keeps an account value the store does not have. |
| StateMachine.SendsAreSafe | fsm/message.go:56-73 | Every send of a positive amount, vesting or not, meets the condition the replay theorem asks of transactions. |
| StateMachine.SendDelivers | fsm/message.go:56-73 | Between two accounts a send succeeds if and only if the sender can spend the amount and the recipient can take it; the amount is then spendable at the recipient, or locked under exactly the schedule sent; no other account changes. |
| StateMachine.Machine.Get | fsm/account.go:17-35 | Reading through the cache gives what the store holds, while the two agree. |
| StateMachine.Machine.Set | fsm/account.go:142-163 | Reading back gives the account without a finished schedule, no other account changes, and cache and store keep agreeing, deletion included. |
| StateMachine.Machine.AccountAdd | fsm/account.go:194-212 | On success exactly one balance rises by the amount; on overflow nothing changes; cache and store keep agreeing. |
| StateMachine.Machine.AccountSub | fsm/account.go:261-279 | On success exactly one balance falls by the amount, at most what is spendable; otherwise nothing changes; cache and store keep agreeing. |
| StateMachine.Machine.AccountAddWithVesting | fsm/account.go:215-258 | On success exactly one balance rises by the amount, under exactly the same schedule if one still locks; cache and store keep agreeing. |
| StateMachine.Machine.HandleMessageSend | fsm/message.go:56-73 | The handler equals the three-step program check, take, give; on success the amount is taken from what the sender could spend and is spendable at the recipient, or locked there under the schedule sent. |
| StateMachine.Machine.ApplyTransaction | fsm/transaction.go:16-58 | Runs a transaction's interactions in place as specified. |
| StateMachine.Machine.DeliverTx | fsm/state.go:266-317 | One transaction is written through, or rolled back with caches dropped and tracker restored. |
| StateMachine.Machine.ApplyTransactions | fsm/state.go:205-322 | The loop equals the fold over the transactions, aborts exactly when it does, and sets the store back to the original one. |
| Slashing.CutBound | fsm/byzantine.go:339-351 | A slash takes its percentage of the stake, rounded up to a whole token. |
| Slashing.SlashTakesExactly | fsm/byzantine.go:303-387 | A slash of a member below the cap raises exactly its total, to the sum or the cap, and cuts the stake by exactly that rise, rounded up to a token; it removes an emptied validator, drops the committee at the cap and starts unstaking below the minimum; every other total and validator stays, and any other slash changes nothing. |
| Slashing.SlashesInTurn | fsm/byzantine.go:282-299 | The slashes of a list land one after the other. |
| Slashing.SlashIsCapped | fsm/byzantine.go:302-387 | In a block, under any interleaving of committees, stake changes and failed transactions, the tracker stays at or below the maximum M and the tokens one committee burns from one validator satisfy 100*burned <= cap*M + 99*slashes. |
| Slashing.OneCommitteeCannotTakeMore | fsm/byzantine.go:302-387 | From stake S, n slashes by one committee leave S' with 100*(S - S') <= S*M + 99*n. |
| Slashing.CapEjects | fsm/byzantine.go:321-335 | The slash that reaches the cap ejects the validator from exactly that committee, or removes it. |
| Slashing.NoSlashAfterEjection | fsm/byzantine.go:315-320 | After the cap is reached the committee burns nothing more in the block, even from a validator that rejoins. |
| SlashPrograms.ProgramSlashes | fsm/byzantine.go:302-387 | A transaction's interactions that slash change validators and tracker as the slash function says, and nothing else. |
| SlashPrograms.DeliveredSlashesAreOneEvent | fsm/state.go:281-303 | A delivered transaction of slashes takes effect, a failed one is rolled back with what it added to the tracker: the event of the cap theorem is what a block does. |
| Slashing.SlashTracker.GetTotalSlashPercent | fsm/byzantine.go:453-468 | Reading creates the inner map but changes no total. |
| Slashing.SlashTracker.AddSlash | fsm/byzantine.go:447-450 | Adds to exactly one validator and committee. |
| Slashing.SlashTracker.Clone | fsm/byzantine.go:431-444 | A separate tracker with the same totals. |
| Slashing.Validators.SlashValidator | fsm/byzantine.go:302-387 | The in-place slash changes validators and tracker as the slash function says: by exactly its percentage or what is left under the cap, or not at all. |
| OrderBook.StepKeepsSound | fsm/swap.go:19-59 | Every message and instruction set keeps the escrow pool covering its orders and the tokens unchanged; surplus appears only where a new order replaces one of the same id. |
| OrderBook.CreateKeeps | fsm/message.go:397-425 | An order is created if and only if it reaches the minimum and is spendable; it costs its seller exactly its amount, is stored as sent and unlocked, and the pool keeps covering. |
| OrderBook.EditKeeps | fsm/message.go:428-478 | An edit succeeds if and only if the order is open, the amount reaches the minimum and the difference is spendable; it stores exactly the new terms, moves exactly the difference between seller and escrow, and the pool keeps covering. |
| OrderBook.EscrowAlwaysCovers | fsm/message.go:397-498 | In every state of every run, whatever else happens to the accounts, the escrow pool covers the sum of its orders; with fresh ids its surplus never changes, and the book itself keeps the tokens. |
| OrderBook.DeleteKeeps | fsm/message.go:481-498 | Deleting succeeds exactly for an open order: it never lacks funds, and its seller gets exactly its amount back. |
| OrderBook.CloseKeeps | fsm/swap.go:282-322 | Closing succeeds exactly for a locked order: it never lacks funds. |
| OrderBook.LockAllOnlyBuyers | fsm/swap.go:28-36 | Lock instructions move no tokens, change no order that is already locked, and give a free one the buyer of the first lock that names it. |
| OrderBook.FirstLockWins | fsm/swap.go:242-262 | A free order ends up locked for exactly the buyer, receiving and sending address and deadline, of the first lock naming it, and stays free if none does. |
| OrderBook.ResetAllOnlyBuyers | fsm/swap.go:40-48 | Reset instructions free exactly the named orders that the same set does not close, and move no tokens. |
| OrderBook.ClosePaysOnce | fsm/swap.go:282-322 | One close pays each address exactly what the order owed it, and never twice. |
| OrderBook.LockedOrderIsFixed | fsm/swap.go:19-59 | A locked order changes only by a reset, which frees it, or a close, which removes it; a close in the same set suppresses the reset. |
| OrderBook.ClosingPaysOnce | fsm/swap.go:19-59 | An instruction set removes exactly the locked orders it closes, and every address receives exactly the amounts of those locked for it, however often an order is named. |
| OrderBook.LockHoldsItsBuyer | fsm/swap.go:19-59 | In every run an order carries the buyer of the instruction that locked it until it is reset or closed. |
| OrderBook.ClosePaysTheLocksBuyer | fsm/swap.go:242-322 | In every run, closing an order pays its amount once, to the receiving address named in the instruction that locked it, and to nobody else. |
| OrderBook.Book.HandleMessageCreateOrder | fsm/message.go:397-425 | An accepted order costs its seller exactly its amount, which escrow gains; the book stays covered. |
| OrderBook.Book.HandleMessageEditOrder | fsm/message.go:428-478 | Escrow changes by exactly the difference of the amounts, at the seller's cost or gain; the book stays covered. |
| OrderBook.Book.HandleMessageDeleteOrder | fsm/message.go:481-498 | In a covered book an open order, and only that, can be deleted; its seller gets exactly its amount out of escrow. |
| OrderBook.Book.Locking | fsm/swap.go:242-262 | Locking gives the named order, if nobody has it, exactly the buyer of the instruction; nothing else changes or moves. |
| OrderBook.Book.Resetting | fsm/swap.go:265-279 | Resetting clears the buyer of the named order only; nothing else moves. |
| OrderBook.Book.Closing | fsm/swap.go:282-322 | In a covered book a locked order, and only that, is removed, and every address gains exactly what the order owed it. |
| OrderBook.Book.HandleCommitteeSwaps | fsm/swap.go:19-59 | Locks, resets without a matching close, then closes, skipping failures. |
| OrderBook.ProcessRootChainOrderBook | fsm/swap.go:100-180 | An order is listed to lock exactly if it is free and a lock was found, to reset exactly if it is locked and past its deadline, and to close exactly if it is not past it and a close was found with a payment of the exact amount from the locked buyer to where the seller asked. |
| Rewards.SharesMakeTheWhole | controller/result.go:74-129 | For any winners and cuts the percents per rewarded chain total exactly 100, with one positive entry per address and chain, the same percents on both chains, and the rest for the proposer. |
| Rewards.WinnersTakeInTurn | controller/result.go:74-129 | Delegate, then on a nested chain nested validator and nested delegate, take their cut if the proposer has that much left; the proposer gets the rest, and every address has exactly this on both chains and nothing on any other. |
| Rewards.RecipientGetsItsCut | controller/result.go:132-148 | A winner gets exactly its cut on both chains, taken from the proposer, or nothing if too little is left. |
| Rewards.CombineStaysNormal | lib/certificate.go:1113-1173 | Collecting a certificate, reduced for non-signers, keeps one stub per address and at most 100 percent per sample. |
| Rewards.EveryoneCollects | lib/certificate.go:1113-1173 | Every address collects exactly its percent designated for this chain. |
| Rewards.CombineCollects | lib/certificate.go:1113-1145 | While 100 percent per sample fit in 64 bits a certificate is always collected: one sample more, and every address gains exactly its percent. |
| Rewards.ReduceAllLowers | fsm/automatic.go:188-194 | Reducing for non-signers never raises the percents of a chain. |
| Rewards.ReduceAllIsLeft | lib/util.go:631-644 | Every entry keeps address and chain and loses the non-signers' percentage, rounded down. |
| Rewards.Results.addPaymentPercent | controller/result.go:162-183 | Adds to the first matching entry or appends one. |
| Rewards.Results.AddRewardRecipient | controller/result.go:132-148 | A winner gains exactly what the proposer gives up, and the percents keep making the whole. |
| Rewards.Results.CalculateRewardRecipients | controller/result.go:74-129 | The in-place calculation equals the function whose shares make the whole. |
| SupplyList.CanonicalIsUnique | fsm/account.go:819-842 | One list at most stands for a map: sorted by amount descending then id, unique ids, no zeros. |
| SupplyList.FilterAndSortIsCanonical | fsm/account.go:819-842 | Filtering and sorting a list of a map's entries gives the list that stands for its nonzero entries. |
| SupplyList.FilterAndSortPool | fsm/account.go:819-842 | The filter loop followed by the sort. |
| SupplyList.AddToSupplyPool | fsm/account.go:711-803 | The list behaves as a map under addition and fails exactly on overflow. |
| SupplyList.SubFromSupplyPool | fsm/account.go:725-803 | The list behaves as a map under subtraction and fails exactly when less is held. |
| Committees.EnterKeeps | fsm/committee.go:290-303 | A new validator enters without failure while all stakes fit, and each committee's staked supply stays the sum of its members' stakes. |
| Committees.UpdateKeeps | fsm/committee.go:280-287 | Changing stake and committees never fails, stores exactly the new validator and keeps the sums. |
| Committees.RemoveKeeps | fsm/committee.go:306-319 | Deleting a validator never lacks supply, removes exactly it and keeps the sums. |
| Committees.SlashKeeps | fsm/byzantine.go:360-387 | A slash never fails on the committees' staked supply and keeps the sums. |
| Committees.TrimIsDuplicateFreeSubset | fsm/gov.go:209-217 | The circular selection repeats no committee and adds none. |
| Committees.TrimIsRotation | fsm/gov.go:209-217 | The selection is a stretch of the list written twice, starting where the index, counted around, points. |
| Committees.ShrinkAllKeeps | fsm/gov.go:193-236 | Lowering the maximum never fails; afterwards every visited validator serves at most that many of its own committees, stakes and smaller validators are untouched, and the sums hold. |
| Committees.ShrinkAllRotates | fsm/gov.go:193-236 | Each visited validator is trimmed with the number of validators trimmed before it as its index, and every other keeps its committees. |
| Committees.StakedSupplyIsTheSum | fsm/committee.go:280-319 | In every state of every run a committee's staked supply is the sum of its members' stakes. |
| Committees.Registry.SetCommittees | fsm/committee.go:290-303 | The loop adds the stake to the stored list for every committee. |
| Committees.Registry.DeleteCommittees | fsm/committee.go:306-319 | The loop takes the stake back from the stored list. |
| Committees.Registry.UpdateValidator | fsm/committee.go:280-287 | Old stake out, new stake in, validator stored. |
| Committees.Registry.DeleteValidator | fsm/validator.go:240-264 | Stake taken out of every committee, validator removed. |
| Committees.Registry.ShrinkCommittees | fsm/gov.go:193-236 | The loop over all validators with its running index equals the fold. |
| Committees.CircularRead | fsm/gov.go:209-217 | The inner loop builds the circular selection. |
| TokenLedger.PoolIdsAreDisjoint | fsm/key.go:10-28 | Committee, holding, liquidity and escrow pools of valid chains never share an id with each other or with the DAO's. |
| Balances.CreditedMoves | fsm/account.go:194-212 | A credit reaches exactly one account and fails only when that account would overflow. |
| Balances.DebitedMoves | fsm/account.go:261-279 | A debit takes exactly its amount from exactly one account. |
| TokenLedger.PoolAddMoves | fsm/account.go:477-485 | While everything fits in 64 bits the unchecked pool addition is exact and touches one pool. |
| TokenLedger.PoolSubMoves | fsm/account.go:488-502 | Exactly the amount leaves exactly one pool. |
| TokenLedger.AddStakeMoves | fsm/validator.go:206-237 | While everything fits in 64 bits the unchecked addition to a stake is exact, never refused, and matched by the staked supply. |
| TokenLedger.PayInConserves | fsm/account.go:184-191 | Account to pool succeeds if and only if the amount is spendable; exactly it leaves that account and reaches that pool, nothing else changes, supply and balance included. |
| TokenLedger.PayOutConserves | fsm/account.go:488-502 | Pool to account succeeds exactly when the pool holds the amount, and moves exactly that. |
| TokenLedger.SendConserves | fsm/message.go:56-73 | A send succeeds if and only if the amount is spendable, moves exactly it from sender to recipient, and keeps the balance. |
| TokenLedger.StakeConserves | fsm/message.go:76-153 | Staking succeeds if and only if the address is new and the stake is spendable; it moves exactly the stake from the signer into exactly that validator, and keeps the balance. |
| TokenLedger.EditStakeConserves | fsm/message.go:156-206 | Succeeds if and only if the validator is not unstaking and the difference is spendable; the stake becomes the larger of old and requested, the signer pays exactly the difference, nothing else changes, and the balance is kept. |
| TokenLedger.FinishUnstakingConserves | fsm/validator.go:319-352 | Finishing unstaking never fails, pays the stake to the output address, removes the validator, and keeps the balance. |
| TokenLedger.MintToPoolConserves | fsm/account.go:452-460 | Minting raises supply and exactly one pool by the same amount. |
| TokenLedger.MintToAccountConserves | fsm/account.go:463-474 | Minting to an account never fails below 2^64, reaches exactly that account and keeps the balance. |
| TokenLedger.DaoTransferConserves | fsm/message.go:317-334 | A DAO transfer succeeds if and only if it mints or the pool holds the amount, and credits exactly the recipient, out of the pool unless it mints. |
| TokenLedger.SlashConserves | fsm/byzantine.go:339-387 | A slash always finds the total and the staked supply to burn: the stake falls by exactly the percentage, rounded up, both supplies by the same, and everything else is untouched. |
| TokenLedger.FundPoolsConserves | fsm/committee.go:16-82 | The block reward mints at most the halved amount and keeps the balance. |
| TokenLedger.FundPoolsExact | fsm/committee.go:16-82 | The DAO gets its percentage of the halved amount, rounded up, every subsidized committee the largest amount the rest covers for all of them, and exactly that much is minted. |
| TokenLedger.FullRewardIsItsShare | fsm/committee.go:194-203 | The full reward is the largest amount within the stub's part of the pool. |
| TokenLedger.StubPaysItsRecipient | fsm/committee.go:194-228 | The reward is the largest amount within the stub's part of the pool; a compounding validator's stake grows by all of it, otherwise it reaches, less the early penalty rounded up, the output address or the address itself; nothing else changes. |
| TokenLedger.DistributeConserves | fsm/committee.go:128-228 | Distribution never fails, pays at most the pool, empties it, touches no other pool, and burns exactly the rest. |
| TokenLedger.DistributionPays | fsm/committee.go:128-228 | The stubs are paid one after the other, each its reward from the pool as it stood at the start; then the pool is empty and the supply shrinks by exactly what the payments left of it. |
| TokenLedger.TokensAreConserved | fsm/account.go:452-629 | In every state of every run accounts, pools and stakes add up to the total supply, and stakes to the staked supply. |
| TokenMachine.Tokens.PayIntoPool | fsm/message.go:378-394 | Succeeds exactly up to the spendable amount; with balanced books exactly the amount moves from account to pool and the books stay balanced. |
| TokenMachine.Tokens.HandleMessageStake | fsm/message.go:76-153 | With balanced books the signer pays exactly the new validator's stake, the staked supply grows by it, and the books stay balanced. |
| TokenMachine.Tokens.HandleMessageEditStake | fsm/message.go:156-206 | The stake becomes the larger of old and requested, the signer pays exactly the difference, and the books stay balanced. |
| TokenMachine.Tokens.UpdateValidatorStake | fsm/validator.go:206-237 | With balanced books exactly one stake grows, by exactly the amount. |
| TokenMachine.Tokens.FinishOneUnstaking | fsm/validator.go:332-346 | With balanced books it never fails for a validator, pays exactly the stake to the output address, and the books stay balanced. |
| TokenMachine.Tokens.HandleMessageDAOTransfer | fsm/message.go:317-334 | With balanced books it succeeds if and only if it mints or the pool holds the amount, and credits exactly the recipient. |
| TokenMachine.Tokens.BurnStake | fsm/byzantine.go:340-387 | With balanced books it never fails: total supply, staked supply and stake fall by the same amount, the stake to its reduced value. |
| TokenMachine.Tokens.FundCommitteeRewardPools | fsm/committee.go:16-36 | The loop mints to the DAO and to every subsidized committee, at most the halved amount, and the books stay balanced. |
| TokenMachine.Tokens.DistributeCommitteeReward | fsm/committee.go:194-228 | Full reward to a compounding validator's stake, early reward to all others. |
| TokenMachine.Tokens.DistributeStubs | fsm/committee.go:152-171 | The loop over the stubs with its running total. |
| TokenMachine.Tokens.DistributeCommitteeRewards | fsm/committee.go:140-188 | With normal percents and balanced books it never fails, empties the pool, burns at most what was in it, and the books stay balanced. |
| SharedLedger.ExchangeConserves | fsm/dex.go:164-714 | Every exchange step, placed in the whole ledger, keeps the total supply accounted for. |
| SharedLedger.OrderBookConserves | fsm/swap.go:19-59 | Every order-book step, placed in the whole ledger, keeps the total supply accounted for. |

## Left out

- VoteSets.TallyIsExact: takes every arriving signature of a known validator as recorded, the hypothesis above.
- Consensus.Agreement: assumes that no proposal shown to a locked replica differs from its HighQC in exactly one hash, because it is false of the written condition otherwise.
- Consensus.RunsKeepInv: has the same hypothesis, for the same reason.
- Consensus.ProposeVoteCarried: has the same hypothesis for its own step.
- Participation.DecidersPrecommitted: has the same hypothesis; that a decider has voted at all needs none.
- DexMirror.ChainsMirror: states safety only; that batches are eventually answered depends on message delivery, which is not modelled.
- StateMachine.FilterThenReplay: says nothing about block events, transaction encoding or the block's hashes, and a block whose processing was aborted has no result to replay.
- OrderBook.ProcessRootChainOrderBook: takes the lock and close requests already parsed from blocks; memo parsing is text handling.
- TokenLedger.TokensAreConserved: takes an exchange step as any change that keeps the tokens of accounts and pools; SharedLedger.ExchangeConserves proves that the exchange's steps are such changes.
- Quorum.MajorityIsLeast: voting power is a natural number; that twice the total fits in 64 bits (`lib/consensus.go:67`) is taken for granted.
- PeerRounds.ThresholdIsHalf: likewise, that fifty times the majority fits in 64 bits (`lib/util.go:643`) is taken for granted.
- Rewards.ReduceAllIsLeft: the product of percents is not cut to 64 bits; a certificate's percents are at most 100 per chain (`lib/certificate.go:427-453`).
- Election, VRF, VDF, leader sortition and the build-height and block checks of the application: inputs of a phase.
- The stored block hash of a replica: hashes are recomputed from the proposal in the model.
- Proposal storage in `bft/prop.go` and message validation in `bft/msg.go`: a phase receives the stored message together with the hypothesis on its certificate.
- Assembling evidence from partial certificates (`bft/evidence.go:137-170`, `bft/evidence.go:250-290`): bookkeeping before the checks that are modelled.
- Non-signer counters and their window (`fsm/byzantine.go:64-190`): they only select whom to slash.
- Slashing before protocol version 2, which has neither cap nor committee scope.
- The delegated-only supply and supply list, which follow the same operations as the staked ones.
- The lottery, the subsidized-committee threshold and the halving of the block reward: the amounts enter as parameters.
- Committee data heights, checkpoints, retirement, pausing, parameter changes other than the committee maximum.
- Genesis, polls, plugins, RPC, networking, the indexer, encoding, and the key-value store itself, whose transactions are modelled as saved and restored values.
- The price shown for a pool (`fsm/dex.go:824-843`), which execution does not use.
