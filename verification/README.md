# A verified model of the IONA node

IONA is a blockchain node written in Rust.  Its modules carry floating-point
decoration (coherence, fidelity, entropy) over integer state machines.  This project
models those state machines in Dafny and proves what they guarantee.

| part | files |
|---|---|
| liquid staking pool (`src/lst.rs`) | LiquidStaking, LiquidStakingMath, LiquidStakingTheorems, LiquidStakingExit |
| state commitment (`src/merkle.rs`, `src/execution.rs`) | Merkle, StoreRoot, RootCache, ChainState, CachedState |
| transactions and blocks (`src/execution.rs`) | Execution, ExecutionTheorems, StateMerge, Executor, Batches, Blocks |
| light clients (`src/ibc.rs`) | LightClient, LightClientTheorems |
| token transfer (`src/ics020.rs`) | TokenTransfer, TokenTransferTheorems |
| slashing (`src/slashing.rs`) | Slashing, SlashingTheorems |
| governance (`src/governance.rs`) | Governance, GovernanceTheorems |
| rate limits (`src/rpc_limits.rs`) | RateLimits |
| shared | MachineInts, MapSums, Ordering, Text |

`dafny verify dfyconfig.toml` checks all of it.

## How it is built

- Each object the source updates in place is a class with those fields.  Every method is
  proved equal to a function from the old abstract value to the new one and the answer.
  The theorems are about those functions, one step at a time and over whole runs.
- Failures that come after a write keep that write, as in the source.
- Release and bench builds check overflow and abort on panic (`Cargo.toml:299-313`), so a
  plain addition, product or iterator sum that does not fit ends the process.  The model has
  an explicit abort outcome for it.  Saturating, wrapping and truncating operations are
  written out.
- A float that only gates a step is a boolean argument of that step.
- Hash functions, signatures, the staking module and the virtual machine are arbitrary
  functions.  Clocks are arguments.  Hash collisions are excluded only among the inputs
  that a computation actually hashes.

## What the code does, where that is not what one would expect

- A stake-and-unstake round trip never gains once shares are outstanding
  (`LiquidStakingTheorems.RoundTrip`).  The first staker of a pool with unowned stake receives
  that stake (`LiquidStakingTheorems.FirstStakerTakesRewards`).
- An unstake whose unlock height overflows fails after the shares and the stake are gone
  (`LiquidStakingExit.UnlockOverflowLosesStake`).
- Up to a supply of 2^64-1 the fee arithmetic conserves exactly when the two parts of the fee
  add up without saturating (`ExecutionTheorems.BoundedConservesIff`), which below 2^64-1 they
  always do.  At 2^64-1 value can be created (`ExecutionTheorems.SupplyBoundIsTight`); above it
  a full balance or burned total can also lose value (`ExecutionTheorems.ConservesIff`).
- Above its threshold and below a supply of 2^64-1 the parallel path never commits when fees
  are charged (`Batches.ParallelNeverCommits`), and what it commits without fees moves no money
  (`Batches.WorkersMoveNothing`).  When it commits at all is `Batches.ParallelCommitsIff`.
- The state root leaves out the nonces and balances kept inside the virtual machine
  (`ChainState.RootIgnoresVmAccounts`).
- The cache key of the state root covers only size, first and last entry
  (`RootCache.MiddleEntryIsNotKeyed`).  Two competing writes to one key lead to two states that
  get one root in one process (`Blocks.CompetingWritesOneRoot`), and a block committing to the one
  is then accepted with the other (`Blocks.StaleRootIsAccepted`).  Sets of maps that are safe to
  ask are exactly those that their keys tell apart (`RootCache.AlwaysRightIff`).
- The constant root of an empty map is documented as the SHA-256 of `empty`, which it is
  not; the model keeps the constant of the code.
- Keeping zero consensus states prunes the latest one too (`LightClientTheorems.LatestStoredIffKept`).
  An update does not compare chain ids (`LightClientTheorems.ForeignHeaderIsAccepted`).
- A timed-out packet leaves flight even when its refund fails (`TokenTransferTheorems.RefundIsLost`).
- A native denomination with a slash does not come back to its escrow
  (`TokenTransferTheorems.VoucherComesHome`).
- Fresh evidence lifts a tombstone (`SlashingTheorems.TombstoneLiftedOnlyByEvidence`).
- Jailed stake counts among the votes but not in the total (`GovernanceTheorems.JailedVotesCount`),
  which matters exactly when more of it votes than active stake keeps silent
  (`GovernanceTheorems.VotesAtMostPower`).
- Some places do not type-check as written, for example the use of a moved receipt at
  `src/execution.rs:792-793`; the model follows their evident meaning.

## Model

| member | source | states |
|---|---|---|
| `LiquidStaking.LstPool.constructor` | src/lst.rs:451-466 | A new pool is empty. |
| `LiquidStaking.LstPool.Stake` | src/lst.rs:487-550 | Pool and answer after a stake, with every partial write that a late failure leaves behind. |
| `LiquidStaking.LstPool.Deposit` | src/lst.rs:520-550 | The writes of a stake once the minted shares are known. |
| `LiquidStaking.LstPool.RequestUnstake` | src/lst.rs:554-625 | Pool and answer after an unstake, with the writes that precede each failure. |
| `LiquidStaking.LstPool.ProcessWithdrawals` | src/lst.rs:629-647 | The loop pays the withdrawals that are due, in queue order, and keeps the others in order. |
| `LiquidStaking.LstPool.AddRewards` | src/lst.rs:651-673 | Pool and answer after adding rewards. |
| `LiquidStaking.LstPool.Transfer` | src/lst.rs:677-714 | Pool and answer after a share transfer, self-transfers included. |
| `LiquidStakingTheorems.RateExact` | src/lst.rs:471-479 | In a pool whose stake covers its shares the rate never saturates and is at least one. |
| `LiquidStakingTheorems.QuoteExact` | src/lst.rs:722-725 | The value of held shares neither saturates nor truncates, and the pool can pay it. |
| `LiquidStakingTheorems.SharesForExact` | src/lst.rs:487-514 | Minting never overflows 128 bits, and yields the floored quotient. |
| `LiquidStakingTheorems.DepositSound` | src/lst.rs:520-550 | A deposit fails only on the 64-bit stake or the counter, and keeps balances equal to shares. |
| `LiquidStakingTheorems.StakeSound` | src/lst.rs:487-550 | A stake keeps the invariant, never lowers the rate, and books exactly when its guards hold. |
| `LiquidStakingTheorems.StakeRate` | src/lst.rs:487-550 | Minting floored shares never lowers the rate for the holders already there. |
| `LiquidStakingTheorems.UnstakeSound` | src/lst.rs:554-625 | The checked subtractions of an unstake never fail, the invariant holds and the rate never falls while shares remain. |
| `LiquidStakingTheorems.TransferSound` | src/lst.rs:677-714 | A transfer moves exactly the shares, never overflows, and keeps the sum. |
| `LiquidStakingTheorems.RewardsSound` | src/lst.rs:651-673 | Rewards keep the invariant and never lower the rate. |
| `LiquidStakingTheorems.StepSound` | src/lst.rs:471-714 | Every operation, successful or not, keeps the invariant; the rate never falls in a step that leaves shares outstanding. |
| `LiquidStakingTheorems.RunKeepsInv` | src/lst.rs:471-714 | The invariant holds after every run. |
| `LiquidStakingTheorems.ReachablePools` | src/lst.rs:471-725 | Every reachable pool: balances sum to the shares, stake covers shares, the rate is at least one, every quote is exact and payable. |
| `LiquidStakingTheorems.RateNeverFalls` | src/lst.rs:471-479 | Along a run that keeps shares outstanding the rate never falls. |
| `LiquidStakingTheorems.RoundTrip` | src/lst.rs:487-594 | Staking and unstaking at once pays back no more than was put in if and only if the pool had shares before, or its unowned stake was too small to pay out a unit. |
| `LiquidStakingTheorems.RoundTripShared` | src/lst.rs:487-594 | With shares outstanding the round trip never gains, for every 64-bit pool. |
| `LiquidStakingTheorems.RoundTripFirst` | src/lst.rs:487-594 | Into a pool without shares it returns the deposit and the whole floored unowned stake. |
| `LiquidStakingTheorems.FirstStakerTakesRewards` | src/lst.rs:487-673 | From the empty pool: rewards of five, then a stake of five is paid back as ten. |
| `LiquidStakingExit.QuotesCovered` | src/lst.rs:722-725 | The quotes of all holders together never exceed the stake. |
| `LiquidStakingExit.ExitsPayAtRate` | src/lst.rs:554-625 | If holders leave one after the other, every request succeeds and pays at least at the initial rate. |
| `LiquidStakingExit.ExitsLeaveLittle` | src/lst.rs:554-625 | Once the last shares are gone the stake left is below one unit plus the shares divided by 10^18. |
| `LiquidStakingExit.ExitInAnyOrder` | src/lst.rs:554-625 | In any order of full exits everybody is paid at least the initial quote; once all have left no shares remain, and of the stake at most 19 units if there were shares. |
| `LiquidStakingExit.Partition` | src/lst.rs:629-647 | Processing splits the queue into what is due and what is not: nothing lost, doubled or paid early. |
| `LiquidStakingExit.StepConserves` | src/lst.rs:487-673 | Staked plus queued plus paid equals deposits plus rewards after a step if and only if the step does not fail after value has moved. |
| `LiquidStakingExit.RunConserves` | src/lst.rs:487-673 | The same equation over every run in which no step fails after value has moved; other failures are allowed. |
| `LiquidStakingExit.UnlockOverflowLosesStake` | src/lst.rs:595-606 | A concrete unstake whose unlock height overflows: it fails, the shares are gone, nothing is queued. |
| `LiquidStakingExit.StepPays` | src/lst.rs:629-647 | A step pays exactly what leaves the queue. |
| `LiquidStakingExit.PaidExactlyOnce` | src/lst.rs:554-647 | Over every run the withdrawals queued are those still pending plus those paid, each once and never before its height. |
| `LiquidStakingExit.QueueOnlyGrows` | src/lst.rs:554-625 | Only processing takes withdrawals out of the queue. |
| `ExecutionTheorems.BaseFeeBounds` | src/execution.rs:442-456 | The next base fee is at least one, moves towards demand, and by at most a quarter up to twice the target. |
| `ExecutionTheorems.IntrinsicAtLeastBase` | src/execution.rs:459-461 | Intrinsic gas is at least 21000. |
| `ExecutionTheorems.FeesExact` | src/execution.rs:606-613 | Fees below the saturation value are exact products. |
| `ExecutionTheorems.RejectionChangesNothing` | src/execution.rs:571-622 | A transaction refused before the charge returns its input state and an error. |
| `ExecutionTheorems.ChargedExactlyWhen` | src/execution.rs:571-629 | The sender nonce advances if and only if key, signature, nonce, gas limit, fee cap and balance all pass. |
| `ExecutionTheorems.PayloadFrame` | src/execution.rs:631-713 | A payload, failing or not, leaves balances, nonces, the burned total and the fee fields alone. |
| `ExecutionTheorems.ChargeConserves` | src/execution.rs:624-629 | Below 2^64-1 in total the saturating charge is exact, also when the sender proposes. |
| `ExecutionTheorems.ReceiptTellsTheMoney` | src/execution.rs:606-629 | The receipt states exactly what was burned, tipped and paid. |
| `ExecutionTheorems.ChargeMoves` | src/execution.rs:611-629 | What a charge adds to balances plus burned, for every state, saturation included. |
| `ExecutionTheorems.ConservesIff` | src/execution.rs:546-713 | For every supply: a transaction keeps balances plus burned if and only if it is not charged or its fee fits both destinations; a representable fee that does not fit loses value. |
| `ExecutionTheorems.BoundedConservesIff` | src/execution.rs:546-713 | Up to 2^64-1: a transaction keeps balances plus burned if and only if the two parts of a charged fee add up without saturating. |
| `ExecutionTheorems.ExcessIsCreated` | src/execution.rs:611-629 | Up to 2^64-1: if they do not add up, exactly the excess is created. |
| `ExecutionTheorems.ApplyConserves` | src/execution.rs:546-713 | Below 2^64-1 every transaction keeps balances plus burned. |
| `ExecutionTheorems.RunConserves` | src/execution.rs:546-713 | Every sequence of transactions keeps balances plus burned when it starts below 2^64-1. |
| `ExecutionTheorems.RunConservesIff` | src/execution.rs:546-713 | From at most 2^64-1, a run keeps the sum at every step if and only if every fee it charges adds up. |
| `ExecutionTheorems.SupplyBoundIsTight` | src/execution.rs:606-629 | A transaction at exactly 2^64-1 whose fee does not add up. |
| `ExecutionTheorems.NonceStep` | src/execution.rs:583-588 | A charge uses the stored nonce and advances it by one; nothing else changes it. |
| `ExecutionTheorems.NoncesAreConsecutive` | src/execution.rs:583-629 | Over every sequence each sender is charged under consecutive nonces, so no pair of sender and nonce twice. |
| `ExecutionTheorems.ParseSigned` | src/execution.rs:516-521 | Printing and parsing a signed counter is the identity. |
| `ExecutionTheorems.WordsOfJoined` | src/execution.rs:500-511 | Joining words without white space and splitting at white space gives them back. |
| `ExecutionTheorems.IncrementAddsOne` | src/execution.rs:500-525 | `inc` adds one to the stored number, missing keys counting as zero, and writes nothing else. |
| `Execution.VerifySignature` | src/execution.rs:476-491 | A verified sender is the one named by the transaction. |
| `StateMerge.FindConflict` | src/execution.rs:384-418 | The scan of one map finds a conflict exactly when the maps disagree on a shared key. |
| `StateMerge.Merge` | src/execution.rs:384-433 | Merging succeeds exactly when all five maps agree on shared keys, yields the union, and otherwise changes nothing. |
| `StateMerge.UnionIsSymmetric` | src/execution.rs:420-433 | The union extends both sides, does not depend on the receiver, and merging again changes nothing. |
| `Executor.TransactionExecutor.constructor` | src/execution.rs:746-765 | A fresh executor, with the configured gas limit when none is given. |
| `Executor.TransactionExecutor.RunTx` | src/execution.rs:767-795 | State and outcome after one transaction, with what a gas overflow leaves behind. |
| `Executor.TransactionExecutor.RunBatch` | src/execution.rs:797-804 | The loop stops at the first error, with the state reached. |
| `Executor.TransactionExecutor.RunParallel` | src/execution.rs:806-894 | State and outcome of the fork-and-merge path and of its fallback. |
| `Executor.FoldWorkers` | src/execution.rs:859-880 | The merge loop equals the fold over worker results, stopping at the first that cannot be merged. |
| `Batches.BatchAccounted` | src/execution.rs:767-804 | A finished batch has one receipt per transaction in order, no hash twice, gas equal to the receipt sum and within the limit, and the state of applying one by one. |
| `Batches.BatchConserves` | src/execution.rs:767-804 | Sequential execution keeps the supply even when it stops early. |
| `Batches.SuccessConflicts` | src/execution.rs:384-433 | With a positive base fee and supply below 2^64-1, a successful transaction conflicts with the state it started from. |
| `Batches.ParallelNeverCommits` | src/execution.rs:806-894 | With more than 16 transactions, signatures checked, supply below 2^64-1 and a positive base fee, the parallel path only reports an error and leaves the executor untouched. |
| `Batches.ParallelAllOrNothing` | src/execution.rs:806-894 | A parallel batch commits the receipts of all workers, all successful, with their gas, or changes nothing. |
| `Batches.FoldDoneIff` | src/execution.rs:859-880 | The merge loop goes through if and only if every worker succeeds and neither the base nor any two worker states disagree on a shared key. |
| `Batches.ParallelCommitsIff` | src/execution.rs:806-894 | The parallel path commits if and only if all signatures hold, that condition holds and the gas fits. |
| `Batches.WorkersMoveNothing` | src/execution.rs:384-433 | Below 2^64-1, a batch that the merge loop takes in has moved no money: same balances, only empty accounts besides, same burned total. |
| `Batches.ParallelConserves` | src/execution.rs:806-894 | Below 2^64-1 the parallel path keeps the supply, whatever the base fee and the outcome. |
| `Blocks.VerifyAssembled` | src/execution.rs:994-1047 | A block carrying the commitments of an execution is accepted with its state and receipts if and only if the key has 32 bytes and no error was raised. |
| `Blocks.VerifyBuilt` | src/execution.rs:931-1047 | With roots as pure functions, a built block verifies with exactly the built state and receipts if and only if the key has 32 bytes and execution raised no error. |
| `Blocks.VerifyAcrossCaches` | src/execution.rs:931-1047 | With roots from caches: a block assembled by one node is accepted by another that executes it alike if and only if the key has 32 bytes, no error was raised and the same map is behind both roots. |
| `Blocks.AcceptedHasReceipts` | src/execution.rs:767-1047 | Every accepted block, on any path, has one receipt per transaction in order and gas equal to the receipt sum and within the limit (limit below 2^64-1). |
| `Blocks.AcceptedIsAccounted` | src/execution.rs:767-1047 | On the sequential path, the fallback of the parallel one included, or on any path with a positive base fee and supply below 2^64-1, it also has distinct hashes and the state of applying one by one. |
| `Blocks.BuiltBlockConserves` | src/execution.rs:931-991 | Below 2^64-1 every built block keeps the supply, whatever the path and the base fee. |
| `Blocks.AcceptedBlockConserves` | src/execution.rs:994-1047 | Below 2^64-1 every accepted block keeps the supply, whatever the path and the base fee in its header. |
| `Blocks.AcceptingNodesAgree` | src/execution.rs:994-1047 | Two nodes that accept one block, each with roots from its own cache, agree on all committed state, whatever they started from, provided each cache was asked only for maps that their keys tell apart. |
| `Blocks.AcceptedIffSource` | src/execution.rs:1030-1047 | With roots from a cache, a block right in all else is accepted if and only if its header carries the root of the map behind the slot that serves the executed state. |
| `Blocks.StaleRootIsAccepted` | src/execution.rs:994-1047 | So a block that commits to another state is accepted whenever that state shares a cache key with the executed one and was asked for just before. |
| `Blocks.CompetingWrites` | src/execution.rs:500-713 | Two transactions competing for one nonce with payloads of equal length, storing different words under one key, lead from any state to two states that differ in that value alone. |
| `Blocks.SetPayload` | src/execution.rs:500-511 | The payload `set k v` is such a payload for every key and word without white space. |
| `Blocks.CompetingWritesOneRoot` | src/execution.rs:336-369 | One process that executes both gets one root for the two states. |
| `Merkle.SplitPoint` | src/merkle.rs:518-523 | The split is the largest power of two strictly below the number of leaves, so the duplicating fallback is never taken. |
| `Merkle.RootIsTreeHash` | src/merkle.rs:511-533 | The root is the Merkle Tree Hash of section 2.1 of RFC 6962 over the entries. |
| `Merkle.ShapeOfTree` | src/merkle.rs:511-533 | The root is the hash of a tree with one inner node fewer than leaves. |
| `Merkle.HeightOfTree` | src/merkle.rs:540-546 | That tree has the reported depth. |
| `Merkle.NodePreimageInjective` | src/merkle.rs:495-505 | An inner preimage determines both children. |
| `Merkle.EntryBytesInjective` | src/merkle.rs:480-490 | Length prefixes make an entry unambiguous below 2^32 bytes. |
| `Merkle.TreeHashBinds` | src/merkle.rs:480-533 | Equal roots mean equal entry lists, of whatever lengths, unless two hashed inputs collide. |
| `StoreRoot.StoreBinds` | src/merkle.rs:351-394 | Non-empty maps with equal computed roots are equal, unless two hashed inputs collide. |
| `RootCache.MerkleCache.constructor` | src/merkle.rs:281-288 | The cache starts empty, with room for 1024 roots when none is asked for. |
| `RootCache.MerkleCache.StateMerkleRoot` | src/merkle.rs:351-394 | Answer and cache after a lookup, hit or miss, with eviction. |
| `RootCache.AnswersAreRoots` | src/merkle.rs:351-394 | Over every run of lookups, clears and evictions each answer is the root of the map behind the slot that serves it. |
| `RootCache.SourcesShareKeys` | src/merkle.rs:351-394 | That map was asked before and has the same size, first and last entry. |
| `RootCache.AnswerIsRightIff` | src/merkle.rs:351-394 | In every run an answer is the true root if and only if the map behind its slot is the map asked for. |
| `RootCache.SmallMapsAreKeyed` | src/merkle.rs:568-583 | The key determines a map of at most two entries. |
| `RootCache.CacheAgrees` | src/merkle.rs:351-394 | Cached and uncached roots agree on maps of at most two entries, and in every run whose asked maps are told apart by their keys. |
| `RootCache.AlwaysRightIff` | src/merkle.rs:351-394 | A set of maps is answered rightly in every run over it if and only if their keys tell them apart. |
| `RootCache.SharedKeyIsServed` | src/merkle.rs:351-394 | Of two maps with one key asked in turn, the first answers for the second. |
| `RootCache.MiddleEntryIsNotKeyed` | src/merkle.rs:568-583 | An entry strictly between two others is not covered by the key, whatever its value. |
| `RootCache.ThreeEntriesShareKey` | src/merkle.rs:568-583 | Two concrete three-entry maps that differ share a key. |
| `ChainState.InsertCells` | src/execution.rs:338-366 | The insertion loop of one group adds exactly its cells. |
| `ChainState.BuildCombined` | src/execution.rs:336-369 | The six groups inserted in order give the image of the state. |
| `ChainState.CellKeysInjective` | src/execution.rs:338-366 | Prefixes, decimal and hexadecimal keep the keys of all six groups apart. |
| `ChainState.ImageBinds` | src/execution.rs:336-369 | Equal images hold the same cells with the same printed values. |
| `ChainState.RootBinds` | src/execution.rs:336-369 | Equal roots, computed and not looked up in the cache, mean equal store, balances, nonces, burned total, VM storage and VM code, unless two hashed inputs collide. |
| `ChainState.RootsEqualIff` | src/execution.rs:336-369 | Computed roots are equal if and only if those parts are. |
| `ChainState.RootIgnoresVmAccounts` | src/execution.rs:336-369 | Nonces and balances inside the virtual machine are not committed. |
| `CachedState.StateRoot` | src/execution.rs:336-369 | The root as the code obtains it: the image looked up in the cache of the process. |
| `CachedState.RootInIsTrueIff` | src/execution.rs:368 | A process gets the true root of a state if and only if the slot that serves it was filled from the image of that state. |
| `CachedState.CachedRootsEqualIff` | src/execution.rs:368 | Two processes get equal roots if and only if the same map is behind both. |
| `CachedState.CachedRootsBind` | src/execution.rs:336-369 | Roots from two caches, each asked only for maps that their keys tell apart, bind everything committed. |
| `CachedState.InnerCellIsNotKeyed` | src/merkle.rs:568-583 | The cache key of a state with a balance and a nonce covers neither the burned total nor any stored value. |
| `CachedState.BurnedIsNotKeyed` | src/merkle.rs:568-583 | Its instance for the burned total. |
| `CachedState.StoredValueIsNotKeyed` | src/merkle.rs:568-583 | Its instance for overwriting a stored value. |
| `CachedState.TwoStatesOneRoot` | src/execution.rs:368 | A process asking for two states with one cache key in turn gets one root for both, the true root of the first. |
| `LightClient.LightClientRegistry.constructor` | src/ibc.rs:709-719 | The registry starts empty. |
| `LightClient.LightClientRegistry.CreateClient` | src/ibc.rs:723-755 | Registry and identifier after creating a client. |
| `LightClient.LightClientRegistry.UpdateClient` | src/ibc.rs:758-826 | Registry and answer after a header, accepted or refused, with the failure counter. |
| `LightClient.LightClientRegistry.PruneConsensusStates` | src/ibc.rs:829-847 | The sort-and-remove loop keeps exactly the highest states of that client and all states of the others. |
| `LightClient.LightClientRegistry.SubmitMisbehaviour` | src/ibc.rs:850-905 | Registry and answer after a misbehaviour report. |
| `LightClientTheorems.VerifiedIsLink` | src/ibc.rs:908-977 | A header passes verification if and only if it is a link from the trusted state within clock drift and fidelity. |
| `LightClientTheorems.ClientNameRevealsSeq` | src/ibc.rs:731-735 | An identifier reveals its sequence number, dashes in chain ids included. |
| `LightClientTheorems.FreshId` | src/ibc.rs:723-755 | A new client never takes an existing identifier. |
| `LightClientTheorems.HighestSurvives` | src/ibc.rs:829-847 | Pruning keeps the highest state exactly when it keeps any. |
| `LightClientTheorems.AcceptedIsTrusted` | src/ibc.rs:758-826 | An accepted header ends a chain of accepted headers, each naming the height before it as trusted. |
| `LightClientTheorems.StepKeepsInv` | src/ibc.rs:723-905 | Every operation keeps the invariant while pruning keeps at least one state. |
| `LightClientTheorems.RunKeepsInv` | src/ibc.rs:723-905 | The invariant holds after every run. |
| `LightClientTheorems.LogsAreAccepted` | src/ibc.rs:758-826 | The headers recorded for a client are exactly those the run accepted for it, in order. |
| `LightClientTheorems.ReachableRegistries` | src/ibc.rs:723-905 | Every stored state ends a chain, from the first state of its client, of headers the run accepted for that client in that order, each trusting the one before; the latest height is stored and maximal. |
| `LightClientTheorems.ChainsRise` | src/ibc.rs:908-977 | A chain of trust rises strictly in height and never goes back in time. |
| `LightClientTheorems.FrozenForever` | src/ibc.rs:758-905 | A frozen client and its states never change again in any run. |
| `LightClientTheorems.IdsNeverCollide` | src/ibc.rs:723-755 | No run hands out an identifier twice or one already in use. |
| `LightClientTheorems.ChainIdIsNotCompared` | src/ibc.rs:758-826 | A header fares the same under any other non-empty chain id. |
| `LightClientTheorems.ForeignHeaderIsAccepted` | src/ibc.rs:758-826 | From the empty registry: a client of one chain accepts a header naming another. |
| `LightClientTheorems.LatestStoredIffKept` | src/ibc.rs:829-847 | After an accepted update the latest state is stored if and only if pruning keeps at least one. |
| `TokenTransfer.Ics020State.constructor` | src/ics020.rs:601-611 | The module starts empty. |
| `TokenTransfer.Ics020State.OpenChannel` | src/ics020.rs:615-648 | State and identifier after opening a channel. |
| `TokenTransfer.Ics020State.SendTransfer` | src/ics020.rs:651-726 | State, balances and answer after a send, with what a late overflow leaves behind. |
| `TokenTransfer.Ics020State.Unlock` | src/ics020.rs:755-769 | Taking an amount out of escrow and crediting it, in that order. |
| `TokenTransfer.Ics020State.ReceivePacket` | src/ics020.rs:729-799 | State, balances and answer after a receipt, native or voucher. |
| `TokenTransfer.Ics020State.TimeoutPacket` | src/ics020.rs:802-845 | State, balances and answer after a timeout; the packet is gone before the escrow is looked at. |
| `TokenTransfer.Ics020State.AcknowledgePacket` | src/ics020.rs:848-855 | An acknowledgement removes the packet and nothing else. |
| `TokenTransfer.Ics020State.PruneExpired` | src/ics020.rs:888-902 | The loop removes exactly the expired packets and reports their number. |
| `TokenTransfer.LastComponent` | src/ics020.rs:748-753 | The part after the last slash. |
| `TokenTransferTheorems.StepConserves` | src/ics020.rs:651-902 | A step, successful or not, keeps balances plus escrow if and only if it does not overflow after its first write. |
| `TokenTransferTheorems.BoundedNeverLeaks` | src/ics020.rs:651-845 | Below 2^64 in total that overflow cannot happen. |
| `TokenTransferTheorems.RunConserves` | src/ics020.rs:651-902 | Every run keeps balances plus escrow when it starts below 2^64. |
| `TokenTransferTheorems.SendAdds` | src/ics020.rs:698-716 | A successful send puts exactly the sender, denomination and amount in flight under the next number. |
| `TokenTransferTheorems.StepPackets` | src/ics020.rs:651-902 | Only a send adds a packet, under the next number; no step alters one in flight. |
| `TokenTransferTheorems.LeavesAtMostOnce` | src/ics020.rs:651-902 | Over every run no number enters twice, entries and departures balance, and each number leaves at most once. |
| `TokenTransferTheorems.PacketsAreKept` | src/ics020.rs:651-902 | A packet still in flight is the packet that was sent. |
| `TokenTransferTheorems.StepCovers` | src/ics020.rs:651-902 | Per denomination a step adds at least as much to escrow plus returns as to flight plus releases. |
| `TokenTransferTheorems.RunCovers` | src/ics020.rs:651-902 | The same over every run. |
| `TokenTransferTheorems.TimeoutPays` | src/ics020.rs:802-845 | A timeout succeeds if and only if escrow covers it, then pays the whole amount to the sender alone; the packet is gone either way. |
| `TokenTransferTheorems.TimeoutSucceeds` | src/ics020.rs:802-845 | While native returns stay within acknowledged plus pruned amounts every timeout of a packet in flight succeeds. |
| `TokenTransferTheorems.SenderIsRefunded` | src/ics020.rs:651-845 | From an empty module, after any run in which the native returns of the denomination stay within what was acknowledged or pruned, the sender of a packet in flight gets exactly the amount sent. |
| `TokenTransferTheorems.RefundIsLost` | src/ics020.rs:729-845 | From an empty module: send, accept a native return of the amount, time out; the refund fails and the packet is gone. |
| `TokenTransferTheorems.VoucherComesHome` | src/ics020.rs:740-776 | The denomination of a voucher returns to the escrow it left if and only if it holds no slash. |
| `Slashing.SlashAmount` | src/slashing.rs:829 | A slash is at least one unit and at most a positive stake. |
| `Slashing.StakeLedger.constructor` | src/slashing.rs:722-735 | A new ledger is empty. |
| `Slashing.StakeLedger.ApplyEvidence` | src/slashing.rs:807-880 | Ledger and answer after evidence; evidence about an unknown validator is recorded all the same. |
| `Slashing.StakeLedger.Unjail` | src/slashing.rs:891-920 | Ledger and answer after an unjail request, the overflowing delay included. |
| `Slashing.StakeLedger.SlashDowntime` | src/slashing.rs:931-964 | Ledger and answer after a downtime slash. |
| `Slashing.StakeLedger.TotalPower` | src/slashing.rs:737-743 | The sum of the active stakes, aborting exactly when it does not fit 64 bits. |
| `SlashingTheorems.StepFrame` | src/slashing.rs:807-964 | A step changes only the validator it names, only by slashing or freeing, and keeps the set of validators. |
| `SlashingTheorems.StatusLaw` | src/slashing.rs:833-853 | Over every run the status is a function of the slashes since last active, modulo three, and of the height of the latest. |
| `SlashingTheorems.FreedAfterDelay` | src/slashing.rs:680-687 | A validator is freed only after the full delay since its latest slash, and never from the tombstone. |
| `SlashingTheorems.JailCountIsOneOrTwo` | src/slashing.rs:833-853 | The count of a jailed validator is one or two. |
| `SlashingTheorems.TombstoneAtThirdSlash` | src/slashing.rs:833-853 | The tombstone is entered exactly at a slash that completes a group of three. |
| `SlashingTheorems.TombstoneLiftedOnlyByEvidence` | src/slashing.rs:833-920 | A tombstone is lifted if and only if fresh evidence names the validator, which is then jailed with count one. |
| `SlashingTheorems.TombstoneIsNotFinal` | src/slashing.rs:833-853 | Three offences lead to the tombstone, the fourth back to jail. |
| `SlashingTheorems.PunishedOnce` | src/slashing.rs:817-822 | One height and offender slashes at most once in any run, and not at all once recorded. |
| `SlashingTheorems.CutAccounts` | src/slashing.rs:829-831 | A cut keeps stake plus slashed total exactly when nothing saturates; empty stake is charged one unit anyway. |
| `SlashingTheorems.StepAccounts` | src/slashing.rs:807-964 | Below 2^64 a step changes that sum only by one, and only when it slashes empty stake. |
| `SlashingTheorems.RunAccounts` | src/slashing.rs:807-964 | Over every run that sum never falls, and is unchanged while stake is left. |
| `SlashingTheorems.StepPower` | src/slashing.rs:737-751 | A slash takes away all the power of the validator, freeing gives back the stake left. |
| `Governance.Find` | src/governance.rs:450-458 | The first validator in key order with an address, or none has it. |
| `Governance.HasQuorum` | src/governance.rs:482-491 | Quorum as computed with saturating products, or an abort when a sum does not fit. |
| `Governance.ValidatorSet.Contains` | src/governance.rs:925 | The scan finds a key exactly when it is listed. |
| `Governance.ValidatorSet.Remove` | src/governance.rs:945 | The retain loop drops exactly the entries of one key, in order. |
| `Governance.GovernanceManager.constructor` | src/governance.rs:613-624 | The state starts with the default deposit and lifetime. |
| `Governance.GovernanceManager.Submit` | src/governance.rs:758-812 | State and answer after a submission. |
| `Governance.GovernanceManager.Vote` | src/governance.rs:815-845 | State and answer after a vote, the overflowing error path included. |
| `Governance.GovernanceManager.Classify` | src/governance.rs:861-868 | The first loop lists the proposals to apply and to expire, judged on the ledger before any is applied. |
| `Governance.GovernanceManager.RemoveProposals` | src/governance.rs:870-878 | The expiry loop removes exactly the listed proposals. |
| `Governance.GovernanceManager.ApplyAction` | src/governance.rs:905-991 | Ledger, validator set and parameters after one action, or an abort. |
| `Governance.GovernanceManager.ApplyAll` | src/governance.rs:880-892 | The last loop applies each listed proposal in order. |
| `Governance.GovernanceManager.ApplyReady` | src/governance.rs:848-902 | State, ledger, validator set and returned actions. |
| `GovernanceTheorems.VotesAtMostStake` | src/governance.rs:447-475 | Yes and no together never weigh more than all recorded stake, whatever the address function. |
| `GovernanceTheorems.VotesAgainstPower` | src/governance.rs:447-479 | Votes plus silent active stake equal total power plus barred stake that votes. |
| `GovernanceTheorems.VotesAtMostPower` | src/governance.rs:447-479 | The votes stay within the total power if and only if no more barred stake votes than active stake keeps silent. |
| `GovernanceTheorems.ActiveVotersStayWithin` | src/governance.rs:447-479 | In particular when every voter is active. |
| `GovernanceTheorems.QuorumIsExact` | src/governance.rs:482-491 | Quorum is the exact strict comparison, except that it is out of reach once the right-hand product reaches 2^64-1. |
| `GovernanceTheorems.QuorumLeaves` | src/governance.rs:482-491 | What quorum leaves to the noes, for every ledger. |
| `GovernanceTheorems.QuorumOutvotes` | src/governance.rs:482-491 | While no more barred stake votes than active stake keeps silent, quorum leaves the noes less than the complementary share. |
| `GovernanceTheorems.JailedVotesCount` | src/governance.rs:447-491 | A concrete ledger where a jailed majority reaches quorum against an active no. |
| `GovernanceTheorems.ApplyReadyPending` | src/governance.rs:848-902 | Exactly the live proposals without quorum stay pending, untouched. |
| `GovernanceTheorems.ApplyReadyActions` | src/governance.rs:848-902 | The actions carried out are those of the live proposals with quorum, each once, by id. |
| `GovernanceTheorems.StepProposals` | src/governance.rs:758-902 | A step brings in at most the next id and never changes what a pending id proposes. |
| `GovernanceTheorems.LeavesAtMostOnce` | src/governance.rs:758-902 | Over every run no id is reused, entries and departures balance, and each proposal leaves at most once. |
| `GovernanceTheorems.LeavesAppliedOrExpired` | src/governance.rs:848-902 | A proposal leaves only applied with quorum while live, or expired unapplied. |
| `GovernanceTheorems.AtMostTenPerBlock` | src/governance.rs:769-796 | Between two resets at most ten proposals get an id. |
| `GovernanceTheorems.ActionKeepsMatch` | src/governance.rs:905-991 | Every action keeps validator set and ledger on the same members, without duplicates. |
| `GovernanceTheorems.RunKeepsMatch` | src/governance.rs:848-991 | So does every run of governance and slashing. |
| `RateLimits.TokenBucket.constructor` | src/rpc_limits.rs:496-506 | A new bucket is full. |
| `RateLimits.TokenBucket.TryConsume` | src/rpc_limits.rs:508-527 | Bucket and answer after a request. |
| `RateLimits.ConsumeSound` | src/rpc_limits.rs:508-527 | Tokens stay between zero and the maximum, and a request takes no more than was there or refilled. |
| `RateLimits.AcceptedWithinBudget` | src/rpc_limits.rs:508-527 | Over every run what is accepted was in the bucket or has been refilled since. |
| `RateLimits.WindowBound` | src/rpc_limits.rs:508-527 | In every window of every run at most a full bucket plus the refill of the window is accepted. |
| `RateLimits.StreakCountsRejections` | src/rpc_limits.rs:516-525 | The streak is the number of rejections since the last acceptance, up to 2^32-1. |
| `RateLimits.WaitingIsEnough` | src/rpc_limits.rs:508-527 | After every run a caller that waits for one token is accepted, and a bucket of rate zero accepts nobody. |
| `RateLimits.ActKeepsInv` | src/rpc_limits.rs:659-694 | One atomic step of any thread keeps the counter equal to the live tickets and within the limit. |
| `RateLimits.EveryInterleaving` | src/rpc_limits.rs:659-694 | So does every interleaving of loads, exchanges, spurious failures and drops. |
| `RateLimits.GuardFromStart` | src/rpc_limits.rs:652-694 | From a new guard the counter is always the number of live tickets and never above the limit. |
| `RateLimits.ConcurrencyGuard.constructor` | src/rpc_limits.rs:652-657 | A new guard counts zero. |
| `RateLimits.ConcurrencyGuard.TryAcquire` | src/rpc_limits.rs:659-679 | Alone, the retry loop succeeds exactly when the guard is not full, after any number of spurious failures. |
| `Text.ParsePrinted` | src/ics020.rs:325-345 | Parsing the printed amount of a packet gives it back. |
| `Text.HexRoundTrip` | src/execution.rs:338-366 | Decoding encoded bytes gives them back, and the encoding holds no colon. |
| `Text.Utf8Injective` | src/merkle.rs:480-490 | Distinct strings have distinct bytes. |

## Left out

- Coherence, fidelity, entropy and witness values: they only gate steps, and each gate is a boolean.
- The manager wrappers, locks, JSON persistence, metrics, logging and clocks around every object.
- Weak-memory effects beyond stale relaxed loads: the guard is an interleaving of atomic steps.
- The hash of the cache key: the 64-bit hash over size, first and last entry is taken as injective.
- The cache of governance proposals, which is not invalidated by votes.
- The uptime tracker of the slashing module and adding or removing validators outside governance.
- Voucher totals and channel identifiers of the token transfer module, which would add only easy members.
- Quarantine and bans of the rate limiter, request ids and static lists.
- Order and timing of parallel workers: each worker is a pure function of the forked state, and only the merge is sequential.
- The parser of governance payloads, block verification against a validator set, `src/vrf.rs`, `src/audit.rs`, `src/snapshot.rs`, `src/admin.rs`, `src/telemetry.rs` and the remaining plumbing.
- RateLimits.TokenBucket.TryConsume: arithmetic is over reals, so rounding of the source floats is not modelled.
- Blocks.VerifyBuilt: takes the root of a state as a pure function; Blocks.VerifyAcrossCaches is the same law with the caches in place.
- Merkle.RootIsTreeHash: covers non-empty lists only, because the source returns a constant for the empty map.
