# A verified model of the DVEL core

DVEL keeps an append-only ledger of signed events. A permissioned BFT node orders blocks of events
by propose, prevote and precommit rounds; a simulator node pools events that arrive before their
parents; a local overlay prefers one tip over another; a storage tool cuts files into hashed chunks.
This project models these parts in Dafny and proves what they promise.

`dafny verify dfyconfig.toml` checks everything.

## How the model is laid out

- `Base`, `Events`, `Blocks`, `Text`: bytes, 64-bit arithmetic with its saturation and wrap-around
  written out, encodings and their inverses.
- `Merkle`, `Ledger`: the level-folding root, the ledger with its tips, and what the root binds.
- `Apply`, `Parallel`: validation and block application in the single-threaded and in the parallel
  build.
- `Chain`, `Snapshots`, `Restart`: the committed chain, the snapshot with its index, what is written to the
  store, and the replay of it.
- `Slashing`, `Stakes`, `Penalties`: double-sign detection, slashing and jail, over whole runs of votes and in
  every state of the network.
- `Validators`, `Consensus`: the quorum rule, and one node as a function of its inputs.
- `Network`, `Steps`, `Handlers`, `Proposers`, `Agreement`, `Solo`: a network of such nodes among
  deviating validators, the invariant every step keeps, agreement, accountability and replication, and
  a run that commits.
- `Outbox`, `Mempool`, `Admission`: what a node sends, what a commit leaves in its pool, which blocks, votes
  and proposals it takes notice of, and the step a call leaves behind.
- `Conflicts`, `Evidence`: exactly when a correct node signs conflicting votes, what its own slashing rule
  makes of it, and that slashing records rest on signed votes.
- `Scripts`, `Four`, `Split`, `Amnesia`: two runs in which correct nodes commit different blocks, one for
  each premise of agreement that the code does not secure.
- `Node`: the BFT node as a class whose methods change its fields, each proved to do what the function
  of `Consensus` or `Restart` says.
- `Pool`, `Convergence`, `Runtime`: the simulator node's orphan pool as functions, order-independent
  convergence, and the node as a class.
- `Walks`, `Sybil`, `Preference`: ancestor walks, equivocation quarantine, tip preference.
- `Bus`, `Framing`, `Manifest`, `Chunks`: the message bus, length-prefixed frames, the manifest and
  chunked files.

Classes model what the program changes in place; functions beside them say what a call means, and
the lemmas about runs are about these functions.

## Assumptions

SHA-256 (section 6.2 of FIPS 180-4) and Ed25519 (section 5.1 of RFC 8032) are constants without a
value, so every result holds for any functions in their place. Where a result needs a law it is a
precondition on the strings hashed in the run at hand: `CollisionFree` (no two of them have one
digest), `NeverZero` (none hashes to zero), or the zero hash not being an event of the ledger.
That a signature cannot be forged is part of `Network.Enabled`: a vote or proposal that verifies was
signed by its validator.

A step of the network is one call into one node, or a vote or proposal by a validator that does not
follow the protocol. Delivery is arbitrary: nothing has to arrive, anything may arrive twice, late
or in any order. A timeout is a step that may happen at any time.

## Where the code and its description differ

- The design calls the protocol Tendermint-style (rust-core/src/bft/mod.rs:1). The code has no valid
  round and no unlock: a node locked on a block prevotes nil on any other, but a prevote quorum moves
  its lock. The invariant is about prevote quorums of nodes that had not precommitted before.
- The design speaks of 2f+1 out of 3f+1 (docs/bft_design.md:4). The code computes the threshold from the
  number of validators, whatever it is, and compares it with summed power. `CountRuleExact` says for
  which numbers the threshold is enough.
- A correct node may sign two different votes of one kind in one round, and `record_vote` then reports it as
  a double sign. `ConflictGuards` gives the condition for each call, `RunConflictExact` lifts it to runs, and
  three ways are shown: a propose timeout before a late proposal, a proposal that first comes with altered
  transactions, and a prevote timeout before a late quorum. In each the node slashes and jails itself. As
  long as the premises of agreement hold, one of the two votes is nil (`CorrectConflictsAreNil`).
- Agreement rests on two things the code does not secure: that no proposer signs two proposals for one
  round, and that no node restarts. `AgreementNeedsOneProposal` and `AgreementNeedsTheLock` are runs without
  the one and without the other.
- A slash updates the snapshot in memory; only a commit writes it to the store. What was slashed since the
  last commit is forgotten in a restart (`RestartFromAnyState`, `SlashForgotten`).
- A proposal's signature and a block's hash cover the transaction root, and the root does not tell a
  repeated last transaction from a single one. That committed transactions agree anyway rests on the
  ledger's refusal of duplicates (`SameHeaderSameBlock`).
- A commit inside a call resets the step, and the caller then overwrites it (`SoloCommits`), so a node
  enters a new height in a later step than propose. No safety result depends on the step.
- The parallel build of `apply_block` is not equivalent to the sequential one; the lemmas of `Parallel`
  say on which blocks they differ and when the parallel one leaves partial state behind.

## Model

| member | source | states |
|---|---|---|
| `Agreement.AgreementAcrossRounds` | rust-core/src/bft/node.rs:382-490 | Every run, every schedule: with 3f+1 unit-power validators, at most f deviating, no deviating proposer signing two proposals for one height and round, and no header collision, two correct nodes never have different headers at one height, whatever the rounds they committed in |
| `Agreement.AgreementForQuorums` | rust-core/src/bft/node.rs:119-127 | The same for any powers, as long as every two quorums share a correct validator |
| `Agreement.LaterRoundsBlocked` | rust-core/src/bft/node.rs:458-487 | Once a quorum has precommitted a block, no block of that height gets a prevote or precommit quorum in any later round, although a lock can move |
| `Agreement.OneDecision` | rust-core/src/bft/node.rs:476-487 | Two decided blocks of one height, in any two rounds, have one header |
| `Agreement.ChainsAgree` | rust-core/src/bft/node.rs:492-525 | Of two correct nodes one chain is a prefix of the other, transactions included, although proposals are signed over the header only |
| `Agreement.StateMachineReplication` | rust-core/src/bft/node.rs:492-621 | Correct nodes at one height hold the same ledger, tips, contexts, blocks and index, in every reachable state |
| `Agreement.NodesIndexed` | rust-core/src/bft/node.rs:492-525 | In every reachable state of every run the index of a correct node agrees with its chain and its ledger |
| `Agreement.Culprits` | rust-core/src/bft/node.rs:119-127 | Two blocks decided in one round leave at least f+1 validators that signed precommits for both, whoever deviates |
| `Agreement.AccountableSafety` | rust-core/src/bft/node.rs:458-487 | If two nodes commit different blocks in one round of a height, at least f+1 validators signed both precommits; no assumption on proposers, on the number of deviating validators or on hashes |
| `Agreement.QuorumsConvict` | rust-core/src/bft/slashing.rs:51-93 | Recording two conflicting precommit quorums, in any order among any other votes of rising heights, as a node counts them, yields evidence against at least f+1 validators |
| `Agreement.CulpritReported` | rust-core/src/bft/slashing.rs:51-93 | Whoever has two conflicting votes in a recorded list is named in its evidence, unless votes a hundred heights ahead came in between |
| `Conflicts.SignsExactly` | rust-core/src/bft/node.rs:382-475 | The votes a call signs, told from the state before it: for every message, proposal and timer, the votes signed afterwards are those before and exactly these |
| `Conflicts.StepConflictExact` | rust-core/src/bft/node.rs:680-695 | One call: a correct node has two different votes of one kind and round after it exactly when it had before, or the call signs a vote that meets another signed earlier |
| `Conflicts.ConflictGuards` | rust-core/src/bft/node.rs:382-475 | The guard of each call, on the state before it: a considered proposal after another prevote, or whose prevote completes a quorum after another precommit; a vote that completes a quorum after another precommit; a timer after a vote for a block |
| `Conflicts.RunConflictExact` | rust-core/src/bft/node.rs:373-490 | Over every run: a correct node has signed two conflicting votes exactly when some call of its run met that guard |
| `Conflicts.CorrectConflictsAreNil` | rust-core/src/bft/node.rs:697-717 | When quorums intersect in correct nodes, headers do not collide and proposals are one per round, one of two conflicting votes of a correct node is nil |
| `Conflicts.OwnVoteReported` | rust-core/src/bft/slashing.rs:51-93 | An own vote that is counted leads to a slash exactly when slashing is on, there is stake, and a vote of this kind and round for another hash is on record |
| `Conflicts.TimerThenProposal` | rust-core/src/bft/node.rs:706-717 | A propose timeout just before the proposal: both prevotes are signed, and the node slashes and jails itself |
| `Conflicts.AlteredThenGenuine` | rust-core/src/bft/node.rs:390-394 | A proposal with other transactions under the signed header, then the genuine one: both prevotes are signed, and the node slashes and jails itself |
| `Conflicts.TimerThenQuorum` | rust-core/src/bft/node.rs:718-722 | A prevote timeout just before the prevote that completes a quorum: both precommits are signed, and the node slashes and jails itself |
| `Evidences.EvidenceIsReal` | rust-core/src/bft/node.rs:412-456 | In every reachable state each slashing record of a correct node rests on two conflicting votes its validator signed; a validator that follows the protocol is slashed only after a call of its own met the guard |
| `Evidences.NextReal` | rust-core/src/bft/node.rs:412-456 | Every step keeps vote book and records of a correct node true |
| `Split.AgreementNeedsOneProposal` | rust-core/src/bft/node.rs:382-410 | With 4 validators, 1 deviating proposer that signs two proposals for one round, and every other premise of agreement, there is a run in which two correct nodes commit different blocks at height 1, slashing on or off |
| `Amnesia.AgreementNeedsTheLock` | rust-core/src/bft/node.rs:793-799 | With all premises of agreement, a run in which one correct node restarts, loses its lock and helps to decide a second block: two correct nodes commit different blocks at height 1 |
| `Handlers.NextKeeps` | rust-core/src/bft/node.rs:373-490 | Every step of the protocol (vote, proposal, own proposal, timer, transaction, deviating vote or proposal) keeps the invariant on votes, locks, tallies and chains |
| `Handlers.RunInv` | rust-core/src/bft/node.rs:270-294 | The invariant holds after every run from a state that has it |
| `Handlers.OnPrecommitKeeps` | rust-core/src/bft/node.rs:476-487 | A precommit, with the commit it may cause, keeps the invariant |
| `Handlers.OnPrevoteKeeps` | rust-core/src/bft/node.rs:458-475 | A prevote, with the lock, the own precommit and the commit it may cause, keeps the invariant |
| `Handlers.ProposalKeeps` | rust-core/src/bft/node.rs:382-410 | A handled proposal, with the prevote and all that follows inside the call, keeps the invariant |
| `Handlers.TimerKeeps` | rust-core/src/bft/node.rs:697-729 | An expired timer keeps the invariant |
| `Steps.PrevoteFresh` | rust-core/src/bft/node.rs:398-409 | A prevote for a block is cast by a node without an earlier precommit at that height, or after a prevote quorum of such nodes for the same block |
| `Proposers.CorrectProposersSignOnce` | rust-core/src/bft/node.rs:307-321 | In every run a node that follows the protocol signs at most one header per height and round, so agreement assumes that of the others alone |
| `Proposers.NextOnce` | rust-core/src/bft/node.rs:307-321 | Every step keeps: what a correct proposer signed lies behind its height and round, or it has marked the round as proposed |
| `Solo.SoloCommits` | rust-core/src/bft/node.rs:680-695 | A single validator that proposes commits its block within the call, through its own two votes, and is left in the prevote step of the next height |
| `Solo.AgreementApplies` | rust-core/src/bft/node.rs:307-321 | The premises of agreement hold of a run that ends with a committed block |
| `Outboxes.AllIsSent` | rust-core/src/bft/node.rs:307-321 | In every reachable state a correct node that has not halted has sent exactly the votes it signed; halted or not, it has sent exactly the proposals it made, and all it sent bears its own signature |
| `Outboxes.NextDelivers` | rust-core/src/bft/node.rs:680-695 | Every step of the network keeps that, votes cast inside other votes included |
| `Mempools.PoolExact` | rust-core/src/bft/node.rs:492-543 | Any vote, proposal, own proposal or timer: if the chain is as before so is the pool; if a block is committed, every copy of a transaction with a hash of that block is gone and every copy of any other remains, in the old order |
| `Mempools.SubmitQueues` | rust-core/src/bft/node.rs:296-305 | A transaction that is not empty waits behind all others, and is sent on if asked |
| `Mempools.NothingIsLost` | rust-core/src/bft/node.rs:296-305 | Over every run: a transaction given to a correct node is in its pool, or one with its hash is in its chain, from then on |
| `Mempools.ChainWithinLimits` | rust-core/src/bft/node.rs:623-648 | In every reachable state every block in the chain of a correct node has at most max_events transactions, and joined they have at most max_block_bytes bytes |
| `Mempools.ProposalVerdict` | rust-core/src/bft/node.rs:382-410 | A verified proposal that breaks any rule (height, round, tip, root, either limit) draws the nil prevote, nothing else, and is not held; one that breaks none is held and draws its prevote, or nil when the node is locked on another |
| `Admission.VoteCountedExactly` | rust-core/src/bft/node.rs:412-425 | A vote counts exactly when it is of this height and round, by a validator that is not in jail and under the key of its last registry entry; any other changes nothing |
| `Admission.ProposalIgnored` | rust-core/src/bft/node.rs:382-389 | A proposal of another height or round, by another than the round's proposer, or not under that one's signature, changes nothing |
| `Admission.ProposerExact` | rust-core/src/bft/node.rs:106-109 | The proposer is the entry at height plus round, counted around the list |
| `Admission.ByIdExact` | rust-core/src/bft/node.rs:91-96 | The registry holds for each id its last entry, and no other ids |
| `Admission.InitialStakesExact` | rust-core/src/bft/node.rs:231-236 | Every validator starts with the stake of its last entry, and no one else has any |
| `Admission.StepAfterQuorum` | rust-core/src/bft/node.rs:458-475 | A vote that completes a quorum of prevotes leaves the precommit step, with the lock on that block unless it was committed in the call |
| `Admission.StepAfterProposal` | rust-core/src/bft/node.rs:382-410 | A proposal that is considered leaves the prevote step |
| `Admission.StepAfterTimer` | rust-core/src/bft/node.rs:697-729 | The timers lead from propose to prevote to precommit to the next round, and keep height, lock and chain |
| `Validators.ValidatorSet.constructor` | rust-core/src/bft/node.rs:91-104 | The registry maps ids to the last entry with that id, and the threshold is 2f+1 for f the count less one, over three |
| `Validators.ValidatorSet.Met` | rust-core/src/bft/node.rs:119-127 | The saturating loop over the votes answers whether their summed power reaches the threshold |
| `Validators.PowerIntersects` | rust-core/src/bft/node.rs:97-127 | For any powers: two quorums share a correct validator when twice the threshold exceeds total plus deviating power |
| `Validators.UnitQuorum` | rust-core/src/bft/node.rs:119-127 | With unit powers and distinct ids a quorum is a count of registered voters |
| `Validators.CountRuleExact` | rust-core/src/bft/node.rs:97-98 | The count-based threshold guarantees a correct validator in every two quorums, for every f deviating ones, exactly when n = 3f+1 |
| `BftNode.Node.ApplyBlock` | rust-core/src/bft/node.rs:585-621 | All or nothing: on success the books are those of the transactions in order, on error ledger and contexts are unchanged; the second loop cannot fail |
| `BftNode.Node.ApplyBlockParallel` | rust-core/src/bft/node.rs:547-584 | The parallel build computes what ApplyParallel says, partial state on a failed entry included |
| `BftNode.Node.IndexBlock` | rust-core/src/bft/node.rs:492-525 | Snapshot height, tip, block maps and transaction index after a commit |
| `BftNode.Node.PruneMempool` | rust-core/src/bft/node.rs:527-543 | The pool keeps its order and loses what was committed |
| `BftNode.Node.CommitChecked` | rust-core/src/bft/node.rs:492-525 | A block that applies is recorded, the snapshot with its slashing state goes to the store, the pool loses its transactions, the height advances, lock and round state are reset; one that does not apply changes nothing |
| `BftNode.Node.HandleVote` | rust-core/src/bft/node.rs:412-490 | The method, with its recursion through own votes, is the protocol function of which the invariant is proved |
| `BftNode.Node.BroadcastVote` | rust-core/src/bft/node.rs:680-695 | An own vote is signed, handled, then sent, as the function of which AllIsSent is proved |
| `BftNode.Node.ValidateBlock` | rust-core/src/bft/node.rs:623-648 | The loop accepts exactly the blocks of this height, round, tip and root that meet both limits |
| `Mempools.AcceptableFits` | rust-core/src/bft/node.rs:623-648 | What is accepted, told by the header fields, the number of transactions and the length of their bytes joined |
| `BftNode.Node.HandleProposal` | rust-core/src/bft/node.rs:382-410 | As the protocol function: nil for a block that does not fit or is not the locked one |
| `BftNode.Node.BuildBlock` | rust-core/src/bft/node.rs:323-357 | The loop over the pool builds the block the protocol function describes |
| `BftNode.Node.MaybePropose` | rust-core/src/bft/node.rs:307-321 | As the protocol function: only the round's proposer, once, and its own proposal is handled at once |
| `BftNode.Node.CheckTimeouts` | rust-core/src/bft/node.rs:697-729 | As the protocol function, for the timer of the current step |
| `BftNode.Node.SubmitTx` | rust-core/src/bft/node.rs:296-305 | An empty transaction is dropped, any other is appended and may be sent on |
| `BftNode.Node.RestoreFromStore` | rust-core/src/bft/node.rs:731-800 | A fresh node when nothing is stored; otherwise succeeds exactly when the checked replay does, and then leaves the restarted state |
| `BftNode.Node.ReplayBlocks` | rust-core/src/bft/node.rs:745-767 | The replay loop checks height and link of every block and applies it |
| `Consensus.BuildFits` | rust-core/src/bft/node.rs:323-357 | A block built by a node passes that node's own checks, and bears its name and time |
| `Consensus.BuildMaximal` | rust-core/src/bft/node.rs:323-357 | A block takes the longest front part of the pool that fits the limits |
| `Consensus.PrunedExact` | rust-core/src/bft/node.rs:527-543 | Pruning drops every copy of a committed transaction and no copy of any other |
| `Apply.DryRunExact` | rust-core/src/bft/node.rs:585-609 | The dry run on copies predicts the real run exactly, including which error |
| `Apply.ApplyExact` | rust-core/src/bft/node.rs:585-621 | A block is applied exactly when each transaction decodes, is signed, is in time for its author, is new, and has its parent before it |
| `Apply.ApplyKeeps` | rust-core/src/bft/node.rs:610-621 | Applying a block keeps the ledger well formed |
| `Apply.CheckExact` | rust-core/src/validation.rs:59-83 | The checks on one transaction pass exactly for a signed event of the right version within the skew that links |
| `Apply.CheckErrors` | rust-core/src/validation.rs:59-83 | And why a transaction is refused: length, version, signature, timestamp, known hash, unknown parent, in this order, each read from its bytes |
| `Parallel.ParallelExact` | rust-core/src/bft/node.rs:547-584 | The parallel build accepts exactly the blocks whose transactions are good on their own before the block and pairwise different |
| `Parallel.SameBooks` | rust-core/src/bft/node.rs:547-618 | Blocks both builds accept leave the same ledger, tips and contexts |
| `Parallel.SequentialButNotParallel` | rust-core/src/bft/node.rs:547-618 | Of what the sequential build accepts, the parallel one accepts exactly the blocks with no parent inside the block |
| `Parallel.ParallelButNotSequential` | rust-core/src/bft/node.rs:547-618 | Of what the parallel build accepts, the sequential one accepts exactly the blocks in which no author steps back beyond the skew |
| `Parallel.ParallelLeavesPartialState` | rust-core/src/bft/node.rs:574-583 | The parallel build refuses a block after changing state exactly when all transactions are good on their own and one is repeated |
| `Parallel.ParallelAgrees` | rust-core/src/bft/node.rs:547-618 | On blocks of distinct transactions without inner parents and without steps back the two builds are one function |
| `Chain.ReplayIndexed` | rust-core/src/bft/node.rs:492-525 | After any linked chain: heights 1..H, tip of block H, index keys equal to the ledger's events, every entry pointing to the block that holds it |
| `Chain.ReplayByHash` | rust-core/src/bft/node.rs:492-525 | Look-up by hash finds the blocks of the chain when no two headers share a hash |
| `Chain.ApplyKnown` | rust-core/src/bft/node.rs:610-621 | A block adds exactly the hashes of its transactions to the ledger |
| `Chain.IndexTxsExact` | rust-core/src/bft/node.rs:503-506 | A transaction is indexed exactly when it was, or is in the block, and then points to the latest block |
| `Snapshots.SnapshotToPersisted` | rust-core/src/bft/node.rs:1168-1183 | The blocks of the snapshot by rising height, all of them, each once |
| `Snapshots.DumpIsChain` | rust-core/src/bft/node.rs:1168-1183 | What is persisted is the chain |
| `Restart.RestartRoundTrip` | rust-core/src/bft/node.rs:731-800 | Persisting and restoring always succeeds and gives the same height, tip, blocks, index, ledger and contexts |
| `Restart.RestoreExact` | rust-core/src/bft/node.rs:731-785 | Any stored snapshot: it is accepted exactly when its blocks, sorted by height, are linked from height 1 on and replay, or when there are none and its height is 0; the result is that replay |
| `Restart.SortExact` | rust-core/src/bft/node.rs:740 | Sorting gives the same blocks by rising height |
| `Restart.NextDisk` | rust-core/src/bft/node.rs:444-452 | Every step keeps: the store holds the snapshot of the last commit, and the slashing records it lacks are those of the current height |
| `Restart.RestartNode` | rust-core/src/bft/node.rs:731-800 | A node started from the store has height, tip, blocks, index, ledger and contexts of the one that stopped, and no lock |
| `Restart.RestartFromAnyState` | rust-core/src/bft/node.rs:731-800 | So it is from every reachable state; nothing is stored exactly before the first commit; stakes, jail and slashing records come back exactly when no record is of the current height, that is, none since the last commit |
| `Restart.SlashForgotten` | rust-core/src/bft/node.rs:444-452 | Two conflicting precommits of one validator: he is slashed and jailed, and after a restart has his stake back and is free |
| `Slashing.SlashingState.RecordVote` | rust-core/src/bft/slashing.rs:51-93 | Evidence and vote book as the specification says: the newer of two conflicting votes is kept, old heights are dropped unless evidence was returned |
| `Slashing.SlashingState.ApplySlash` | rust-core/src/bft/slashing.rs:96-146 | Refusals, the new stake, jail and record |
| `Slashing.SlashingState.Unjail` | rust-core/src/bft/slashing.rs:167-183 | Only after the term; the three answers |
| `Slashing.SlashingState.SlashingHistory` | rust-core/src/bft/slashing.rs:156-164 | The records of one validator, in order |
| `Slashing.EvidenceSound` | rust-core/src/bft/slashing.rs:51-93 | Evidence never names a validator without two recorded votes of his for one height, round and type and different blocks |
| `Slashing.DetectionExact` | rust-core/src/bft/slashing.rs:51-93 | A validator is reported exactly when he double-signed, for every order of the votes, as long as no vote of that height, round and type comes after one a hundred heights ahead |
| `Slashing.ByHeightInTime` | rust-core/src/bft/node.rs:412-420 | Votes counted at a node's own height, which only rises, are in that order |
| `Slashing.ForgottenConflict` | rust-core/src/bft/slashing.rs:84-91 | Out of order, a conflict around a vote a hundred heights ahead goes unreported |
| `Stakes.AccountsHold` | rust-core/src/bft/slashing.rs:96-146 | Over every run with rising heights: original stake is current stake plus recorded slashes, stake x 100^k is at least original x (100-p)^k after k slashes, and slashes of one validator are a jail term apart |
| `Stakes.StakeSurvives` | rust-core/src/bft/slashing.rs:149-153 | Below 100 percent no stake is ever used up, and the reported total is the sum of the records |
| `Stakes.RecordedIsTaken` | rust-core/src/bft/slashing.rs:115-143 | A slash keeps the books of its validator in balance exactly when stake times percentage stays below a hundred times the stake and one, which up to 100 percent it does |
| `Stakes.SlashExact` | rust-core/src/bft/slashing.rs:96-146 | One record more, with the percentage of the stake rounded down (two inequalities, saturation included); the stake loses that or all; jail lasts exactly to the end of the term; no one else is touched |
| `Stakes.SlashRefused` | rust-core/src/bft/slashing.rs:96-118 | Refused exactly when slashing is off or no stake is left, and then nothing changes |
| `Stakes.ReleaseExact` | rust-core/src/bft/slashing.rs:167-183 | A release frees one validator whose term is over, and changes nothing else |
| `Stakes.HistoryExact` | rust-core/src/bft/slashing.rs:156-164 | The history of a validator has every record that names it, as often as it was made, and no other |
| `Stakes.Overcharge` | rust-core/src/bft/slashing.rs:115-143 | At 200 percent a slash of a stake of 10 leaves 0, records 20, and the books do not balance |
| `Penalties.StakesInEveryState` | rust-core/src/bft/node.rs:421-456 | The same of every validator in the books of every correct node, in every reachable state of every run of the network |
| `Penalties.NextFair` | rust-core/src/bft/node.rs:412-456 | Every step of the network keeps the books in order, own votes handled inside a call included |
| `Blocks.HeaderBytesInjective` | rust-core/src/bft/types.rs:146-155 | Different headers have different bytes |
| `Blocks.VoteBytesInjective` | rust-core/src/bft/types.rs:163-174 | A signature on a vote's bytes belongs to that vote alone |
| `Blocks.ProposalBytesBind` | rust-core/src/bft/types.rs:176-183 | A proposal's bytes fix height, round, proposer and header hash |
| `Blocks.HeaderLayout` | rust-core/src/bft/types.rs:146-155 | Where each field of a header stands in its bytes |
| `Blocks.VoteLayout` | rust-core/src/bft/types.rs:163-174 | Where each field of a vote stands, with the tags 1 and 2 |
| `Blocks.ProposalLayout` | rust-core/src/bft/types.rs:176-183 | Where height, round, header hash and proposer stand |
| `Blocks.TxRootBinds` | rust-core/src/bft/types.rs:124-144 | Among lists a ledger would apply, the transaction root fixes the transactions |
| `Blocks.TxRootRepeats` | rust-core/src/bft/types.rs:124-144 | The root alone does not: three transactions and the same with the last repeated share a root, and every ledger refuses the second |
| `Merkle.MerkleRootHashes` | rust-core/src/bft/types.rs:124-144 | The nested loops compute the recursive root; zero for no leaves |
| `Merkle.FoldLevel` | rust-core/src/bft/types.rs:129-142 | One pass pairs a level, an odd last node with itself |
| `Merkle.RootBindsDistinct` | rust-core/src/ledger.rs:94-123 | Lists of distinct leaves, of any two lengths, have equal roots only if equal, when no pair of hashed strings collides and no leaf is an inner node |
| `Merkle.RootExact` | rust-core/src/bft/types.rs:124-144 | Any two lists share a root exactly when the full trees, repeated nodes written out, have the same leaves |
| `Merkle.OddLevelCollides` | rust-core/src/bft/types.rs:124-144 | Three leaves and four with the last one twice share a root |
| `Events.DecodeMaterial` | rust-core/src/bft/node.rs:1218-1265 | Decoding a transaction undoes encoding an event |
| `Events.MaterialDecode` | rust-core/src/event.rs:61-77 | Exactly the strings of 169 bytes decode, and encoding undoes decoding, so a transaction and its event have one hash |
| `Events.MaterialInjective` | rust-core/src/event.rs:61-77 | Different events have different hash material |
| `Events.MaterialLayout` | rust-core/src/event.rs:61-77 | Where each field stands in the hash material, and that the signed part is all but the signature |
| `Ledgers.LedgerStore.TryAddEvent` | rust-core/src/ledger.rs:57-76 | Duplicate and missing parent leave the ledger unchanged; otherwise event and tip set are updated and the hash returned |
| `Ledgers.LedgerStore.MerkleRoot` | rust-core/src/ledger.rs:94-123 | The root over the ascending hashes, whatever order the map is iterated in; none for an empty ledger |
| `Ledgers.RunsWellFormed` | rust-core/src/ledger.rs:57-76 | Any sequence of additions keeps: parents present or genesis, every chain reaching genesis within the ledger's size, tips exactly the childless events |
| `Ledgers.Acyclic` | rust-core/src/ledger.rs:57-76 | No event is its own proper ancestor |
| `Ledgers.AncestorLower` | rust-core/src/ledger.rs:57-76 | Every parent edge lowers the height by one |
| `Ledgers.SameAccepted` | rust-core/src/ledger.rs:57-76 | The state depends on the accepted events alone, not on their order |
| `Ledgers.RootBindsLedger` | rust-core/src/ledger.rs:94-123 | Two ledgers of any sizes have equal roots exactly when they are equal |
| `Pool.RunTidy` | cpp-sim/core/node.hpp:278-288 | Over every run of messages: no bucket waits on a hash in the ledger, the count is the sum of the buckets and within the cap, only accepted events are in the cache |
| `Pool.RunCapped` | cpp-sim/core/node.hpp:97-133 | However many messages come, at most 16384 wait and at most 8192 hashes are remembered |
| `Pool.RepeatChangesNothing` | cpp-sim/core/node.hpp:299-352 | An event that is in the ledger already changes neither ledger, pool nor cache |
| `Pool.AcceptTidy` | cpp-sim/core/node.hpp:299-367 | Accepting, queueing or dropping one message keeps that invariant |
| `Pool.DrainTidy` | cpp-sim/core/node.hpp:397-483 | A recursive drain re-establishes it; with the bound at the cap the re-queue is never reached |
| `Pool.ReleaseTidy` | cpp-sim/core/node.hpp:419-474 | A released child links or is refused: it never misses its parent |
| `Pool.DrainStep` | cpp-sim/core/node.hpp:417-474 | One round of the drain's loop leaves room for the rest of the bucket |
| `Convergence.Converges` | cpp-sim/core/node.hpp:278-483 | A fresh node sent every event of another ledger, in any order and with repetitions, up to 16384 messages and with each author's timestamps within the skew, ends with an empty pool and the same events, tips and root |
| `Convergence.OrderDoesNotMatter` | cpp-sim/core/node.hpp:278-483 | Two fresh nodes sent the same events in different orders end equal |
| `Convergence.RunCovers` | cpp-sim/core/node.hpp:278-483 | Along the way every message sent is in the ledger or waits under its parent |
| `Runtime.NodeRuntime.ProcessInbox` | cpp-sim/core/node.hpp:278-288 | The inbox is emptied in order; the state is that of the messages accepted one by one |
| `Runtime.NodeRuntime.InboxPush` | cpp-sim/core/node.hpp:275 | Appended at the end of the inbox |
| `Runtime.NodeRuntime.AcceptOrQueue` | cpp-sim/core/node.hpp:299-367 | The method is the accept function, author context, cache and pool included |
| `Runtime.NodeRuntime.QueuePending` | cpp-sim/core/node.hpp:369-395 | Appended under the parent, or dropped at the cap |
| `Runtime.NodeRuntime.DrainPendingForParent` | cpp-sim/core/node.hpp:397-483 | The loop and its recursion are the drain function; underflow, leftover bucket, already-seen child and missing parent cannot occur |
| `Runtime.NodeRuntime.ValidateEvent` | rust-core/src/validation.rs:59-83 | The verdict, and the author's context moved forward only when the event passes |
| `Walks.IsAncestorByWalk` | rust-core/src/scoring.rs:443-468 | True exactly when the ancestor is at most max_steps parent edges away, in any map of events, self-parent and zero hash included |
| `Walks.WalkBound` | rust-core/src/scoring.rs:443-468 | What is an ancestor at all is one within as many edges as there are events |
| `Walks.LongEnough` | rust-core/src/scoring.rs:443-468 | With a bound of at least the ledger's size the walk decides ancestry |
| `Walks.BuildChainFromTip` | rust-core/src/scoring.rs:51-69 | The reversed walk is the chain function |
| `Walks.ChainExact` | rust-core/src/scoring.rs:51-69 | The chain lists the walk from the oldest event to the tip and stops only at the bound or at an unknown hash |
| `Walks.ChainComplete` | rust-core/src/scoring.rs:51-69 | In a well-formed ledger with no zero hash and a sufficient bound the chain starts at genesis and is as long as the tip is high |
| `Sybil.SybilOverlay.ObserveEvent` | rust-core/src/scoring.rs:315-350 | First sight, observers, last tip, and the penalty exactly on a fork |
| `Sybil.SybilOverlay.ApplyQuarantineAndSlash` | rust-core/src/scoring.rs:412-424 | The later of two quarantine ends, and a slash capped at the scale under the slashing policy; QuarantineExact and SlashedExact say what that comes to |
| `Sybil.ForksExact` | rust-core/src/scoring.rs:337-346 | With max_link_walk at least the ledger's size, a penalty falls exactly when an author's consecutive tips lie on different branches |
| `Sybil.FalseAlarmExact` | rust-core/src/scoring.rs:337-346 | With a smaller bound no fork is missed, and an author on one branch is penalised exactly when the two tips are further apart in height than the bound |
| `Sybil.RunNoEarlier` | rust-core/src/scoring.rs:412-416 | Over every run quarantine ends never move back, first sight never changes, observers only accumulate |
| `Sybil.QuarantineHolds` | rust-core/src/scoring.rs:379-404 | After a fork the author's weight is zero at every tick before the quarantine ends, whatever else is observed |
| `Sybil.QuarantineExact` | rust-core/src/scoring.rs:412-416 | Over every run of observations the quarantine of an author ends exactly at the latest of its initial end and fork tick plus quarantine_ticks over the forks, capped at 64 bits |
| `Sybil.FreeAgain` | rust-core/src/scoring.rs:379-404 | From that end on the weight is the one of an author that was never quarantined |
| `Sybil.KnownExactly` | rust-core/src/scoring.rs:315-349 | Over every run an author is known exactly when observed; first sight, last tip and observers are those of the author's own observations |
| `Sybil.WarmedUp` | rust-core/src/scoring.rs:379-404 | An author past the warm-up, widely seen and not in quarantine weighs the scale less what was slashed |
| `Sybil.WarmupParts` | rust-core/src/scoring.rs:426-440 | Age alone is worth 65 percent of the scale, observers alone 35 |
| `Sybil.AmountExact` | rust-core/src/scoring.rs:418-420 | One slash is the percentage of the scale, rounded down |
| `Sybil.SlashedExact` | rust-core/src/scoring.rs:417-423 | Over every run the slashed weight is one amount per fork, capped at the scale |
| `Sybil.QuarantineNeverSlashes` | rust-core/src/scoring.rs:417-423 | Under the quarantine policy nothing is slashed |
| `Sybil.FullySlashed` | rust-core/src/scoring.rs:391-397 | When the forks' amounts reach the scale the weight is zero at every tick |
| `Preference.ScoreChain` | rust-core/src/scoring.rs:72-80 | The saturated sum of the weights of the chain's events |
| `Preference.ScoreLatestPerAuthorUnit` | rust-core/src/scoring.rs:84-96 | The saturated number of distinct authors on the chain |
| `Preference.ScoreLatestPerAuthorSybil` | rust-core/src/scoring.rs:470-486 | The saturated sum of one weight per distinct author on the chain |
| `Preference.ExtendScore` | rust-core/src/scoring.rs:84-96 | An event adds its author's weight, and nothing when the author is on the chain already |
| `Preference.ForkerAddsNothing` | rust-core/src/scoring.rs:470-486 | A forking author adds nothing to any chain while the quarantine lasts |
| `Preference.SelectPreferredTip` | rust-core/src/scoring.rs:100-133 | Highest score, then smallest hash, for every iteration order of the tips, with its chain; none exactly when there is no tip |
| `Preference.SelectPreferredTipScore` | rust-core/src/scoring.rs:146-188 | Unit: the score is the saturated length of the chain, and with a sufficient bound no event stands higher than the tip. Latest per author: the score is the saturated number of distinct authors. Third kind: 0, and the smallest hash. Under each no tip has more, and ties go to the smaller hash |
| `Preference.SelectPreferredTipSybil` | rust-core/src/scoring.rs:488-521 | The same for the overlay's weights |
| `Preference.PreferredUnique` | rust-core/src/scoring.rs:146-188 | There is at most one preferred tip |
| `Preference.UnitPrefersHighest` | rust-core/src/scoring.rs:146-188 | With a sufficient bound the unit policy prefers a tip no event of the ledger stands higher than |
| `Bus.MessageBus.Send` | cpp-sim/core/bus.hpp:36-45 | One more message with the next sequence number, due after the given or the default delay, addresses overwritten |
| `Bus.MessageBus.Deliver` | cpp-sim/core/bus.hpp:47-59 | Delivers exactly what is due, in strict (due, sequence) order, and keeps the rest |
| `Bus.MessageBus.DeliverWithPolicy` | cpp-sim/core/bus.hpp:61-87 | Delivers exactly what is due and allowed, in strict order, and keeps the rest, deferred messages included |
| `Bus.HistoryGrows` | cpp-sim/core/bus.hpp:36-87 | What the methods promise of a call is what extends a history of the bus, so the laws below hold of every use of it |
| `Bus.Conservation` | cpp-sim/core/bus.hpp:36-87 | Over every history, as multisets: sent equals delivered plus pending |
| `Bus.DeliveredOnce` | cpp-sim/core/bus.hpp:36-87 | Nothing is delivered twice, or delivered and still pending |
| `Bus.NeverEarly` | cpp-sim/core/bus.hpp:47-87 | Whatever a call delivers was sent before, is due and allowed, and had not been delivered |
| `Bus.NothingHeldBack` | cpp-sim/core/bus.hpp:47-87 | Under the honest and the reordering policy a call delivers exactly what is due and keeps exactly the rest |
| `Bus.ExactArrival` | cpp-sim/core/scheduler.hpp:34-50 | Polled every tick under a fixed delay, a call delivers exactly the messages whose due tick plus the victim's delay is now |
| `Bus.DelayExact` | cpp-sim/core/scheduler.hpp:39-45 | The policy holds a message to that tick for every poll exactly when the sum fits 64 bits |
| `Bus.StarvedGetsNothing` | cpp-sim/core/scheduler.hpp:53-64 | Under starvation nothing reaches the victim and all that was sent to it stays queued |
| `Framing.WriteMessage` | rust-core/src/bft/node.rs:1185-1195 | Appends the length, cast to 32 bits, and the payload: one frame when the length fits |
| `Framing.WrittenReadsBack` | rust-core/src/bft/node.rs:1185-1195 | What is written is read back as the same message exactly when it has 1 to 8,000,000 bytes and parses, for every length |
| `Framing.Connection.TryDecode` | rust-core/src/bft/node.rs:994-1009 | Waits, refuses a zero or oversized length, or takes one frame off the front, whose payload may not parse |
| `Framing.Connection.Pump` | rust-core/src/bft/node.rs:959-971 | After each read every whole frame is taken out, up to one that is refused |
| `Framing.DecodeFrame` | rust-core/src/bft/node.rs:994-1009 | Decoding undoes framing, whatever follows |
| `Framing.ReadsDoNotMatter` | rust-core/src/bft/node.rs:979-1009 | For any bytes, any split into reads gives the payloads and the verdict of the whole stream at once |
| `Framing.FramesArrive` | rust-core/src/bft/node.rs:979-1009 | Frames of any payloads of 1 to 8,000,000 bytes and part of one more, in any split: exactly those payloads in order, exactly that part left |
| `Framing.BadFrameEnds` | rust-core/src/bft/node.rs:999-1007 | An empty or oversized frame, or one that does not parse, ends the connection after exactly the payloads before it |
| `Manifests.CanonicalString` | rust-core/src/storage.rs:59-73 | The appends produce the printed lines |
| `Manifests.ToStringWithSignature` | rust-core/src/storage.rs:89-102 | Signer and signature lines follow when present |
| `Manifests.ReadManifest` | rust-core/src/storage.rs:222-291 | The parser loop, every error included, is the line-by-line fold |
| `Manifests.RoundTripExact` | rust-core/src/storage.rs:59-103 | Reading a printed manifest returns it exactly when its version is 1 and its file name has no newline and no trailing carriage return |
| `Manifests.ReadBack` | rust-core/src/storage.rs:222-291 | Without a newline in the name it always reads back, with one trailing carriage return cut off |
| `Manifests.ParseExact` | rust-core/src/storage.rs:222-291 | Exactly which texts are manifests: every line good, a name, total size and chunk size numbers, and the count, if it is a number, that of the hash lines |
| `Manifests.ReadLinesExact` | rust-core/src/storage.rs:222-276 | What is read from the lines: the last of each field, and as many hashes as there are hash lines |
| `Manifests.CanonicalFormat` | rust-core/src/storage.rs:59-73 | The printed form line by line, the words written out |
| `Manifests.CanonicalBinds` | rust-core/src/storage.rs:59-82 | For such names the signed and hashed text determines name, sizes and chunk hashes |
| `Chunks.ChunkDir.ChunkFile` | rust-core/src/storage.rs:168-215 | For every pattern of short reads the pieces join to the file, have 1 to chunk_size bytes, are stored under their names, and their hashes and total size are in the manifest; other files stay |
| `Chunks.ChunkDir.VerifyChunks` | rust-core/src/storage.rs:317-332 | The first missing or altered chunk, then the total size |
| `Chunks.ChunkDir.Reassemble` | rust-core/src/storage.rs:334-352 | The chunks joined, or the first missing or altered one with the output as far as it was written |
| `Chunks.NamesDiffer` | rust-core/src/storage.rs:105-107 | Two chunks of one file never share a name |
| `Chunks.NameFormat` | rust-core/src/storage.rs:105-107 | File name, .chunk. and the index in eight digits or as many as it has |
| `Chunks.FirstFault` | rust-core/src/storage.rs:317-352 | The fault reported is that of the first faulty chunk; without one there is none |
| `Chunks.CutAndJoin` | rust-core/src/storage.rs:334-352 | What was just cut up reassembles to the file and passes the check |
| `Chunks.AnyDirectory` | rust-core/src/storage.rs:317-352 | Any directory that passes, or reassembles at all, gives the original file, when no two strings at hand collide |

## Left out

- Agreement.AgreementAcrossRounds: supposes that a deviating proposer signs at most one proposal per height and round; the code does not check it, and `AgreementNeedsOneProposal` shows that it is needed.
- Agreement.QuorumsConvict: speaks of votes given to `record_vote`; that a node sees both quorums, in its current round and before it jails anyone, is delivery and not part of it.
- Handlers.NextKeeps: covers heights and rounds below 2^64 - 1, where the code's saturating counters would stop.
- Convergence.Converges: for up to 16384 messages; beyond the cap the pool drops what arrives.
- Sybil.QuarantineHolds: weights are over the reals with the observer term as an unknown function; f64 rounding is not modelled, and a fixed_point_scale above 2^63 - 1, on which the source panics, is not either.
- Bus.MessageBus.Send: the sequence counter is unbounded, where the source's wraps after 2^64 messages.
- Runtime.NodeRuntime.AcceptOrQueue: leaves out the counters and the call into the overlay, which change neither ledger nor pool.
- Runtime.NodeRuntime.DrainPendingForParent: leaves out the counters and the call into the overlay, which change neither ledger nor pool.
- BftNode.Node.CommitChecked: a node with a store whose writes succeed; a failed write leaves the older file and is only printed by the source.
- Restart.RestartNode: says nothing about the book of votes seen, which a restart takes from the last stored slashing state.
- Chunks.ChunkDir.ChunkFile: file system errors and file names that are not UTF-8.
- Sybil.AmountExact: for a product of scale and percentage within 64 bits; beyond, the model wraps like a release build of the source, and nothing is promised of the amount.
- Admission.ProposerExact: for a sum of height and round within 64 bits; beyond, the model wraps likewise.
- Restart.RestoreExact: for fewer than 2^64 - 1 stored blocks.
- Liveness of consensus: locks are released only by a commit, so no progress is promised.
- Agreement.StateMachineReplication: for runs without restarts; a restart clears the lock, and `AgreementNeedsTheLock` shows what that can lead to.
- Sockets, TLS, the handshake, threads, the HTTP server and the read timeouts.
- The internals of SHA-256, Ed25519 and the JSON format; a persisted snapshot reads back as written, although its slashing state has maps keyed by byte arrays, which a JSON library may refuse.
- Wall-clock values: timestamps are inputs, timeouts are steps, backoff is not modelled.
- The running byte count of the mempool, the timestamps of slashing records, the printing and the trace recorder of the simulator node.
- The legacy `add_event`, which checks neither parent nor duplicate and keeps no invariant; the trace checker, which reads recorded rows and changes nothing; the foreign-function layer, simulations, metrics, Python tools and command-line programs, which wrap or drive the operations above.
- `timeout_backoff`, `merkle_root` of the chunk hashes and the signing of manifests: short expressions over parts that are modelled.
