# Verification of the Crakbit chain core

A Dafny model of the parts of Crakbit that decide whether its data can be trusted, with proofs over
all inputs and all runs. `dafny verify dfyconfig.toml` checks everything.

- **Execution** (`Models`, `Execution`, `Merkle`, `Blocks`, `Chain`, `Balances`, `Ledger`): transfers over an account table,
  the aliased in-memory simulation, Merkle roots, certificates, and the replay of a chain from genesis.
- **Consensus** (`Consensus`, `Network`, `Rounds`, `StaleCollector`, `Peers`, `Mempool`, `Proposals`,
  `Handlers`, `Revoting`, `Progress`): one
  validator as a class with its durable records, and a network of validators in which faulty ones sign
  anything, messages are lost, delayed, repeated and reordered, and nodes crash between any two durable
  writes. The main results are agreement, the lock lemma and round discipline over every run, that no vote is
  lost, and that a synchronous round finalizes. `Handlers` says of each handler exactly when it acts and what it leaves.
- **External execution** (`ExternalStore`, `StoreRuns`, `Governance`, `StoreV21`, `StoreV21Runs`,
  `LedgerV21`, `Folds`): the
  staged finalize and commit machine, with and without validator governance. Every schedule of stage,
  repeat, replay, commit and crash leads to a plain fold of the decided requests, and which decisions
  can be committed and which requests are answered is characterised exactly.
- **Snapshots and transfer** (`Snapshot`, `Restore`, `SnapshotV21`, `StateSync`, `StateSyncRuns`): a
  restored store is bisimilar to its source above the base height, and the chunk receiver ends in the
  source state or in none.
- **Derived structures** (`Archive`, `Backfill`, `Explorer`, `Mining`, `Limits`, `PeerAuth`,
  `Checkpoint`): each against something simpler.

Classes carry the state the program keeps; each method is proved equal to a specification function of
the old state, and the lemmas are about those functions. Hashes are free constructors, so equal exactly
for equal preimages. A signature is valid exactly for the messages in a set of genuinely signed ones.
A database transaction takes effect entirely or not at all.

## What the proofs found

- A view-change collector reads height and round before it waits and raises the round after. If its
  height is finalized meanwhile, the node lands in a round of the next height that no quorum asked for
  (`StaleCollector.LateEndingSkipsQuorum`). Agreement is not affected; `Rounds.EndingDisciplinedIff` and
  `Rounds.DisciplinedRunIff` give the exact condition.
- The base store has a branch that answers a replay at a committed height
  (`blockchain/crakbit_chain/external_commit.py:314-337`), but `stage_finalize` hashes the current
  application hash into the request, so the branch never succeeds: every request there is refused, the
  committed one included (`StoreRuns.CommittedHeightIsSettled`). The replay wrapper and the v0.21 store
  answer it.
- The genesis loader accepts a negative minimum fee and negative allocations; non-negative balances and,
  for the fee, the order independence of a mempool batch then fail (`Balances.ReachableNonNegativeIff`,
  `Execution.NegativeFeeBreaksBatch`).
- The genesis fingerprint leaves the minimum fee out, so a snapshot restores under a genesis that
  disagrees on it, and the two stores then part (`Restore.MinFeeParts`).
- A snapshot embeds the exporter's base record: height, application hash and artifact hash of the
  snapshot it was itself restored from. So a restored node never exports the bytes of the snapshot it
  came from, nor those of any node of another generation, although state and application hash are equal;
  the comment in `blockchain/crakbit_chain/comet_state_sync.py:91-92` says otherwise
  (`Restore.CopyExportsAnother`, `Restore.DepthIsGeneration`). Equal bytes need equal base records
  (`Restore.SameExportIff`).
- A crash inside an offer, after clearing chunk files and before writing the session, leaves received
  indices without chunks (`StateSyncRuns.CrashedOfferStored`). The ledger is not affected.
- Export fails once any account address is malformed, recipients are never checked for that, and rows are
  never deleted: one payment to a malformed address ends all exports and published snapshots of the
  ledger for good (`Snapshot.ExportSucceedsIff`, `Balances.MalformedRecipientEndsExport`).
- A backfill with base height 0 compares against the last block of the archive
  (`Backfill.BaseZeroChecksTip`).
- A crash after the session has marked the last chunk and before the import leaves a session that is
  complete but not restored; any chunk sent again then completes it (`StateSyncRuns.RunHolds`).
- The two replay caches part if the clock goes back by a millisecond (`PeerAuth.ClockBackParts`), and a
  restart empties one of them (`PeerAuth.RestartForgets`).

## Model

| member | source | states |
|---|---|---|
| Execution.Simulate | blockchain/crakbit_chain/external_commit.py:159-189 | the loop over shared two-element lists (three names that may reach one list) returns exactly the batch meaning `Execute`, or the same first error |
| Execution.ExecuteMoves | blockchain/crakbit_chain/external_commit.py:167-180 | an executed batch creates exactly the touched rows, moves every balance by the net effect of its transactions and every nonce by the number sent, also where the fee account is a sender or recipient |
| Execution.BatchExecutes | blockchain/crakbit_chain/node.py:93-112 | transactions with distinct senders, each valid alone, execute together (minimum fee not negative) |
| Execution.BatchOrderIndependent | blockchain/crakbit_chain/node.py:93-112 | every selection of such a mempool executes in every order, and all orders of one selection reach the same account table |
| Execution.NegativeFeeBreaksBatch | blockchain/crakbit_chain/storage.py:545-555 | for every negative minimum fee there are two such transactions that do not execute together |
| Execution.ExecuteConserves | blockchain/crakbit_chain/external_commit.py:172-180 | no batch changes the sum of all balances |
| Execution.NonNegativeIffMinFee | blockchain/crakbit_chain/genesis.py:36-66 | balances stay non-negative through all batches if and only if the genesis minimum fee is not negative, which loading a genesis does not check |
| Execution.ExecutedNonces | blockchain/crakbit_chain/storage.py:534-540 | every executed transaction has a nonce above its sender's old one and at most the new one, so none occurs twice in a batch |
| Execution.ExecuteMeans | blockchain/crakbit_chain/storage.py:530-555 | a batch executes exactly if no transaction in it has a fault (fields, authenticity, nonce and balance read off the table before the batch and the transactions in front); otherwise it fails with the first fault |
| Execution.ExecutedAreGenuine | blockchain/crakbit_chain/storage.py:545-555 | every transaction of an executed batch is authentic, for this chain, of a positive amount, with at least the minimum fee, and to someone else |
| Execution.TransferMeans | blockchain/crakbit_chain/external_commit.py:172-180 | what one transfer does to every account, whichever of sender, recipient and fee collector coincide |
| Execution.OthersSpare | blockchain/crakbit_chain/external_commit.py:167-180 | a batch in which an account sent nothing leaves its nonce and takes nothing from it, a negative fee from the collector apart |
| Merkle.MerkleRoot | blockchain/crakbit_chain/models.py:13-21 | the layer loop, with its odd-layer duplication, returns the recursive root; it terminates because the layer shrinks |
| Merkle.RootBinds | blockchain/crakbit_chain/models.py:13-21 | two lists of equal length with one root are equal, through duplication at every level |
| Merkle.OddRepeatSameRoot | blockchain/crakbit_chain/models.py:17-19 | repeating the last of an odd number (more than one) of leaves keeps the root: why equal length is needed |
| Merkle.DistinctBatchesBind | blockchain/crakbit_chain/models.py:13-21 | for lists of transaction identifiers without repetition the root binds the list, its length included |
| Merkle.RootIsNode | blockchain/crakbit_chain/models.py:13-21 | the root is the top of the tree defined from the root down: each node hashes its two children in order, a missing right one replaced by the left |
| Blocks.CheckPhaseCertificate | blockchain/crakbit_chain/storage.py:641-669 | the loop with its set of seen voters accepts exactly the quorums of matching, authentic votes by different validators |
| Blocks.CheckChangeCertificate | blockchain/crakbit_chain/history_archive.py:22-44 | the same for view changes into a block's round; a round-0 block must carry none |
| Blocks.QuorumsMeet | blockchain/crakbit_chain/genesis.py:84-86 | two quorums share an honest validator when at most floor((n-1)/3) are not honest |
| Blocks.QuorumIsLeast | blockchain/crakbit_chain/genesis.py:84-86 | the quorum is the least number above two thirds of the validators |
| Blocks.EveryoneHasOneTurn | blockchain/crakbit_chain/genesis.py:68-74 | among any n consecutive rounds of a height each of the n validators has exactly one turn |
| Chain.SameTipSameHeaders | blockchain/crakbit_chain/models.py:256-278 | chains that replay and end in one tip hash have the same headers all the way down |
| Chain.SameHeadersSameState | blockchain/crakbit_chain/history_archive.py:127-146 | the replayed state depends on the headers alone, not on the certificates |
| Chain.ReplayConserves | blockchain/crakbit_chain/history_archive.py:127-142 | a replayed chain holds exactly the genesis supply |
| Chain.ReplayNoRepeat | blockchain/crakbit_chain/storage.py:700-731 | no transaction occurs twice in a chain that replays, in one block or in two |
| Handlers.ReplayNextIff | blockchain/crakbit_chain/history_archive.py:97-146 | one more block replays exactly if place, turn, signature, roots and the three certificates are right, each condition on the fields; what view changes report about locks is not looked at |
| Ledger.ChainOnlyOwnersSpend | blockchain/crakbit_chain/history_archive.py:127-142 | in a replayed chain every transaction is authentic, an account's nonce counts its transactions, and without any its balance is at least its allocation |
| Consensus.ValidatorNode.constructor | blockchain/crakbit_chain/node.py:35-51 | a process started on a database takes height, round, votes and locks from it and forgets certificates and pool |
| Consensus.ValidatorNode.SyncRoundHeight | blockchain/crakbit_chain/node.py:57-63 | moves to the open height and its recorded round if the height changed, else changes nothing |
| Consensus.ValidatorNode.AdvanceTo | blockchain/crakbit_chain/node.py:65-79 | raises the round, durably and in memory; never lowers it |
| Consensus.ValidatorNode.PrepareVoteRound | blockchain/crakbit_chain/node.py:295-308 | refuses invalid, stale or jumping proposals; enters a certified next round; records the first proposal of a proposer and refuses a second one |
| Consensus.ValidatorNode.SignPhaseVote | blockchain/crakbit_chain/node.py:310-343 | the whole new state and the vote, if any: lock respected, prevote certificate demanded before a precommit, one vote per phase and round, vote then lock recorded before release |
| Consensus.ValidatorNode.SignViewChange | blockchain/crakbit_chain/node.py:162-193 | answers only for the open height, the current round, one step up and after the timeout, with the lock it holds |
| Consensus.ValidatorNode.FinishViewChange | blockchain/crakbit_chain/node.py:267-289 | what collecting does after its wait, with the height and round read before it |
| Consensus.ValidatorNode.ApplyBlock | blockchain/crakbit_chain/storage.py:700-731 | appends the block and replaces the accounts exactly for a valid block with both certificates, else changes nothing |
| Consensus.ValidatorNode.PruneConsensusState | blockchain/crakbit_chain/storage.py:489-502 | drops exactly the rounds, votes, locks, proposals and view changes up to the finalized height |
| Consensus.ValidatorNode.AcceptBlock | blockchain/crakbit_chain/node.py:440-450 | apply, prune, drop the included transactions from the pool and the old certificates, open the next height; a refused block changes nothing |
| Handlers.SignVoteIff | blockchain/crakbit_chain/node.py:310-343 | a vote is released if and only if the block extends the chain in the round reached or the next, no lock on another block, no other proposal seen and no other vote given there, and a prevote quorum for a precommit; every condition on the fields |
| Handlers.SignVoteLeaves | blockchain/crakbit_chain/node.py:325-343 | with the vote its record and for a precommit the lock are in place; without one only what preparing did |
| Handlers.PrepareIff | blockchain/crakbit_chain/node.py:295-308 | preparing succeeds exactly for a proposal within reach of a proposer with no other proposal on record |
| Handlers.SignChangeIff | blockchain/crakbit_chain/node.py:162-193 | exactly when a view change is signed, what it reports, and the state it leaves |
| Handlers.FinishMeans | blockchain/crakbit_chain/node.py:267-289 | a collected quorum is kept for its own height and raises the round of whichever height is open; anything less does nothing |
| Handlers.AcceptIff | blockchain/crakbit_chain/node.py:440-450 | a block is finalized exactly if it extends the chain and carries both vote quorums |
| Handlers.AcceptLeaves | blockchain/crakbit_chain/storage.py:489-502 | finalizing leaves exactly the records above the height and opens the next height in the round on record for it |
| Handlers.RestartMeans | blockchain/crakbit_chain/node.py:43-51 | a restart keeps the database, forgets certificates, and is in the round on record for the open height |
| Revoting.VoteSurvivesCrash | blockchain/crakbit_chain/node.py:310-343 | wherever the vote handler dies, the vote it would have returned is returned when asked for the same block after the restart |
| Revoting.NoVoteIsLost | blockchain/crakbit_chain/node.py:310-343 | in every run, a vote an honest validator ever released is returned again whenever it is asked for that block while still in that height and round |
| Network.StepKeepsInv | blockchain/crakbit_chain/node.py:295-343 | every step by anyone (forged messages, votes, crashes at each durable write, view changes, finalization, restarts) keeps every honest validator's invariant: released votes are on record, precommits are backed by a prevote quorum and locked, one vote per phase and round |
| Network.LockLemma | blockchain/crakbit_chain/node.py:310-343 | once a quorum precommitted a hash in a round, no prevote quorum for another hash exists at that height in that or a later round, in any run |
| Network.Agreement | blockchain/crakbit_chain/node.py:295-343 | in every run with at most floor((n-1)/3) arbitrary validators no two hashes at one height both get precommit quorums |
| Network.SameHeaderAt | blockchain/crakbit_chain/node.py:440-450 | two honest validators never finalize different headers at one height |
| Network.ChainsAgree | blockchain/crakbit_chain/node.py:440-450 | finalized chains of honest validators are prefixes of one another, and equal heights mean equal account tables |
| Progress.RoundFinalizes | blockchain/crakbit_chain/node.py:351-450 | from any point of any run: if more than two thirds of the validators are honest nodes on one chain with nothing against a proposal within reach, there are votes and deliveries after which all of them have finalized it |
| Progress.FirstBlockFinalizes | blockchain/crakbit_chain/node.py:93-150 | every batch that executes on the genesis accounts can become the first block of all of them |
| Rounds.RoundsNeverDrop | blockchain/crakbit_chain/node.py:57-79 | along every run a validator's chain only grows and its round at a height never goes down, restarts included |
| Rounds.RoundsAreEarned | blockchain/crakbit_chain/node.py:250-308 | in every run with harmless endings, a node in round r has, for each smaller round, a signed quorum for leaving it, with an honest member that was there and saw it time out |
| Rounds.EndingDisciplinedIff | blockchain/crakbit_chain/node.py:250-289 | an ending collector keeps that discipline if and only if its height is still open, it raises nothing, or every change it skips is certified anyway |
| Rounds.DisciplinedRunIff | blockchain/crakbit_chain/node.py:250-308 | every honest validator is disciplined at every point of a run if and only if every ending in it is harmless in that sense |
| Rounds.TimelyIsHarmless | blockchain/crakbit_chain/node.py:267-289 | a run in which every collector ends before its height closes (or raises nothing) is harmless: what an operator can watch for |
| StaleCollector.LateEndingSkipsQuorum | blockchain/crakbit_chain/node.py:250-289 | a run with only honest validators in which a collector that ends after its height closed leaves its node in round 1 of the next height without any quorum |
| Peers.HonestChangesAreAccepted | blockchain/crakbit_chain/node.py:195-221 | in every run a view change an honest validator answers with passes every check of the asking peer and reports the lock it really holds |
| Peers.HonestVotesAreAccepted | blockchain/crakbit_chain/node.py:351-366 | a vote returned for a proposal passes the checks of its collector |
| Proposals.CollectVotes | blockchain/crakbit_chain/node.py:385-427 | returns a certificate exactly if the collector and the answering validators number a quorum; the certificate is valid and consists of just their votes |
| Proposals.BuiltIsValid | blockchain/crakbit_chain/node.py:114-150 | a built block passes the builder's own validation |
| Proposals.HonestProposalsAreValid | blockchain/crakbit_chain/storage.py:618-639 | in every run, a block an honest validator builds is valid to every honest validator at the same height |
| Proposals.SelectionBuilds | blockchain/crakbit_chain/node.py:114-133 | with its own mempool selection a proposer can build if and only if it is its turn and it holds the round's certificate |
| Proposals.BuildIff | blockchain/crakbit_chain/node.py:114-133 | a block is built exactly on the validator's turn, for transactions that execute, with the kept certificate of a round above 0 |
| Proposals.BuiltHolds | blockchain/crakbit_chain/node.py:134-150 | it is for the open height on the last block, names its builder, and holds the transactions, time and certificate it was built with |
| Proposals.BuiltCommits | blockchain/crakbit_chain/node.py:134-150 | it commits to its transactions and to the accounts they lead to |
| Mempool.Pool.Submit | blockchain/crakbit_chain/limits.py:77-90 | adds the transaction at the end exactly if it is small enough, valid alone, below capacity and its sender has none pending; each refusal names its reason |
| Mempool.Pool.Select | blockchain/crakbit_chain/node.py:101-112 | returns the valid ones among the oldest within the limit and drops the invalid ones looked at; senders stay distinct |
| Mempool.SelectionExecutes | blockchain/crakbit_chain/limits.py:77-96 | whatever is selected executes as one block, in any order, with the same result, and is no longer than the limits |
| Mempool.IncludedIsRefused | blockchain/crakbit_chain/storage.py:534-540 | a transaction that a block included is refused by every later admission check on the ledger the block left |
| Mempool.RemovalInOrder | blockchain/crakbit_chain/node.py:440-446 | removing takes exactly the named transactions and keeps the order of the others |
| Mempool.SelectionInOrder | blockchain/crakbit_chain/node.py:101-112 | a selection is exactly what the ledger accepts of those considered, oldest first |
| Mempool.RefusedIsRest | blockchain/crakbit_chain/node.py:101-112 | what a selection drops is exactly the rest of those considered, all of it refused by the ledger |
| Mempool.ConsideredMeans | blockchain/crakbit_chain/node.py:101-104 | those considered are the oldest, as many as pool, limit and block size allow |
| ExternalStore.SameRequestSameHash | blockchain/crakbit_chain/external_commit.py:191-213 | on one state two requests hash alike exactly if they are the same decision up to the letter case of the block hash |
| ExternalStore.RowsRefineSimulation | blockchain/crakbit_chain/external_commit.py:463-501 | the row-by-row updates of a commit reach the accounts of the in-memory simulation, or fail with its error, and record exactly the batch's identifiers |
| ExternalStore.ExternalExecutionStore.CheckBase | blockchain/crakbit_chain/external_commit_v16.py:80-91 | opening is allowed exactly if the base is within the height and the commit rows number the heights above it |
| ExternalStore.ExternalExecutionStore.StageFinalize | blockchain/crakbit_chain/external_commit.py:277-415 | reply and new tables for every branch, in the order of the checks; a refusal writes nothing |
| ExternalStore.ExternalExecutionStore.CommitPending | blockchain/crakbit_chain/external_commit.py:417-568 | reply and new tables for every branch; any failure restores the rows already written |
| ExternalStore.ReplaySafeStageFinalize | blockchain/crakbit_chain/external_replay.py:10-66 | a committed height is answered from its row under the row's own predecessor hash, a later one is staged |
| StoreRuns.StoreInvariant | blockchain/crakbit_chain/external_commit_v16.py:80-91 | in every reachable state rows cover exactly base+1..height, at most one finalize is pending and sits at height+1, opening succeeds, and the supply is that of the base |
| StoreRuns.CommitNeverFails | blockchain/crakbit_chain/external_commit.py:417-568 | in every reachable state committing succeeds, commits the pending row as staged and reaches the application hash promised then |
| StoreRuns.RowsLinked | blockchain/crakbit_chain/external_commit.py:541-549 | each row's previous application hash is its predecessor's application hash |
| StoreRuns.FirstRowAnchored | blockchain/crakbit_chain/external_commit.py:541-549 | the first row starts from the application hash of the base |
| StoreRuns.LastRowAnchored | blockchain/crakbit_chain/external_commit.py:541-549 | the last row ends with the current application hash |
| StoreRuns.ReachableIsFold | blockchain/crakbit_chain/external_replay.py:24-66 | every reachable state is the fold of the requests committed so far, with at most one pending on top, all of them from the schedule |
| StoreRuns.ScheduleIsDeterministic | blockchain/crakbit_chain/external_commit.py:277-568 | for every schedule of stage, repeat, replay, commit and crash over one decided sequence, the committed tables are the plain fold of a prefix of it |
| StoreRuns.SchedulesAgree | blockchain/crakbit_chain/external_commit.py:277-568 | two schedules of one decided sequence at equal heights hold equal committed tables |
| StoreRuns.Progress | blockchain/crakbit_chain/external_commit.py:382-415 | a decision that follows can always be staged (or replayed) and committed |
| StoreRuns.PendingHeightIsSettled | blockchain/crakbit_chain/external_commit.py:358-381 | at the pending height exactly the staged decision is answered, from its row; nothing changes |
| StoreRuns.CommittedHeightIsSettled | blockchain/crakbit_chain/external_replay.py:28-60 | at a committed height the replay wrapper answers exactly the committed decision, from its row; plain staging refuses every request there, the committed one included |
| StoreRuns.BelowBaseIsRefused | blockchain/crakbit_chain/external_replay.py:30-35 | at and below a snapshot base every request is refused |
| StoreRuns.NoTransactionTwice | blockchain/crakbit_chain/external_commit.py:494-501 | no transaction is committed twice over any run |
| Ledger.CommittableIff | blockchain/crakbit_chain/external_commit.py:277-568 | a sequence of decisions can be committed if and only if heights are consecutive, block hashes hexadecimal and no transaction has a fault where it stands among all of them |
| Ledger.FoldIsBatch | blockchain/crakbit_chain/external_commit.py:463-501 | the accounts after any run are those of one long batch; splitting it into decisions makes no difference |
| Ledger.AnsweredIff | blockchain/crakbit_chain/external_replay.py:10-66 | in every reachable state a request is answered if and only if it is the committed decision of its height, the staged one at the open height, or with none staged any that is well formed and without fault |
| Ledger.StageRefusals | blockchain/crakbit_chain/external_commit.py:277-381 | in any state, the condition under which each complaint about a request is the first; a refusal writes nothing |
| Ledger.IndexIsExact | blockchain/crakbit_chain/external_commit.py:494-501 | the transaction index holds exactly the committed transactions, each at the height of its decision |
| Ledger.RowsDescribe | blockchain/crakbit_chain/external_commit.py:541-549 | each committed row holds the lowered block hash, the root and number of the transactions and the fee collector of its decision |
| Ledger.OnlyOwnersSpend | blockchain/crakbit_chain/storage.py:545-555 | over any run, nonce and balance of an account are moved by the committed transactions alone; without an authentic one of its own the nonce stands still and nothing is taken from it |
| Ledger.ReachedOnlyOwnersSpend | blockchain/crakbit_chain/storage.py:545-555 | the same in every reachable state, for every schedule of requests |
| Ledger.OwnersSpendIff | blockchain/crakbit_chain/genesis.py:36-66 | balances drop only by transactions of their owner, for every account and run from genesis, if and only if the minimum fee is not negative |
| Ledger.OpensIff | blockchain/crakbit_chain/external_commit_v16.py:80-91 | with rows only where they belong, counting them allows opening exactly if each height above the base has its row |
| Ledger.HexMeans | blockchain/crakbit_chain/external_commit.py:17-18 | a block hash is 64 hexadecimal digits in either case, and lowering changes the case of letters only |
| Balances.ReachableNonNegativeIff | blockchain/crakbit_chain/genesis.py:36-66 | all reachable states of a store from genesis have non-negative balances if and only if the minimum fee and every allocation are not negative; loading a genesis checks neither |
| Balances.ReplayNonNegative | blockchain/crakbit_chain/history_archive.py:127-146 | under the same two conditions no account of a replayed chain is ever negative |
| Balances.RowsStay | blockchain/crakbit_chain/external_commit.py:463-493 | an account row, once there, is there in every later state of every run |
| Balances.MalformedRecipientEndsExport | blockchain/crakbit_chain/external_state_sync.py:27-43 | from any clean reachable state with a sender who can pay one unit and the fee, a payment to a malformed address is accepted, and then every later state of every run refuses to export |
| Governance.ApplyUpdates | blockchain/crakbit_chain/validator_governance_v21.py:111-144 | the update loop returns the target set, or nothing if an update does not fit or the set would be empty |
| Governance.TargetMeans | blockchain/crakbit_chain/validator_governance_v21.py:111-144 | an update list is accepted if and only if each update fits what those before it left and a member remains |
| Governance.TargetIsLastUpdates | blockchain/crakbit_chain/validator_governance_v21.py:111-144 | the target holds, for each address, exactly the power and name of the last update naming it, nobody where that is a removal, and the old member where none does |
| Governance.CheckApprovals | blockchain/crakbit_chain/validator_governance_v21.py:392-415 | accepts exactly distinct authentic approvals of active validators holding more than two thirds of the power |
| Governance.CheckEnvelope | blockchain/crakbit_chain/validator_governance_v21.py:350-431 | the verified change, or nothing |
| Governance.VerifiedIff | blockchain/crakbit_chain/validator_governance_v21.py:350-431 | a change is verified if and only if it names chain, content, heights and active set, its updates fit and lead to the set it names, and the approvals carry; it then is the change described |
| Governance.QuorumIff | blockchain/crakbit_chain/validator_governance_v21.py:392-415 | approvals carry exactly if different active validators genuinely gave them who hold more than two thirds of the power |
| Governance.SimulateHeight | blockchain/crakbit_chain/validator_governance_v21.py:433-504 | the loop over pending changes activates the due one, refuses a missed one, and admits a new change only when none is left waiting |
| Governance.ValidatorGovernanceStore.CommitHeight | blockchain/crakbit_chain/validator_governance_v21.py:506-576 | the new governance tables and the outcome, or nothing changed |
| Governance.CommitIsSimulate | blockchain/crakbit_chain/validator_governance_v21.py:454-576 | committing a height succeeds exactly when its simulation does and leaves the simulated state |
| Governance.ChangesTakeEffectTwoLater | blockchain/crakbit_chain/validator_governance_v21.py:454-576 | over every run of heights the active set is that of a two-place delay line: each verified change, and nothing else, takes effect two heights later |
| Governance.EveryChangeIsApproved | blockchain/crakbit_chain/validator_governance_v21.py:392-415 | every change in a run had more than two thirds of the power active at its height, leaves a valid set, takes effect as the plan says, and has none at the next height |
| Governance.RunSucceedsIff | blockchain/crakbit_chain/validator_governance_v21.py:433-576 | a run of heights goes through if and only if each change in it comes when none came just before and verifies against the validators the plan has come to |
| StoreV21.SplitTransactions | blockchain/crakbit_chain/external_commit_v21.py:83-103 | the transfers in order and the one change, or the error: two changes first, then a duplicate |
| LedgerV21.SplitMeans | blockchain/crakbit_chain/external_commit_v21.py:83-103 | a decision is split exactly if it has at most one change and repeats nothing; the transfers are all of them in order |
| StoreV21.SameRequestSameHash | blockchain/crakbit_chain/external_commit_v21.py:105-123 | requests hash alike exactly if they are the same decision, whatever the state |
| StoreV21.ExternalExecutionStoreV21.StageFinalize | blockchain/crakbit_chain/external_commit_v21.py:225-370 | reply and new tables for every branch, replays of committed heights included |
| StoreV21.ExternalExecutionStoreV21.CommitPending | blockchain/crakbit_chain/external_commit_v21.py:372-542 | reply and new tables of accounts, governance, rows and index; any failure restores them all |
| StoreV21.TransfersRefineSimulation | blockchain/crakbit_chain/external_commit_v21.py:440-464 | the account rows of a commit and the simulation of its transfers never part |
| StoreV21Runs.StoreInvariant | blockchain/crakbit_chain/external_commit_v21.py:225-542 | in every reachable state rows cover base+1..height, at most one finalize is pending at height+1, and the validator set is valid with at most one change waiting |
| StoreV21Runs.CommitNeverFails | blockchain/crakbit_chain/external_commit_v21.py:372-542 | in every reachable state committing succeeds as staged |
| StoreV21Runs.ScheduleIsDeterministic | blockchain/crakbit_chain/external_commit_v21.py:225-542 | for every schedule over one decided sequence, accounts, validator set, pending change, rows and index are the plain fold of a prefix |
| StoreV21Runs.CommittedHeightIsSettled | blockchain/crakbit_chain/external_commit_v21.py:248-280 | at a committed height exactly the committed decision is answered, from its row and with the validator updates its first staging returned |
| StoreV21Runs.RowsLinked | blockchain/crakbit_chain/external_commit_v21.py:496-542 | each row starts at its predecessor's application hash, the first at that of the base, and the last ends at the current one |
| StoreV21Runs.ValidatorsFollowPlan | blockchain/crakbit_chain/external_commit_v21.py:471-476 | in every reachable state the active set is the one the committed changes plan |
| LedgerV21.CommittableIff | blockchain/crakbit_chain/external_commit_v21.py:225-542 | a sequence of decisions can be committed if and only if each is well put at its height, no transfer has a fault where it stands among all of them, and each validator change is admissible where the plan has come to |
| LedgerV21.AnsweredIff | blockchain/crakbit_chain/external_commit_v21.py:225-370 | in every reachable state a request is answered if and only if it is the committed decision of its height, the staged one, or with none staged any that is well put, without fault and admitted by the validators in force |
| LedgerV21.StageRefusals | blockchain/crakbit_chain/external_commit_v21.py:225-330 | the same for the store with governance |
| LedgerV21.IndexIsExact | blockchain/crakbit_chain/external_commit_v21.py:478-495 | the index holds exactly the committed transfers and changes, each at its height |
| LedgerV21.OnlyOwnersSpend | blockchain/crakbit_chain/external_commit_v21.py:440-464 | nonce and balance are moved by the committed transfers alone; without an authentic one of its own nothing is taken from an account |
| Snapshot.NormalizedAccounts | blockchain/crakbit_chain/external_state_sync.py:27-43 | the first complaint of the loop: malformed address, duplicate, negative row |
| Snapshot.VerifySnapshot | blockchain/crakbit_chain/external_state_sync.py:135-204 | accepts, or returns the first failed check |
| Snapshot.ImportSnapshot | blockchain/crakbit_chain/external_state_sync.py:207-276 | verdict and new tables, with the base record naming height, application hash and artifact hash of the imported envelope; a refusal changes nothing |
| Snapshot.ExportSucceedsIff | blockchain/crakbit_chain/external_state_sync.py:76-120 | given an intact supply, export succeeds exactly if nothing is pending and every account is well formed and not negative |
| Snapshot.VerifiedMeansSound | blockchain/crakbit_chain/external_state_sync.py:135-204 | an accepted snapshot lists well-formed, non-negative accounts holding exactly the genesis supply |
| Snapshot.VerifiesIff | blockchain/crakbit_chain/external_state_sync.py:135-204 | a snapshot is accepted if and only if it is what a store in the state it describes exports, up to the base record, with the hash of its own content |
| Snapshot.ImportIff | blockchain/crakbit_chain/external_state_sync.py:207-276 | an import succeeds if and only if the snapshot is accepted and the database is at genesis, and then holds what the snapshot describes |
| Snapshot.ComplaintMeans | blockchain/crakbit_chain/external_state_sync.py:27-43 | the complaint is that of the first faulty entry: prefix and length of the address, repetition, sign |
| Snapshot.AppHashBindsRestore | blockchain/crakbit_chain/external_state_sync.py:207-276 | two accepted snapshots with one application hash restore the same tables but for the artifact hash in the base record, which is equal exactly for equal snapshots |
| Restore.RoundTrip | blockchain/crakbit_chain/external_state_sync.py:76-292 | whenever export succeeds in a reachable state, verification and import into a fresh store succeed, with the same application hash |
| Restore.RestoreIsBisimulation | blockchain/crakbit_chain/external_state_sync.py:207-292 | from then on original and restored store give identical replies, request hashes and application hashes to every continuation above the base |
| Restore.CopyExportsAnother | blockchain/crakbit_chain/external_state_sync.py:76-132 | a restored copy exports the same application hash as its source but never the same snapshot: its artifact is nested one level deeper, for every state that exports |
| Restore.SameExportIff | blockchain/crakbit_chain/external_commit_v16.py:93-113 | two stores of equal state export the same snapshot if and only if their base records are equal |
| Restore.DepthIsGeneration | blockchain/crakbit_chain/external_state_sync.py:122 | through any number of copies of copies, a snapshot is nested as deep as its exporter is restores away from a fresh directory |
| Restore.VerifyIgnoresMinFee | blockchain/crakbit_chain/genesis.py:88-96 | a snapshot verifies under every genesis that differs only in the minimum fee |
| Restore.MinFeeParts | blockchain/crakbit_chain/genesis.py:88-96 | two stores that differ only there part on a transaction between the two fees |
| SnapshotV21.NormalizeGovernance | blockchain/crakbit_chain/external_state_sync_v21.py:33-75 | accepts exactly the governance states with a valid active set and at most one pending change with a hexadecimal identifier, matching heights and the hash of its target set |
| SnapshotV21.RoundTrip | blockchain/crakbit_chain/external_state_sync_v21.py:118-392 | export, verify and import carry accounts, validator set and pending change over, with the same application hash |
| SnapshotV21.RestoreIsBisimulation | blockchain/crakbit_chain/external_state_sync_v21.py:248-392 | original and restored store answer every continuation above the base alike, validator updates included |
| SnapshotV21.ExportSucceedsIff | blockchain/crakbit_chain/external_state_sync_v21.py:118-177 | in a reachable state export succeeds exactly if nothing is pending and every account is well formed and not negative; the governance part never refuses |
| SnapshotV21.CopyExportsAnother | blockchain/crakbit_chain/external_state_sync_v21.py:118-177 | here too a restored copy never exports the snapshot it came from |
| SnapshotV21.NormalIff | blockchain/crakbit_chain/external_state_sync_v21.py:33-75 | the exact conditions on members and the waiting change |
| SnapshotV21.OpensIff | blockchain/crakbit_chain/external_commit_v16.py:50-91 | with rows only where they belong, a database opens exactly if each height above the base has its row and there is a validator |
| SnapshotV21.VerifiesIff | blockchain/crakbit_chain/external_state_sync_v21.py:177-246 | a snapshot is accepted if and only if it is what a store in the state it describes exports, up to the base record |
| SnapshotV21.ImportIff | blockchain/crakbit_chain/external_state_sync_v21.py:248-392 | an import succeeds if and only if the snapshot is accepted and the database is at genesis, validators included |
| StateSync.CutPayload | blockchain/crakbit_chain/comet_state_sync.py:118-123 | the offset loop returns the recursive cut |
| StateSync.CutJoin | blockchain/crakbit_chain/comet_state_sync.py:118-123 | joining the chunks gives the payload back, and no chunk too many was cut |
| StateSync.CometStateSyncManager.OfferSnapshot | blockchain/crakbit_chain/comet_state_sync.py:246-303 | verdict of the checks in order; an accepted offer clears the chunk files and starts an empty session |
| StateSync.CometStateSyncManager.ApplySnapshotChunk | blockchain/crakbit_chain/comet_state_sync.py:305-376 | result and new files, session and tables for every branch |
| StateSyncRuns.ReceivedIsStored | blockchain/crakbit_chain/comet_state_sync.py:321-333 | over every run without a crash inside an offer, every index marked received has a stored chunk with the offered hash |
| StateSyncRuns.CrashedOfferStored | blockchain/crakbit_chain/comet_state_sync.py:286-302 | a crash inside an accepted offer keeps that exactly if no file of a received chunk was cleared yet |
| StateSyncRuns.NothingForgedIsRestored | blockchain/crakbit_chain/comet_state_sync.py:334-360 | under any chunks from anyone and any crashes, the ledger is untouched or is the restored copy of a state whose application hash was vouched for |
| StateSyncRuns.PublishesIff | blockchain/crakbit_chain/comet_state_sync.py:107-150 | a reachable state is published exactly if it exports, its height is positive and the payload is within 512 MiB; the publisher's own verification never fails |
| StateSyncRuns.OfferAcceptedIff | blockchain/crakbit_chain/comet_state_sync.py:214-303 | a published snapshot is accepted exactly by a pristine store, and only up to 10000 chunks and 4 MiB of metadata; what either answer leaves |
| StateSyncRuns.OfferAnswers | blockchain/crakbit_chain/comet_state_sync.py:246-303 | the exact condition of each verdict on any offer |
| StateSyncRuns.ChunkAnswers | blockchain/crakbit_chain/comet_state_sync.py:305-333 | in every run, by the hashes offered: retry if and only if the index is in range and the chunk has another hash, rejection out of range, acceptance while another index is missing, abort without a session |
| StateSyncRuns.DeliverOne | blockchain/crakbit_chain/comet_state_sync.py:305-376 | a chunk that is not intact changes nothing; an intact one is marked and stored, and once all are marked the restore completes if every file is there and is refused otherwise |
| StateSyncRuns.RunHolds | blockchain/crakbit_chain/comet_state_sync.py:246-376 | in every run of offers of this and other snapshots, corrupt and repeated chunks and crashes at any write, the accepted offers and intact chunks alone tell marks, files and ledger; the restore completes exactly when all indices are marked and all files held |
| StateSyncRuns.TransferCompletes | blockchain/crakbit_chain/comet_state_sync.py:305-376 | after an accepted offer, under any order, duplication, corruption and crashes, the receiver holds the source state if each chunk arrived intact without a crash, and an untouched ledger if some chunk never arrived intact; without crashes these two cover all cases |
| StateSyncRuns.SyncedAnswersAlike | blockchain/crakbit_chain/comet_state_sync.py:107-376 | a node of any lineage of copies publishes, a fresh node receives all chunks; from then on both answer every operation above the base alike, for every continuation |
| Archive.VerifyHistoryArchive | blockchain/crakbit_chain/history_archive.py:70-166 | accepts exactly the archives whose manifest fits and whose blocks replay from genesis |
| Archive.AcceptedIff | blockchain/crakbit_chain/history_archive.py:70-166 | an archive is accepted if and only if its manifest is the one an exporter writes, its hash fields are right and its blocks replay |
| Archive.SameTipSameHistory | blockchain/crakbit_chain/history_archive.py:149-166 | two accepted archives with one tip hash hold the same headers and replay to the same state |
| Archive.PrefixAccepted | blockchain/crakbit_chain/history_archive.py:186-199 | every prefix of an accepted archive is accepted with a rebuilt manifest |
| Archive.AcceptedConserves | blockchain/crakbit_chain/history_archive.py:127-142 | an accepted archive accounts for the genesis supply and repeats no transaction |
| Archive.ExportHistoryArchive | blockchain/crakbit_chain/history_archive.py:169-207 | exports exactly for a height in the local range with every block from 1 up to it present and verifying |
| Archive.HonestHistoryExports | blockchain/crakbit_chain/history_archive.py:169-207 | in every run an honest validator's history exports at every finalized height, and its whole chain replays to its accounts |
| Archive.HonestArchivesAgree | blockchain/crakbit_chain/history_archive.py:169-207 | the archives of two honest validators at one height have the same tip |
| Backfill.RestoredLedger.ImportHistoryArchive | blockchain/crakbit_chain/history_archive.py:210-289 | reply and new tables; writes only blocks, transaction index and import markers, never accounts, height or tip |
| Backfill.ImportMeans | blockchain/crakbit_chain/history_archive.py:236-272 | an import succeeds exactly if no stored row contradicts the archive; it keeps every stored row, adds the missing ones up to the base and counts them |
| Backfill.ToInsertIff | blockchain/crakbit_chain/history_archive.py:210-234 | an import gets as far as the tables exactly for an accepted archive that reaches the base of a restored node with its hash there |
| Backfill.IndexMeans | blockchain/crakbit_chain/history_archive.py:252-267 | the index of a chain says of each transaction exactly the height of its block |
| Backfill.ImportIsIdempotent | blockchain/crakbit_chain/history_archive.py:236-272 | importing any accepted archive of the same history again inserts nothing |
| Backfill.ImportEnablesExport | blockchain/crakbit_chain/history_archive.py:180-199 | a restored node refuses every archive export up to its base before the import, and exports verifiable archives at each of these heights after it |
| Backfill.BaseZeroChecksTip | blockchain/crakbit_chain/history_archive.py:228-231 | a base height of 0 compares the base hash with the tip of the archive, and inserts nothing |
| Explorer.ExternalExplorerIndex.SyncFromSource | blockchain/crakbit_chain/explorer_index.py:120-249 | the new index, for reads that each see their own prefix of the source |
| Explorer.TablesAreImage | blockchain/crakbit_chain/explorer_index.py:147-219 | over every run, overlapping syncs included, the tables are the image of a source prefix at least as long as the indexed height |
| Explorer.ImageMeans | blockchain/crakbit_chain/explorer_index.py:147-219 | an image shows every transaction of the indexed commits as it is, at its height, in and out rows under its parties, and holds nothing else |
| Explorer.HeightMayStepBack | blockchain/crakbit_chain/explorer_index.py:138-150 | a sync that read the height early and got the lock late lowers the indexed height |
| Explorer.EqualsRebuildIff | blockchain/crakbit_chain/explorer_reconcile.py:56-97 | the index equals a clean rebuild exactly if its last sync read height and rows at that point and hash and accounts agree |
| Explorer.UndisturbedSyncRebuilds | blockchain/crakbit_chain/explorer_index.py:120-249 | one undisturbed sync makes every table and all metadata equal to a clean rebuild |
| Explorer.Reconcile | blockchain/crakbit_chain/explorer_reconcile.py:75-105 | refused exactly if the rebuild breaks the genesis supply; otherwise exactly the parts that differ, none if and only if the index equals the rebuild |
| Explorer.UndisturbedReconciles | blockchain/crakbit_chain/explorer_reconcile.py:70-105 | over a source that keeps the genesis supply, an undisturbed sync leaves an index that equals the rebuild and passes the supply check |
| Mining.NoNonceTwice | blockchain/crakbit_chain/mining_v33.py:70-97 | under every interleaving no nonce is hashed twice, the counts add up to the nonces tried, and a winner meets the target and differs from the template only in its nonce |
| Mining.NoResultMeansNone | blockchain/crakbit_chain/mining_v33.py:70-97 | if all workers finish without a winner, every nonce from the start up fails, or with a limit every one of the first limit times threads |
| Mining.LimitKept | blockchain/crakbit_chain/mining_v33.py:42-97 | a search starts exactly for permitted parameters, and no worker hashes more often than its limit |
| Limits.FixedWindowLimiter.AllowCall | blockchain/crakbit_chain/limits.py:59-69 | answer and new entries |
| Limits.DurableFixedWindowLimiter.AllowCall | blockchain/crakbit_chain/durable_limits.py:68-104 | answer and new rows, under the client key |
| Limits.DurableFixedWindowLimiter.Prune | blockchain/crakbit_chain/durable_limits.py:106-117 | drops exactly the rows of windows before the cutoff and counts them |
| Limits.GrantedIff | blockchain/crakbit_chain/limits.py:59-69 | with a clock that does not go back, a request is granted exactly if fewer than the limit came before it from its key in its window |
| Limits.WindowIff | blockchain/crakbit_chain/limits.py:61 | a moment is in window k if and only if it is from k up to k + 1 window lengths |
| Limits.GrantedInInterval | blockchain/crakbit_chain/limits.py:59-69 | a request is granted if and only if fewer than the limit were made by its key before it in the interval of the clock it falls into |
| Limits.FreshIntervalGrants | blockchain/crakbit_chain/limits.py:59-69 | the first request of a key in an interval is always granted |
| Limits.DurableGrantedInInterval | blockchain/crakbit_chain/durable_limits.py:68-104 | the same for the durable limiter, under client keys and with prunes anywhere |
| Limits.PrunedIff | blockchain/crakbit_chain/durable_limits.py:106-117 | a prune drops exactly the rows whose window ended more than `keep` windows ago |
| Limits.ClientKeyMeans | blockchain/crakbit_chain/durable_limits.py:72 | the client key is the text cut after 256 characters, or `unknown` for none |
| Limits.GrantsPerWindow | blockchain/crakbit_chain/limits.py:59-69 | each key gets exactly its first `limit` requests of a window |
| Limits.AtMostTwiceTheLimit | blockchain/crakbit_chain/limits.py:59-69 | at most twice the limit in any closed interval as long as the window |
| Limits.DurableAnswersAlike | blockchain/crakbit_chain/durable_limits.py:68-117 | with prunes anywhere the durable limiter answers as the in-memory one does under the client keys |
| Limits.OwnClientKeyIff | blockchain/crakbit_chain/durable_limits.py:72 | a key is its own client key exactly if it is not empty and not longer than 256 characters |
| PeerAuth.ReplayNonceStore.CheckAndRecord | blockchain/crakbit_chain/peer_auth.py:95-121 | records a new key after pruning; a replay rolls the pruning back |
| PeerAuth.PeerAuthenticator.VerifyRequest | blockchain/crakbit_chain/peer_auth.py:165-217 | the first failed check or acceptance, and the new cache of whichever backend is used |
| PeerAuth.AtMostOnceIff | blockchain/crakbit_chain/peer_auth.py:159-217 | with a clock that does not go back every request is accepted at most once if and only if the retention is at least twice the skew |
| PeerAuth.AcceptedIff | blockchain/crakbit_chain/peer_auth.py:165-217 | with a clock that does not go back, a request is accepted if and only if it is fresh, has a nonce of 16 to 128 characters, comes from a configured validator who signed it, and none with its validator and nonce was accepted within the retention |
| PeerAuth.RefusalsMean | blockchain/crakbit_chain/peer_auth.py:165-217 | the exact condition of each complaint |
| PeerAuth.BackendsAnswerAlike | blockchain/crakbit_chain/peer_auth.py:95-121 | both backends then answer every call alike |
| PeerAuth.ClockBackParts | blockchain/crakbit_chain/peer_auth.py:95-121 | a family of calls on which they part although the clock goes back by one millisecond only |
| PeerAuth.BackendsNeedMonotone | blockchain/crakbit_chain/peer_auth.py:95-121 | every validator can sign such calls, for every skew of at least a millisecond |
| PeerAuth.RestartForgets | blockchain/crakbit_chain/peer_auth.py:123-164 | after a restart, what was accepted is accepted again by the in-memory cache as long as its timestamp is fresh, and never by the database |
| Checkpoint.BuildMonitorCheckpoint | blockchain/crakbit_chain/operations_v30.py:317-406 | accepts exactly the consistent batches that continue the previous checkpoint, and summarises them |
| Checkpoint.AcceptsIff | blockchain/crakbit_chain/operations_v30.py:317-365 | the exact conditions on samples, parameters and predecessor |
| Checkpoint.CompleteIff | blockchain/crakbit_chain/operations_v30.py:374-380 | complete if and only if the session spans the target in milliseconds and enough of its samples satisfied their gate |
| Checkpoint.SummaryMeans | blockchain/crakbit_chain/operations_v30.py:367-380 | the counts, times and identity of the summary |
| Checkpoint.ChainIsOneShot | blockchain/crakbit_chain/operations_v30.py:317-406 | any split into non-empty batches is accepted exactly when the one-shot checkpoint is, with the same counts, times, head and verdict |
| Checkpoint.HeadBinds | blockchain/crakbit_chain/operations_v30.py:367-372 | two sessions with one hash-chain head saw the same sample hashes in the same order |

## Left out

- Parsing: JSON, base64, hexadecimal and type errors in request bodies; values arrive parsed. Unicode case rules beyond ASCII.
- Ed25519, SHA-256, SQLite and file-system internals. A single file is written entirely or not at all.
- Public keys: folded into the authenticity of a message and, for validators, into the address they derive. Names of genesis validators.
- Concurrency between handlers of one node: each vote handler, and each staging or commit, is one atomic step (with crashes inside); the replay wrapper is one step too.
- Liveness beyond one round (`Progress.RoundFinalizes`). Block hashes include the round and locks are never released, so a locked height can stall.
- Events, evidence rows, peer health, timestamps of rows, status dictionaries, preview and check-only calls.
- Consensus.ValidatorNode.ApplyBlock: the rows of a validator's transaction index are not part of its state; a block of a replayed chain never repeats a transaction (`Chain.ReplayNoRepeat`), so their uniqueness constraint never fires.
- Rounds.RoundsAreEarned: stated for runs whose endings are harmless, because it is false without that; `Rounds.DisciplinedRunIff` gives both directions.
- Execution.BatchOrderIndependent: needs a minimum fee that is not negative; `Execution.NegativeFeeBreaksBatch` shows that it fails for every negative one.
- Row order in listings and sorted lists: tables are maps, and hashes of sorted lists are hashes of maps.
- The `transaction_root` column of the v0.21 rows, a function of the items.
- Display fields of snapshots (export time, trust model, status texts).
- `blockchain/crakbit_chain/comet_state_sync_v21.py`: the same receiver over the v0.21 verify and import, which are modelled in `SnapshotV21`.
- Serving chunks to peers (`load_chunk`, `list_snapshots`) and choosing among published snapshots.
- The letter case of offered chunk hashes.
- Mining: wall-clock time, thread pools, RPC submission.
- Floating point: clocks, ratios and durations are real numbers.
- Fork choice, proof-of-work chain rules, pools, wallets, faucet, web, command lines, HTTP services, the Go bridge, evidence and gate builders.
