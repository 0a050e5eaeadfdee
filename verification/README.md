# Ivory ledger: a verified model

Ivory is a proof-of-authority ledger: blocks of signed transactions change account balances,
nonces and contract storage; a Patricia trie commits to the state; a block store picks a head;
a node imports, prunes, persists and restarts. This project models that core in Dafny and proves
what it is for: proofs that cannot lie, a state root that binds, a head that does not depend on
arrival order, snapshots that equal replay, value that is conserved, and a restart that loses nothing.

`dafny verify dfyconfig.toml` checks every file.

| module | models |
|---|---|
| `Primitives`, `Ledger` | bounded numbers, byte strings, transactions, blocks, accounts, and `Env` |
| `Trie` | the hexary Patricia trie, its proofs and its verifier |
| `State` | the account and storage maps, incremental storage roots, the state root, snapshots |
| `Light` | what proofs of accounts and slots tell a client that holds only a state root |
| `Execution` | gas, transaction execution, whole blocks and chains |
| `Effects` | what a transaction changes, field by field, and exactly when it succeeds |
| `Store` | the block tree, fork choice, height and transaction indexes, pruning |
| `Pool` | mempool admission, removal and counters |
| `Import` | block import, runs of imports and prunes, the mempool at a head change |
| `Commitment` | what every stored block was checked for, over whole runs |
| `Readmission` | which transactions of a dropped fork return to the mempool |
| `Sync` | a node with an orphan buffer |
| `Producer` | building and sealing a block |
| `Persist` | the key-value layout on disk, writing and reading a chain |
| `Durable` | a node that persists after every import and can restart at any point |
| `Bits`, `Uint` | 256-bit arithmetic on four 64-bit limbs |
| `Codec` | the Python client's byte formats |

## Reading the statements

- Digests, encodings, signatures, seals and the contract interpreter are fields of the record `Env`
  (and of `DiskCodec` and `TextCodec`), so every result holds for all of them. Where a result needs
  decoding to invert encoding, it says so (`Faithful`).
- No digest is assumed injective. A result that rests on one reads "this holds, or here are two
  different byte strings with the same digest", and says where the two strings come from. A restart
  instead asks that no two different accepted blocks of the run share a hash.
- Objects the source updates in place are classes. Each method is tied to a function on plain values
  (`World`, `View`, `Mempool`, `Db`), and the theorems are about those values.
- The contract interpreter is an arbitrary function from the callee's address, code and storage, gas and
  input to a list of storage writes and an ending; a trap keeps the writes made before it.
- Hash maps iterate in any order, and the proofs hold for each.

Where the code and docs/protocol.md disagree, the code is followed. Line 72 says that transactions of
a dropped fork return to the pool. `Readmission.ReorgReturns` gives the exact condition: one that was
not pending returns exactly when the dropped transactions of its sender hold every nonce from the
pool's next one up to its own. It stays out when the tracker has passed it, because removal never
rewinds the tracker (`Pool.NeverReadmitted`), and also when the tracker is behind, because the pool
never saw the nonces in between (`Readmission.GapStaysOut`).

`execute_transaction` does not undo what it wrote when a contract traps. `Execution.FailureAtomicity`
says on the state before the call exactly when a failure leaves a trace, and
`Producer.ProducerAgreement` that this is exactly when a produced block can fail to replay.

## Model

| member | source | states |
|---|---|---|
| Trie.ToNibbles | crates/ivory-state/src/trie.rs:270-277 | two nibbles per byte, high one first |
| Trie.NibblesInvert | crates/ivory-state/src/trie.rs:270-277 | the nibbles determine the bytes |
| Trie.NibblesAt | crates/ivory-state/src/trie.rs:270-277 | the nibbles of byte i stand at 2i and 2i + 1, the high one first |
| Trie.CommonPrefixLen | crates/ivory-state/src/trie.rs:279-293 | the loop finds the longest prefix common to all keys |
| Trie.StoreTree | crates/ivory-state/src/trie.rs:221-223 | the recursive builder terminates, returns the root of the map its items denote, and appends that trie's nodes in an order that depends on the map alone |
| Trie.BuildNodeCollected | crates/ivory-state/src/trie.rs:225-268 | the top node and every node below it, for empty, single, shared-prefix and branching item lists |
| Trie.PatriciaNodes | crates/ivory-state/src/trie.rs:41-54 | root and node list, order included, depend only on the last-wins map of the pairs, not on their order or duplicates |
| Trie.NodeListCovers | crates/ivory-state/src/trie.rs:225-268 | the emitted list holds exactly the nodes of the trie |
| Trie.LastPairWins | crates/ivory-state/src/trie.rs:31-34 | the map a pair list denotes keeps, for each key, the value of its last occurrence |
| Trie.Verify | crates/ivory-state/src/trie.rs:134-207 | the loop over proof nodes computes the recursive specification, error cases included |
| Trie.Sound | crates/ivory-state/src/trie.rs:134-207 | any accepted list of byte strings gives the true lookup, or one of them collides with a node of the trie |
| Trie.ProofSoundness | crates/ivory-state/src/trie.rs:134-207 | the same against the root of an arbitrary pair list: presence with the last value, or true absence |
| Trie.ExactLength | crates/ivory-state/src/trie.rs:134-207 | an accepted proof with nodes added at the end, or any proper prefix of it, is refused as incomplete |
| Trie.PathProofVerifies | crates/ivory-state/src/trie.rs:81-127 | the honest path proof is accepted with the true lookup, present or absent |
| Trie.Prove | crates/ivory-state/src/trie.rs:83-127 | the walk returns the root, a node list that `verify` accepts, and the value it then reports, which is the last-wins lookup unless two stored nodes collide |
| Trie.RootBinding | crates/ivory-state/src/trie.rs:225-268 | tries with equal roots hold equal maps, or two of their nodes collide |
| Trie.PatriciaRootBinding | crates/ivory-state/src/trie.rs:31-37 | roots are equal iff the byte-key maps are equal, up to a collision between the two tries |
| State.WithAccountSynced | crates/ivory-state/src/state.rs:79-82 | setting an account keeps every storage root equal to the from-scratch trie root |
| State.WithStorageSynced | crates/ivory-state/src/state.rs:95-105 | so does setting a slot, and an address whose storage root is not zero always has an account |
| State.SyncAllNoop | crates/ivory-state/src/state.rs:260-267 | on such states recomputing all storage roots changes nothing |
| State.StorageWritten | crates/ivory-state/src/state.rs:95-105 | a slot write changes that slot alone, to the value written; code, balances, nonces and code hashes stay |
| State.AccountWritten | crates/ivory-state/src/state.rs:79-82 | an account write changes that account alone, to the fields written; storage and code stay |
| State.SyncAllSynced | crates/ivory-state/src/state.rs:260-267 | recomputing all roots makes every one of them right and touches nothing else |
| State.RootHashBinding | crates/ivory-state/src/state.rs:126-138 | equal state roots iff equal non-empty accounts and storage, up to a named hash failure |
| State.StateDB.Fork | crates/ivory-state/src/state.rs:55-61 | a separate object with the same contents |
| State.StateDB.ResetFrom | crates/ivory-state/src/state.rs:66-70 | the live handle takes over the snapshot's contents |
| State.StateDB.SetAccount | crates/ivory-state/src/state.rs:79-82 | the account is stored with its storage root refreshed |
| State.StateDB.SetStorage | crates/ivory-state/src/state.rs:95-105 | the slot then reads the value and every other slot reads as before; code and all other account fields stay; the owner's storage root is refreshed, creating the account if missing |
| State.StateDB.ComputeStorageRoot | crates/ivory-state/src/state.rs:234-246 | zero for no non-zero slots, otherwise the trie root of the non-zero slots |
| State.StateDB.SyncAllStorageRoots | crates/ivory-state/src/state.rs:260-267 | every owner of storage ends with its from-scratch root, in any iteration order |
| State.StateDB.ComputeRootHash | crates/ivory-state/src/state.rs:126-138 | the loop over accounts yields the trie root of the non-empty accounts |
| State.StateDB.TrieNodes | crates/ivory-state/src/state.rs:142-154 | the encoded nodes of the account trie, in the builder's order, each under its digest |
| State.StateDB.AccountProof | crates/ivory-state/src/state.rs:156-160 | a proof against the state root that `verify` accepts, with the account's bytes or absence unless two of its nodes collide |
| State.StateDB.StorageProof | crates/ivory-state/src/state.rs:162-166 | the same for a slot; its root is the one the account records, except that an account without storage records zero |
| Light.ProvedAccount | crates/ivory-rpc/src/handler.rs:130-138 | whatever nodes are offered, an accepted answer about an address is its account in the state with that root, or true absence, or a node collides |
| Light.ProvedSlot | crates/ivory-rpc/src/handler.rs:139-150 | the same for a slot against the storage root of an address with storage |
| Light.ProvedState | crates/ivory-rpc/src/handler.rs:130-160 | from the state root alone an account proof fixes every field of the account, and a proof against the storage root found in it fixes the slot |
| Light.ProvedNoStorage | crates/ivory-rpc/src/handler.rs:130-160 | a proof of absence, or of an account with the zero storage root, shows that every slot is zero, or a node collides or hashes to zero |
| State.StateDB.ToSnapshot | crates/ivory-state/src/state.rs:170-191 | listing the three maps loses nothing: reading the lists back gives the same state |
| State.StateDB.Restore | crates/ivory-state/src/state.rs:195-205 | the state a snapshot denotes |
| Execution.GasMeter.Spend | crates/ivory-executor/src/gas.rs:73-80 | spends or refuses, never below zero |
| Execution.Executor.ExecuteTransaction | crates/ivory-executor/src/executor.rs:62-162 | the step-by-step execution equals `Execute` in state, block gas, receipt and every error; the `Effects` rows say what that is, field by field |
| Execution.Executor.ExecuteCall | crates/ivory-executor/src/call.rs:99-126 | a call runs the callee's code on the callee's storage only; creation and empty code run nothing |
| Execution.ExecuteConserves | crates/ivory-executor/src/executor.rs:76-146 | total balance falls by exactly gas used times gas price, self-transfers and creation included |
| Execution.ExecuteNonceAndGas | crates/ivory-executor/src/executor.rs:67-149 | the nonce matched and only the sender's rises, by one; gas lies between intrinsic cost and limit, block gas within the cap |
| Execution.ExecuteSynced | crates/ivory-executor/src/executor.rs:104-146 | execution, failed or not, leaves every storage root right |
| Effects.ExecuteBalances | crates/ivory-executor/src/executor.rs:76-146 | on success the recipient, or the created address, gains the value, the sender loses it and the price of the gas used, a self-transfer costs the fee alone, and no other balance changes |
| Effects.CreationEffect | crates/ivory-executor/src/executor.rs:115-127 | creation puts the data as code, with its digest, at the address derived from sender and nonce, changes no other code and no storage, and succeeds without logs at intrinsic cost |
| Effects.CallEffect | crates/ivory-executor/src/executor.rs:129-158 | a call changes storage only at the recipient, each slot to its last write, and the receipt carries the interpreter's status, logs and gas; without code nothing runs |
| Effects.WrittenSlots | crates/ivory-executor/src/call.rs:99-126 | after a list of writes each slot of the callee reads its last write or what it read before, and nothing else changes |
| Effects.IntrinsicExact | crates/ivory-executor/src/gas.rs:84-93 | base cost plus cost per data byte, capped at the largest 64-bit number |
| Effects.DebitIff | crates/ivory-executor/src/executor.rs:67-104 | the checks before the first write pass iff nonce, gas limit, balance and block gas allow it, on the fields |
| Effects.DebitReasons | crates/ivory-executor/src/executor.rs:67-104 | otherwise the error names the first check that fails |
| Effects.ExecuteSucceeds | crates/ivory-executor/src/executor.rs:62-162 | with a supply below 2^256 a transaction succeeds iff those checks pass and its recipient's code does not trap |
| Execution.FailureAtomicity | crates/ivory-executor/src/executor.rs:67-146 | with a supply below 2^256 a transaction fails iff a check before the first write refuses it or its recipient's code traps, and fails with a changed state iff that code traps |
| Execution.ChainConserves | crates/ivory-chain/src/apply.rs:30-35 | along any executed chain final balances plus all fees equal the starting total |
| Execution.ChainNonces | crates/ivory-chain/src/apply.rs:30-35 | the k-th transaction of each sender has its starting nonce plus k, and final nonces count them |
| Execution.ChainNoncesDistinct | crates/ivory-executor/src/executor.rs:69-74 | no sender uses a nonce twice on one chain |
| Store.InsertedInv | crates/ivory-chain/src/store.rs:253-349 | every insertion keeps the invariant: the head is the best block, the height index is its parent walk, the transaction index is sound and complete for it |
| Store.HeadRule | crates/ivory-chain/src/store.rs:306-326 | no stored block is higher than the head, and none as high has a smaller hash |
| Store.HeightRule | crates/ivory-chain/src/store.rs:328-349 | the height index has one stored block of each height up to the head's, each the parent of the next, the head last |
| Store.AcceptedIff | crates/ivory-chain/src/store.rs:203-222 | a block is accepted iff it is new, its parent is stored, its number is the next, a validator sealed it no earlier than the parent, its gas is within the limit and both list roots and lengths match |
| Store.InsertReason | crates/ivory-core/src/block.rs:187-201 | otherwise the error names the first of these that fails |
| Store.GenesisIff | crates/ivory-chain/src/store.rs:186-193 | the same for genesis: number and parent hash zero |
| Store.BareHeaderIff | crates/ivory-chain/src/store.rs:230-251 | the same for a bare header, without the body |
| Store.OutcomeRule | crates/ivory-chain/src/store.rs:253-279 | an insertion adds exactly the block, reports old and new head as they are, and a change iff they differ |
| Store.BestUnique | crates/ivory-chain/src/store.rs:306-326 | greater height, then smaller hash, determines one block |
| Store.DroppedInv | crates/ivory-chain/src/store.rs:111-122 | dropping bodies below a height keeps the whole invariant |
| Store.HeightCap | crates/ivory-chain/src/store.rs:203-222 | an accepted block keeps the parent walk linked iff its parent is below the largest 64-bit height |
| Store.Convergence | crates/ivory-chain/src/store.rs:203-349 | all parents-first orders of the same blocks are accepted and give the same blocks, head, height index and transaction index |
| Store.AncestorIsForkPoint | crates/ivory-chain/src/store.rs:173-179 | with one genesis the reported ancestor is the highest common block; the walks agree up to it and differ right above |
| Store.AncestorOfForeignChain | crates/ivory-chain/src/store.rs:253-279 | without a common genesis the report falls back to the new block |
| Store.ReorgReport | crates/ivory-chain/src/store.rs:253-279 | when the head moves, height entries up to the reported ancestor are unchanged and the next one is new or different |
| Store.BlockStore.ChainFrom | crates/ivory-chain/src/store.rs:153-169 | the parent-walk loop returns the walk from height zero to the tip, and nothing for an unknown tip |
| Store.BlockStore.CommonAncestor | crates/ivory-chain/src/store.rs:173-179 | the last block of the second walk that is on the first; none for unknown tips |
| Store.BlockStore.InsertGenesis | crates/ivory-chain/src/store.rs:186-193 | refuses for exactly the specified reason and changes nothing, or becomes the specified store |
| Store.BlockStore.InsertBlock | crates/ivory-chain/src/store.rs:203-222 | accepted iff the conditions on the fields hold; refuses for exactly the specified reason and changes nothing, or becomes the specified store; number zero goes to genesis |
| Store.BlockStore.InsertHeader | crates/ivory-chain/src/store.rs:230-251 | the same for a bare header, with its own exact reasons |
| Store.BlockStore.InsertValidated | crates/ivory-chain/src/store.rs:253-279 | new store and reported outcome, or duplicate and no change |
| Store.BlockStore.MaybeUpdateCanonical | crates/ivory-chain/src/store.rs:306-326 | the head and height index follow the new block iff it beats the head |
| Store.BlockStore.RebuildCanonical | crates/ivory-chain/src/store.rs:328-349 | the height index becomes exactly the walk to the tip |
| Store.BlockStore.RebuildTxIndex | crates/ivory-chain/src/store.rs:281-304 | the index becomes that of all transactions on the walk, later entries winning; empty without a head |
| Store.BlockStore.GetTransaction | crates/ivory-chain/src/store.rs:92-97 | only ever a transaction with that hash at its stated canonical place, and every one in a retained canonical body is found |
| Store.BlockStore.DropBodiesBelow | crates/ivory-chain/src/store.rs:111-122 | clears exactly the bodies below the height, nothing in archive mode |
| Store.BlockStore.PruneSnapshots | crates/ivory-chain/src/store.rs:125-131 | exactly the snapshots on the head's walk remain |
| Store.BlockStore.PruneSnapshotsKeep | crates/ivory-chain/src/store.rs:134-149 | bodies and canonical snapshots of the last `keep` heights remain |
| Store.PruneRule | crates/ivory-chain/src/store.rs:111-149 | in plain numbers: a snapshot stays iff the height index names its block and, with a window, the block is among the last `keep` heights; exactly the bodies below are cleared |
| Pool.RunInv | crates/ivory-txpool/src/pool.rs:101-204 | after any run of operations counters count, both caps hold, every pending transaction has a good signature and the minimum gas, and a sender's pending nonces are distinct and below the next one |
| Pool.AdmissionIff | crates/ivory-txpool/src/pool.rs:101-143 | a transaction is admitted iff it has the minimum gas, a good signature, a new hash, room under both caps and exactly the next nonce |
| Pool.RefusalReason | crates/ivory-txpool/src/pool.rs:101-143 | otherwise the error names the first of these that fails |
| Pool.NeverReadmitted | crates/ivory-txpool/src/pool.rs:131-143 | a transaction once admitted is refused ever after, short of a full clear |
| Pool.DroppedTransactionRefused | crates/ivory-txpool/src/pool.rs:180-191 | admitted, removed and offered again it is refused with the nonce error |
| Pool.TransactionPool.AddTransaction | crates/ivory-txpool/src/pool.rs:101-158 | admitted iff those conditions hold on the fields; then exactly this entry is added and the sender's next nonce moves on by one; a refusal changes nothing and is the specified one |
| Pool.TransactionPool.RemovePending | crates/ivory-txpool/src/pool.rs:180-191 | the entry and its count go, the nonce tracker stays |
| Pool.TransactionPool.ClearAll | crates/ivory-txpool/src/pool.rs:194-204 | pending entries and counts go, nonce trackers only on a full clear |
| Pool.TransactionPool.GetPending | crates/ivory-txpool/src/pool.rs:162-177 | at most `max` distinct pending transactions, in any order |
| Import.ReplayIsChain | crates/ivory-chain/src/apply.rs:26-35 | replay along parents is the execution of the chain of bodies |
| Import.ImportedInv | crates/ivory-chain/src/apply.rs:20-45 | an accepted import keeps: snapshots are replays, roots are the headers', live state is the head's |
| Import.PrunedInv | crates/ivory-chain/src/store.rs:125-131 | dropping off-path snapshots keeps it |
| Import.PrunedKeepInv | crates/ivory-chain/src/store.rs:134-149 | dropping bodies and snapshots below the window keeps it |
| Import.SnapshotsRefineReplay | crates/ivory-chain/src/apply.rs:20-70 | after any run of imports and prunes from genesis every snapshot is the replay of its walk with the claimed root, and live state is the head's replay |
| Commitment.ImportedIff | crates/ivory-chain/src/apply.rs:20-45 | a block is imported iff its parent's state is recorded, its transactions execute there to the root in its header, and the store's conditions on its fields hold |
| Commitment.StoredBodiesCommitted | crates/ivory-chain/src/store.rs:203-222 | over any run of imports and prunes every stored block was sealed by a validator, is no older than its parent and within its gas limit, and its body has the two roots in its header or was dropped altogether |
| Import.ImportedChainAccounts | crates/ivory-chain/src/apply.rs:30-45 | conservation and nonce sequencing for every block ever imported |
| Import.NoLateOverflow | crates/ivory-executor/src/executor.rs:106-146 | with a genesis supply below 2^256 no transaction, at any position of a list executed on any imported block, takes an overflow exit after its first write |
| Import.NothingOnPathPending | crates/ivory-chain/src/apply.rs:56-69 | after a head change no transaction of a retained body on the new path is pending |
| Import.TxsOnPath | crates/ivory-chain/src/apply.rs:72-80 | the transactions of all stored bodies on the walk, in order; none for an unknown tip |
| Import.ApplyHeadChange | crates/ivory-chain/src/apply.rs:47-70 | live state becomes the new head's snapshot; stale transactions are offered, included ones removed |
| Import.ImportAndApply | crates/ivory-chain/src/apply.rs:20-45 | refusal for exactly the specified reason with store, live state and pool untouched, or the specified result for all three |
| Readmission.DroppedReturns | crates/ivory-chain/src/apply.rs:56-66 | after the old path is offered again an off-path transaction is pending iff it was before or the off-path nonces of its sender reach without a gap from the tracker to it |
| Readmission.DroppedRunReturns | crates/ivory-chain/src/apply.rs:56-66 | where those nonces run from a base it returns iff the tracker is neither below the base nor above its nonce |
| Readmission.GapStaysOut | crates/ivory-txpool/src/pool.rs:138-143 | a transaction the pool never admitted is refused too when earlier nonces are missing |
| Readmission.WalkUsed | crates/ivory-chain/src/apply.rs:72-80 | along every walk a sender's nonces rise and lie below its nonce in the final state |
| Readmission.ReorgReturns | crates/ivory-chain/src/apply.rs:47-70 | the same condition for the pool after the whole head change |
| Readmission.ReorgReturnsOnRuns | crates/ivory-chain/src/apply.rs:47-70 | it holds for any two blocks of the store after any run of imports and prunes |
| Sync.Node.ImportBlock | bin/ivory/src/node.rs:461-519 | recursive orphan resolution terminates and keeps the invariant; on any tree of blocks it offers every buffered child of what it imports, so none stays buffered whose parent's state is recorded; along a valid chain it advances through every buffered successor |
| Sync.Node.DeliverAny | bin/ivory/src/node.rs:461-519 | after blocks of any kind in any order, forks included, no buffered block has its parent's state recorded |
| Sync.Node.PruneStore | bin/ivory/src/node.rs:430-436 | prunes by the archive policy and keeps the invariant |
| Sync.Node.Deliver | bin/ivory/src/node.rs:461-519 | blocks of a valid chain in any order, with repetitions, end at the tip with the fully executed state; the orphan buffer is then empty, or in pruning mode holds only blocks delivered again below the window |
| Sync.SyncFromGenesis | bin/ivory/src/node.rs:461-519 | the same for a node that starts from genesis, under either archive policy |
| Producer.ProducerAgreement | crates/ivory-chain/src/producer.rs:76-92 | re-executing only the included transactions reaches the producer's state and gas iff no candidate's recipient code traps at its turn |
| Producer.ProduceTrace | crates/ivory-chain/src/producer.rs:76-92 | the batch is the trace of executing the candidates in turn, each on the state and gas the ones before left: exactly the successes, in order, with their receipts |
| Producer.IncludedIff | crates/ivory-chain/src/producer.rs:76-92 | a candidate is in the block iff executing it on the state and gas left by those before it succeeds |
| Producer.NoneLeft | crates/ivory-txpool/src/pool.rs:162-177 | as many distinct pending transactions as are pending are all of them |
| Producer.ProducedBlockImports | crates/ivory-chain/src/producer.rs:65-114 | with no traps, a fitting supply, a sufficient gas limit, a timestamp not before the parent's and an accepted seal, the block imports to the producer's state |
| Producer.BlockProducer.ProduceBlock | crates/ivory-chain/src/producer.rs:65-114 | the candidates are distinct pending transactions, as many as there are up to the maximum and all of them if they fit, by sender then nonce; the block, field by field, seals their batch; it fails iff miner and key are not one validator |
| Producer.BuildOnHead | bin/ivory/src/node.rs:328-352 | such a block of up to 128 candidates on a copy of the head's state, timestamped right after the head, or none without pending transactions, head or state |
| Producer.ProduceTick | bin/ivory/src/node.rs:328-385 | produce from all pending transactions up to 128, then import: with no trap the import succeeds, the block is the head and the live state is the producer's |
| Persist.KeysDisjoint | bin/ivory/src/persist.rs:270-296 | no two keys share bytes, within a family or across families |
| Persist.ChainPersist.constructor | bin/ivory/src/persist.rs:35-43 | a keep window of zero is raised to one |
| Persist.ChainPersist.PersistTrieNodes | bin/ivory/src/persist.rs:163-172 | every digest holds the bytes last written for it, other digests and key families are unchanged |
| Persist.NodesWritten | bin/ivory/src/persist.rs:163-172 | writing nodes under their digests puts each of them on disk and loses none |
| Persist.ChainPersist.PersistSnapshot | bin/ivory/src/persist.rs:191-197 | the state reads back, and nothing else changes |
| Persist.ChainPersist.PersistBlocks | bin/ivory/src/persist.rs:124-142 | head, heights, whole blocks inside the window and bare headers below it are on disk; states untouched |
| Persist.ChainPersist.PersistStates | bin/ivory/src/persist.rs:143-153 | exactly the states of canonical blocks that have one are rewritten, every node of their account tries is found under its digest, and no node already on disk is lost |
| Persist.ChainPersist.PersistCanonical | bin/ivory/src/persist.rs:119-156 | both together, from whatever was on disk before; a block off the canonical walk is there in full; the account trie of every canonical state is on disk |
| Persist.ChainPersist.LoadHeight | bin/ivory/src/persist.rs:86-102 | loads a whole block, or its header when the body is gone, or stops with the exact error; with the right disk the loaded chain grows by that block |
| Persist.ChainPersist.LoadStates | bin/ivory/src/persist.rs:103-110 | exactly the stored states of the loaded chain are recorded; an error iff one of them does not decode |
| Persist.ChainPersist.LoadInto | bin/ivory/src/persist.rs:65-112 | the exact result or error for every disk; a disk holding a chain yields exactly its blocks, head, height index and states |
| Durable.PersistedOk | bin/ivory/src/persist.rs:119-156 | after an import and a persist the disk agrees with the history of accepted blocks |
| Durable.PrunedOk | bin/ivory/src/node.rs:430-436 | pruning memory breaks neither that agreement nor the bodies inside the window |
| Durable.RetainedReloadable | bin/ivory/src/persist.rs:65-112 | a persisted chain of checked blocks always reloads, whatever was pruned |
| Durable.RestartedOk | bin/ivory/src/persist.rs:65-112 | round trip: the reloaded node satisfies the whole invariant and agrees with the node before |
| Durable.BothStartsAgree | bin/ivory/src/node.rs:112-143 | with every body on disk, executing the stored chain gives the state the stored snapshot gives |
| Durable.ReplayStored | bin/ivory/src/node.rs:128-143 | start-up without a head snapshot executes the stored bodies and records every state |
| Durable.StartUp | bin/ivory/src/node.rs:109-143 | first start, start from the head's snapshot, or start by execution, each with its exact result |
| Durable.DurableNode.constructor | bin/ivory/src/node.rs:115-118 | a node on an empty disk satisfies the invariant |
| Durable.DurableNode.Import | bin/ivory/src/node.rs:472-487 | import, persist and prune keep memory, disk and history in agreement; a refusal, for exactly the importer's reason, changes nothing |
| Durable.DurableNode.Restart | bin/ivory/src/node.rs:109-124 | at any point of any run a restart gives back head, height index, live state, canonical snapshots, headers, and bodies inside the window |
| Bits.BitLengthBounds | crates/ivory-primitives/src/uint.rs:216-218 | a number lies between the powers of two its bit length names |
| Bits.OrDisjoint | crates/ivory-primitives/src/uint.rs:468-479 | or adds where no bit is set on both sides |
| Uint.Compare | crates/ivory-primitives/src/uint.rs:438-449 | limb order from the top is numeric order |
| Uint.ValueInjective | crates/ivory-primitives/src/uint.rs:35-36 | a number has one representation |
| Uint.CheckedAddLimbs | crates/ivory-primitives/src/uint.rs:221-233 | the sum, or nothing iff it is 2^256 or more |
| Uint.CheckedSub | crates/ivory-primitives/src/uint.rs:236-252 | the difference, or nothing iff it is negative |
| Uint.WrappingAdd | crates/ivory-primitives/src/uint.rs:374-386 | the sum modulo 2^256 |
| Uint.WrappingSub | crates/ivory-primitives/src/uint.rs:389-401 | the difference modulo 2^256 |
| Uint.LeadingZeros | crates/ivory-primitives/src/uint.rs:196-203 | 256 minus the bit length |
| Uint.ShiftLeft | crates/ivory-primitives/src/uint.rs:502-534 | times 2^shift modulo 2^256, for every shift |
| Uint.ShiftRight | crates/ivory-primitives/src/uint.rs:536-568 | divided by 2^shift, for every shift |
| Uint.OrLimbsValue | crates/ivory-primitives/src/uint.rs:468-479 | limb-wise or is or of the numbers |
| Uint.LongProduct | crates/ivory-primitives/src/uint.rs:269-274 | the bit-length test only refuses products of 2^256 or more |
| Uint.NoHighProducts | crates/ivory-primitives/src/uint.rs:286-292 | past the test every limb product that would land above the word is zero |
| Uint.ProductFits | crates/ivory-primitives/src/uint.rs:294-296 | product, limb and carry together fit in 128 bits |
| Uint.AddRow | crates/ivory-primitives/src/uint.rs:279-302 | one row adds exactly its part of the product, or reports overflow iff there is one |
| Uint.CheckedMulLimbs | crates/ivory-primitives/src/uint.rs:255-305 | the product, or nothing iff it is 2^256 or more |
| Uint.CheckedDiv | crates/ivory-primitives/src/uint.rs:308-342 | the floor of the quotient, or nothing iff the divisor is zero |
| Uint.CheckedRem | crates/ivory-primitives/src/uint.rs:345-353 | the remainder, or nothing iff the divisor is zero |
| Uint.CheckedPow | crates/ivory-primitives/src/uint.rs:404-424 | the power, or nothing iff it is 2^256 or more |
| Uint.FromBeBytes | crates/ivory-primitives/src/uint.rs:79-95 | the number the 32 bytes denote |
| Uint.ToBeBytes | crates/ivory-primitives/src/uint.rs:141-148 | its big-endian bytes, which read back to it |
| Primitives.BigEndianAt | crates/ivory-primitives/src/uint.rs:141-148 | byte i of n is the digit of weight 256^(n - 1 - i) |
| Codec.RoundTrip | sdk/python/ivory_client/codec.py:51-124 | decode after encode gives the envelope back iff it has version 1, a non-empty id, and no hash or a 32-byte one, whatever bytes follow |
| Codec.EncodingUnambiguous | sdk/python/ivory_client/codec.py:51-68 | no two such envelopes share an encoding |
| Codec.EncodeEnvelope | sdk/python/ivory_client/codec.py:51-68 | the encoder with its metrics loop writes the specified bytes or fails as specified |
| Codec.EnvelopeLayout | sdk/python/ivory_client/codec.py:51-68 | each field lies at its offset: magic, version, id, schema, count and metrics, content hash, content identifier |
| Codec.LittleEndianAt | sdk/python/ivory_client/codec.py:18-23 | byte i is the digit of weight 256^i |
| Codec.Reader.TakeNumber | sdk/python/ivory_client/codec.py:76-92 | a fixed-width read that fails on a short view |
| Codec.Reader.TakeStr | sdk/python/ivory_client/codec.py:94-99 | a length-prefixed text, shortened at the end of the view |
| Codec.DecodeEnvelope | sdk/python/ivory_client/codec.py:71-124 | the shared moving view computes the specified parse of every byte string, errors included |
| Codec.TxUnambiguous | sdk/python/ivory_client/codec.py:127-146 | two transactions with senders of one length and recipients of one length share an encoding only if they are equal |
| Codec.TxLayout | sdk/python/ivory_client/codec.py:127-146 | there is an encoding iff every number is in range, and then each field lies at its offset: sender, flag and recipient, value, data with its length, gas price, gas, nonce |
| Codec.RecipientsCollide | sdk/python/ivory_client/codec.py:136-142 | for every sender and every two recipient lengths less than 2^64 apart two different transactions share an encoding |
| Codec.SendersCollide | sdk/python/ivory_client/codec.py:136-142 | so do two for every two sender lengths less than 2^64 apart |
| Codec.UnambiguousIff | sdk/python/ivory_client/codec.py:127-146 | a class of transactions fixed by its address lengths, all below 2^64, is unambiguous iff it has one sender length and one recipient length |

## Left out

- Network, JSON-RPC, metrics, events, explorer, command line and configuration: input, output and formatting; in the import path they have no effect on the modelled state.
- The contract interpreter, Ed25519, keccak256, bincode and UTF-8: parameters, as described above.
- RocksDB is a finite map from byte strings to byte strings; input and output failures are not modelled.
- Locks and concurrent map access: every public call is one step.
- `simulate`, the header walk and decoding of the light client, `CREATE2` addresses, hex and checksum text: they would only add easier variants.
- No block hashes to zero, the parent hash of genesis.
- Store.BlockStore.InsertBlock: asks for a parent below the largest 64-bit height; above it acceptance breaks the parent walk, as `Store.HeightCap` shows.
- Store.BlockStore.InsertHeader: the same height limit.
- Import.ImportAndApply: the same height limit.
- Seal construction is a function; that an accepted key yields an accepted seal is a hypothesis of `Producer.ProducedBlockImports`.
- The little-endian byte conversions, `trailing_zeros` and the saturating wrappers of uint.rs: the same loops again, or one line over a modelled operation.
- Sync.Node.Deliver: a linear chain only, because pruning drops side-branch snapshots and with them the chance to import on a side branch.
- Readmission.ReorgReturns: asks that both pool caps leave room for the dropped transactions, and that they pass the gas and signature checks, have nonces below the one that saturates, and share no hash.
- Durable.DurableNode.Restart: one archive policy for the whole run; after a change from pruning to archiving, bodies already dropped cannot be written back.
- Pool.RunInv: the largest 64-bit nonce alone may repeat, because the tracker saturates there.
