# A model of the UTxO monitor's index, chain cache and order cores

This project models, in Dafny, the stateful cores of a mempool-aware Cardano UTxO indexing service and
proves properties of them over all inputs and all runs.

* **Keys and order** (`Bytes`, `Scans`, `Lists`, `Keys`, `Ledger`): the key-value store's byte order, big-endian and decimal numbers,
  hexadecimal, printed output references, MessagePack string keys, credential, event and unit keys, and units of outputs.
* **The index** (`IndexTables`, `Index`, `IndexRuns`, `UndoRuns`, `Queries`, `EventTrails`, `Answers`): `Index.UtxoIndexDb` holds the six column
  families and updates them in place with loops over a transaction's inputs, outputs, credentials and units, over the
  rows of a unit scan, and over the keys of a query's range; every method is proved equal to a closed form over the
  value `IndexTables.Tables`. About those closed forms the project proves the agreement of all tables in every run,
  order independence, absorption, undo, what any mix of applies and unapplies leaves, when the spent flags stay right,
  what each paginated query returns, in terms of keys and then of addresses and assets, and how often an event query
  lists an output.
* **The ledger cache** (`Chain`, `Upgrades`, `EventSource`, `EndToEnd`): the cache as a linked chain, rollback, ordered
  replay, the event source over a mutable cache, and the end-to-end theorem that ties cache and index together.
* **Mempool and ledger together** (`MempoolRuns`): the index fed by both at once, over the node's chain and the pending
  transactions.
* **The atomic flow** (`AtomicFlow`): a state machine with one step per await and a crash possible between any two.
* **Smaller cores** (`CircularFilters`, `Backlog`, `Blueprint`, `KvIndexes`, `Funding`, `LimitOrders`, `MempoolFilter`).

Column families hold structured keys; `Queries.EventDeleteByBytes`, `Queries.CredDeleteByBytes` and
`Queries.UnitDeleteByBytes` justify that by showing that the byte encodings are injective under deletion, and all
iteration happens over the encoded byte keys. One apply, unapply or query is one atomic step. Clocks are parameters.

## Where the code falls short of what one might expect

Each of these is proved, with the exact condition under which it happens.

* Undo does not put back the "no such unit" sentinels that the applied outputs removed (`IndexRuns.UndoRestoresTables`;
  a failing run: `IndexRuns.UndoLosesSentinel`).
* A spend seen before its output is stored is lost (`IndexRuns.EarlySpendIsLost`, `IndexRuns.FlagsRightIff`).
* A rollback to a point at or below the rollback threshold is ignored, so the index keeps the removed blocks unless
  they changed nothing (`EndToEnd.RollbackAfterRunIff`; a failing run: `EndToEnd.IgnoredRollback`).
* A pending spend of an output is lost when the output's block is undone and applied again
  (`MempoolRuns.OnlyPendingSpendsAreLost`; a failing run: `UndoRuns.ReappliedSpendIsLost`). Any spend is lost when a rival
  spender of the same output is undone (`UndoRuns.UndoKeepsFlagsIff`; a failing run: `UndoRuns.RivalUndoLosesSpend`).
  Over whole runs the flags stay right exactly while every event meets a guard known before it
  (`UndoRuns.AlwaysRightIff`, `MempoolRuns.GuardedRunIsRight`).
* Dropping a transaction that is on the chain removes its outputs and revives what it consumed
  (`MempoolRuns.DroppedConfirmedIsLost`).
* A crash of the atomic flow between moving the tip and storing the block, or between deleting a block and moving the
  tip back, leaves a tip from which no rollback undoes anything (`AtomicFlow.ResumableIff`,
  `AtomicFlow.LostLinkStopsRollback`; both windows are reachable: `AtomicFlow.CrashBeforeBlockStored`,
  `AtomicFlow.CrashBeforeTipMovedBack`). A consumer that is out of step at a restart stays so, and gets a block twice if
  the crash came after it committed one (`AtomicFlow.SessionKeepsDrift`, `AtomicFlow.BlockCommittedTwice`).
* Adding an element to the circular filter can leave it outside the filter (`CircularFilters.AddedIsContainedIff`).
* A funding output restored by an undo still expires at the deadline set when it was consumed
  (`Funding.RestoredFundingExpires`), and one whose transaction is undone and applied again at the deadline set by the
  undo (`Funding.ReappliedFundingExpires`). An undo emits the inverse exactly if no stored output the transaction consumes
  was evicted since its apply (`Funding.UndoEmitsInverseIff`; a failing run: `Funding.SeenEarlyIsNotInverted`).
* The last fill of an order leaves part of the fee uncharged iff its product saturates (`LimitOrders.FilledChargesAllIff`,
  `LimitOrders.SaturatedFillLeavesFee`).
* An `All` query without a slot starts at the largest slot, so it lists unconfirmed events only
  (`EventTrails.AllListedIff`; a failing run: `EventTrails.AllWithoutSlotMisses`).
* An `All` query lists an output once per slot it is filed under, and a spend leaves more than one behind when it is
  undone or when it is seen in the mempool first (`EventTrails.RunListsTimes`; failing runs:
  `EventTrails.UndoneSpendListsTwice`, `EventTrails.ConfirmedSpendListsTwice`).

## Model

| member | source | states |
|---|---|---|
| IndexTables.EveryRunCoherent | src/index.rs:389-554 | from a fresh database, after any applies, unapplies and unit queries in any order, both unspent tables are exactly the unspent rows' credentials, every row is covered by an events key (at its own slot while unspent), unit entries are exactly the units of unspent rows, and a sentinel means no such row |
| IndexTables.UpdateUnspentCoherent | src/index.rs:389-434 | storing an output, new or already known, keeps all tables in agreement |
| IndexTables.UpdateByRefCoherent | src/index.rs:436-475 | spending or reviving a stored output keeps all tables in agreement, and an unknown reference changes nothing |
| IndexTables.DropCoherent | src/index.rs:494-505 | forgetting an output keeps all tables in agreement |
| IndexTables.EnsureUnitCoherent | src/index.rs:276-322 | filling in one unit's entries or its sentinel keeps all tables in agreement |
| Index.UtxoIndexDb.Apply | src/index.rs:509-531 | the in-place input and output loops leave exactly the tables of the closed form of an apply |
| Index.UtxoIndexDb.Unapply | src/index.rs:533-554 | the in-place loops leave exactly the tables of the closed form of an unapply |
| Index.UtxoIndexDb.UpdateUnspentTxo | src/index.rs:389-434 | old row's keys go, new keys are written at the new slot, the spent flag survives, unspent and unit keys are written only while unspent |
| Index.UtxoIndexDb.UpdateTxoByRef | src/index.rs:436-475 | keys move to the spend slot or back to the settled slot, unit entries follow the flag, the row's slot stays |
| Index.UtxoIndexDb.DeleteTxoAndIndexes | src/index.rs:494-505 | the row and the keys derived from it are removed from every table |
| Index.UtxoIndexDb.WriteUnitIndexes | src/index.rs:248-261 | all units' sentinels are replaced by entries |
| Index.UtxoIndexDb.EnsureUnitIndex | src/index.rs:276-322 | returns unchanged iff the unit's byte range holds another key than its sentinel, otherwise adds an entry per unspent holder, or the sentinel if there is none |
| Index.UtxoIndexDb.GetUtxos | src/index.rs:559-770 | returns exactly the requested page of the query's full answer, and writes nothing but the unit index of an unscoped unit query |
| Index.UtxoIndexDb.ScopedPage | src/index.rs:664-704 | the loop with its matched counter and early exit returns the offset/limit slice of the full filtered list |
| Index.UtxoIndexDb.UnitPage | src/index.rs:706-764 | the same for the unscoped unit loop, which passes over the sentinel and spent rows |
| Index.OtherKeyInRange | src/index.rs:280-290 | the iterator meets a key that is not sentinel-shaped iff the table holds some other key under the prefix |
| IndexRuns.ApplyIsPointwise | src/index.rs:509-531 | both loops of an apply change each row independently: outputs are stored keeping their flag, inputs become spent |
| IndexRuns.RunCharacterised | src/index.rs:389-531 | after any sequence of applies an output is stored iff produced, spent iff consumed later than first produced, with the content and slot of its last producer |
| IndexRuns.SpentIffConsumed | README.md:7-11 | in a causal run a stored output is spent iff some applied transaction consumes it |
| IndexRuns.EarlySpendIsLost | src/index.rs:436-475 | a consumer applied before the producer leaves the output unspent, in the other order it is spent |
| IndexRuns.FlagsRightIff | src/index.rs:436-475 | the flags are right for every stored output iff each consumed output is consumed at least once after it is produced |
| IndexRuns.Confluence | README.md:7-11 | any two causal runs over the same transactions, with any interleaving and repetition, agree on outputs, contents and spent flags |
| IndexRuns.ConfluentTables | README.md:7-11 | and end with the same unspent and unit tables |
| IndexRuns.ConfirmationAbsorbed | src/index.rs:389-434 | applying a transaction again after any further applies changes only its outputs' slot, never a spent flag |
| IndexRuns.ReplayIsNoOp | packages/cardano-chain-sync/src/event_source.rs:41-60 | replaying settled transactions in any number and order changes no row |
| IndexRuns.UndoRestoresIff | src/index.rs:509-554 | unapplying what was just applied restores the rows iff the stored inputs were unspent and no output was stored |
| IndexRuns.UndoManyApplies | src/index.rs:509-554 | one unapply undoes any number of applies of a fresh transaction |
| IndexRuns.UndoStackRestores | src/index.rs:509-554 | undoing any stack of fresh transactions in reverse restores the rows |
| IndexRuns.UndoRestoresTables | src/index.rs:509-554 | undo restores rows, unspent tables and unit entries; the unit table exactly iff no sentinel stood for a unit of the outputs |
| IndexRuns.UndoLosesSentinel | src/index.rs:248-261 | a unit asked for in vain and then minted and undone has lost its sentinel |
| IndexRuns.UndoStackRestoresTables | src/index.rs:509-554 | the same for all tables but sentinels, over any stack |
| IndexRuns.RollbackAfterInterleaving | src/handler.rs:25-53 | after any causal mempool and ledger interleaving of a valid chain, rolling its upper part back leaves the lower part's rows, up to slots |
| UndoRuns.RunWithUndo | src/index.rs:509-554 | after any applies, unapplies and unit queries, of any transactions in any order, an output is stored iff added and not removed since, and spent iff spent while stored and neither removed nor revived since |
| UndoRuns.ApplyKeepsFlagsIff | src/index.rs:389-434 | an apply keeps right flags right iff no output it newly stores is consumed already, by a live transaction or itself |
| UndoRuns.UndoKeepsFlagsIff | src/index.rs:543-545 | an unapply keeps right flags right iff no other live transaction consumes a remaining output that it revives |
| UndoRuns.AlwaysRightIff | src/index.rs:509-554 | over any run, conflicts included, the flags are right after every event iff each event met its guard beforehand |
| UndoRuns.RivalUndoLosesSpend | src/index.rs:543-545 | of two spenders of one output, undoing one leaves it unspent though the other is live |
| UndoRuns.PendingFlagsIff | src/index.rs:543-553 | without conflicts the flags are right iff every live transaction was applied after each stored output it consumes was last undone |
| UndoRuns.ReappliedSpendIsLost | src/index.rs:389-434 | a produced, spent, undone and reproduced output is stored unspent although its consumer is live |
| MempoolRuns.HistoryIsRun | src/handler.rs:25-53 | serving ledger upgrades, mempool accepts and drops and unit queries is one run of applies and unapplies of the index |
| MempoolRuns.RunTracks | src/handler.rs:25-53 | in every such run, drops of confirmed transactions included, the transactions applied and not undone are exactly those of the surviving chain that were not dropped and the pending ones, and the cache holds the chain's recent part |
| MempoolRuns.StoredSlots | src/handler.rs:25-53 | an output stored by a mempool accept has no slot, one stored by a block has the block's |
| MempoolRuns.MempoolAndLedger | README.md:7-11 | after every such run exactly the outputs of live transactions are stored; without conflicts their flags are right iff no live transaction consumes a stored output whose producer was undone since that transaction was last applied |
| MempoolRuns.AcceptKeepsFlagsIff | src/handler.rs:49 | after any run with right flags, a mempool accept keeps them right iff no output it newly stores is consumed by a live transaction or itself |
| MempoolRuns.DropKeepsFlagsIff | src/handler.rs:50 | after any run with right flags, a drop keeps them right iff no other live transaction consumes a remaining output that the dropped one consumes |
| MempoolRuns.GuardedRunIsRight | src/handler.rs:25-53 | over any run the flags are right after every index event iff each met its guard beforehand, and then they say, after every signal, what chain and pending transactions consume |
| MempoolRuns.DroppedConfirmedIsLost | src/handler.rs:50 | dropping a transaction of the chain removes its outputs and revives what it consumed, and the run goes on from there |
| MempoolRuns.OnlyPendingSpendsAreLost | README.md:7-11 | when blocks spend outputs of blocks only and no confirmed transaction is dropped, the flags are right iff no pending transaction consumes a stored output whose producer was undone since it was last accepted |
| MempoolRuns.UnspentIsSpendable | README.md:7-11 | whenever the flags are right the credential tables list exactly the outputs of live transactions that no live transaction consumes |
| Queries.UnspentAnswer | src/index.rs:664-704 | the scoped Unspent answer lists exactly the credential's unspent outputs, each once, in key order, with their current rows |
| Queries.ScopedUnitAnswer | src/index.rs:684-688 | the scoped unit answer lists exactly those that also contain the unit |
| Queries.GlobalUnitAnswer | src/index.rs:706-764 | the unscoped unit answer lists exactly the unspent outputs holding the unit, although longer units and foreign sentinels share its key range |
| Queries.GlobalRefinesScoped | src/index.rs:664-764 | the unscoped unit answer restricted to a credential equals the scoped one, order included |
| Queries.AllAnswer | src/index.rs:615-620 | All(s) walks exactly the credential's event keys with slot at least s, by slot with unconfirmed last, and returns the stored rows behind them; without a slot only unconfirmed ones |
| EventTrails.AllListedIff | src/index.rs:615-620 | All(s) lists an output iff it is stored and filed under some slot from s on, from the largest slot on if none is given |
| EventTrails.AllWithoutSlotMisses | src/index.rs:615-620 | a confirmed unspent output is missing from an All query without a slot |
| EventTrails.RunFollows | src/index.rs:389-505 | after any run the events table holds exactly one key per credential and per slot that a fold over the output's own history yields |
| EventTrails.RunListsTimes | src/index.rs:664-704 | after any run All(s) lists a stored output exactly as often as it is filed under a slot from s on |
| EventTrails.UntouchedFiledOnce | src/index.rs:389-434 | an output that is neither spent nor revived is filed under its row's slot only |
| EventTrails.UndoneSpendListsTwice | src/index.rs:453-458 | a spend that is undone leaves its slot behind, so All(0) lists the output twice |
| EventTrails.ConfirmedSpendListsTwice | src/index.rs:453-458 | a spend seen in the mempool and then confirmed is filed as unconfirmed and at its slot |
| Queries.AllMissesNothing | src/index.rs:436-475 | All(0) lists every stored output of the credential, and All(s) every unspent one settled at s or later or not at all |
| Answers.UnspentByAddress | src/index.rs:664-704 | after any run the scoped Unspent query lists an output iff it is stored unspent at an address that belongs to the credential by that kind |
| Answers.ScopedUnitByAsset | src/index.rs:684-688 | after any run the scoped unit query lists exactly those that also hold the asset, however the letters of its unit are written |
| Answers.GlobalUnitByAsset | src/index.rs:706-764 | after any run the unscoped unit query lists exactly the unspent outputs that hold the asset, however the letters of its unit are written |
| Answers.SpellingsAgree | src/index.rs:576-578 | two spellings of one unit get equal answers, scoped or not |
| Answers.ByReference | src/index.rs:584-662 | a query by reference returns the output's row, spent or not, iff it is stored and, when scoped, at an address of the credential |
| Answers.AllByAddress | src/index.rs:615-620 | after any run All(s) lists an output iff it is stored, at an address of the credential, and filed under a slot from s on |
| Answers.AllFromZero | src/index.rs:615-620 | after any run All(0) lists every stored output at an address of the credential, spent or not, and no other |
| Answers.ListedRows | src/index.rs:664-704 | every listed item carries its output's current row |
| Queries.PagesCover | src/index.rs:690-701 | reading page after page returns the whole list, nothing twice and nothing left out |
| Queries.AnswersSurviveUnitQueries | src/index.rs:570-576 | filling in the unit index for any unit between two requests changes no answer |
| Queries.EnsureUnitScans | src/index.rs:293-319 | on any database, when the range holds nothing but the sentinel, the scan makes the unit's entries equal to a full table scan |
| Queries.EnsureUnitIdempotent | src/index.rs:276-322 | asking again changes nothing |
| Queries.EventDeleteByBytes | src/index.rs:188-201 | deleting an event key by its bytes deletes exactly that key |
| Queries.CredDeleteByBytes | src/index.rs:203-207 | deleting an unspent key by its bytes deletes exactly that key |
| Queries.UnitDeleteByBytes | src/index.rs:211-227 | deleting a unit key by its bytes deletes exactly that key, entries and sentinels never colliding |
| Keys.ParsePrint | packages/spectrum-cardano-lib/src/lib.rs:177-219 | parsing a printed output reference gives it back for every hash and u64 index |
| Bytes.FromHexIff | packages/spectrum-cardano-lib/src/lib.rs:208-219 | hexadecimal decoding accepts exactly the spellings of the lowercase text, in either case |
| Keys.ParseU64Iff | packages/spectrum-cardano-lib/src/lib.rs:208-219 | an index is accepted exactly as its decimal digits, with any number of leading zeros and an optional plus sign |
| Keys.ParsedIff | packages/spectrum-cardano-lib/src/lib.rs:208-219 | parsing succeeds exactly on a spelling of the hash, a separator and a spelling of the index |
| Keys.PrintIsShortest | packages/spectrum-cardano-lib/src/lib.rs:177-219 | among the texts that parse to a reference the printed one is the only shortest one without capital letters |
| Keys.ParseInvalidIff | packages/spectrum-cardano-lib/src/lib.rs:210-218 | parsing reports an error, rather than panicking or succeeding, exactly without a separator |
| Keys.UtxoKeyRoundTrip | src/index.rs:169-171 | decoding a txo key gives the reference back, so txo keys are injective |
| Keys.UnitEntryStrip | src/index.rs:720-727 | stripping any prefix off a unit entry key leaves a txo key only for the entry's own unit and output |
| Keys.SentinelStrip | src/index.rs:222-227 | no suffix of a sentinel key is a txo key |
| Keys.EventKeyOrder | src/index.rs:188-201 | event keys of a credential iterate by slot, then by txo key |
| Keys.EventKeyBound | src/index.rs:615-620 | the lower bound of an All query excludes exactly the earlier slots |
| Keys.AssetRoundTripIff | packages/spectrum-cardano-lib/src/lib.rs:406-430 | decoding an encoded asset class gives it back iff its name is zero-padded |
| Keys.AssetBytesRoundTrip | packages/spectrum-cardano-lib/src/lib.rs:420-430 | exactly one zero byte and 28 to 60 bytes decode, and encode back to themselves |
| Ledger.OutputContainsUnitIff | src/index.rs:229-246 | an output contains a unit iff it holds the asset whose policy and name the unit spells |
| Ledger.SpelledUnitIff | src/index.rs:773-778 | the same for every spelling of the unit, whatever the case of each of its letters |
| Ledger.ContainedIsSpelled | src/index.rs:773-778 | a text is contained in an output iff it spells an asset of the output in some letter case |
| Ledger.CredsAreOwners | src/index.rs:368-387 | base addresses are filed under their payment and their stake credential, each by its own kind, enterprise and pointer addresses by payment, reward addresses by stake, Byron addresses nowhere |
| Chain.RollbackToPoint | packages/cardano-chain-sync/src/event_source.rs:297-326 | rollback to a chain point undoes exactly the blocks after it, newest first, position by position, deletes exactly those and leaves the tip there |
| Chain.RollbackOffChain | packages/cardano-chain-sync/src/event_source.rs:297-326 | rollback to any other point undoes everything cached |
| Chain.RollbackUpTo | packages/cardano-chain-sync/src/event_source.rs:297-326 | rollback to any point at all undoes the blocks above the last one with that point, or all of them |
| Chain.RollbackStops | packages/cardano-chain-sync/src/event_source.rs:297-326 | on every cache one block is deleted per block undone and the loop stops only where it cannot go on |
| Chain.CacheBlockExtends | packages/cardano-chain-sync/src/event_source.rs:158-168 | caching a new block extends the linked chain |
| Chain.PointKeyOrder | packages/cardano-chain-sync/src/cache.rs:117-126 | byte order of point keys is the order of slot, then hash |
| Chain.ReplayFromPoint | packages/cardano-chain-sync/src/cache.rs:94-114 | replay from a cached point yields the chain from it on, in order, linked |
| Chain.ReplayFromOrigin | packages/cardano-chain-sync/src/cache.rs:94-114 | replay from the origin yields the whole cached chain |
| Chain.ValidFromMembers | packages/cardano-chain-sync/src/event_source.rs:190-224 | a block contributes exactly the transactions at positions whose low 16 bits are not listed as invalid |
| Chain.ValidFromPositions | packages/cardano-chain-sync/src/event_source.rs:190-259 | a block's valid transactions stand at a strictly increasing list of positions, exactly those whose low 16 bits are not listed as invalid |
| Upgrades.BlockEventsInOrder | packages/cardano-chain-sync/src/event_source.rs:94-149 | rolling a Babbage or Conway block forward reports the transactions at these positions in block order with the block's slot, number and hash; undoing it reports the same ones in reverse; other eras report nothing |
| EventSource.LedgerEvents.RollbackTo | packages/cardano-chain-sync/src/event_source.rs:297-326 | the in-place loop leaves the cache and emits the blocks of the recursive rollback, and lowers the beacon |
| EventSource.LedgerEvents.ProcessUpstreamByTxs | packages/cardano-chain-sync/src/event_source.rs:94-156 | each upgrade changes the cache and emits the events of the value-level step, thresholds and replays included |
| EventSource.LedgerCacheDb.ReplayFrom | packages/cardano-chain-sync/src/cache.rs:94-114 | the iterator loop sends exactly the linked blocks at or after the key, in key order |
| EventSource.TxHandler.HandleEvents | src/handler.rs:25-36 | feeding events one by one gives the tables of applying and unapplying them in order |
| EndToEnd.SurvivingChainIndex | packages/cardano-chain-sync/src/event_source.rs:94-156 | from any starting point, after any run of roll-forwards, rollbacks to points above the threshold (the starting point and older ones included) or to the tip, replays and unit queries, the rows, unspent tables and unit entries equal those built from the surviving chain alone, and the cache is exactly its recent part, linked |
| EndToEnd.RunAgrees | packages/cardano-chain-sync/src/client.rs:58-68 | the same agreement is kept by a session that starts from any state an earlier session left |
| EndToEnd.RebuildAgrees | packages/cardano-chain-sync/src/event_source.rs:41-69 | replaying a filled cache from any cached point into a fresh index builds exactly the chain from that point on and leaves the cache as it was |
| EndToEnd.RebuiltChainIndex | packages/cardano-chain-sync/src/event_source.rs:41-69 | after such a rebuild and any run, rollbacks below the rebuilt part included, the index equals the one built from what survives of the rebuilt chain |
| EndToEnd.RollbackAgreesIff | packages/cardano-chain-sync/src/event_source.rs:131-154 | a rollback to any point of the chain leaves the rows of the remaining blocks iff the point is above the threshold or the removed blocks stored no output and spent no stored one |
| EndToEnd.RollbackAfterRunIff | packages/cardano-chain-sync/src/event_source.rs:131-154 | the same after any run, with the unspent tables and unit entries of the remaining chain |
| EndToEnd.IgnoredRollback | packages/cardano-chain-sync/src/event_source.rs:151-154 | a run in which a rollback to the block at the threshold leaves an output of the removed block in the index |
| EndToEnd.UndoneRestores | packages/cardano-chain-sync/src/event_source.rs:127-149 | the inverse events of a rollback, handled on top of the blocks, give back the rows below them |
| EndToEnd.RestartReplayIsNoOp | packages/cardano-chain-sync/src/event_source.rs:41-69 | restarting with a replay from any cached point re-applies the chain from there and changes no row, unspent table or unit entry |
| EndToEnd.ReplayAfterRun | packages/cardano-chain-sync/src/cache.rs:94-114 | after any run, replay from a recent point sends the surviving chain from it on, in order |
| AtomicFlow.StepKeepsInv | packages/cardano-chain-sync/src/atomic_flow.rs:109-187 | every step of the flow or its consumer, a crash included, keeps recorded chain, committed chain and batch in flight consistent |
| AtomicFlow.AlwaysNear | packages/cardano-chain-sync/src/atomic_flow.rs:126-187 | in every state reachable from a session start on any linked cache at most one batch is outstanding and the committed head is the recorded tip, its child or its parent |
| AtomicFlow.ResumableIff | packages/cardano-chain-sync/src/atomic_flow.rs:126-210 | the cache below the tip is a linked chain exactly outside the two windows between paired cache writes |
| AtomicFlow.LostLinkStopsRollback | packages/cardano-chain-sync/src/atomic_flow.rs:150-183 | after a crash in such a window no rollback undoes anything |
| AtomicFlow.ResumedRollback | packages/cardano-chain-sync/src/atomic_flow.rs:150-183 | otherwise a rollback undoes exactly the recorded blocks above its target, and the consumer is within one block of the record |
| AtomicFlow.RollbackEndsAtTarget | packages/cardano-chain-sync/src/atomic_flow.rs:150-187 | from any linked record with the consumer in step, however the steps of a rollback to any target are scheduled, when the flow is idle again record and consumer hold exactly the blocks up to the target, none for an unknown one, and the blocks above it were sent as backward batches, newest first, one by one |
| AtomicFlow.RollbackEndsAtPoint | packages/cardano-chain-sync/src/atomic_flow.rs:150-187 | for the point after the first k blocks both hold exactly those k blocks, and exactly the others were sent |
| AtomicFlow.CrashBeforeBlockStored | packages/cardano-chain-sync/src/atomic_flow.rs:200-210 | any new block can be lost in the window between the two writes of caching it |
| AtomicFlow.CrashBeforeTipMovedBack | packages/cardano-chain-sync/src/atomic_flow.rs:174-178 | any rollback of a recorded block can stop in the window between the two writes of undoing it |
| AtomicFlow.SessionKeepsDrift | packages/cardano-chain-sync/src/atomic_flow.rs:126-187 | a session started with any recorded chain and any consumer takes the same number of blocks off both and puts the same blocks on both |
| AtomicFlow.DriftBounded | packages/cardano-chain-sync/src/atomic_flow.rs:126-187 | over any crashes and restarts at most one batch is outstanding and the consumer is off by at most one block per restart and one in flight |
| AtomicFlow.BlockCommittedTwice | packages/cardano-chain-sync/src/atomic_flow.rs:144-148 | a crash between commit and record makes the consumer commit the block twice while the record has it once |
| CircularFilters.AddedIsContainedIff | packages/spectrum-offchain/src/data/circular_filter.rs:33-44 | an added element is in the filter unless a stale copy of it is evicted from the front of a full buffer |
| CircularFilters.ReaddedIsLost | packages/spectrum-offchain/src/data/circular_filter.rs:33-48 | the exception is reachable by adding, removing and adding again |
| CircularFilters.AddedSurvives | packages/spectrum-offchain/src/data/circular_filter.rs:33-44 | an element with no buffered copy survives any n - 1 further additions |
| CircularFilters.CircularFilter.Add | packages/spectrum-offchain/src/data/circular_filter.rs:33-44 | the new buffer and filter, and which element is reported as evicted |
| Backlog.HotPriorityBacklog.TryPop | packages/spectrum-offchain/src/backlog.rs:154-162 | returns a heaviest stored order, or nothing iff the store is empty, dropping only stale queue entries |
| Backlog.HotPriorityBacklog.PutOrder | packages/spectrum-offchain/src/backlog.rs:141-152 | stores and queues an admissible order and keeps capacity plus stored orders constant |
| Backlog.HotPriorityBacklog.Remove | packages/spectrum-offchain/src/backlog.rs:171-179 | removes the order and its soft eviction, gives the capacity back, and leaves the queue entry behind |
| Backlog.PutIsPopped | packages/spectrum-offchain/src/backlog.rs:141-162 | an order that fits, is not stored and was not soft-evicted, put into an empty backlog, is what the next pop returns, stale queue entries notwithstanding |
| Backlog.PutAdmits | packages/spectrum-offchain/src/backlog.rs:141-152 | without capacity, or for a stored or soft-evicted id, a put changes nothing; otherwise the order is stored at the cost of one unit of capacity |
| Backlog.PutConsistent | packages/spectrum-offchain/src/backlog.rs:141-152 | capacity is conserved and each stored id is queued at its order's weight, stale entries notwithstanding |
| Backlog.RemovedConsistent | packages/spectrum-offchain/src/backlog.rs:171-179 | the same after a removal |
| Backlog.RemovedUndoesPut | packages/spectrum-offchain/src/backlog.rs:141-179 | removing an order just admitted gives back the store and capacity from before, whatever else is stored |
| Backlog.PopsConsistent | packages/spectrum-offchain/src/backlog.rs:154-162 | the same after a pop |
| Backlog.DrainSorted | packages/spectrum-offchain/src/backlog.rs:154-162 | any run of pops hands out distinct orders by non-increasing weight |
| Blueprint.TxBlueprint.ProjectOntoBuilder | packages/bloom-offchain-cardano/src/execution_engine/execution_state.rs:113-225 | in every funding branch each script input, its redeemer and execution-unit index and its paired output stand at the rank of its reference among all inputs; a reward output comes last |
| Blueprint.CompareIsBefore | packages/bloom-offchain-cardano/src/execution_engine/execution_state.rs:155-165 | the comparator is a strict order on the entries of one batch |
| Blueprint.RefLessIsByteOrder | packages/bloom-offchain-cardano/src/execution_engine/execution_state.rs:155-165 | references are compared as the bytes of hash and big-endian index, the order in which a ledger numbers inputs |
| Blueprint.InsertInOrder | packages/bloom-offchain-cardano/src/execution_engine/execution_state.rs:155-165 | sorting by the comparator puts entries in reference order, the input-less one last |
| Blueprint.PositionIsRank | packages/bloom-offchain-cardano/src/execution_engine/execution_state.rs:166-173 | in an ordered batch every entry with an input stands at that input's rank |
| KvIndexes.EvictedExactly | packages/bloom-offchain-cardano/src/event_sink/order_index.rs:64-77 | under a monotone clock eviction removes exactly the keys whose deadline has passed |
| KvIndexes.EvictedAmong | packages/bloom-offchain-cardano/src/event_sink/order_index.rs:64-77 | on any queue eviction removes nothing but keys registered with a passed deadline |
| KvIndexes.InMemoryKvIndex.RunEviction | packages/bloom-offchain-cardano/src/event_sink/order_index.rs:64-77 | the pop and push-back loop evicts from the front while it is due |
| Funding.FundingEventHandler.HandleApplied | packages/bloom-offchain-cardano/src/event_sink/handler.rs:150-196 | emits, per partition and in order, the events extracted before eviction, and indexes them; the outputs at no funding address are handed on in their order |
| Funding.FundingEventHandler.HandleUnapplied | packages/bloom-offchain-cardano/src/event_sink/handler.rs:197-248 | the same with every event inverted |
| Funding.FundingEventHandler.Extract | packages/bloom-offchain-cardano/src/event_sink/handler.rs:77-126 | the loops return consumed then produced events and keep the other outputs in order |
| Funding.ProducedMembers | packages/bloom-offchain-cardano/src/event_sink/handler.rs:99-110 | produced events are exactly the outputs at funding addresses but for the one to skip |
| Funding.UnprocessedMembers | packages/bloom-offchain-cardano/src/event_sink/handler.rs:99-111 | the outputs left over are exactly those at no funding address |
| Funding.UnprocessedInOrder | packages/bloom-offchain-cardano/src/event_sink/handler.rs:111-114 | they keep their original order |
| Funding.ConsumedInOrder | packages/bloom-offchain-cardano/src/event_sink/handler.rs:90-96 | consumed events come in input order, one for each input that is stored |
| Funding.ProducedInReverse | packages/bloom-offchain-cardano/src/event_sink/handler.rs:99-111 | produced events come in reverse output order |
| Funding.UndoEmitsInverse | packages/bloom-offchain-cardano/src/event_sink/handler.rs:150-250 | within the eviction delay, undoing transactions in reverse emits for each exactly the inverse of its events on apply, whatever else falls due and is evicted meanwhile, as long as the transactions do not consume it |
| Funding.UndoInvertsEachPartition | packages/bloom-offchain-cardano/src/event_sink/handler.rs:150-250 | the same, partition by partition |
| Funding.UndoEmitsInverseIff | packages/bloom-offchain-cardano/src/event_sink/handler.rs:150-331 | whatever is handled in between, and however often the transaction was seen before, undoing it emits the inverse of its apply iff no stored output it consumes was evicted in between |
| Funding.SeenEarlyIsNotInverted | packages/bloom-offchain-cardano/src/event_sink/handler.rs:254-331 | a transaction accepted by the mempool more than the delay before its block is not inverted on undo |
| Funding.RestoredFundingExpires | packages/bloom-offchain-cardano/src/event_sink/order_index.rs:59-77 | an output restored by an undo is evicted later iff the deadline set when it was consumed, or one pending before, has passed |
| Funding.ReappliedFundingExpires | packages/bloom-offchain-cardano/src/event_sink/order_index.rs:59-77 | a live output whose transaction was undone and applied again is evicted later iff the deadline set by the undo, or one pending before, has passed |
| LimitOrders.FeeWithinShare | packages/bloom-offchain-cardano/src/orders/limit.rs:200-205 | a fee never exceeds what is left, nor the filled share of it |
| LimitOrders.FeeIsFloor | packages/bloom-offchain-cardano/src/orders/limit.rs:200-205 | nor does it fall short of the filled share by a whole unit: it is the share rounded down, and the largest product's once the product saturates |
| LimitOrders.ChargedWithinShare | packages/bloom-offchain-cardano/src/orders/limit.rs:129-160 | over any fills the total charged is at most the consumed share of the original fee |
| LimitOrders.ChargedNearShare | packages/bloom-offchain-cardano/src/orders/limit.rs:129-160 | over any fills whose products fit it falls short of that share by at most one unit per fill |
| LimitOrders.FilledChargesAllIff | packages/bloom-offchain-cardano/src/orders/limit.rs:200-205 | an order filled in full has been charged its whole fee iff the last product does not saturate |
| LimitOrders.SaturatedFillLeavesFee | packages/bloom-offchain-cardano/src/orders/limit.rs:200-205 | an order of ten trillion token units with two ada of fee, filled in one go, keeps part of its fee |
| LimitOrders.NoSaturationNoRemainder | packages/bloom-offchain-cardano/src/orders/limit.rs:200-205 | in particular when the original fee times the original input fits |
| MempoolFilter.TxFilter.Register | packages/cardano-mempool-sync/src/client.rs:119-131 | returns true iff the hash is among the cap + 1 admitted last, keeping set and queue equal and duplicate-free |
| MempoolFilter.AdmittedApart | packages/cardano-mempool-sync/src/client.rs:119-131 | any cap + 2 consecutive admissions are distinct |

## Left out

- The storage engine, asynchronous tasks, locks and interleavings inside one storage transaction.
- CBOR, hashing and address decoding: outputs are values with an address, assets and opaque bytes; decoding inverts encoding.
- Sockets, mini-protocols, the HTTP server, explorers, configuration and logging: input and output only.
- Index.UtxoIndexDb.Apply: outputs are given by position, as every caller enumerates them; explicit output positions are not modelled.
- EndToEnd.SurvivingChainIndex: a run is not followed past a rollback that the code ignores while blocks lie above its target; EndToEnd.RollbackAfterRunIff says exactly when the index is right after it.
- IndexRuns.RollbackAfterInterleaving: every transaction seen is on the chain; pending ones are covered by MempoolRuns.MempoolAndLedger.
- MempoolRuns.MempoolAndLedger: for the flags it assumes that hashes identify transactions, inputs are stored when their consumer is applied, no two live transactions consume the same output, and none is undone while a rival is live; without these the guards of MempoolRuns.GuardedRunIsRight decide.
- MempoolRuns.OnlyPendingSpendsAreLost: assumes besides that no transaction of the chain is dropped, which the service can do once its tracker has forgotten the confirmation; MempoolRuns.DropKeepsFlagsIff and MempoolRuns.DroppedConfirmedIsLost say what such a drop does.
- MempoolRuns.RunTracks: starts from a fresh index over an empty cache; a rebuilt index is followed by EndToEnd.RebuiltChainIndex, without mempool events.
- AtomicFlow.AlwaysNear: covers one session with the consumer in step; other sessions are covered by AtomicFlow.SessionKeepsDrift and AtomicFlow.DriftBounded. Restarts after a crash that left the cache unlinked, and whether a consumer recognises a block it already has, are not part of this model.
- Blueprint.TxBlueprint.ProjectOntoBuilder: reference inputs, withdrawals and witness scripts carry no input index and are not modelled; the library sort is modelled as stable insertion.
- LimitOrders.Fill: traded output, execution budget and termination do not enter the fee and are left out.
- The persistent backlog, whose choice of queue is random, and the pool, grid, instant and adhoc orders.
