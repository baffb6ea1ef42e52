# MagicBlock validator: verified models of its stateful core

Dafny models of five components of the validator, each with the properties it exists for.
`dafny verify dfyconfig.toml` checks everything; no file depends on anything outside this directory.
`Options` is shared by all.

| component | files |
|---|---|
| Address lookup tables with refcounts (`table-mania`) | `LookupTables`, `RefcountedPubkeys`, `TableProtocol`, `ReservationInvariant`, `ChainInvariant`, `TableRuns`, `TableRely`, `LookupAnswers`, `SubSlots`, `TableValues`, `TableSteps`, `CollectorRecords`, `TableMania` |
| Subscription actor and resubscription (`chainlink`) | `PubsubProtocol`, `PubsubRuns`, `PubsubRely`, `ChainPubsubActor`, `Resubscribe` |
| Block and signature history over two sources (`aperture`) | `HistorySlots`, `StableMerge`, `HistorySignatures` |
| Batched signature confirmation (`rpc-client`) | `ConfirmerProtocol`, `ConfirmerRuns`, `SignatureConfirmer` |
| Token accounts, eATA projection and takeover (`core`, `chainlink`) | `TokenLayout`, `EphemeralAta`, `AtaTakeover`, `Materialize` |

## How the concurrent parts are modelled

Three of the components are shared by many tasks. Each is modelled twice.

* As a protocol on values: a `State`, one predicate per atomic step (what happens between two
  awaits, or under one lock), `Next`, and `IsRun` for sequences of steps from the initial state.
  An invariant is kept by every step, and the `*Runs` modules draw from it what holds in every
  state of every run, or between two states of a run.
* As a class with the control flow of the source. Its fields are the state, and a ghost trace
  records every step by anyone. At an await the class calls `Interfere`, which promises only that
  the trace grew by steps of others; what survives that is proved in the `*Rely` lemmas. Each
  method therefore is a proof that the code takes only steps of the protocol, together with what
  it returns.

Outcomes of the network, the chain and the clock are parameters: a function from the number of a
request to its reply. A transaction may land and be confirmed, land and be reported as failed,
land much later, or never land; a confirmation implies that it landed. An extend that its table
has no room for is refused as an invalid instruction. Chain reads may be stale. A caller may drop a
future at any await: `patience` is the number of awaits it still sits through.

Two properties do not hold of the code without a condition, and are stated with it:

* Table addresses are derived from an observed slot and a counter. They are all different exactly
  if no observed slot is seen again after a different one, with one exception: tables made at slot
  0 first are numbered from 1, so slot 0 may come back for a single table
  (`SubSlots.DistinctIffNeverReturns`). `[7, 8, 7]` shows the failure, `[0, 5, 0]` the exception.
  The results on runs are stated under exactly this condition
  (`SubSlots.AdmitsExactlyNeverReturning`).
* Decoding an encoded eATA gives it back exactly if its mint is not the default key
  (`EphemeralAtas.RoundTrip`).

The reconnect gate of the subscription actor is proved for callers that reconnect one at a time
and only while disconnected, as the multiplexer does (`chainlink/src/submux/mod.rs:583-690`). Two
concrete runs show that neither half of that discipline can be dropped.

## Model

| member | source | states |
|---|---|---|
| `RefcountedPubkeysModule.RefcountedPubkeys.New` | table-mania/src/lookup_table_rc.rs:47-62 | A new table holds exactly the given keys, each with one reservation, however often it was named. |
| `RefcountedPubkeysModule.RefcountedPubkeys.InsertMany` | table-mania/src/lookup_table_rc.rs:67-85 | Every inserted key gains one reservation per occurrence, new or not; all others keep theirs. |
| `RefcountedPubkeysModule.RefcountedPubkeys.InsertUnreservedMany` | table-mania/src/lookup_table_rc.rs:89-104 | Keys seen on chain are added with no reservation; a count that is there stays. |
| `RefcountedPubkeysModule.RefcountedPubkeys.Reserve` | table-mania/src/lookup_table_rc.rs:109-116 | Succeeds exactly if the table has the key, and then adds one reservation of it and nothing else. |
| `RefcountedPubkeysModule.RefcountedPubkeys.Release` | table-mania/src/lookup_table_rc.rs:123-134 | Succeeds exactly if the count is positive, and then takes one; a count never goes below zero. |
| `RefcountedPubkeysModule.RefcountedPubkeys.AnyReserved` | table-mania/src/lookup_table_rc.rs:137-139 | True exactly if some key has a positive count. |
| `LookupTables.PartitionKeepsTotal` | table-mania/src/manager.rs:560-571 | Splitting off the tables without reservations changes no key's total. |
| `TableRuns.ReservationsConserved` | table-mania/src/manager.rs:185-257 | In every state of every run, the counts of a key over the active tables add up to the tasks that hold it plus the pins left by ensure. |
| `TableRuns.NoReleaseIsLost` | table-mania/src/manager.rs:575-583 | No interleaving of scans makes a releaser fall off the list: at its position or further on there is a table to decrement. |
| `TableRuns.RecordedIsExactlyRaised` | table-mania/src/manager.rs:373-379 | At every step of a reserve call, the keys recorded for the caller are exactly those whose counts its own steps raised, each by exactly one. |
| `TableRuns.ReturnedReserveIsComplete` | table-mania/src/manager.rs:185-210 | A reserve call that returns holds exactly the requested keys. |
| `TableRuns.HeldKeyIsServed` | table-mania/src/manager.rs:262-271 | A held key has a positive count in an active table whose chain account is live and lists it. |
| `TableRuns.PinnedKeyStays` | table-mania/src/manager.rs:247-253 | A key stored by ensure keeps a positive count in some active table for the rest of the run. |
| `TableRuns.EnsuredKeyWasStored` | table-mania/src/manager.rs:221-257 | Every key an ensure call has ticked off was in an active table at a moment of that very call. |
| `TableRuns.OnlyUnreservedTablesAreReleased` | table-mania/src/manager.rs:554-572 | A table leaves the active list only when none of its keys is reserved, and then it is on the released list as it was. |
| `TableRuns.OnlyRetiredTablesAreDeactivated` | table-mania/src/lookup_table_rc.rs:642-687 | No deactivation or close ever sent names an active table, active tables are live on chain, and no released table has a reservation. |
| `TableRuns.ForgottenOnlyWhenClosed` | table-mania/src/manager.rs:877-936 | A table leaves the released list only after its deactivation slot plus 512 has passed and its account is closed. |
| `TableRuns.LocalKeysAreOnChain` | table-mania/src/lookup_table_rc.rs:361-396 | Through lost outcomes and stale reads, the local keys of every tracked table, active or released, are among its on-chain addresses, hence at most 256. |
| `TableRuns.SentFitsOneTransaction` | table-mania/src/lookup_table_rc.rs:852-860 | In every state of every run, no extend and no create ever sent has more than 24 keys. |
| `TableManiaModule.HandleExtendTableError` | table-mania/src/manager.rs:391-405 | A rejected instruction asks for a new table, any other error uses up one retry, and an error is returned exactly when none is left. |
| `TableValues.FilterPubkeysPresentInTable` | table-mania/src/manager.rs:407-426 | The keys the table has leave the remainder and, if asked for, are reserved once and recorded; all others stay. |
| `TableManiaModule.TableMania.ReservePubkey` | table-mania/src/manager.rs:262-271 | The scan ends with the key recorded or with it left for a new table, and nothing else of the caller changed. |
| `TableManiaModule.TableMania.ReleasePubkey` | table-mania/src/manager.rs:575-583 | Whatever others do between tables, the scan of a holder finds its reservation. |
| `TableManiaModule.TableMania.ExtendTable` | table-mania/src/manager.rs:440-512 | Success stores exactly what one transaction takes and the table has room for; an error leaves the table reconciled, and means that the chain refused the extend or a request failed; the caller's record stays exact. The size check before the send never refuses. |
| `TableManiaModule.TableMania.SubmitExtend` | table-mania/src/lookup_table_rc.rs:542-632 | Whatever it is given, it takes what the table has room for and refuses that, sending nothing, exactly if it is more than 24 keys. |
| `TableManiaModule.TableMania.ReconcileTable` | table-mania/src/lookup_table_rc.rs:361-396 | The table adopts exactly what the chain lists, without reservations; the call's keys among all it now has are reserved once, recorded and taken off the remainder. |
| `TableManiaModule.TableMania.UseLastTable` | table-mania/src/manager.rs:296-344 | The outcome of the attempt on the last table: stored, no room, rejected and closed for extension, retried, failed, or left by its caller. It retries or fails only if a request failed, and is left only when patience is used up; undisturbed it waits three times at most. |
| `TableManiaModule.TableMania.CreateNewTableAndExtend` | table-mania/src/manager.rs:514-549 | Success appends a table with an address of its own and the first keys in it, once each, and takes exactly these off the remainder. It fails only if a request failed. The size check never refuses. |
| `TableManiaModule.TableMania.SubmitCreate` | table-mania/src/lookup_table_rc.rs:466-511 | Refuses, sending nothing, exactly if the batch is more than 24 keys. |
| `TableSteps.CreateIsAccepted` | table-mania/src/lookup_table_rc.rs:466-511 | In every run, a creation that was sent and has not landed yet is one the chain will not refuse. |
| `TableManiaModule.TableMania.Round` | table-mania/src/manager.rs:289-389 | A round that goes on, undisturbed, has stored a key or used up a retry; one that ends the call does so because a request failed or its caller left. |
| `TableManiaModule.TableMania.ReserveNewPubkeys` | table-mania/src/manager.rs:280-389 | An error means that the authority is wrong or a request failed; a drop, that patience is used up. Undisturbed it ends within one round per key and five more and six awaits a round, so with more patience than that and a chain that answers it succeeds. On every end the record is exact; it never fails for exceeding the extend limit, because no batch it makes does. |
| `TableManiaModule.TableMania.ReservePubkeys` | table-mania/src/manager.rs:185-210 | However it ends, the caller holds exactly what it is told; on success that is the whole request. It ends without success only for a wrong authority, a failed request or a caller that left, and undisturbed, with enough patience and a chain that answers, it succeeds. |
| `TableManiaModule.TableMania.EnsurePubkeysTable` | table-mania/src/manager.rs:221-257 | On success every key was in an active table at a moment of the call; the caller holds nothing. It ends without success only for a wrong authority, a failed request or a caller that left, and undisturbed, with enough patience and a chain that answers, it succeeds. |
| `TableManiaModule.TableMania.ReleasePubkeys` | table-mania/src/manager.rs:554-572 | Once through, the caller holds nothing and every active table has a reservation. It stops half-way only if its caller leaves; undisturbed it needs one await per key and one more. |
| `TableManiaModule.TableMania.DrainTables` | table-mania/src/manager.rs:560-571 | The active list keeps its reserved tables in order, the others are appended to the released list. |
| `TableManiaModule.TableMania.TryGetActiveAddressLookupTableAccounts` | table-mania/src/manager.rs:642-787 | An answer assigns each requested key to exactly one returned table, which was active with that key in it at one moment of the call, and whose finalized contents list it. There is no answer only if the accounts could not be fetched or the caller left. |
| `LookupAnswers.MatchTables` | table-mania/src/manager.rs:653-672 | Each key goes to one table that has it; exactly the keys of no table are left over. |
| `LookupAnswers.AllMatchesAreRemote` | table-mania/src/manager.rs:740-752 | True exactly if all tables asked for came back, each with all its keys. |
| `TableManiaModule.TableMania.DeactivateTables` | table-mania/src/manager.rs:839-867 | Of the list as locked, every table not yet deactivated was asked to be; all stay in place, each as it was or marked deactivated at a slot reached after its deactivation landed. |
| `TableManiaModule.TableMania.Close` | table-mania/src/lookup_table_rc.rs:757-816 | Closing is believed only after the cool-down and with the account gone. |
| `TableManiaModule.TableMania.CloseTables` | table-mania/src/manager.rs:877-936 | Unless there is nothing to close or no slot is to be had, every table cooled down by the observed slot was asked to close; of the list as last locked exactly the tables confirmed gone are dropped, all of them cooled down, and the others stay in order. |
| `SubSlots.DistinctIffNeverReturns` | table-mania/src/manager.rs:520-543 | All table addresses differ if and only if no observed slot comes back after another one, but for a single table when slot 0 was first. |
| `SubSlots.AdmitsExactlyNeverReturning` | table-mania/src/manager.rs:520-543 | At the end of any run, a slot can be taken for the next table if and only if it does not come back after those observed so far; all results on runs hold under no stronger condition on slots. |
| `SubSlots.PositiveSlots` | table-mania/src/manager.rs:520-543 | Away from slot 0 they differ if and only if no slot comes back. |
| `SubSlots.ZeroComesBackOnce` | table-mania/src/manager.rs:520-543 | The exception at slot 0: once is harmless, twice is not. |
| `SubSlots.MonotoneNeverReturns` | table-mania/src/manager.rs:520-543 | Observed slots that never decrease give different addresses. |
| `SubSlots.LateSlotRepeatsAddress` | table-mania/src/manager.rs:520-543 | A slot reported late gives an address a second time. |
| `PubsubRuns.ReconnectEnteredWithoutStreams` | chainlink/src/remote_account_provider/chain_pubsub_actor.rs:231-289 | Whenever the pool reconnects, no stream is polled or being dropped and no subscribe request is under way. |
| `PubsubRuns.OneListenerPerKey` | chainlink/src/remote_account_provider/chain_pubsub_actor.rs:543-581 | Never two subscriptions in use for one key, and the one there is owns the map entry. |
| `PubsubRuns.DrainedAreCancelled` | chainlink/src/remote_account_provider/chain_pubsub_actor.rs:194-203 | While a drain waits, everything in use is waited for and was told to stop. |
| `PubsubRuns.TimeoutBlocksReconnect` | chainlink/src/remote_account_provider/chain_pubsub_actor.rs:278-288 | A drain with a timed-out wait never gets to the pool. |
| `PubsubRuns.EntryStays` | chainlink/src/remote_account_provider/chain_pubsub_actor.rs:295-307 | Over a whole run, through drains, timeouts and aborts, an entry stays until the code of its own subscription removes it. |
| `PubsubRuns.NoOrphanedEntry` | chainlink/src/remote_account_provider/chain_pubsub_actor.rs:543-560 | No finished subscription is left in a map. |
| `PubsubRuns.ReconnectWhileConnected` | chainlink/src/remote_account_provider/chain_pubsub_actor.rs:910-920 | A run in which a reconnect asked for while connected meets a live stream and removes its entry. |
| `PubsubRuns.TwoReconnects` | chainlink/src/remote_account_provider/chain_pubsub_actor.rs:910-920 | The same for two reconnects at a time. |
| `ChainPubsubActorModule.CancelEach` | chainlink/src/remote_account_provider/chain_pubsub_actor.rs:981-991 | Exactly the given subscriptions are cancelled. |
| `ChainPubsubActorModule.ChainPubsubActor.AbortAndSignalConnectionIssue` | chainlink/src/remote_account_provider/chain_pubsub_actor.rs:957-1006 | Only the first to notice aborts, and then whatever was in use before and still is, is cancelled. |
| `ChainPubsubActorModule.ChainPubsubActor.InsertEntry` | chainlink/src/remote_account_provider/chain_pubsub_actor.rs:543-581 | An entry is made exactly if the key has none; otherwise the one there is in use. |
| `ChainPubsubActorModule.ChainPubsubActor.RequestSubscription` | chainlink/src/remote_account_provider/chain_pubsub_actor.rs:589-607 | Requests are repeated until one is accepted, the tries are used up or the subscription is cancelled, and the entry stays meanwhile. |
| `ChainPubsubActorModule.ChainPubsubActor.ConcludeSetup` | chainlink/src/remote_account_provider/chain_pubsub_actor.rs:608-645 | Accepted: a live listener that owns its entry. Refused: finished and out of the map, with the connection given up if it was lost or a program is concerned. |
| `ChainPubsubActorModule.ChainPubsubActor.Subscribe` | chainlink/src/remote_account_provider/chain_pubsub_actor.rs:406-439 | The four ways a subscribe message ends, with the replies that lead to each. |
| `ChainPubsubActorModule.ChainPubsubActor.Unsubscribe` | chainlink/src/remote_account_provider/chain_pubsub_actor.rs:440-467 | Cancels the listener and leaves its entry; ignored while disconnected. |
| `ChainPubsubActorModule.ChainPubsubActor.DrainAndWait` | chainlink/src/remote_account_provider/chain_pubsub_actor.rs:231-289 | Succeeds only if no wait timed out, and then nothing is in use. |
| `ChainPubsubActorModule.ChainPubsubActor.EndWait` | chainlink/src/remote_account_provider/chain_pubsub_actor.rs:295-307 | A wait ends well exactly if completion was signalled, and only then an entry is removed. |
| `ChainPubsubActorModule.ChainPubsubActor.PoolReconnect` | chainlink/src/remote_account_provider/pubsub_connection_pool.rs:156-188 | Demands that nothing is in use when entered, and nothing comes into use while it runs. |
| `ChainPubsubActorModule.ChainPubsubActor.TryReconnect` | chainlink/src/remote_account_provider/chain_pubsub_actor.rs:910-954 | Connected again exactly on success, after drain, pool and verification; then nothing of before is in use. |
| `ChainPubsubActorModule.ChainPubsubActor.Listen` | chainlink/src/remote_account_provider/chain_pubsub_actor.rs:647-722 | Relays the items it reads in order and stops only because it is cancelled, its receiver is gone or the stream ended; it aborts exactly if the stream of a subscription that was not cancelled ended while still connected; it ends finished. |
| `Resubscribe.ReplayPartitions` | chainlink/src/remote_account_provider/chain_pubsub_client.rs:306-361 | However requests are answered, the missing keys split exactly into restored and remaining ones. |
| `Resubscribe.ChainPubsubClient.Pass` | chainlink/src/remote_account_provider/chain_pubsub_client.rs:316-337 | Each key is tried once, in order, and the failed ones are kept in order. |
| `Resubscribe.ChainPubsubClient.ResubMultiple` | chainlink/src/remote_account_provider/chain_pubsub_client.rs:297-387 | Every pass but the last shrinks the rest; well exactly if nothing is left; the last request's own error exactly if nothing was restored and nothing subscribed; the delay is reset by progress, doubled up to 800 without, and never above its limit. |
| `HistorySlots.FirstIsUnique` | aperture/src/history.rs:93-110 | Being the first n available slots of a range determines the answer. |
| `HistorySlots.GetBlockSlots` | ledger/src/store/api.rs:172-194 | The first n slots of the ledger's range that have a time. |
| `HistorySlots.Slots` | aperture/src/history.rs:93-110 | The first n slots of the union of both sources, with the limit split between them and no underflow. |
| `HistorySlots.FirstAvailableBlock` | aperture/src/history.rs:112-114 | The minimum of the union, zero if it is empty. |
| `HistorySlots.CheckCleanedBlock` | aperture/src/history.rs:116-127 | Cleaned up exactly if there are blocks and all are newer. |
| `HistorySlots.PagingEnumerates` | aperture/src/history.rs:93-110 | Any paging from last plus one to an answer that is not full enumerates the union, each slot once, ascending. |
| `HistorySlots.PageThrough` | aperture/src/history.rs:93-110 | A client that asks on behind the last slot ends with such a paging. |
| `StableMerge.SortIsStable` | aperture/src/history.rs:310-312 | The sort orders by slot and index descending and leaves ties as they were. |
| `StableMerge.StableSortIsUnique` | aperture/src/history.rs:310-312 | There is only one such result. |
| `StableMerge.SortIsMerge` | aperture/src/history.rs:310-312 | For two sorted sources it is their merge, the engine first on ties. |
| `StableMerge.DedupCounts` | aperture/src/history.rs:313-314 | One entry of every signature is left. |
| `StableMerge.DedupKeepsLeading` | aperture/src/history.rs:310-314 | It is the leading one. |
| `HistorySignatures.RetainUnseen` | aperture/src/history.rs:313-314 | The loop with the seen-set keeps exactly the first entry of every signature. |
| `HistorySignatures.LimitPushdown` | aperture/src/history.rs:260-315 | Asking each source for n entries gives the same n as asking for all, for any overlap and any ties. |
| `HistorySignatures.WindowsJoin` | aperture/src/history.rs:252-290 | Splitting the cursors between the sources splits the window of the concatenated history, crossed cursors included. |
| `HistorySignatures.CursorsPartition` | aperture/src/history.rs:245-315 | With the legacy history behind the engine's, the answer is the first n of that window of the concatenation. |
| `HistorySignatures.QuerySignatures` | aperture/src/history.rs:245-332 | With limits pushed down and cursors split it is the plain query over what the cursors leave, a cursor the ledger does not know setting no bound; with partitioned histories it is the first n of the window. |
| `HistorySignatures.PagingEnumerates` | aperture/src/history.rs:245-332 | Any paging with the last returned signature to an empty answer enumerates every signature exactly once. |
| `HistorySignatures.PageThrough` | aperture/src/history.rs:245-332 | A client that asks on before the last signature ends with such a paging. |
| `ConfirmerRuns.NoWaiterIsStranded` | rpc-client/src/signature_confirmer.rs:293-319 | Whoever waits is queued, and a worker is alive or about to be spawned. |
| `ConfirmerRuns.OneWorker` | rpc-client/src/signature_confirmer.rs:351-371 | The flag is up exactly while there is one worker, there is never a second, and no list is empty. |
| `ConfirmerRuns.AnswersAreFetched` | rpc-client/src/signature_confirmer.rs:463-472 | Every answer is the result of a status fetched for that signature that satisfies the commitment. |
| `ConfirmerRuns.CacheAnswersAreFresh` | rpc-client/src/signature_confirmer.rs:436-449 | An answer from the cache is the result of a satisfying status that an earlier step of the run applied, less than the time to live ago. |
| `ConfirmerRuns.FateIsSealedOnce` | rpc-client/src/signature_confirmer.rs:321-328 | A caller is answered at most once, and never after it gave up. |
| `ConfirmerRuns.LeavesOnlyOnce` | rpc-client/src/signature_confirmer.rs:341-349 | A waiter leaves the queue only by a status that satisfies it, which answers its caller, or by its own timeout. |
| `ConfirmerRuns.WakeServesEverybody` | rpc-client/src/signature_confirmer.rs:354-363 | The worker asks for everybody who waits and stops only if nobody does. |
| `ConfirmerRuns.ApplyAnswers` | rpc-client/src/signature_confirmer.rs:399-426 | A fetched status that satisfies whoever waits answers them. |
| `ConfirmerRuns.TurnServes` | rpc-client/src/signature_confirmer.rs:353-369 | Whoever waits when the worker wakes up and gets a satisfying status in that turn does not wait any more after it. |
| `SignatureConfirmerModule.ChunksDoNotShow` | rpc-client/src/signature_confirmer.rs:373-397 | If all requests succeed, fetching in chunks is fetching all at once. |
| `SignatureConfirmerModule.FaithfulRepliesServe` | rpc-client/src/signature_confirmer.rs:373-397 | If all requests succeed, a caller whose signature is asked for and whose commitment the chain's status satisfies gets that status, wherever the chunks are cut. |
| `SignatureConfirmerModule.ServeWaiters` | rpc-client/src/signature_confirmer.rs:412-420 | The waiters a status satisfies are answered, the others stay in order. |
| `SignatureConfirmerModule.SignatureConfirmer.RegisterWaiter` | rpc-client/src/signature_confirmer.rs:293-312 | Answered from the cache, or queued with a worker running; the worker is started exactly if none ran. |
| `SignatureConfirmerModule.SignatureConfirmer.RemoveWaiter` | rpc-client/src/signature_confirmer.rs:341-349 | The caller's waiter is out of the queue. |
| `SignatureConfirmerModule.SignatureConfirmer.WaitWithBatchedPolling` | rpc-client/src/signature_confirmer.rs:282-329 | Without time only the cache answers, and nothing is queued. An answer is justified by what was fetched; without one nothing of the caller is left in the queue. |
| `SignatureConfirmerModule.SignatureConfirmer.CachedStatus` | rpc-client/src/signature_confirmer.rs:331-339 | Answers exactly from a fresh cached status that satisfies the commitment. |
| `SignatureConfirmerModule.SignatureConfirmer.FetchStatuses` | rpc-client/src/signature_confirmer.rs:373-397 | Chunk by chunk, failed requests skipped, short replies cut. |
| `SignatureConfirmerModule.SignatureConfirmer.ApplyStatuses` | rpc-client/src/signature_confirmer.rs:399-426 | The nested loops are one protocol step: every status cached and applied in order. |
| `SignatureConfirmerModule.SignatureConfirmer.Poll` | rpc-client/src/signature_confirmer.rs:353-369 | One turn of the worker: it stops exactly with nobody waiting, the flag down and no worker left; otherwise it asks for all that are waited for, fetches them chunk by chunk and applies what it got, and nobody waits any more who waited when it woke up and got a satisfying status. |
| `TokenLayout.ReadLe64` | core/src/token_programs.rs:480-480 | A u64 survives its little-endian encoding. |
| `TokenLayout.UnpackPack` | core/src/token_programs.rs:122-143 | Packing over any old bytes and unpacking gives the account back. |
| `TokenLayout.PackUnpack` | core/src/token_programs.rs:122-143 | Packing what was unpacked over the same bytes changes none. |
| `TokenLayout.UnpackAmount` | core/src/token_programs.rs:506-507 | Overwriting the amount in place changes the amount only. |
| `EphemeralAtas.Encode` | core/src/token_programs.rs:512-529 | Each field is at its place with zeroes behind, and decoding gives the value back if and only if the mint is not the default key. |
| `EphemeralAtas.RoundTrip` | core/src/token_programs.rs:473-488 | Decoding the encoding gives the value back if and only if the mint is not the default key. |
| `EphemeralAtas.LegacyRoundTrip` | core/src/token_programs.rs:480-485 | The 72-byte form does so if and only if the bump is the derived one. |
| `EphemeralAtas.EncodeDecode` | core/src/token_programs.rs:473-529 | What decodes encodes to the same bytes, padding aside. |
| `EphemeralAtas.ProjectIntoAtaAccount` | core/src/token_programs.rs:490-509 | The steps on the buffer succeed exactly on well-formed accounts of that mint and owner, and change only amount, close authority and the native reserve. |
| `EphemeralAtas.ProjectionIs` | core/src/token_programs.rs:122-191 | The projection as a function has the same meaning. |
| `EphemeralAtas.NativeNormalization` | core/src/token_programs.rs:59-163 | Only malformed accounts are refused. A native account comes back with its reserve as lamports, not native, its close authority the default key and all else as it was, extensions included; any other account comes back unchanged. Twice is once. |
| `EphemeralAtas.RemapReads` | core/src/token_programs.rs:359-388 | A delegated account at its own address maps to what its data say. |
| `EphemeralAtas.ProjectThenRemap` | core/src/token_programs.rs:359-388 | Projecting and mapping back gives owner, mint, amount and the canonical bump, for both programs and native mints. |
| `EphemeralAtas.ProjectionIsNotMagic` | core/src/token_programs.rs:391-424 | A projection never passes for a Magic ATA. |
| `AtaTakeover.MergeTokens` | chainlink/src/cloner/ata.rs:63-88 | Merges exactly compatible, unfrozen, fitting accounts; the allowances overflow only if the balances do. |
| `AtaTakeover.MergeAta` | chainlink/src/cloner/ata.rs:44-93 | Succeeds exactly on a Magic ATA of the same program, mint and wallet with such tokens. |
| `AtaTakeover.PackedAreMergeable` | chainlink/src/cloner/ata.rs:49-62 | Any two token records that merge do so as accounts, whatever bytes they are packed over. |
| `AtaTakeover.MergeConserves` | chainlink/src/cloner/ata.rs:85-92 | The merged balance is the sum; all else and the extensions are the projection's. |
| `AtaTakeover.EqualDelegatesAddUp` | chainlink/src/cloner/ata.rs:71-78 | Equal delegates get the sum of both effective allowances, covered by the new balance. |
| `AtaTakeover.OneDelegateIsCarriedOver` | chainlink/src/cloner/ata.rs:69-70 | A one-sided approval keeps its amount; what it allows grows exactly if it exceeded its balance and the other side has one. |
| `AtaTakeover.ProjectMergeRemap` | chainlink/src/cloner/ata.rs:44-93 | With a takeover in between, mapping back gives the sum of both amounts. |
| `Materialize.TakeoverConserves` | chainlink/src/cloner/ata.rs:28-33 | An install holds the projection's balance plus that of the Magic ATA it replaces. |
| `Materialize.Engine.Install` | chainlink/src/cloner/ata.rs:34-34 | Replaces the account exactly if it is still what was expected, or leaves it alone. |
| `Materialize.Engine.Materialize` | chainlink/src/cloner/ata.rs:12-42 | Success is one write, of the projection plus the Magic balance at that instant; failure is none; every attempt but the last ended in a conflict, and there are at most three. |

## Left out

- Transport, transaction building, signing, metrics and logging: only their outcomes occur.
- Engine, keeper and RocksDB internals: stated as the contracts used, namely ordered top-n reads and atomic compare-and-install.
- The ledger's own handling of cursors within one slot (`ledger/src/store/api.rs:438-700`): it is asked for the first n entries of its window.
- The conversion of signature entries to RPC objects, block and transaction encoding: one case per field.
- The WebSocket race of the confirmer, and whether its worker ever stops: a dropped caller leaves its waiter behind.
- Wrap-around of the waiter ids after 2^64 callers.
- Shutdown of the subscription actor, and the pruning of idle connections after a reconnect.
- The filter that program listeners put on updates: listeners relay what they forward.
- Readiness delays and sleep intervals of the table manager: timing heuristics.
- PDA derivation and the SPL packing code: uninterpreted functions and an assumed layout; extension data of token accounts is carried, not parsed.
- Configuration, error-code mapping, JSON-RPC payloads, plugin loading, the operator CLI and the terminal UI: plumbing.
- TableManiaModule.TableMania.Interfere: its body does nothing; it stands for all other tasks, and callers use only its contract. The same holds for `Interfere` of the other classes.
- TableManiaModule.TableMania.GetSlot: a reported slot that comes back, so that its address would be used twice, stands for a later one.
- TableManiaModule.TableMania.ReleasePubkeys: a call that is dropped half-way is outside the claim about drained tables, as in the source, where the drained list is moved over several awaits.
- SignatureConfirmerModule.SignatureConfirmer.PollLoop: the endless loop around `Poll` is cut after a given number of rounds.
- HistorySignatures.CursorsPartition: speaks of cursors that occur in the history and of histories without a common signature.
- HistorySignatures.QuerySignatures: a cursor that a source knows from another address only is not modelled; the ledger then bounds by its slot.
