# Derived state of an Aleph node: a Dafny model

An Aleph node keeps derived state next to its messages: aggregates, counts, a hash ring, VM
versions, file pins, chain cursors, pages of listings. Each of these is defined by something simple
(a fold, a count, a nearest-node rule, a sorted list) and maintained by something complicated that
works incrementally, out of order, concurrently or against an unreliable network. This project models
the maintenance code and proves what it has to do with the definition.

Tables are maps, sets or sequences of rows, one SQL statement is one atomic change, JSON is a
datatype. Objects that the program updates in place are classes; every method that changes state is
proved against a function from the old state to the new one, and the main results are lemmas about
those functions, over single steps and over whole runs.

| file | about |
|---|---|
| `Wrappers.dfy` | optional values, order in a list, what a partial function keeps of one |
| `TimeOrder.dfy` | the order (time, item_hash), sorting and filtering of tables |
| `Json.dfy`, `Aggregates.dfy`, `AggregateRuns.dfy` | deep merge; aggregates against the fold of their elements; whole runs |
| `SecurityGroups.dfy` | statement-level interleaving of the security-aggregate groups |
| `HashRing.dfy`, `RingChanges.dfy` | the clockwise walk against nearest nodes; joining, leaving, routing |
| `MessageCounts.dfy` | the counts trigger and the rebuild against counting |
| `PendingQueue.dfy` | batches, retries, deferral, rejection |
| `RpcSync.dfy`, `EthIndexer.dfy` | adaptive block ranges, provider failover, the block cursor |
| `VmVersions.dfy`, `FilePins.dfy`, `PostsBackfill.dfy` | amendments, grace pins, the backfill cursor |
| `Queries.dfy`, `Keyset.dfy` | placeholders and arguments; paging by cursor and by offset |
| `Framing.dfy` | length-prefixed frames between peers |

`dafny verify dfyconfig.toml` checks everything.

## Where the code does less than one might expect

For each of these the exact condition under which the expected property holds is proved.

- Aggregates: the merge path goes by arrival, the rebuild by item hash, so on equal times a row can
  name the wrong last revision (`Aggregates.ProcessKeepsConsistentIff`). Redelivering an old message
  of a large clean aggregate marks it dirty (`Aggregates.RedeliveryIsNoOpIff`).
- Ring: with a replication factor of zero the walk still returns one node (`RingChanges.WalkLengthIff`).
- Counts: a message whose five keys are not all different is refused by the trigger
  (`MessageCounts.FiveKeysIff`), such messages can make the rebuild leave an empty table
  (`MessageCounts.RebuildAgreesIff`), and rows changed while the trigger is off derail the counts when
  no rebuild follows, as after a failed backfill batch (`MessageCounts.ChangeKeepsAgreeIff`).
- Queue: duplicates are recognised by rows in other tables, not by the message itself. A message whose
  handler wrote its derived rows, but which then failed to be stored, is dropped by the next batch and
  lost; so is one that is new, but whose hash carries a file pin, as that of content uploaded
  beforehand (`PendingQueue.DuplicateIsStoredIff`, `PendingQueue.PinnedUploadIsLost`). Nothing else is
  lost (`PendingQueue.NothingElseIsLost`).
- Indexing: the documented limit of 100 blocks is exceeded by one when the batch size is 100 and the
  range spans exactly 101 blocks, and without bound from block 0 with batch size 0
  (`EthIndexer.EthereumIndexer.IndexBlocks`). Its rate-limit branch and the branch of the RPC scan that
  skips a chunk cannot be reached.
- VMs: forgetting the amendment that is current leaves the version row pointing at nothing
  (`VmVersions.ForgetKeepsNewestIff`), and no further amendment is ever accepted
  (`VmVersions.ForgettingCurrentFreezes`).
- Pins: the day of grace can be cut short by an older grace pin of another owner
  (`FilePins.SurvivesTheDayIff`); since (item_hash, owner) is still the primary key, the owner cannot
  store the file again during the grace period (`FilePins.RefusedAllDayIff`); forgetting the hash of a
  file instead of a message leaves the file without any pin (`FilePins.FilesPinnedIff`); content that can
  no longer be read sends the grace pin to the wrong hash (`FilePins.ForgetKeepsPinnedIff`); the sweep
  counts a file twice when it meets two of its pins (`FilePins.CleanedCountsFilesIff`).
- Posts backfill: a batch that ends between messages of one time can skip the later ones
  (`PostsBackfill.LosesNothingIff`, and `PostsBackfill.UncutIff` for the table alone), and messages at or
  before time zero are never reached (`PostsBackfill.CompleteIff`).
- Queries: the arguments do not fit the count query once a cursor, limit or offset was added
  (`Queries.CountQueryFitsIff`); one of the JSON filters does not follow dotted paths
  (`Queries.TextEqIsTextInIff`); an empty list of values filters nothing (`Queries.BuiltMeansCalls`); an OR
  that a raw clause leaves outside parentheses regroups the whole query (`Queries.RawOrIsWrongIff`), and
  filters added after the order leave no query at all (`Queries.StatementIff`).
- Paging by number: offsets are computed in 32 bits and wrap (`Keyset.OffsetIsExactIff`), rows arriving
  in front make the next page repeat some (`Keyset.OffsetPagesRepeatIff`), and the total is wrong on
  pages beyond the last row (`Keyset.TotalIsRightIff`).
- Framing: the sender does not check the size the reader enforces (`Framing.RoundTripIff`), and a
  connection stays in use after a write that failed part-way, so that the torn frame swallows what
  comes next (`Framing.TornFrameSwallows`).

## Conventions

- An item hash that is sorted on is an integer, its place in the collation order; times are reals.
- The element count above which an aggregate is marked dirty is a parameter (1000 in the program).
- The network is an argument: a list of responses, or a function from the number of the request to
  its outcome. So are clocks, the outcome of a message handler, checks that do not concern the
  modelled state, and whether a payload decodes.
- Item hashes identify messages: `ContentAddressed`, `Attributed` and `Book` say so where it is used.
- Rows of equal time are met in table order by both statements of a posts backfill batch.
- Which characters are alphanumeric is left open (`Queries.ALPHANUMERIC`); nothing depends on it.
- Virtual nodes of different nodes are assumed not to collide where a lemma says `CollisionFree` or
  `ValidRing`; the methods themselves are proved without that assumption.

## Model

| member | source | states |
|---|---|---|
| `Json.DeepMerge` | src/handlers/aggregate.rs:17-29 | The field-by-field recursive merge, in any order of the update's fields, yields the merge function |
| `Json.MergeFields` | src/handlers/aggregate.rs:17-29 | What a merged object holds: the update decides every non-object field it carries, all other fields of the base stay |
| `Json.MergedAt` | src/handlers/aggregate.rs:17-29 | For every base, update and path, at every depth: where the update has a non-object along the path the merge holds what the update holds, where it says nothing the merge holds what the base holds, and where it has an object so has the merge |
| `Aggregates.LatestDecides` | src/handlers/aggregate.rs:62-79 | At every path the fold holds what the latest element that decides the path holds, if later elements do not mention it |
| `Aggregates.NobodyDecides` | src/handlers/aggregate.rs:62-79 | A path that no element mentions is not in the fold |
| `Json.MergeOntoEmpty` | src/handlers/aggregate.rs:70-79 | `{}` is a left identity at every depth, so a rebuild may start from it and a first insert may store the message as is |
| `Json.MergeTwice` | src/handlers/aggregate.rs:17-29 | merge(merge(a,b),b) = merge(a,b) at every depth |
| `Json.MergeDoesNotAssociate` | src/handlers/aggregate.rs:17-29 | A non-object between two objects makes the grouping matter |
| `Aggregates.Store.RebuildFromElements` | src/handlers/aggregate.rs:38-90 | The loop leaves the row that is the fold of the elements in (time, item_hash) order; no elements or no row: nothing changes |
| `Aggregates.Store.Process` | src/handlers/aggregate.rs:116-235 | Insert, merge, skip-dirty, mark-dirty and rebuild paths: the whole new state of both tables |
| `Aggregates.Store.Forget` | src/handlers/forget.rs:153-195 | The element goes; the row goes with its last element and is rebuilt otherwise |
| `Aggregates.ProcessKeepsConsistentIff` | src/handlers/aggregate.rs:154-229 | From consistent tables, a delivery leaves every row equal to its fold and rows exactly for keys with elements, if and only if it is not a stale tie (clean row, same time, smaller hash than the last revision) |
| `Aggregates.RedeliveryIsNoOpIff` | src/handlers/aggregate.rs:125-229 | Redelivering a stored message changes nothing if and only if it is neither late under a clean row with more elements than the threshold nor a stale tie |
| `Aggregates.ForgetKeepsConsistent` | src/handlers/forget.rs:153-195 | Forgetting any hash, known or not, keeps every row consistent |
| `Aggregates.RefreshKeepsConsistent` | src/web/handlers.rs:1144-1155 | The lazy refresh keeps every row consistent |
| `AggregateRuns.RunIsConsistent` | src/handlers/aggregate.rs:116-235 | After any run of deliveries, forgets and refreshes with distinct times per key, a row exists iff its key has elements and every clean row is the fold of the remaining elements |
| `AggregateRuns.ServedIsFold` | src/web/handlers.rs:1144-1155 | What a reader is served, after the refresh of a dirty row, is the fold of the stored elements |
| `AggregateRuns.ForgottenLeavesNoTrace` | src/handlers/forget.rs:153-195 | Forgetting a hash at the end of any run serves the same rows as the run in which it was never delivered |
| `AggregateRuns.OrderDoesNotMatter` | src/handlers/aggregate.rs:154-229 | Two runs delivering the same messages in any order, with any repetitions, serve the same rows |
| `AggregateRuns.OrderDoesNotMatterWhenClean` | src/handlers/aggregate.rs:154-229 | If neither run took the dirty path the tables agree without any rebuild |
| `AggregateRuns.ShortRunStaysClean` | src/handlers/aggregate.rs:193-215 | A run no longer than the threshold never takes the dirty path |
| `AggregateRuns.RedeliveryCanDirty` | src/handlers/aggregate.rs:193-215 | For every threshold there is a run after which redelivering the first message marks its row dirty |
| `AggregateRuns.StaleTieIsReachable` | src/handlers/aggregate.rs:174-190 | Two messages of one time, the larger hash first, leave a clean row whose content differs from the fold |
| `SecurityGroups.StatementsAreProcess` | src/handlers/aggregate.rs:116-235 | The SQL statements of one uninterrupted handler call add up to the handler's state change |
| `SecurityGroups.EachGroupRunsAlone` | src/jobs/message_processor.rs:231-251 | Under any schedule, the rows of a group and its progress are those of the group running alone for as many statements |
| `SecurityGroups.CompleteSchedulesAgree` | src/jobs/message_processor.rs:231-251 | Any two complete statement-level interleavings end in the same aggregates and the same elements under every key |
| `SecurityGroups.InterleavingIsSequential` | src/jobs/message_processor.rs:170-251 | Every complete interleaving ends like processing the groups one after another, each in its own order |
| `HashRing.ContentRing.AddNode` | src/services/sharding.rs:68-80 | All virtual nodes are placed on the ring, taking over occupied positions |
| `HashRing.ContentRing.RemoveNode` | src/services/sharding.rs:83-91 | All positions of the node are deleted, whoever holds them |
| `HashRing.ContentRing.GetResponsibleNodes` | src/services/sharding.rs:97-131 | The two range loops with the seen-set compute `Found` |
| `HashRing.WalkFindsNearest` | src/services/sharding.rs:97-131 | `Found` lists, nearest first, exactly the factor-many nodes with the smallest clockwise distance from the content hash (at least one, all if there are fewer), each once, with their records |
| `HashRing.AddKeepsValid` | src/services/sharding.rs:68-80 | Adding keeps the ring equal to the positions of the present nodes |
| `HashRing.RemoveKeepsValid` | src/services/sharding.rs:83-91 | Removing keeps the ring equal to the positions of the present nodes |
| `RingChanges.RemoveNodeDisruption` | src/services/sharding.rs:83-131 | Removing a node keeps every other responsible node, in order, and adds at most one; if it was not responsible nothing changes |
| `RingChanges.AddNodeDisruption` | src/services/sharding.rs:68-131 | Adding a node makes nobody but that node newly responsible and displaces at most one |
| `RingChanges.WalkLengthIff` | src/services/sharding.rs:113-131 | The walk returns min(factor, nodes) nodes if and only if the factor is positive or there are no nodes |
| `RingChanges.AddThenRemoveIff` | src/services/sharding.rs:68-91 | Adding an absent node and removing it restores the ring if and only if its positions were free |
| `RingChanges.RebuiltIsRing` | src/services/sharding.rs:193-206 | A rebuild from a duplicate-free list gives the ring of exactly those nodes |
| `RingChanges.RebuildIgnoresOrder` | src/services/sharding.rs:193-206 | Any permutation of a duplicate-free list gives the same ring |
| `RingChanges.ShardingService.RebuildFromPeers` | src/services/sharding.rs:193-206 | The loop over the peers, starting from a fresh ring, computes the rebuilt ring |
| `RingChanges.ShardingService.GetRoutingDecision` | src/services/sharding.rs:221-236 | The pass for our own id and the pass for the replicas, over the responsible nodes of the current ring |
| `RingChanges.ExactlyResponsibleOwn` | src/services/sharding.rs:221-236 | Over nodes sharing a ring, exactly the responsible ones decide Owned, with precisely the records of the other responsible nodes, in order, as replicas; every other node names the whole responsible list |
| `RingChanges.OthersInOrder` | src/services/sharding.rs:221-236 | The replicas are the responsible nodes with another id than ours, in their order |
| `MessageCounts.CountedMessages.Upsert` | src/db/migrations.rs:635-664 | Insert or overwrite: with the trigger on, refused iff two of the five keys coincide, otherwise OLD keys down and NEW keys up; with it off, only the row changes |
| `MessageCounts.CountedMessages.Delete` | src/db/migrations.rs:635-646 | The row goes, and the trigger, when on, lowers its counts |
| `MessageCounts.CountedMessages.Rebuild` | src/jobs/backfill.rs:826-863 | Truncate and refill: refused, leaving an empty table, iff one key comes out of two groupings; the counts are right iff it was not refused |
| `MessageCounts.CountedMessages.BackfillDenorm` | src/jobs/backfill.rs:690-714 | Trigger off, row updates, rebuild unless an update failed, trigger on again in any case; without failure the counts are right iff no key comes out of two groupings |
| `MessageCounts.ChangeKeepsAgreeIff` | src/db/migrations.rs:635-664 | One change from right counts leaves right counts if and only if it is neither a trigger-off change of keys nor a refused rebuild |
| `MessageCounts.RebuildRestores` | src/jobs/backfill.rs:690-714 | Whatever happened before, trigger on or off, a rebuild that is not refused makes the counts right up to the next change that derails them |
| `MessageCounts.CountsAlwaysAgree` | src/db/migrations.rs:635-664 | After any inserts, updates and deletes every count (absent = 0) is the number of messages carrying the key, hence never negative |
| `MessageCounts.CountsMean` | src/db/migrations.rs:648-658 | Right counts, said of the messages: how many have a given type, status, sender and owner; type and status; status and sender; sender; type |
| `MessageCounts.RebuildAgreesIff` | src/jobs/backfill.rs:826-863 | The rebuilt table agrees with the messages if and only if no key comes out of two groupings |
| `MessageCounts.RebuildEqualsMaintained` | src/jobs/backfill.rs:826-863 | Maintained and rebuilt table are equal up to zero rows |
| `MessageCounts.FiveKeysIff` | src/db/migrations.rs:648-658 | Exactly which messages the five-row upsert accepts |
| `MessageCounts.NonEmptyFieldsSeparate` | src/jobs/backfill.rs:838-856 | Non-empty type, status and sender everywhere make the five key shapes disjoint, whoever the owner |
| `PendingQueue.MessageProcessor.Enqueue` | src/jobs/p2p_consumer.rs:479-495 | A message is queued with zero retries unless it is queued already |
| `PendingQueue.MessageProcessor.StoreAndEnqueue` | src/jobs/chain_sync.rs:693-830 | Chain sync stores a message first and queues it then, with its block as reception time and first attempt |
| `PendingQueue.MessageProcessor.Requeue` | src/services/content_fetch.rs:423-467 | A stored message whose content came in is queued, or its row starts again with zero retries |
| `PendingQueue.MessageProcessor.ProcessBatch` | src/jobs/message_processor.rs:92-289 | The four phases together give the state that the batch calls for; exactly the rows not known, forgotten or blacklisted have a turn at a handler, each one turn, and security aggregates of one address have theirs in batch order |
| `PendingQueue.MessageProcessor.CollectResults` | src/jobs/message_processor.rs:258-289 | Which rows are retried, rejected, or left for the final delete |
| `PendingQueue.ClassifiedIsPartition` | src/jobs/message_processor.rs:153-199 | Every fetched row is deleted at once or handled on exactly one route, and each route keeps batch order |
| `PendingQueue.HandledIff` | src/jobs/message_processor.rs:134-183 | A fetched row goes to a handler if and only if it has no derived row, no pin, is not forgotten and its sender is not blacklisted; otherwise it is dropped for the first of these that applies |
| `PendingQueue.GroupsMean` | src/jobs/message_processor.rs:170-199 | Among the rows that go to a handler, exactly the security aggregates of an address form its group and exactly the others are parallel, each once and in batch order |
| `PendingQueue.BatchMeans` | src/jobs/message_processor.rs:153-289 | For every message whatever, from fields and outcome alone: whether it is queued, stored, derived and rejected after a batch, and the retries and next attempt of its row |
| `PendingQueue.MessageProcessor.HandlingOrder` | src/jobs/message_processor.rs:206-256 | Every handled row has one turn, and those of one address keep batch order |
| `PendingQueue.BackoffTable` | src/jobs/message_processor.rs:640-642 | 60, 120, 240, 480, 960 and 1920 seconds, and 3600 from the seventh failure on |
| `PendingQueue.BackoffGrows` | src/jobs/message_processor.rs:640-642 | Backoffs never decrease and stay between 60 and 3600 seconds |
| `PendingQueue.NineBackoffs` | src/jobs/message_processor.rs:640-642 | The nine backoffs before rejection add up to 14580 seconds |
| `PendingQueue.RetriesStayBelowMax` | src/jobs/message_processor.rs:624-661 | Over any run no queued row reaches ten retries, so the clean-up of rows with ten or more finds none |
| `PendingQueue.MessageProcessor.RunHandlers` | src/jobs/message_processor.rs:352-456 | What the handlers of a batch leave: derived rows, stored messages, deferred rows |
| `PendingQueue.RunTraced` | src/jobs/message_processor.rs:295-318 | Over any run whatever, a derived row without a stored message comes from a handling that came apart |
| `PendingQueue.StoredIff` | src/jobs/message_processor.rs:418-432 | Over any run and for any kind of message, stored are exactly the messages that were stored at the start, that chain sync stored, or that a handling processed |
| `PendingQueue.RunStanding` | src/jobs/message_processor.rs:295-318 | Over any run that deletes no derived row of a message: how stored message, derived row and a handling that came apart determine one another, for messages stored first and for all others |
| `PendingQueue.DuplicateIsStoredIff` | src/jobs/message_processor.rs:153-158 | A message of a kind with derived rows that is dropped as a duplicate has been stored if and only if chain sync stored it first, or its derived rows are there and no handling of it came apart; a mere file pin on its hash also makes a duplicate |
| `PendingQueue.SplitLosesMessage` | src/jobs/message_processor.rs:418-432 | A message whose handler wrote derived rows but which was not stored is dropped by the next batch that fetches it, and is neither queued, stored nor recorded as rejected |
| `PendingQueue.PinLosesMessage` | src/jobs/message_processor.rs:299-308 | So is an unstored message whose hash has a file pin, without any handling |
| `PendingQueue.PinnedUploadIsLost` | src/web/handlers.rs:2477-2490 | From the empty tables: a message queued under the hash of uploaded content is gone after one batch |
| `PendingQueue.NothingElseIsLost` | src/jobs/message_processor.rs:153-289 | Over any run a queued message is still queued, stored, recorded as rejected, turned away as forgotten or blacklisted, came apart in a handler, or was dropped for a file pin alone |
| `PendingQueue.FailingMessage` | src/jobs/message_processor.rs:624-661 | After n failures the row has n retries and is not due before the first n backoffs have passed |
| `PendingQueue.RejectedOnTenthFailure` | src/jobs/message_processor.rs:624-661 | A message failing every attempt, with nothing else making a batch drop it, is rejected with exactly its tenth failure, at least 14580 seconds after the first |
| `RpcSync.RpcSyncClient.FetchSyncEvents` | src/chains/rpc_sync.rs:159-258 | Against any sequence of successes, too-many-logs and errors, a returning call gives one event for each log of start..last that decodes, in order, with last = latest unless more than 10000 events were gathered; a call that is still waiting has succeeded at most (latest-start)/100 times; every request goes on behind the last success with a range doubled or halved as its predecessor ended |
| `RpcSync.EventsEachOnce` | src/chains/rpc_sync.rs:192-208 | The events of any blocks are those of the logs that decode: one for each such log, in order of block and place, and no other |
| `RpcSync.FailuresHalve` | src/chains/rpc_sync.rs:216-246 | Failures in a row leave the start alone and halve the range each time |
| `RpcSync.ElevenHalvings` | src/chains/rpc_sync.rs:216-246 | From any permitted range eleven failures in a row reach the smallest |
| `RpcSync.RangeIsBlocks` | src/chains/rpc_sync.rs:188-208 | Decoding one range is decoding its blocks one by one |
| `RpcSync.ChainSync.Cycle` | src/jobs/chain_sync.rs:1023-1053 | A completed cycle hands on one event for each decodable log between old and new cursor, and leaves the cursor only when there was none up to the head, otherwise moving it to the head or past more than 10000 events; a failed one leaves the cursor, and fails only for want of a head, of answers, or of the referenced files |
| `RpcSync.EachEventOnce` | src/jobs/chain_sync.rs:998-1053 | Over any sequence of cycles, failed ones included, the cursor never moves back and completed cycles hand on exactly one event for each decodable log below it, in chain order |
| `EthIndexer.MultiRpcProvider.MarkFailed` | src/chains/ethereum.rs:73-98 | One more failure for the current provider, then the next one in turn |
| `EthIndexer.MultiRpcProvider.ExecuteWithRetry` | src/chains/ethereum.rs:110-150 | Providers are tried in turn until one answers; failure means each was tried exactly once, gained one failure, and the current provider is the one it was |
| `EthIndexer.FailedNext` | src/chains/ethereum.rs:110-150 | One more failed attempt extends the set of providers that failed once by exactly the next in turn |
| `EthIndexer.EthereumIndexer.IndexBlocksAdaptive` | src/chains/ethereum.rs:299-349 | Ends for every network behaviour; success partitions start..end into consecutive ranges and returns their events; failure has indexed a prefix, and comes exactly with a failed batch of at most 10 blocks after every provider failed in a row; each batch is as large as its size says, ten more after success, half after failure; ranges are at most 100 blocks, except that from block 0 with batch size 0 the subtraction wraps and one range takes everything |
| `EthIndexer.FiveFailures` | src/chains/ethereum.rs:318-339 | Five failures in a row make indexing give up, whatever the batch size was |
| `EthIndexer.EthereumIndexer.IndexBlocks` | src/chains/ethereum.rs:382-425 | Refuses start > end; otherwise as above, and a range exceeds 100 blocks if and only if one request covers 101 at batch size 100, or the wrap-around case |
| `VmVersions.VmStore.ValidateAmendment` | src/handlers/vm_common.rs:77-114 | Which amendments are admitted, by target, kind and current version |
| `VmVersions.VerdictIff` | src/handlers/vm_common.rs:77-114 | Each verdict told from the stored messages: unknown target or kind, an amendment as target, a current version that allows amendments, that forbids them, or that is gone |
| `VmVersions.AmendAllowedIff` | src/db/pg_database.rs:855-904 | Amendments are allowed if and only if the current version is stored and its own message allows them |
| `VmVersions.VmStore.Handle` | src/handlers/instance.rs:56-117 | A VM message is checked, stored in the table of its kind and entered as current version if it is later |
| `VmVersions.AcceptMeans` | src/handlers/instance.rs:56-117 | Exactly valid originals and valid amendments of an amendable original of their kind enter; entering stores the message and makes it current if and only if the VM is new or its current version is strictly older |
| `VmVersions.VmStore.Forget` | src/handlers/forget.rs:196-209 | Amendments of the VM go first, then its own row and version row |
| `VmVersions.ForgetStored` | src/handlers/forget.rs:196-209 | Forgetting a VM message takes its own row and those of its amendments, and no other |
| `VmVersions.RunKeepsInv` | src/db/pg_database.rs:838-925 | Over any accepts and forgets: every stored amendment's target is a stored original of the same kind, version rows belong to exactly the stored originals, and no stored member is newer than the version row says |
| `VmVersions.ForgetKeepsNewestIff` | src/handlers/forget.rs:196-209 | Forgetting a message leaves the current version of every VM its newest stored member if and only if the message is not the current amendment of one |
| `VmVersions.RunKeepsNewest` | src/db/pg_database.rs:838-925 | Over any run that forgets no current amendment, the current version of every VM stays its newest stored member |
| `VmVersions.CurrentIsNewestIff` | src/db/pg_database.rs:838-853 | Whichever forgets came before, a current version that is still stored is the newest member of its family |
| `VmVersions.CurrentIsNewestWithoutForgets` | src/db/pg_database.rs:838-853 | While nothing is forgotten the current version is always the newest member |
| `VmVersions.FrozenForever` | src/db/pg_database.rs:855-904 | Once the message of the current version disallows amendments, or that version is gone, the version row never changes and the family gains no member until the VM itself is forgotten |
| `VmVersions.ForgettingCurrentFreezes` | src/db/pg_database.rs:906-925 | Forgetting the current amendment leaves the VM frozen, whatever older versions would have allowed |
| `FilePins.FileStore.ProcessStore` | src/handlers/store.rs:258-276 | The files row is written, then the typed pin, unless another kind of pin of the same owner holds the primary key |
| `FilePins.FileStore.ProcessStoreForget` | src/handlers/forget.rs:63-116 | The message's pins go; without an active pin left a grace pin of 24 hours is written or extended |
| `FilePins.FileStore.CleanExpiredGracePins` | src/jobs/garbage_collector.rs:288-367 | The whole state after sweeping the selected pins, and the number reported |
| `FilePins.StoreMeans` | src/handlers/store.rs:258-276 | Storing leaves an active pin of the message's that never runs out, unless a pin of another type stands in its place |
| `FilePins.ForgetMeans` | src/handlers/forget.rs:63-116 | Exactly the message's own pins go; without another active pin the address gets a grace pin that counts as expired precisely from 86400 seconds on |
| `FilePins.UploadMeans` | src/web/handlers.rs:2482-2490 | An upload leaves an active pin of nobody's, unless that place is taken |
| `FilePins.SweepLeaves` | src/jobs/garbage_collector.rs:311-363 | A sweep leaves exactly the pins that are neither on a deleted file nor selected grace pins |
| `FilePins.ForgetKeepsPinnedIff` | src/handlers/forget.rs:70-113 | Forgetting keeps every file pinned if and only if the content could be read, or names its own hash, or the message was not the only pin |
| `FilePins.FileStore.RemoveFilePin` | src/db/pg_database.rs:284-291 | Forgetting a hash that is not a STORE message's deletes every pin on it |
| `FilePins.FileStore.PinUpload` | src/web/handlers.rs:2482-2490 | An upload is pinned for nobody unless it already is |
| `FilePins.FilesPinnedIff` | src/handlers/forget.rs:345-358 | Over any stores, forgets, sweeps, uploads and forgets of file hashes, a files row has a pin if and only if the file's own hash was not forgotten since the last message or upload of it |
| `FilePins.FilesStayPinned` | src/jobs/garbage_collector.rs:288-367 | While only messages are forgotten every files row has an active or grace pin |
| `FilePins.SweepSparesActive` | src/jobs/garbage_collector.rs:315-340 | A sweep keeps every active pin and every file that has one |
| `FilePins.SurvivesTheDayIff` | src/handlers/forget.rs:92-103 | A file losing its last active pin survives every run of the next 24 hours if and only if no other owner's grace pin on it runs out within them |
| `FilePins.OldGraceIsReachable` | src/handlers/forget.rs:92-103 | Two owners storing and forgetting one file, ten seconds apart, reach that case from the empty tables |
| `FilePins.SweepDeletesDoomed` | src/jobs/garbage_collector.rs:311-363 | A sweep deletes exactly the selected files without an active pin |
| `FilePins.CleanedCountsDoomed` | src/jobs/garbage_collector.rs:309-363 | Each of those is counted, and the count is their number if and only if none was selected through two pins |
| `FilePins.CleanedCountsFilesIff` | src/jobs/garbage_collector.rs:309-363 | The reported number is the number of files rows deleted if and only if no such file was selected through two pins or was gone already |
| `FilePins.FileStore.CleanOne` | src/jobs/garbage_collector.rs:311-363 | One expired pin: it alone goes if the file has an active pin, otherwise the file goes with all its pins |
| `FilePins.StoreRefusedDuringGrace` | src/db/migrations.rs:202-211 | While its owner's grace pin is in the table, storing a file again is refused and changes nothing |
| `FilePins.RefusedAllDayIff` | src/db/migrations.rs:202-211 | After the last forget, while nobody forgets the file's own hash, no store of the file by that owner has any effect at any moment of the next day, if and only if no other owner's older grace pin runs out within it |
| `FilePins.StoreHasNoEffectIff` | src/db/migrations.rs:202-211 | For a file that is there, storing has no effect if and only if the owner has a pin of another type on it |
| `FilePins.UnpinReleases` | src/db/pg_database.rs:284-291 | Forgetting the file's own hash makes storing take effect again at once |
| `PostsBackfill.PostsTable.BackfillPosts` | src/jobs/backfill.rs:240-356 | The loop ends, succeeds if and only if none of its batches fails, and then has computed `Backfilled`; otherwise it has posted a part of that |
| `PostsBackfill.BackfillsEverything` | src/jobs/backfill.rs:247-356 | While no batch cuts a tie the loop posts exactly the well-formed messages after the cursor, though insert and cursor count different rows |
| `PostsBackfill.PostedIff` | src/jobs/backfill.rs:253-294 | While no batch cuts a tie, a hash has a post afterwards if and only if it had one or belongs to a message after time zero whose content has an address and a type |
| `PostsBackfill.LosesNothingIff` | src/jobs/backfill.rs:253-330 | For any table in time order the loop posts every well-formed message after the cursor if and only if no batch cuts a tie: none leaves a missing message of its last time behind the first limit missing ones |
| `PostsBackfill.UncutIff` | src/jobs/backfill.rs:253-330 | For a table without empty contents nothing is lost, whatever is missing, if and only if behind no batch end there is a well-formed message with the time of the batch's last row |
| `PostsBackfill.DistinctTimesAreUncut` | src/jobs/backfill.rs:253-330 | Distinct times leave no tie to cut |
| `PostsBackfill.CompleteIff` | src/jobs/backfill.rs:243-356 | Starting at zero every well-formed message gets its post if and only if no batch cuts a tie and none that lacks one has a time of zero or less |
| `PostsBackfill.EqualTimesAreSkipped` | src/jobs/backfill.rs:296-330 | For every batch size, one message more than a batch at one time suffices for one to be skipped |
| `Queries.QueryBuilder.AndEq` | src/db/query_builder.rs:68-80 | One equality on one bound argument |
| `Queries.QueryBuilder.AndIn` | src/db/query_builder.rs:83-108 | One placeholder and one argument per value; no values, no clause |
| `Queries.QueryBuilder.AndCursorKeyset` | src/db/query_builder.rs:169-193 | The keyset clause with its first value bound twice, in the main query only |
| `Queries.QueryBuilder.AndJsonbHasAny` | src/db/query_builder.rs:198-236 | Any of the values in the array at the split path; malformed names are refused, but only when there are values |
| `Queries.QueryBuilder.AndJsonbTextEq` | src/db/query_builder.rs:253-268 | Equality on the unsplit path |
| `Queries.QueryBuilder.AndJsonbTextIn` | src/db/query_builder.rs:273-310 | Membership on the split path |
| `Queries.QueryBuilder.AndJsonbArrayContains` | src/db/query_builder.rs:315-340 | One value in the array at the split path |
| `Queries.QueryBuilder.OrderBy` | src/db/query_builder.rs:348-357 | An order clause in the main query, or refusal of a malformed name |
| `Queries.QueryBuilder.Limit` | src/db/query_builder.rs:369-374 | One more argument, for the main query only |
| `Queries.QueryBuilder.Offset` | src/db/query_builder.rs:377-382 | One more argument, for the main query only |
| `Queries.PlaceholdersInOrderIff` | src/db/query_builder.rs:68-382 | Through any chain of calls the placeholders of the main query are $1..$n in argument order if and only if neither the base query nor a raw clause brings its own |
| `Queries.BuiltTallied` | src/db/query_builder.rs:68-382 | After any chain of calls: one argument per number, the next number follows the arguments, the count query uses only bound arguments |
| `Queries.NumbersAsked` | src/db/query_builder.rs:68-160 | On a number, the conditions are equality, at least, at most and less |
| `Queries.TextsAsked` | src/db/query_builder.rs:68-160 | On a text, the conditions are equality, membership, pattern and the three comparisons |
| `Queries.PathsAsked` | src/db/query_builder.rs:198-340 | On what a dotted path leads to, the JSON conditions are membership and overlap of tags; equality with one text looks under the unsplit name |
| `Queries.MissingFails` | src/db/query_builder.rs:68-160 | A row without the field passes none of the conditions on it |
| `Queries.RefusedIff` | src/db/query_builder.rs:198-357 | A call is refused if and only if a checked name has a character that is not alphanumeric, `_` or `.`, unless its list of values is empty |
| `Queries.JoinOfSplit` | src/db/query_builder.rs:216-217 | The parts of a path have no dots and joined by dots are the path |
| `Queries.SplitOfJoin` | src/db/query_builder.rs:216-217 | Any parts without dots are what their path is split into |
| `Queries.ClauseMeans` | src/db/query_builder.rs:68-340 | Each call's clause, read with its arguments bound, says of a row exactly what the call asks |
| `Queries.LaterArgsDoNotMatter` | src/db/query_builder.rs:68-382 | Arguments bound later do not disturb a clause that uses earlier ones |
| `Queries.BuiltMeansCalls` | src/db/query_builder.rs:68-395 | The built query with the built arguments selects exactly the rows that satisfy the base and every call; the count query leaves the cursor out |
| `Queries.TextMeansCalls` | src/db/query_builder.rs:242-248 | The text, read by precedence, means what the calls asked for as long as base and raw clauses keep their ORs in parentheses |
| `Queries.RawOrRegroups` | src/db/query_builder.rs:242-248 | An OR left outside parentheses binds what stands before it to its left side and what follows to its right side |
| `Queries.RawOrIsWrongIff` | src/db/query_builder.rs:242-248 | Such a text selects a row wrongly if and only if one side holds with its own half of the query but the other half does not hold |
| `Queries.StatementIff` | src/db/query_builder.rs:348-382 | The text is a query at all if and only if filters come first, then at most one order, then at most one limit and one offset |
| `Queries.CountQueryFitsIff` | src/db/query_builder.rs:384-402 | The arguments fit the count query one to one if and only if no cursor, limit or offset was added |
| `Queries.TextEqIsTextInIff` | src/db/query_builder.rs:253-310 | Equality with one text and membership in a list of one are the same filter if and only if the path has no dot |
| `Keyset.ListMessages` | src/web/handlers.rs:286-516 | The query the handler builds, run on a table, gives by cursor the first rows past the cursor with has_more and next_cursor, by offset the window of the page and its total; never more rows than asked for nor than 1000, and everything when zero is asked for |
| `Keyset.CursorPageMeans` | src/web/handlers.rs:214-219 | The page after a cursor holds all rows past it if zero was asked for or they fit, otherwise the smaller of the number asked for and 1000; has_more tells whether any are left, and the next cursor names the last row shown |
| `Keyset.OffsetPageMeans` | src/web/handlers.rs:214-219 | Page n holds the rows from (n-1) times the size on, the size being the number asked for but no more than 1000, as long as 32 bits hold that product |
| `Keyset.ListedInOrder` | src/web/handlers.rs:440-463 | A listing goes by time in the direction asked for and by ascending hash among equal times |
| `Keyset.PastMeans` | src/db/query_builder.rs:162-193 | Past a cursor are exactly the rows that a listing puts after the row it names |
| `Keyset.ListingQuery` | src/web/handlers.rs:286-479 | The builder calls of the request leave the filters, cursor, order and window, with their arguments, in an order that is a query |
| `Keyset.RunsAsAsked` | src/db/query_builder.rs:162-193 | Running filters, cursor, order and window as built lists the rows asked for, in order, cut to the window |
| `Keyset.ListedPast` | src/db/query_builder.rs:162-193 | Adding the cursor clause keeps exactly the part of the sorted listing past the cursor, for either primary direction |
| `Keyset.WalkMissesNothing` | src/web/handlers.rs:491-508 | However the table changes between requests, a finished walk lists every row past its first cursor that was there all along |
| `Keyset.WalkIsPast` | src/web/handlers.rs:491-508 | A walk lists no row twice, in order, and only rows past its cursor |
| `Keyset.FixedWalkEnds` | src/web/handlers.rs:465-508 | On a fixed table the walk ends within as many requests as pages fit |
| `Keyset.WalkIsListing` | src/web/handlers.rs:440-508 | On a fixed table with distinct hashes the pages join up to the full sorted listing, each row once |
| `Keyset.OffsetIsExactIff` | src/web/handlers.rs:214-219 | The page offset is what it should be if and only if the page number is at least one and the product fits 32 bits |
| `Keyset.OffsetPagesJoin` | src/web/handlers.rs:474-479 | On a fixed table pages by offset join up to the beginning of the same listing |
| `Keyset.OffsetPagesRepeatIff` | src/web/handlers.rs:474-479 | For any page size, page number and rows arriving in front, the next page by offset repeats a row of the page before it if and only if some arrived, fewer than fill two pages, and both pages reach into the old rows |
| `Keyset.CountMessages` | src/web/handlers.rs:517-633 | The counting query with the same filters gives the length of the listing |
| `Keyset.TotalIsRightIff` | src/web/handlers.rs:509-516 | The total shown beside a page is right if and only if the page is full, or its offset is the intended one and not beyond the last row |
| `Framing.NetworkService.SendToPeer` | src/network/mod.rs:209-231 | Length and payload are written as far as the connection takes them; the counter rises only for a whole frame; without a connection nothing changes |
| `Framing.NetworkService.Broadcast` | src/network/mod.rs:193-206 | Every connected peer is sent the frame once, and exactly those whose write failed are reported, each once |
| `Framing.ReadLoop` | src/network/mod.rs:141-178 | For any stream the loop hands on its payloads that decode, in order, then exactly one disconnect |
| `Framing.EachPayloadOnce` | src/network/mod.rs:167-175 | One event for each payload that decodes, in order, and none for the others |
| `Framing.LargestPayload` | src/network/mod.rs:157-162 | 10485760 bytes are read, 10485761 end the reading |
| `Framing.MostSignificantFirst` | src/network/mod.rs:155 | The first of the four bytes counts most |
| `Framing.FromToBytes` | src/network/mod.rs:214 | Writing a length and reading it back gives the length modulo 2^32 |
| `Framing.ToFromBytes` | src/network/mod.rs:155 | Reading four bytes and writing them back gives the same bytes |
| `Framing.RoundTripIff` | src/network/mod.rs:141-219 | Reading the frames of any list of payloads yields that list if and only if every payload is at most 10 MiB |
| `Framing.MessagesArrive` | src/network/mod.rs:141-219 | Messages whose encodings fit and decode again all arrive, each once, in order |
| `Framing.CutStream` | src/network/mod.rs:150-166 | Any byte prefix of the frames yields exactly the payloads whose frames are whole |
| `Framing.WholeFramesFit` | src/network/mod.rs:150-166 | The number of whole frames is the largest that fits the prefix |
| `Framing.MoreBytesExtend` | src/network/mod.rs:150-178 | For any stream at all, more bytes only add payloads at the end |
| `Framing.ReadFrames` | src/network/mod.rs:150-178 | Fitting frames are read off a stream one after the other, whatever follows them |
| `Framing.FailedWriteLosesOne` | src/network/mod.rs:217-219 | A write that fails part-way loses no payload before it, and its own as long as nothing more is written |
| `Framing.TornFrameSwallows` | src/network/mod.rs:150-166 | What is written after a frame torn within its payload is taken for the rest of that payload, and only what lies behind is read as frames again |
| `Framing.TornReadIff` | src/network/mod.rs:150-166 | The torn payload is read as it was if and only if the bytes that follow are the ones it lacks |

## Left out

- Interleaving of handler calls for other aggregates (src/jobs/message_processor.rs:213-229): a handler is not transactional, so one call is one step there; only the security groups are taken down to statements.
- Handlers cut off by their 30-second timeout half-way: a timeout counts as a failure, with or without derived rows.
- Failing statements whose errors the batch job ignores (src/jobs/message_processor.rs:271-285): the statements of the queue model succeed.
- Json.DeepMerge: returns the merged value instead of writing through a mutable reference; aliasing inside a JSON tree is not modelled.
- FilePins.FileStore.ProcessStoreForget: refreshing the file tag is not part of this model.
- FilePins.FileStore.CleanExpiredGracePins: deleting the file's tags is not part of this model.
- PendingQueue.MessageProcessor.ProcessBatch: whether a handler left derived rows is an argument; a handler that is cut off has left those that the duplicate check can see or none.
- FilePins.FileStore.RemoveFilePin: the check that the sender owns some pin on the file is not part of this model; the step is taken as possible at any time.
- HashRing.ContentRing.GetResponsibleNodes: takes the position of the content hash, since the 64-bit hash function itself is a parameter.
- RpcSync.ChainSync.Cycle: fetching the referenced files and inserting their messages is one outcome, so events of a cycle that fails after part of its inserts count as not handed on and are handed on again later.
- PostsBackfill.PostsTable.BackfillPosts: the amend chains updated after the loop, and the totals it logs, are not part of this model.
- MessageCounts.CountedMessages.BackfillDenorm: how the new column values are computed from the contents; the updates are an argument.
- FilePins.FileStore.ProcessStore: file tags, sizes and costs are not part of this model; neither are the legacy pin write and steps 1 to 5 of the garbage collection cycle.
- Block numbers, retry counts, parameter numbers and lengths in memory are unbounded integers; 32-bit arithmetic is modelled for page offsets and frame lengths.
- VmVersions.VmStore.Handle: volumes, balances and costs are not part of this model, and acceptance of everything but the amendment is an argument; src/handlers/program.rs does the same for programs.
- Keyset.ListMessages: sorting by confirmation time and parsing of the cursor text; times survive their printed form.
- The text of the SQL queries is kept as a tree of clauses with their placeholders; the rewriting of a query to its counting form is not modelled.
- `backfill_instances`, `backfill_programs` and `backfill_aggregates`: plain inserts and one flag.
- Permissions, cost formulas, schema checks, configuration, metrics, peer scoring, cron jobs and the balance tracker.
