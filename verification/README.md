# Verification model of the AI factory: worker caches, engine, tokenizer, wallet, scheduler, rollup

A Dafny project about five parts of the repository whose correctness spans many functions. Run
`dafny verify dfyconfig.toml` here; the project imports nothing but its own modules.

**The KV-cache stack of the Python worker.** `Transformer` is the reference: one unpadded, uncached,
causal pass. Its values are symbolic terms, so two equal terms are equal under every choice of weights,
rotary embedding, softmax and rounding; what the model keeps is which entries each position reads.
`Forward` is the hand-written batched pass with padding masks and past K/V, and the proof that it
computes the reference on every real slot. `Batching`, `KvCache` and `ModelCalls` assemble the batches
and read the rows back. `BlockPool` to `PagedRuns` are the paged store: reference counts, an LRU free
list, copy-on-write, fork, adopt, and the hash-chain prefix index, first as functions on values, with
the invariant over all caches at once and the simulation by private lists; `PoolCapacity` says exactly
when a block is missing. `BlockManager` and `PagedKvCache` are the same operations as objects that
update fields in place, each method proved equal to its function, and `CacheLinks` carries the pool
invariant and the results of a model call over to these objects. `PrefixReuse` says exactly what an
insert registers and a match finds, `PrefixNames` why the engine never meets a block that another chain
has claimed. `PrefixCache` is the copying prefix cache. `ToolCalls` and `Generation` are what a client
sees of one request, with the naive loop (rerun the model on everything, sample, deliver) as its
meaning. `CacheBackend`, `EngineState`, `EngineQueue` and `Engine` are the continuous batching engine:
whatever arrives, is batched, cached, matched or cancelled, each request's events are those of its own
naive loop, and the loop makes progress unless a paged pool is smaller than what the queue may store.

**The tokenizer.** `ByteLevel`, `Utf8`, `Bpe`, `Vocabulary`, `Tokenizer`: the merge loop against the
merge rule, the added-token split, the round trip, and streaming against one-shot decoding.

**The prepaid wallet.** `Pricing`, `Wallet`, `WalletLaws`, `WalletAmounts`, `OverdraftLaws`,
`WalletStore`: every database transaction is one atomic step on the tables, in 64-bit arithmetic that
wraps where the code wraps and fails where the database would.

**The batch scheduler.** `BatchScheduler`, `BatchRouting`, `BatchLaws`, `BatchContents`, `BatchEndings`:
callers, collector, dispatchers, watchers and consumers as interleaved steps; statements are about every
run.

**The usage rollup.** `UsageRollup`, `UsageRuns`: daily rows against a direct scan of the event log,
over every interleaving of events with the statements of rollups.

## Where the code and what it promises part

The model follows the code. These differences are stated and proved rather than repaired.

- A batch with two equal request ids loses the first item: the index keeps only the later one, so the
  comment that everything left is closed at the end of the stream holds only for distinct ids
  (`BatchLaws.AllClosedIffDistinct`, `BatchLaws.DuplicateIsLost`).
- Items still in the submit queue when the collector returns are never closed
  (`BatchLaws.UnclosedIffQueued`, `BatchLaws.QueuedForever`, and a run that gets there,
  `BatchLaws.ShutdownLeavesOpen`).
- An insert into the block prefix cache does not register a block that another chain's key already
  holds (`PrefixReuse.ClaimedIsNotRegistered`); `PrefixReuse.InsertRegistersIff` is the exact condition,
  and `PrefixNames.InsertStoresAll` that caches filled and inserted as the engine does always meet it.
- A settle may charge more than its hold, or charge after the hold was released, so a wallet can be
  overdrawn (`WalletLaws.ChargeBeyondHold`); `WalletLaws.SettleCoversIff` says exactly when not.
- When the reaper fails half way it reports the rows it had freed before the rollback
  (`WalletStores.WalletStore.ReleaseExpired`).
- `costMicro` overflows for large counts and can then be negative: `Pricing.CostIsRoundedIffFits`,
  `Pricing.OverflowCanRefund`.
- A usage event that becomes visible after a higher id was rolled up is never counted:
  `UsageRollups.AppendKeepsAgreementIff`, `UsageRuns.LateEventIsLost`.  `UsageRuns.RunAgreesIff` says
  exactly when the rows are right after a run.
- A stop sequence that starts behind the start of a tool-call marker sends the text up to the cut, all
  or part of the marker included (`Generations.MarkerLeaks`).
  `Generations.FinishedStreamStopsAtMarker` proves that nothing else of a marker is ever sent.
- A request taken from the queue whose cancel flag is set between the sweep and the next look is
  dropped: no final event, and the blocks of its match stay held (`Engines.Engine.LateFlagLoses`);
  `Engines.Engine.Iterate` says exactly which requests that are.

## Model

| member | source | states |
|---|---|---|
| Transformer.StateOfPrefix | python-worker/worker/model/attention.py:35-39 | A position of the reference pass depends only on the ids up to itself: in the causal pass nothing later changes it. |
| Transformer.FullCacheIsTruth | python-worker/worker/model/forward.py:88-103 | Entry i that a full pass leaves in a layer is fixed by the first i+1 ids alone; this is what makes a cached prefix reusable under another continuation. |
| Forward.MaskRow | python-worker/worker/model/attention.py:26-43 | Query i may read key j exactly when the padding mask allows j and, in a causal call, j lies at most i past the already cached keys. |
| Forward.SlotReadsOwnPrefix | python-worker/worker/model/attention.py:46-68 | Behind any left padding a real query reads exactly the real keys up to its own position, whatever the padding slots hold. |
| Forward.LayerKeepsAgreement | python-worker/worker/model/forward.py:79-103 | If the real slots agree with the unpadded full pass before a layer, they agree after it. |
| Forward.RowCacheIsFullCache | python-worker/worker/model/forward.py:90-103 | Past and new slots of a layer, padding aside, are exactly the full cache of the ids. |
| Forward.IncrementalEqualsFull | python-worker/worker/model/forward.py:55-108 | For any padding and any split into cached past and new ids, the K/V of every layer, the state of every real new slot and the last logits are those of one unpadded, uncached pass. |
| Forward.LayerBatch | python-worker/worker/model/forward.py:79-103 | One turn of the layer loop gives each row of the batch its own row-level result: no row sees another. |
| Forward.Call | python-worker/worker/model/forward.py:55-108 | The layer loop over a batch returns for every row the row-level logits and caches. |
| Batching.CountBehindPadding | python-worker/worker/kv_cache.py:91-93 | Behind n padding slots the running sum of the mask counts exactly the real slots so far. |
| Batching.DecodePositionIsCumsum | python-worker/worker/kv_cache.py:126-138 | The explicit position of a decode step (the cache length) is the one the cumulative-sum rule would give. |
| Batching.BuildPrefill | python-worker/worker/kv_cache.py:95-105 | Each row of the prefill batch is its prompt behind padding, with the matching mask and positions. |
| Batching.PrefillRowAligned | python-worker/worker/kv_cache.py:95-105 | Such a row meets the alignment under which the incremental theorem applies: unmasked slots are exactly the prompt in order. |
| Batching.PrefixRowAligned | python-worker/worker/kv_cache.py:107-124 | So does the suffix row over a correct cached prefix. |
| Batching.PadLayer | python-worker/worker/kv_cache.py:143-159 | Each layer of a decode batch is every cache, left-padded with zero slots to the longest. |
| Batching.BuildDecode | python-worker/worker/kv_cache.py:126-161 | Each row of the decode batch is one pending token over its own padded cache, with mask and position. |
| Batching.DecodeRowAligned | python-worker/worker/kv_cache.py:126-161 | Over a correct cache of all ids but the last, that row is aligned too. |
| ModelCalls.Prefill | python-worker/worker/continuous_batch_engine.py:267-276 | Whatever the other prompts of the batch, each row comes back with its own full-pass logits and caches. |
| ModelCalls.PrefillWithPrefix | python-worker/worker/continuous_batch_engine.py:297-307 | Running only the suffix over a correct prefix gives the logits and caches of the whole prompt run alone. |
| ModelCalls.Decode | python-worker/worker/continuous_batch_engine.py:317-328 | A batched decode step over correct caches gives each sequence the logits and caches of a full rerun. |
| ModelCalls.Extract | python-worker/worker/block_manager.py:197-213 | The right-aligned slots read back from row b are exactly that sequence's own K/V columns. |
| ModelCalls.ViewOfTruth | python-worker/worker/block_manager.py:251-256 | The view of correct columns is, layer by layer, a prefix of the full cache. |
| KvCache.KVCache.InitFromPrefill | python-worker/worker/kv_cache.py:26-41 | The cache becomes the last prompt-length slots of the row, in every layer; for length zero, where the slice is the whole row, it raises exactly when some row is wider than one slot, and then the length is as it was. |
| KvCache.KVCache.EnsureCapacity | python-worker/worker/kv_cache.py:43-57 | Growing keeps the contents, reaches the needed size and at most doubles past it; below capacity nothing moves. |
| KvCache.KVCache.AppendFromOutput | python-worker/worker/kv_cache.py:59-65 | Every layer is its old list with the row's last slot appended. |
| KvCache.KVCache.View | python-worker/worker/kv_cache.py:67-69 | The view is exactly the abstract list of each layer. |
| KvCache.KVCache.Free | python-worker/worker/kv_cache.py:71-74 | Afterwards the cache is empty. |
| BlockManagers.BlockManager.AllocLocked | python-worker/worker/block_manager.py:81-90 | Pops the least recently freed block, sets its count to 1 and drops its index entry; fails exactly when nothing is free. |
| BlockManagers.BlockManager.IncrefLocked | python-worker/worker/block_manager.py:96-99 | Takes the block off the free list and adds one reference. |
| BlockManagers.BlockManager.DecrefLocked | python-worker/worker/block_manager.py:105-110 | Drops one reference, never below zero; at zero the block becomes the newest free one. |
| BlockManagers.BlockManager.Write | python-worker/worker/block_manager.py:131-139 | Changes exactly one cell of one layer. |
| BlockManagers.BlockManager.Gather | python-worker/worker/block_manager.py:141-157 | Position k of the result is offset k mod size of block k div size of the table, zero past the table; raises exactly when the layer has no tensor yet. |
| BlockManagers.BlockManager.CopyOnWrite | python-worker/worker/block_manager.py:159-167 | A fresh block with the same cells in every layer, one reference moved off the shared one; raises exactly without a free block or at the first layer never written, and then the block taken stays taken and half copied. |
| PagedKvCaches.PagedKVCache.WriteAt | python-worker/worker/block_manager.py:186-195 | Grows the table, makes a shared block private and writes one entry, as the pool-level function does. |
| PagedKvCaches.PagedKVCache.InitFromPrefill | python-worker/worker/block_manager.py:197-213 | Writes the columns of the positions not cached yet, right-aligned in the row. |
| PagedKvCaches.PagedKVCache.AppendFromOutput | python-worker/worker/block_manager.py:215-224 | Writes the row's last slot as one more column. |
| PagedKvCaches.PagedKVCache.Adopt | python-worker/worker/block_manager.py:230-240 | Appends existing blocks, with or without taking references, and counts them all as valid. |
| PagedKvCaches.PagedKVCache.Fork | python-worker/worker/block_manager.py:242-249 | A child with the same table and length and one more reference per block. |
| PagedKvCaches.PagedKVCache.View | python-worker/worker/block_manager.py:251-256 | Every layer gathered; raises exactly when some layer was never written. |
| PagedKvCaches.PagedKVCache.Free | python-worker/worker/block_manager.py:258-262 | Gives back one reference per table entry and empties the table. |
| PagedKvCaches.AppendAllIsWriteColumns | python-worker/worker/block_manager.py:197-224 | What these methods write is what the system-level operation does to one owner among all. |
| CacheLinks.LinkedIsValid | python-worker/worker/block_manager.py:170-224 | The pool invariant over all caches is all that the methods of each paged cache ask for. |
| CacheLinks.StorePrefill | python-worker/worker/block_manager.py:197-213 | A prefill row stored in a paged cache object raises exactly when the pool lacks the blocks; otherwise the cache is correct for the whole prompt, adopted prefix included, no other cache has changed and the pool is consistent. |
| CacheLinks.StoreStep | python-worker/worker/block_manager.py:215-224 | The same for one decoded token: it raises exactly when a block is needed and none is free. |
| CacheLinks.FillPrefill | python-worker/worker/kv_cache.py:26-41 | A prefill row stored in a contiguous cache object makes every layer the full cache of the prompt. |
| CacheLinks.FillStep | python-worker/worker/kv_cache.py:59-65 | A decode row appended to the full cache of all tokens but the last makes it the full cache of all. |
| PoolSteps.AllocTakesFreeBlock | python-worker/worker/block_manager.py:81-90 | In a consistent pool with a free block allocation succeeds, touches one count and leaves the index bijective, true and without the block. |
| PoolSteps.FreedIsReusedLast | python-worker/worker/block_manager.py:81-110 | The oldest free block goes first: a block whose last reference is given back is handed out again only after all that were free before it, in the order they were freed. |
| PoolSteps.UnshareKeepsInv | python-worker/worker/block_manager.py:192-194 | Replacing a shared block by its copy keeps the pool invariant and every entry every owner can see. |
| PoolSteps.PutKeepsInv | python-worker/worker/block_manager.py:195-195 | A write lands in a private, unindexed block, so no other entry of any cache and no indexed block changes. |
| PoolSteps.AdvanceKeepsInv | python-worker/worker/block_manager.py:213-213 | Counting the written position as valid keeps the invariant: the block that may become complete is nobody else's open one. |
| PoolCapacity.AppendSucceedsIff | python-worker/worker/block_manager.py:186-195 | Appending raises exactly when the position needs a block (its slot is missing or its block is shared) and none is free. |
| PoolCapacity.AppendAllSucceedsIff | python-worker/worker/block_manager.py:197-213 | A whole prefill raises exactly when the blocks its columns need outnumber the free ones. |
| PoolCapacity.AppendIsListAppend | python-worker/worker/block_manager.py:215-224 | Appending to a paged cache either raises, exactly when it must, or appends one column to its own list, changes no other view and keeps the pool consistent. |
| PoolCapacity.AppendAllIsListAppend | python-worker/worker/block_manager.py:197-213 | The same for all columns of a prefill. |
| PoolCapacity.ShortageIsFullPool | python-worker/worker/block_manager.py:81-90 | When the free blocks do not suffice, the lists of all caches, with the new columns, take more blocks than the pool has: sharing never costs blocks. |
| PoolSharing.ForkSharesContents | python-worker/worker/block_manager.py:242-249 | A fork sees what its parent sees, nobody else notices, counts stay conserved. |
| PoolSharing.AdoptKeepsInv | python-worker/worker/block_manager.py:230-240 | Adopting complete or indexed blocks keeps the invariant and every view. |
| PoolSharing.FreeKeepsInv | python-worker/worker/block_manager.py:258-262 | Freeing one cache keeps the invariant and every other view. |
| PoolSharing.AllFreed | python-worker/worker/block_manager.py:105-110 | Once every table is empty every block is on the free list with count zero. |
| PagedRuns.StepRefines | python-worker/worker/block_manager.py:170-262 | Each of new, extend, fork, adopt, release, match and insert is the same operation on private lists that share nothing. |
| PagedRuns.RunRefines | python-worker/worker/block_manager.py:170-353 | Over every interleaving of those operations each cache reads exactly its own list, and the pool invariant (counts equal table occurrences, free iff zero, inverse dictionaries, true index) holds. |
| PagedRuns.StepSucceedsIff | python-worker/worker/block_manager.py:170-262 | In a consistent pool only an extension can fail, and it fails exactly when it needs more blocks than are free. |
| PagedRuns.RoomyRunSucceeds | python-worker/worker/block_manager.py:170-353 | A run whose lists always fit the pool, counted without sharing, never fails. |
| PagedRuns.FreshIsConsistent | python-worker/worker/block_manager.py:45-60 | A new pool satisfies the invariant, with no owners. |
| PagedRuns.NoLeak | python-worker/worker/block_manager.py:258-262 | From a new pool, any run that releases every owner ends with every block free. |
| BlockManagers.BlockPrefixCache.Match | python-worker/worker/block_manager.py:302-326 | Walks the hash chain, renews and takes a reference to each block found, and stops so that one token is left. |
| BlockManagers.BlockPrefixCache.Insert | python-worker/worker/block_manager.py:328-353 | Registers the complete blocks known by both table and tokens, then evicts to the bound, as the function does of which PrefixReuse says exactly what is indexed afterwards. |
| BlockManagers.BlockPrefixCache.DropBid | python-worker/worker/block_manager.py:297-300 | Forgets a reused block in both dictionaries. |
| PrefixIndex.KeyedBlockIsTrue | python-worker/worker/block_manager.py:29-35 | A block found under a chain key holds, in every layer, the K/V of exactly the tokens of that chain. |
| PrefixIndex.MatchLeavesToken | python-worker/worker/block_manager.py:306-313 | A match is strictly shorter than the prompt. |
| PrefixIndex.MatchIsSound | python-worker/worker/block_manager.py:302-326 | A match is nothing, or a block-aligned proper prefix with a correct cache of it, even when the blocks came off the free list. |
| PrefixIndex.DropOldestKeepsIndex | python-worker/worker/block_manager.py:350-353 | Evicting the oldest key keeps the two dictionaries inverse and the index true. |
| PrefixIndex.InsertKeepsInv | python-worker/worker/block_manager.py:328-353 | Registering a finished, correct cache keeps the whole invariant and changes no view; what it registers is InsertRegistersIff. |
| PrefixReuse.MatchFromIsLongest | python-worker/worker/block_manager.py:308-324 | A match runs along the chain of the prompt less one token and stops only at a key that is not indexed or at the end of that chain. |
| PrefixReuse.MatchFromRenews | python-worker/worker/block_manager.py:314-322 | A match leaves the keys it found as the newest, in chain order, and keeps every other key. |
| PrefixReuse.InsertRegistersIff | python-worker/worker/block_manager.py:328-353 | If the complete blocks fit the bound and occur once in the table, the key of block j is indexed afterwards if and only if it was indexed or no other key held its block. |
| PrefixReuse.InsertRegisters | python-worker/worker/block_manager.py:328-353 | So a cache whose blocks are held by no other chain has every complete block indexed. |
| PrefixReuse.InsertThenMatch | python-worker/worker/block_manager.py:302-353 | Round trip: after such an insert a match of any longer prompt that starts with those tokens returns at least all complete blocks. |
| PrefixReuse.StoredIsMatched | python-worker/worker/prefix_cache.py:61-112 | The same for either form: what is stored of a text, a longer prompt finds, block for block. |
| PrefixReuse.ClaimedIsNotRegistered | python-worker/worker/block_manager.py:338-349 | A concrete consistent pool in which another chain holds a block of the cache: the insert does not index it and the match falls short. |
| PrefixNames.InsertKeepsNamed | python-worker/worker/block_manager.py:328-353 | Inserting a cache under its own tokens keeps this: an indexed block in a table is indexed under the chain of that table at that slot, and every block used twice is indexed. |
| PrefixNames.InsertStoresAll | python-worker/worker/block_manager.py:273-277 | Under it no insert meets a claimed block: with the default bound, the number of blocks, every complete block of the cache is indexed. |
| PrefixCaches.PrefixCache.Match | python-worker/worker/prefix_cache.py:61-85 | Returns the longest run of stored blocks along the chain, joined to a correct cache of that many tokens. |
| PrefixCaches.PrefixCache.Insert | python-worker/worker/prefix_cache.py:87-112 | Stores only correct blocks, stays within the bound, and ends with the last keys of its chain as the newest. |
| PrefixCaches.PrefixCache.Store | python-worker/worker/prefix_cache.py:109-116 | A stored block evicts the oldest ones beyond the bound and nothing else. |
| PrefixCaches.RenewedEndsWith | python-worker/worker/prefix_cache.py:95-116 | Renewing or storing the keys of one chain in order leaves its last keys newest, at the bound as well as below it. |
| PrefixCaches.HoldsIsSlice | python-worker/worker/prefix_cache.py:101-108 | A block keeps its key's promise exactly when it is the slice of the correct cache at that place. |
| CacheBackends.Backend.Extend | python-worker/worker/continuous_batch_engine.py:279-282 | Prefill and append extend one cache's list and no other, in both cache forms.  A contiguous cache never fails; a paged one exactly when the pool lacks the blocks, and then all lists with the new columns take more blocks than there are. |
| CacheBackends.Backend.MatchPrefix | python-worker/worker/continuous_batch_engine.py:174-191 | In both forms: nothing, or a correct cache of a proper prefix of the prompt, and that the longest one stored: the first block left out is not stored, or no token would be left. |
| CacheBackends.Backend.Release | python-worker/worker/continuous_batch_engine.py:381-393 | Releasing empties one list, whether it was a cache or a match never adopted. |
| CacheBackends.Backend.Insert | python-worker/worker/continuous_batch_engine.py:386-391 | Registering a correct cache under its own tokens changes no list and stores every complete block of it that fits the bound, in both forms; a later match of a longer prompt finds them. |
| CacheBackends.Backend.IdlePoolIsFree | python-worker/worker/continuous_batch_engine.py:377-393 | When nothing is live no block is in use. |
| ToolCalls.MarkerHoldback | python-worker/worker/tool_calls.py:15-25 | The longest proper start of the marker that ends the text. |
| ToolCalls.HoldbackIsSafe | python-worker/worker/tool_calls.py:15-25 | However the text goes on, a marker not yet there starts in the part held back or later. |
| ToolCalls.HoldbackIsTight | python-worker/worker/tool_calls.py:15-25 | Some continuation has its first marker exactly where the held-back part starts: less would leak, so no more is held than needed. |
| ToolCalls.ReleasedGrows | python-worker/worker/continuous_batch_engine.py:365-365 | What is released never shrinks when text is added. |
| ToolCalls.ParseToolCalls | python-worker/worker/tool_calls.py:28-47 | The loop returns the payloads that parse, in order, of all sections, the last possibly unclosed. |
| ToolCalls.ParsingRendered | python-worker/worker/tool_calls.py:28-47 | Text rendered from payloads and clean text between them, the last section closed or not, parses back to exactly those payloads. |
| ToolCalls.ParsedEach | python-worker/worker/tool_calls.py:33-46 | Each payload gives its call or, if it does not parse, nothing, whatever stands before and after it. |
| Generations.Hit | python-worker/worker/continuous_batch_engine.py:348-349 | The first stop sequence that occurs in the text; without empty ones, none is found exactly when none occurs. |
| Generations.HitIsFirstListed | python-worker/worker/continuous_batch_engine.py:348-349 | Among the sequences that occur the list decides, not the place in the text; an empty one before it hides it. |
| Generations.EmitOrFinishKeepsGood | python-worker/worker/continuous_batch_engine.py:339-370 | One token keeps: at most one final event, last, iff finished; usage; token events equal to the emitted text; the token bound. What the final event and the calls before it say is ReferenceConcludes. |
| Generations.NaiveIsGood | python-worker/worker/continuous_batch_engine.py:339-416 | Every state of the reference loop has those properties, with as many tokens as steps while unfinished. |
| Generations.ReferenceIsFinished | python-worker/worker/continuous_batch_engine.py:367-369 | The loop ends within max(1, max_tokens) steps. |
| Generations.FinishedIsReference | python-worker/worker/continuous_batch_engine.py:377-380 | A state that finished on its way is the reference answer: nothing is sent after the final event. |
| Generations.NaiveHoldsBack | python-worker/worker/continuous_batch_engine.py:356-375 | For every request and every chunking, each state that no stop sequence has ended has sent exactly the text before a marker or before a possible start of one; no stop sequence occurs in the text of an unfinished state. |
| Generations.FinishedStreamStopsAtMarker | python-worker/worker/continuous_batch_engine.py:348-404 | What the answer has sent: the text before the first marker or all of it if no stop sequence occurs, the text up to the cut if that lies behind the start of a marker; so the marker stays hidden if and only if the stop sequence found does not start behind the start of the first marker. |
| Generations.StreamNeverPassesMarker | python-worker/worker/continuous_batch_engine.py:348-375 | What any unfinished state has sent is a prefix of the answer's text before the first marker, and so is the answer itself unless the stop sequence found starts behind the marker's start. |
| Generations.StopSequenceCuts | python-worker/worker/continuous_batch_engine.py:348-354 | The step at which a stop sequence occurs: the stream ends at its first occurrence unless part of it had been sent, and stays before the marker if and only if the cut does. |
| Generations.MarkerLeaks | python-worker/worker/continuous_batch_engine.py:348-354 | A concrete request, one token and a stop sequence right behind the marker, whose client is sent the marker. |
| Generations.ReferenceConcludes | python-worker/worker/continuous_batch_engine.py:339-416 | What an answer tells: every token is the sample of a full pass over all before it and none a stop id; behind all text come exactly the calls its text parses to, in order (when a stop sequence ended it, only if a marker stood there before the last token); the reason is tool use iff there is a call, else end of turn iff a stop sequence or stop id ended it, else max tokens, and then max_tokens were generated. |
| EngineStates.StepIsNaive | python-worker/worker/continuous_batch_engine.py:339-370 | Delivering the token sampled from the full-pass logits is one step of the reference loop, or its answer. |
| EngineStates.AnswerHasOneFinal | python-worker/worker/continuous_batch_engine.py:406-416 | Every answer, cancelled or not, has exactly one final event, last, with prompt plus generated tokens and at most max_tokens generated. |
| EngineStates.AnswerConcludes | python-worker/worker/continuous_batch_engine.py:377-416 | The same for every answer of the engine; a cancelled one has no calls, and one not cancelled is the reference answer. |
| EngineStates.AnswerHoldsBack | python-worker/worker/continuous_batch_engine.py:348-404 | Every answer, cancelled ones included, hides the first tool-call marker and what follows if and only if no stop sequence that starts behind the marker's start ended it. |
| EngineStates.CacheGrows | python-worker/worker/continuous_batch_engine.py:330-332 | A correct cache extended by the correct columns that follow is a correct cache. |
| EngineStates.MatchedIsWaiting | python-worker/worker/continuous_batch_engine.py:146-172 | A request with what was matched for it is a correct waiting sequence and disturbs no other. |
| EngineQueues.CachesFitCosts | python-worker/worker/kv_cache.py:163-165 | Live cache lengths plus one more position each are covered by prompt plus max_tokens. |
| EngineQueues.WorkAdvances | python-worker/worker/continuous_batch_engine.py:315-333 | Every sequence of a decode step pays one unit of the remaining work. |
| EngineQueues.BatchedByBoth | python-worker/worker/continuous_batch_engine.py:227-231 | After prefill and decode every sequence of the batch has its reference answer or is further along the reference loop. |
| EngineQueues.EmptyQueue | python-worker/worker/continuous_batch_engine.py:214-231 | With nothing queued every request not lost has been answered, and only lost ones hold anything. |
| EngineQueues.DropKeeps | python-worker/worker/continuous_batch_engine.py:225-225 | Dropping the taken requests whose flag is set keeps the queue consistent: they become lost, nobody else changes. |
| Engines.Engine.Submit | python-worker/worker/continuous_batch_engine.py:146-197 | A request joins the queue at the end with its match; everything else stays. |
| Engines.Engine.TakeWaiting | python-worker/worker/continuous_batch_engine.py:237-252 | Takes the longest prefix of the queue that fits slots and token budget; one request alone always fits. |
| Engines.Engine.Prefill | python-worker/worker/continuous_batch_engine.py:254-313 | Every new sequence is one reference step on or has its reference answer, with and without cached prefixes; a failure means a paged pool with fewer blocks than the requests that hold caches and these may come to store. |
| Engines.Engine.AdoptPrefix | python-worker/worker/continuous_batch_engine.py:287-299 | The matched blocks change owner, or the copied K/V are used: a correct cache of a proper prefix of the prompt. |
| Engines.Engine.DecodeAll | python-worker/worker/continuous_batch_engine.py:315-332 | Every unfinished sequence gets exactly one more reference step; a failure means a pool too small in the same sense. |
| Engines.Engine.FinishSeq | python-worker/worker/continuous_batch_engine.py:377-416 | What the sequence held is given back, every complete block of its cache that fits the bound is stored under its tokens, and its last events are sent: they conclude the answer as AnswerConcludes says, one final event last. |
| Engines.Engine.Sweep | python-worker/worker/continuous_batch_engine.py:424-439 | Exactly the flagged sequences are finished as cancelled; the rest is untouched. |
| Engines.Engine.Iterate | python-worker/worker/continuous_batch_engine.py:214-231 | One pass keeps everything below and, unless there was nothing to do, leaves less work.  Exactly the requests taken from the swept queue whose flag is set after the sweep are lost.  It fails only with a paged pool smaller than what is queued or lost may store. |
| Engines.Engine.DropCancelled | python-worker/worker/continuous_batch_engine.py:225-225 | The filter of the taken requests keeps those without a flag, in order; the others become lost with what they hold. |
| Engines.Engine.LateFlagLoses | python-worker/worker/continuous_batch_engine.py:220-225 | A concrete loss: a request alone in the engine whose flag is set between sweep and filter gets no answer. |
| Engines.Engine.ArrivalOrder | python-worker/worker/continuous_batch_engine.py:237-252 | Whatever runs arrived before whatever waits, and both lists are in arrival order. |
| Engines.Engine.CachesWithinBudget | python-worker/worker/continuous_batch_engine.py:237-252 | At most max_batch_size run, and either one runs alone or all live caches fit max_batch_tokens even after the next decode step. |
| Engines.Engine.Idle | python-worker/worker/continuous_batch_engine.py:214-231 | Scheduling transparency at rest: every request not lost has exactly the naive loop's answer (or that loop cut short, if its cancel flag was seen), with one final event, the calls and the reason its text calls for, and at most max_tokens generated; lost ones were flagged and have no answer; what is held is held for lost ones, and without them every block is free. |
| Engines.Engine.AnswersAreReference | python-worker/worker/continuous_batch_engine.py:214-231 | At any time every answer already given, unless its cancel flag was seen, is the naive loop's for its own request. |
| Engines.Engine.RunLoop | python-worker/worker/continuous_batch_engine.py:193-235 | Over every script of arrivals and of cancel flags set before and during each pass, everything submitted stays accounted for and the answers given are the naive loop's.  With contiguous caches it cannot fail, nor with a pool as large as all these requests may store. |
| Engines.Engine.Drain | python-worker/worker/continuous_batch_engine.py:214-231 | Without new arrivals the loop is idle within the sum of max(1, max_tokens) working iterations, for every sequence of cancel flags; every request not lost is then answered, and only one whose flag is set during a pass can be lost.  With contiguous caches it cannot fail, nor with a pool as large as everything queued or lost may store. |
| Engines.Engine.Stop | python-worker/worker/continuous_batch_engine.py:130-140 | Everything left is finished as cancelled; every request not lost has its answer. |
| ByteLevel.ByteCharInjective | python-worker/worker/model/tokenizer/byte_level.py:13-27 | No two bytes share a character. |
| ByteLevel.Alphabet | python-worker/worker/model/tokenizer/byte_level.py:13-27 | Visible ASCII and Latin-1 bytes stand for themselves, the other 68 for U+0100 to U+0143 in order. |
| ByteLevel.BytesToUnicode | python-worker/worker/model/tokenizer/byte_level.py:13-27 | The loop's table has all 256 bytes, printable ones as themselves, the others numbered from U+0100. |
| Utf8.EncodedIsStep | python-worker/worker/model/tokenizer/bpe.py:143-143 | An encoded character followed by anything is read back as that character and its own length (RFC 3629, section 3). |
| Utf8.StepIsCanonical | python-worker/worker/model/tokenizer/bpe.py:215-215 | Nothing but the encoding of a character is decoded as it: no overlong forms or surrogates (RFC 3629, sections 3 and 4). |
| Utf8.IncompleteIff | python-worker/worker/model/tokenizer/bpe.py:274-292 | Bytes are kept for later if and only if some character begins with them. |
| Utf8.BrokenIsMaximal | python-worker/worker/model/tokenizer/bpe.py:215-215 | What is replaced is the longest beginning of a character that stands there, or one byte that begins none (section 3.9 of the Unicode Standard, maximal subparts). |
| Utf8.BrokenIsReplaced | python-worker/worker/model/tokenizer/bpe.py:215-215 | It becomes one U+FFFD, and so does a beginning cut off by the end. |
| Utf8.DecodeEncode | python-worker/worker/model/tokenizer/bpe.py:215-215 | Decoding an encoded text gives it back. |
| Utf8.DecodeContinues | python-worker/worker/model/tokenizer/bpe.py:272-292 | Decoding in two pieces with the buffer kept between them agrees with decoding at once, for all bytes, valid or not. |
| Bpe.MergePass | python-worker/worker/model/tokenizer/bpe.py:164-181 | The index-skipping pass merges exactly all leftmost non-overlapping occurrences of the pair. |
| Bpe.MinPair | python-worker/worker/model/tokenizer/bpe.py:161-161 | The pair found has the lowest rank among the pairs that have one, in whatever order the set is walked. |
| Bpe.MergeLoop | python-worker/worker/model/tokenizer/bpe.py:157-188 | The loop computes the rule: merge the best-ranked adjacent pair everywhere until none has a rank. |
| Bpe.BpeIsComplete | python-worker/worker/model/tokenizer/bpe.py:160-184 | The result joins back to the word and has no adjacent pair left that has a rank. |
| Bpe.BestIsUnique | python-worker/worker/model/tokenizer/bpe.py:161-161 | With distinct ranks the best pair is unique, so set order cannot matter. |
| Bpe.Merger.Merge | python-worker/worker/model/tokenizer/bpe.py:153-188 | The memo never changes a result. |
| Vocabularies.SplitIsLeftmostLongest | python-worker/worker/model/tokenizer/bpe.py:78-81 | With the literals longest first, as the constructor sorts them, the split cuts exactly at the leftmost literals, the longest at each place. |
| Vocabularies.SplitJoins | python-worker/worker/model/tokenizer/bpe.py:129-135 | The pieces join back to the text. |
| Vocabularies.LiteralIsLongest | python-worker/worker/model/tokenizer/bpe.py:78-81 | The literal found at a place is the longest that stands there. |
| Vocabularies.TiesDoNotMatter | python-worker/worker/model/tokenizer/bpe.py:78-78 | How the sort orders literals of one length makes no difference. |
| Tokenizers.SortByLength | python-worker/worker/model/tokenizer/bpe.py:78-78 | The sort puts the added tokens longest first and loses none. |
| Tokenizers.BPETokenizer.constructor | python-worker/worker/model/tokenizer/bpe.py:53-91 | The tables loaded are inverse to each other, the literals are the added tokens longest first, and the memo is empty and right. |
| Vocabularies.WordRoundTrip | python-worker/worker/model/tokenizer/bpe.py:140-188 | The ids of a word stand for exactly its bytes. |
| Vocabularies.WordIsMerged | python-worker/worker/model/tokenizer/bpe.py:140-188 | And they are ordinary tokens of which no two neighbours can be merged any more. |
| Vocabularies.TextRoundTrip | python-worker/worker/model/tokenizer/bpe.py:115-145 | Round trip: decoding the ids of any text without skipping gives the text, given a lossless pre-tokenizer, a merge-closed vocabulary and added ids disjoint from it. |
| Vocabularies.LiteralsAreAddedIds | python-worker/worker/model/tokenizer/bpe.py:128-138 | The added ids of an encoded text are, one for one and in order, those of the literals cut out of it; without splitting there are none. |
| Vocabularies.SkipIsRemoval | python-worker/worker/model/tokenizer/bpe.py:205-210 | Decoding with skipping is decoding without of the ids that are not special, for all ids. |
| Vocabularies.AddedDecodes | python-worker/worker/model/tokenizer/bpe.py:205-210 | An added id decodes to its literal under both flags, unless it is special and skipped. |
| Vocabularies.DecodesIff | python-worker/worker/model/tokenizer/bpe.py:204-214 | Decoding fails exactly when some id is neither special and skipped, nor added, nor a token over the byte characters. |
| Tokenizers.BPETokenizer.EncodeText | python-worker/worker/model/tokenizer/bpe.py:115-138 | The loops compute the ids of the specification; they decode to the NFC form of the text. |
| Tokenizers.BPETokenizer.DecodeAll | python-worker/worker/model/tokenizer/bpe.py:193-215 | The loop is decoding of all bytes together, of which SkipIsRemoval, AddedDecodes and DecodesIff say what each id gives; an unknown id is an error. |
| Tokenizers.StreamingEqualsOneShot | python-worker/worker/model/tokenizer/bpe.py:262-292 | All puts and the flush join to what decode gives with the same skip flag, for every id sequence. |
| Tokenizers.StreamingDecoder.Put | python-worker/worker/model/tokenizer/bpe.py:274-288 | Returns what the bytes so far decide and keeps the rest, a special id giving no bytes when skipping; an unknown id changes nothing. |
| Tokenizers.StreamAll | python-worker/worker/model/tokenizer/bpe.py:262-292 | Putting every id and flushing computes decode. |
| Pricing.CostIsRoundedIffFits | go-server/internal/services/billing/pricing.go:20-25 | The 64-bit cost is the exact price rounded half up if and only if nothing overflows. |
| Pricing.WithinHalf | go-server/internal/services/billing/pricing.go:20-25 | It is then within half a micro-credit of exact and not negative. |
| Pricing.Monotone | go-server/internal/services/billing/pricing.go:20-25 | More tokens never cost less while the larger count fits. |
| Pricing.OverflowCanRefund | go-server/internal/services/billing/pricing.go:20-25 | A count past the bound whose cost comes out negative. |
| WalletStores.WalletStore.Reserve | go-server/internal/services/billing/repository_wallet.go:57-89 | One transaction: get or create the wallet, check what is available when enforcing, place the hold, or change nothing. |
| WalletStores.WalletStore.Settle | go-server/internal/services/billing/repository_wallet.go:94-142 | One transaction: charge, give back the hold, append the charge once, or change nothing; SettleCharges has the amounts. |
| WalletStores.WalletStore.Release | go-server/internal/services/billing/repository_wallet.go:145-168 | One transaction: free a held row; any other row is left alone. |
| WalletStores.WalletStore.ReleaseExpired | go-server/internal/services/billing/repository_wallet.go:172-198 | All or none of at most limit expired holds are freed.  The count is theirs on success; after an error it is the number freed before the failing row, none of which stays freed. |
| WalletStores.WalletStore.TopUp | go-server/internal/services/billing/repository_wallet.go:205-258 | Credits once per idempotency key; a key reused for another tenant or amount is a conflict. |
| WalletAmounts.SettleCharges | go-server/internal/services/billing/repository_wallet.go:94-142 | Settling a row that is not settled, held or reaped, takes the cost of the prompt plus that of the completion, at the prices of the row, from the balance, books one entry of minus that with the new balance, and gives the hold back if it is still there; no other wallet, row or entry changes. |
| WalletAmounts.SettleChargesPrice | go-server/internal/services/billing/pricing.go:20-25 | When the counts fit, the balance falls by exactly the two prices rounded half up and the entry has minus that. |
| WalletAmounts.ReserveRefusedIff | go-server/internal/services/billing/repository_wallet.go:69-87 | A hold is refused for lack of credits if and only if enforced, positive and more than what is available (the whole allowance of a new wallet); else only for a used id or a reserve past 64 bits. |
| WalletAmounts.ReservePlaces | go-server/internal/services/billing/repository_wallet.go:57-89 | An accepted hold adds its amount to the reserve, creates the wallet with the allowance if need be, and adds a held row with the prices given; nothing else moves. |
| WalletAmounts.ReleaseFrees | go-server/internal/services/billing/repository_wallet.go:145-168 | A held row is freed and its amount leaves the reserve; a settled or released one stays. |
| WalletAmounts.ReapFrees | go-server/internal/services/billing/repository_wallet.go:172-198 | A reap frees exactly the selected rows: each wallet's reserve falls by the amounts of its own and no credit moves. |
| WalletAmounts.TopUpCredits | go-server/internal/services/billing/repository_wallet.go:205-258 | A new key credits the amount once, books it and records it; a used key changes nothing or is a conflict. |
| WalletStores.Service.Reserve | go-server/internal/services/billing/wallet.go:51-89 | The hold is computed from the estimates and the price, zero without one; nothing happens when billing is off. |
| WalletStores.HoldIsPrice | go-server/internal/services/billing/wallet.go:51-89 | When the estimated costs fit, the hold is the exact rounded price of the estimate if and only if that fits 64 bits. |
| WalletStores.Service.Settle | go-server/internal/services/billing/wallet.go:92-97 | Settles unless billing is off or nothing was reserved, and returns the error of the settle. |
| WalletLaws.StepKeepsInv | go-server/internal/services/billing/repository_wallet.go:57-258 | Every operation keeps conservation and the key correspondence. |
| WalletLaws.RunKeepsInv | go-server/internal/services/billing/repository_wallet.go:57-258 | So does every run. |
| WalletLaws.TablesAddUp | go-server/internal/services/billing/repository_wallet.go:57-258 | From empty tables: reserved is the sum of the held amounts, balance is opening plus ledger and every balance_after is opening plus the ledger up to it (while these fit 64 bits), charge:id is in the ledger iff that reservation is settled, ledger keys and top-up keys are unique. |
| WalletLaws.SettleIsIdempotent | go-server/internal/services/billing/repository_wallet.go:104-106 | Settling again changes nothing, whatever the counts. |
| WalletLaws.TopUpIsIdempotent | go-server/internal/services/billing/repository_wallet.go:209-217 | A repeated top-up changes nothing. |
| WalletLaws.SettleCoversIff | go-server/internal/services/billing/repository_wallet.go:107-118 | Exactly when a settle leaves the wallets covered, for every settle: it changes nothing, or the charge fits the hold, if it is still there, plus what is available beside all holds, and a negative charge does not push the balance past 64 bits. |
| WalletLaws.ChargeBeyondHold | go-server/internal/services/billing/repository_wallet.go:107-118 | A concrete enforced run, one hold and one larger charge, that ends with a negative balance. |
| WalletLaws.NoOverdraft | go-server/internal/services/billing/repository_wallet.go:57-142 | Over careful runs no wallet is ever overdrawn. |
| OverdraftLaws.EnforcedNeverOverdraws | go-server/internal/services/billing/wallet.go:51-89 | In every state reachable from empty tables by enforced holds computed from estimates, settles within them of holds not yet released or reaped, releases, reaping and fitting top-ups, reserved is at most balance. |
| BatchSchedulers.BuildIndex | go-server/internal/infrastructure/inference/batch_scheduler.go:250-262 | The routing index names, for each request id, the last item of the batch with it. |
| BatchRouting.DeliveredKeeps | go-server/internal/infrastructure/inference/batch_scheduler.go:300-324 | A delivered or skipped event keeps every item of the batch in step with what it is owed. |
| BatchRouting.FinishOneKeeps | go-server/internal/infrastructure/inference/batch_scheduler.go:356-372 | `finishAll` closes a routed item once, with a final of its own only where the worker sent none. |
| BatchRouting.AdvanceKeeps | go-server/internal/infrastructure/inference/batch_scheduler.go:233-393 | Every dispatcher step keeps its own batch in order and touches no other item. |
| BatchRouting.NextKeeps | go-server/internal/infrastructure/inference/batch_scheduler.go:144-393 | Every enabled step of any goroutine keeps the whole invariant. |
| BatchRouting.RunKeeps | go-server/internal/infrastructure/inference/batch_scheduler.go:144-393 | The invariant holds after every interleaving. |
| BatchLaws.SlotsAndOrder | go-server/internal/infrastructure/inference/batch_scheduler.go:183-229 | At most max(1, maxInFlight) batches are in flight, batches respect the size bound, and every accepted item is in exactly one place, in arrival order. |
| BatchLaws.SubmitAnswers | go-server/internal/infrastructure/inference/batch_scheduler.go:144-165 | TrySubmit never blocks, sheds load only while 100 submissions wait, and an accepted one joins the end of the queue. |
| BatchLaws.HandledIsReceived | go-server/internal/infrastructure/inference/batch_scheduler.go:279-301 | What a dispatcher has handled, with the event it is delivering, is exactly what the worker sent it in the run. |
| BatchLaws.ChannelsAreClean | go-server/internal/infrastructure/inference/batch_scheduler.go:300-393 | In every reachable state: no send after a close, at most one close, a final only as the last event of a channel. |
| BatchLaws.RoutedInOrder | go-server/internal/infrastructure/inference/batch_scheduler.go:279-326 | A routed item carries, in order, a subsequence of the worker's events for its id up to the first final: all of them unless it was cancelled or the scheduler stopped; a final of the scheduler's own only if the worker sent none. What each event says is RoutedCarries. |
| BatchContents.RoutedCarries | go-server/internal/infrastructure/inference/batch_scheduler.go:428-472 | In every reachable state each event of a routed item carries, field by field, a response the worker sent its batch for its id: token or reasoning text, tool, stop and finish reason, usage, an error iff the stop reason is STOP_ERROR; in the worker's order, none behind a final, and none left out unless cancelled or stopped. |
| BatchEndings.OwnFinals | go-server/internal/infrastructure/inference/batch_scheduler.go:279-393 | In every reachable state the scheduler itself has sent an item at most one event, the final its batch's ending calls for: error for a failed call, a broken stream or one without a final, cancelled for a cancelled batch or one dropped at shutdown; a closed item has that, a final of the worker's in its stream, or a full buffer. |
| BatchEndings.EndsOnce | go-server/internal/infrastructure/inference/batch_scheduler.go:279-298 | A batch ends at most once, and as cancelled only after a shutdown or when all its requests are cancelled. |
| BatchLaws.ClosedOnceIff | go-server/internal/infrastructure/inference/batch_scheduler.go:233-393 | When its batch is done an item was closed exactly once, unless a later item of an accepted batch has its id: then it was never closed and never sent anything. |
| BatchLaws.AllClosedIffDistinct | go-server/internal/infrastructure/inference/batch_scheduler.go:252-262 | A batch the worker accepted closes all its channels if and only if its request ids differ. |
| BatchLaws.DuplicateIsLost | go-server/internal/infrastructure/inference/batch_scheduler.go:252-262 | A concrete run with two equal ids in one batch whose first item is never closed. |
| BatchLaws.ShutdownDrains | go-server/internal/infrastructure/inference/batch_scheduler.go:168-172 | After a shutdown the scheduler's own steps, without help from worker or consumers, bring it to rest from every state. |
| BatchLaws.UnclosedIffQueued | go-server/internal/infrastructure/inference/batch_scheduler.go:183-229 | At rest, with distinct ids, the items never closed are exactly those left in the queue. |
| BatchLaws.QueuedForever | go-server/internal/infrastructure/inference/batch_scheduler.go:187-192 | Once the collector has returned, a queued item stays unclosed over every continuation. |
| BatchLaws.ShutdownLeavesOpen | go-server/internal/infrastructure/inference/batch_scheduler.go:144-192 | A concrete run: a submission that races the shutdown is accepted, and no continuation closes its channel. |
| BatchLaws.ClosedToCallers | go-server/internal/infrastructure/inference/batch_scheduler.go:144-172 | After a shutdown with no call under way nothing is accepted any more. |
| UsageRollups.UpsertAdds | go-server/internal/services/usage/repository_usage.go:115-129 | The upsert adds to exactly the row of its key and to no other. |
| UsageRollups.UsageStore.Group | go-server/internal/services/usage/repository_usage.go:101-113 | The grouping query gives one row per key that occurs, with its sums. |
| UsageRollups.UsageStore.Rollup | go-server/internal/services/usage/repository_usage.go:78-142 | After a successful rollup the rows agree with all events; an aborted one leaves rows and watermark as they were; the count is that of the groups. |
| UsageRollups.AppendKeepsAgreementIff | go-server/internal/services/usage/repository_usage.go:58-67 | A new event keeps the rows in agreement with the log if and only if its id is beyond the watermark. |
| UsageRollups.SummaryIsScan | go-server/internal/services/usage/repository_usage.go:144-157 | The sums over the daily rows are the sums of a direct scan of the events up to the watermark, for every tenant and range of days. |
| UsageRollups.ScanCounts | go-server/internal/services/usage/repository_usage.go:144-157 | What that scan counts: one more event adds its prompt tokens, its completion tokens and one request exactly if tenant and day, first and last included, are asked for and its id is rolled up. |
| UsageRollups.MaxIdIsReached | go-server/internal/services/usage/repository_usage.go:85-99 | The watermark a rollup moves to is the id of an event. |
| UsageRollups.UsageStore.Summary | go-server/internal/services/usage/repository_usage.go:144-157 | The summary loop computes that scan, and total tokens are prompt plus completion. |
| UsageRollups.UsageStore.Record | go-server/internal/services/usage/repository_usage.go:58-67 | A recorded event is appended, and the store stays in agreement if and only if its id is beyond the watermark. |
| UsageRuns.RunKeepsInv | go-server/internal/services/usage/repository_usage.go:78-142 | Over every interleaving of appends with the statements of rollups, committed or aborted at any point: each daily row plus the events missed for good is the grouped sum of the log up to the watermark. |
| UsageRuns.RunAgreesIff | go-server/internal/services/usage/repository_usage.go:78-142 | After every such run the rows agree with the log if and only if no event became visible late. |
| UsageRuns.InOrderAgrees | go-server/internal/services/usage/repository_usage.go:78-157 | If events become visible in id order, after every such run the rows agree with the log and the summary is the direct scan. |
| UsageRuns.LateEventIsLost | go-server/internal/services/usage/repository_usage.go:78-142 | A concrete run whose summary lacks an event that became visible after a higher id was rolled up. |
| UsageRollups.UsageStore.Migrate | go-server/internal/migrations/0011_usage_rollup_state.go:24-25 | Starting the watermark at the last backfilled event starts in agreement. |

## Left out

- Numerics: softmax, rotary embedding, quantisation and rounding are symbolic terms; a fully masked row reads nothing real and nothing is claimed of it.
- Grouped-query head expansion (`repeat_kv`): an entry holds all heads of K and V of one position.
- The sampler, the JSON and `name` check of a tool call, the pre-tokenizer's regular expression, NFC and the engine's streaming chunks are given as deterministic tables; the tokenizer's own results hold for every such table, and for the pre-tokenizer any lossless partition.
- Random sampling, call ids (uuid) and wall-clock time: time windows, tickers and queue polls become steps that may happen at any moment.
- The digest of a block's tokens is an injective chain over the 32-bit ids that are hashed; hash collisions are not modelled.
- Exceptions: when no block is free, or the model raises, the engine's thread ends. Methods then return `ok == false`: what must have been true before is proved (the pool was too small), nothing is claimed of the state afterwards, and exceptions of the model itself are not modelled.
- Sequence objects are values numbered by arrival, so two requests may share a request id; submissions and prefix matches happen between iterations, one at a time.
- Engines.Engine.Submit: asks for a prompt of at least one token, because an empty one makes a fully masked row (alone, an index error) and nothing can be said of its first token.
- The engine's backend holds caches as the lists and the pool value that the cache classes are proved against, not as `KVCache` and `PagedKVCache` objects; `CacheLinks` relates the two for prefill and decode.
- A cancel flag is read once per request by the sweep of the queue and once by the filter or the sweep of running requests; flags are never taken back.
- The prefix index uses the block size of its manager and is its only eviction listener; `clear` and the size accessors are not modelled.
- The K/V tensors of block writes longer than one position; every caller writes one.
- `vocab_size`, `encode_batch`, `build_inputs`, `token_count` and loading the vocabulary from files; a tokenizer without any added token, whose pattern would be the empty alternative.
- Currencies, foreign keys, timestamps, row locks and isolation levels of the database; `GetOrCreate`, `Get`, `ListLedger` and price management; the off switch of `ReapExpired`.
- WalletLaws.NoOverdraft: asks that charges stay within live holds and that top-ups fit 64 bits; without that the statement is false, and WalletLaws.SettleCoversIff gives the exact condition of a settle.
- Usage sums are unbounded integers where the database has 64 bits; `Daily` and `ByModel` group the same rows by one column.
- UsageRuns.RunAgreesIff: each statement of a rollup sees the events visible when it runs, as under read committed; rollers that wait for the watermark row are not steps.
- Batch scheduler: tracing, logging, conversion of requests to protobuf, and the waiting of `Shutdown` for its goroutines.
- BatchLaws.ShutdownDrains: says that such a sequence of steps exists from every state, not that a scheduler of goroutines will choose it.
- gRPC, HTTP, SSE, Kafka, Redis and Docker plumbing, the other inference engines, the web interface, access control and image storage.
