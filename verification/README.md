# bx-sync: a verification model

bx-sync copies a company's Bexio data (contacts, projects, invoices and the
rest) into a MariaDB database and keeps it up to date. This project models the
parts of it whose failure would lose data or access, and proves what they
promise, for every input and every run.

**The sync chain and its pruning.** One thread walks the contacts, archived
contacts, projects and invoices page by page, checkpoints a cursor, marks what
it saw in a versioned id cache, and finally deletes rows that vanished. Pages,
rows, saves, GETs and DELETEs may fail, and the process may restart, anywhere.
`ChainSpec` is the step function of the thread's loop, `ChainThread` the
imperative code that refines it (with the cache of `IdsCache`, an array kept
sorted in place). A run's state carries a log of facts; the theorems say what
the log must show before a page may be passed (`ChainCoverage`), a resource
pruned (`ChainFlags`; `ChainExact` has the converse), an id deleted
(`ChainDrift`, `ChainSafety`, `ChainInvoices`), what a whole pass or cycle asks
for (`ChainCycle`), when cache and table agree (`ChainAgreement`), that what is
listed is stored (`ChainMirror`) and what vanished is deleted (`ChainVanish`), and
what a call reports (`ChainCalls`).
`ChainExamples` holds the runs that show where these theorems stop. A process
killed between two statements leaves what an iteration with a failing answer
leaves, followed by a restart.

**The OAuth refresh between processes.** Several processes share one grant: a
named lock, three rows written in one transaction, and a server that accepts
only its latest refresh token (section 6 of RFC 6749). `OAuth` is the step
function of one process, `OAuthProcess` the imperative code that takes exactly
these steps, `OAuthEnsure` what one call owes its caller, `OAuthRuns` and `OAuthOnce` speak of any number of processes in any
interleaving, `OAuthUnrotated` and `OAuthUnsure` hold the runs that show where
they stop.

**The request queue.** Two linked lists between many callers and one worker:
`RequestList` relinks nodes in place, `RequestQueue` proves what every
interleaving keeps.

**In-place text rewriters.** `HtmlEntities`, `Placeholders` (with `Upsert`, which
depends on it), `PercentEncoding` and the cursor text in `ChainCursor`: buffer
loops proved equal to pure functions that have round trips.

## What is not true, and exactly when it is

- Contact pruning may delete a contact that was just listed: failed calls bump
  the version too. It cannot happen while fewer than the configured drift of
  bumps followed, and the bound is exact (`ChainSafety`).
- An invoice may be deleted without a 404 when the memory to decode its body
  cannot be allocated: `bx_object_invoice_decode` fails in no other way, and the
  by-id step reports such a body as synced (src/bxobjects/invoice.c:227-231).
  Without such a failure the rule holds (`ChainInvoices.DeletedOnlyAfter404`).
  All of this takes a GET by id to answer about that id. A 200 body without the
  id decodes to another one, and may leave the id asked for prunable too; it is
  outside the model.
- A process that gives up on its commits while the row already has its refresh
  token can later put a spent one there: after an answer that brought no new one
  (`OAuthUnrotated`; the design document says that the server always rotates), or
  after a COMMIT that was reported failed although it succeeded (`OAuthUnsure`).
  The location theorem excludes exactly this step, and no other.
- The valid refresh token is lost by a lost answer or a death with unsaved
  tokens and, short of that step, by nothing else (`OAuthRuns.LocatedUnlessLost`).
- Two rows of the entity table are longer than their entities
  (src/include/bx_html_entities.h:730 and 733), so a text can decode to a longer
  one and decoding can run over bytes not read yet. No text of a table grows
  exactly when no row does (`HtmlEntities.GrowsIff`). For a single text `Fits` is
  sufficient: it says that no byte is run over before it is read. A text that does
  not fit may still come out right, when the bytes run over happen to be the same.
- Expanding placeholders restores a text exactly when none of its own question
  marks stands before a placeholder.
- The statements of the upsert are bound right exactly when no field has the
  placeholder of one of the row's own columns (`_checksum`, `_last_updated`,
  `_deleted`, and `_parent` where there is a parent) and, for the UPDATE, the key column is called `id`.
  Every field list in src/bxobjects/sync_more.c has it so.
- Cache and table may disagree: an invoice whose positions fail has its row
  rewritten while the cache keeps the old checksum, and a reset of the version
  revives tombstones (`ChainAgreement` has both exactly).

## Model

| member | source | states |
|---|---|---|
| ChainCoverage.NoPageIsSkipped | src/bx_chain.c:147-200 | In every run, with lost pages, failing rows, refused or doubtful saves and restarts anywhere: every page below the cursor in memory was synced whole, in order, since memory last entered its phase; every page below the saved cursor since memory had entered it when the row was written; a phase is left only past such pages |
| ChainCoverage.RunCovered | src/main.c:384-438 | The invariant behind it, kept by every iteration, whatever fails in it, and by every restart |
| ChainHistory.WalkInOrder | src/bx_walk.c:20-91 | A walk, however it ends, only moves a cursor to an offset below which all pages are synced, and ends with an empty page exactly when it succeeds |
| ChainHistory.PageInOrder | src/bx_walk.c:39-89 | The same for one page: lost, failing, empty, or full with any outcome of its checkpoint |
| ChainCoverage.AdvanceCovered | src/bx_chain.c:182-191 | Entering a phase keeps both cursors covered even when the row could not be written |
| ChainFlags.PruningIsEarned | src/bx_chain.c:237-310 | In every run a resource is pruned only by the call that completes its walk, and only if that walk began at page 0 in this process: for contacts the very archived phase this call ends was entered by a call that had listed the active ones whole, and all its pages were synced since; projects were listed whole by this call; for invoices this call asked for all missed ids in the very phase a whole list had entered. A pass of an earlier cycle is no evidence |
| ChainExact.PruneExactlyWhenEarned | src/bx_chain.c:237-310 | The converse too: at every point of every run, the next call raises its prune flag if and only if it succeeds and the log shows such a walk |
| ChainExact.RunKnown | src/bx_chain.c:155-156 | In every run a from-zero flag is up whenever the phase in memory was entered by a whole call of this process |
| ChainExact.BehindBegan | src/bx_chain.c:237-246 | A call that resumed midway and reached the empty page is no whole listing, whatever was listed before it |
| ChainFlags.WalkIsWhole | src/bx_chain.c:237-246 | A call that begins at offset 0 and reaches the empty page listed every page of its phase |
| ChainFlags.PassBegins | src/bx_chain.c:237-249 | An active call that ran from offset 0 to the empty page is the pass the contact flag stands for |
| ChainFlags.ArchivedCompletes | src/bx_chain.c:254-265 | However often the archived pass is interrupted, the whole active call that entered this very archived phase stays the pass behind the contact flag, and the pass is complete when the phase ends |
| ChainFlags.InvoiceListKeeps | src/bx_chain.c:280-297 | The invoice flag is raised only by a list that began at page 0 and then entered the by-id phase; a list that resumed midway, once it ends, skips that phase and starts the next cycle |
| ChainDrift.ListedIdsOutliveDrift | src/main.c:395-434 | In every run, for every resource: no pruning deletes an id this process listed with fewer version bumps since than the drift, across resets of the version counter |
| ChainDrift.RunFine | src/bx_ids_cache.c:167-186 | In every run: version minus last_seen of a listed id is at most the bumps since, and for contacts and projects exactly the bumps since its last listing while the counter was not reset |
| ChainDrift.PruneDrifted | src/bx_prune.c:9-35 | What a pruning deletes is at least drift bumps old, whatever the drift and however the pruning ends |
| ChainDrift.AfterBoot | src/main.c:144-157 | A restart forgets every listing: nothing listed before it protects a row |
| ChainSafety.ListedSurvive | src/bx_chain.c:254-278 | In every run: a contact pruning follows the whole pass it completes; contacts listed in a from-zero active pass or in the archived pages after it survive every contact pruning that fewer than drift bumps after that pass reach; projects listed in the call that raised the flag always survive |
| ChainSafety.PrunableExactlyByDrift | src/bx_ids_cache.c:103-118 | A live contact or project last listed at some point of this process is prunable if and only if at least drift bumps of its resource followed (while the version counter was not reset) |
| ChainExamples.ListedContactLost | src/bx_chain.c:254-265 | The bound is needed: a run in which a drift of 1 and one lost archived page delete a contact the very pass had listed |
| ChainInvoices.InvoicesAreAskedFor | src/bxobjects/invoice.c:469-499 | In every run, for every drift and history, a GET by id being about that id: an invoice row is deleted by pruning only if the by-id call of the same chain step asked for it and got 404, or a body it had no memory to decode |
| ChainInvoices.DeletedOnlyAfter404 | src/bxobjects/invoice.c:483-499 | In every run: if no decoding of the call ran out of memory, every invoice its pruning deletes was answered 404 in that call |
| ChainInvoices.MissedAsks | src/bx_chain.c:299-310 | What a successful by-id call leaves prunable was asked for in that call |
| ChainExamples.DeletedWithout404 | src/bxobjects/invoice.c:227-231 | The assumption is needed: a run that deletes an invoice although no GET answered 404, because there was no memory to decode its body and the sync step reports no error |
| MissedIds.PrunableIffUnseen | src/bxobjects/invoice.c:473-497 | After a successful by-id call, for every drift: an id is prunable if and only if it was before and the reply to its GET was 404 or a body that was not decoded |
| MissedIds.FetchMissed | src/bxobjects/invoice.c:473-499 | Asks for due ids, smallest first, each once; success exactly when all of them were asked for and none failed; cache and table are those the replies lead to |
| MissedIds.FetchOne | src/bxobjects/invoice.c:478-496 | One GET by id: lost, 404, or a body that is synced; nothing else changes |
| ChainCycle.PassSyncsEachPageOnce | src/bx_walk.c:39-90 | Over a list of n pages, with any lost pages, failing rows and restarts but all saves written: the pages synced and the cursor rows written for them are, in the order of the log, page by page, each exactly once; all n by the time the phase is left |
| ChainCycle.CycleIsFourPlainWalks | src/bx_chain.c:223-314 | Without errors, five calls from the start of a cycle issue exactly the list requests of four plain walks from offset 0; after the last walk of each resource it is pruned once and then its version bumped once; and the next cycle starts there, for all page counts |
| ChainVanish.VanishedIsDeleted | src/main.c:397-434 | What vanished is deleted: a live contact, project or invoice that nothing shows during one more undisturbed cycle than the drift is among the ids of a pruning of its resource, and neither table nor cache has it any more |
| ChainVanish.PruningTakesUnseen | src/bx_prune.c:9-35 | The same for any stretch of iterations, whatever errors are in it: the first pruning after as many bumps as the drift takes every object that nothing has shown since |
| ChainVanish.CycleBumpsEachOnce | src/main.c:426-434 | An undisturbed cycle raises the number of bumps of each of the three resources by exactly one |
| ChainVanish.CyclePrunes | src/main.c:397-405 | An undisturbed cycle prunes each of the three resources |
| ChainVanish.SyncLeaves | src/bx_chain.c:223-314 | A call leaves mark and row of an object alone unless it logs that a list or an answer showed it |
| ChainMirror.SyncedPageIsStored | src/bx_walk.c:58-89 | What was listed is stored: in every run in which cache and table agree, and for every page the next iteration logs as synced, each object that was answered as stored (new, changed or as before, listed once) is in its row with its content and cached when the iteration is over; and none that is new or changed was answered with an error |
| ChainMirror.WalkStores | src/bx_walk.c:39-90 | The objects of a synced page are stored when the walk is over, however it ends |
| ChainMirror.NoRowFailed | src/bx_walk.c:58-65 | No row of a synced page failed, each on what the rows before it had left |
| ChainMirror.SomeRowFailed | src/bx_walk.c:58-65 | A page that was not synced stopped at a row that failed |
| ChainMirror.FetchedIsStored | src/bxobjects/invoice.c:491-496 | An invoice that a by-id call fetched and stored is in its row |
| ChainCalls.CallReports | src/bx_chain.c:161-221 | A call fails exactly when it does not get to the next phase or cannot be sure of the row; it asks for a bump exactly when it failed or was the last of its resource, and for a pause exactly when it was the last and did not fail |
| ChainCalls.CallMoves | src/bx_chain.c:182-191 | Memory leaves a phase, for page 0 of the next one, exactly when the walk found the empty page or every missed id was had, whatever becomes of the row |
| ChainCalls.PageMoves | src/bx_chain.c:161-180 | Memory moves on by one page exactly when the page came, was not empty, had all rows synced, and its checkpoint is known to be written |
| ChainCalls.MemoryTrails | src/bx_chain.c:161-191 | In every run memory is ahead of the row by an entered phase at most, never by a page |
| ChainCalls.RowsFollowLog | src/bx_prune.c:20-34 | An iteration loses exactly the rows that it logs as pruned |
| ChainCycle.CleanWalk | src/bx_walk.c:93-98 | An undisturbed walk of n pages requests offsets 0, 500, ... 500n and stops |
| ChainCycle.WalkOnce | src/bx_walk.c:66-80 | One interrupted walk moves the checkpoint exactly as far as it synced |
| ChainCursor.RoundTrip | src/bx_chain_db.c:25-39 | Printing a normalized cursor and decoding it gives it back, for all five phases and all offsets, whatever the older rows hold |
| ChainCursor.PrintedInjective | src/bx_chain_db.c:33-34 | Different cursors have different texts |
| ChainCursor.StoredTextWins | src/bx_chain.c:130-145 | The older rows matter if and only if the stored text does not parse |
| ChainCursor.PrintFits | src/bx_chain_db.c:26-37 | The print buffer of 64 bytes is never too small |
| ChainCursor.StrToLReadsDigits | src/bx_chain.c:88-91 | strtol reads back all of what %d printed |
| ChainCursor.NumeralIsRead | src/bx_chain.c:88-91 | strtol takes a numeral whole and gives its value |
| ChainCursor.ReadIsNumeral | src/bx_chain.c:88-91 | Whatever strtol takes whole is a numeral |
| ChainCursor.Decoded | src/bx_chain.c:57-70 | Decoding any text and any older rows gives a normalized cursor |
| ChainCursor.ParsePhase | src/bx_chain.c:41-55 | The loop over the phase names finds the phase of a name, if there is one |
| ChainCursor.ParseStored | src/bx_chain.c:72-96 | The parser accepts exactly the texts made of a phase name, a colon, and white space, an optional sign and digits that say a number in 0..INT_MAX, and gives that phase and number, normalized |
| ChainCursor.ParsedIffSaid | src/bx_chain.c:83-95 | The same of the function the other properties speak of |
| ChainCursor.Decode | src/bx_chain.c:130-145 | The decoder computes what the specification says |
| ChainCursor.OlderRowsMean | src/bx_chain.c:98-128 | Which cursor each older step, offset and pass stands for when the text does not parse |
| ChainCursor.TextsMean | src/bx_chain.c:25-39 | What stands before the colon for each of the five phases |
| ChainThread.Configuration.Put | src/bx_chain_db.c:25-39 | After a save the stored row decodes to the cursor saved, unless the server refused the row; a caller may be told of a failure although it was written |
| ChainThread.Hydrate | src/bx_prune.c:40-61 | Loads the rows into an empty cache: none if the SELECT is not answered, else all but those refused when the array was full and could not grow |
| ChainThread.Thread.constructor | src/bx_chain.c:147-159 | A process starts with the decoded cursor and both flags down |
| ChainThread.Start | src/main.c:144-157 | Starting a process on what another left is the restart event of the model |
| ChainThread.Thread.SyncRows | src/bx_walk.c:58-65 | Rows are synced in order until one fails |
| ChainThread.Thread.StoreCheckpoint | src/bx_chain.c:168-178 | The cursor in memory follows the row only once it is known to be written |
| ChainThread.Thread.AdvanceTo | src/bx_chain.c:182-191 | The cursor in memory moves first, whatever becomes of the row |
| ChainThread.Thread.WalkPages | src/bx_walk.c:39-90 | The page loop refines the walk of the model |
| ChainThread.Thread.Sync | src/bx_chain.c:223-314 | One call changes cursors, flags, caches and tables as the model says, raises only flags of its own resource, and pauses only after success |
| ChainThread.Thread.PruneFlagged | src/main.c:397-405 | Prunings run in order and only while there was no error |
| ChainThread.Thread.SyncPhase | src/bx_chain.c:234-312 | A call runs the phase the cursor is in |
| ChainThread.Thread.BumpFlagged | src/main.c:426-434 | The version of exactly the flagged resource is bumped, after pruning, error or not |
| ChainThread.Thread.Turn | src/main.c:384-438 | One turn of the thread is one enabled iteration of the model; it ends with a pause exactly when a resource was left, the cursor row is known to be written and no pruning failed |
| ChainThread.Thread.Run | src/main.c:384-438 | Any number of turns is a run of such iterations |
| ItemSync.ListedIsSeen | src/bxobjects/contact.c:431-435 | After an id is listed it is absent, a tombstone, or seen in this version |
| ItemSync.StoredIsInRow | src/bxobjects/contact.c:437-542 | An object answered as stored, new or changed or not, is in its row with its content and marked as seen with it |
| ItemSync.OthersStay | src/bxobjects/contact.c:421-561 | Syncing one object leaves every other alone |
| ItemSync.NothingStored | src/bxobjects/contact.c:447-539 | Without an answer that something was stored, no row and no checksum changes |
| ItemSync.UnchangedIsSkipped | src/bxobjects/contact.c:431-435 | An object as the cache knows it is marked as seen, and nothing else happens |
| ItemSync.UncachedIsInRow | src/bxobjects/invoice.c:403-411 | A row written while the cache is left alone has the new content, the cache what it had |
| ItemSync.DuplicateIsIgnored | src/bxobjects/contact.c:532-541 | A row that the cache does not know stays as it is, and stays unknown |
| ItemSync.LostRowStaysLost | src/bxobjects/contact.c:440-442 | A row lost behind the cache is not written again, however the object changes |
| ItemSync.FailsAsAnswered | src/bx_walk.c:58-65 | An object that is new or changed ends its page exactly when it was answered with an error |
| ItemSync.SyncItem | src/bxobjects/invoice.c:219-238 | Syncing one object marks it seen, writes its row when new or changed, and enters it in the cache only when the row was written; an error may come before the row or after it |
| ItemSync.Table.Write | src/bxobjects/contact.c:437-444 | INSERT IGNORE for an id new to the cache, UPDATE otherwise; a duplicate changes nothing |
| IdsCache.Cache.constructor | src/bx_ids_cache.c:85-92 | An empty cache at version 1 |
| IdsCache.Cache.LowerBound | src/bx_ids_cache.c:36-48 | Binary search returns the first index not below the key, without overflow |
| IdsCache.Cache.FindItem | src/bx_ids_cache.c:50-59 | Finds an id exactly when the map has it |
| IdsCache.Cache.Grow | src/bx_ids_cache.c:20-33 | Growing keeps every item and makes room for 1000 more, or changes nothing |
| IdsCache.Cache.ShiftUp | src/bx_ids_cache.c:156-159 | The memmove opens one slot and keeps the order of the rest |
| IdsCache.Cache.SetItem | src/bx_ids_cache.c:141-165 | The map gains or renews exactly that id at the current version; only a new id can be refused, only when the array is full, and then nothing changes |
| IdsCache.Cache.CheckItem | src/bx_ids_cache.c:167-176 | Tells absent, outdated or equal, and marks exactly a live id as seen |
| IdsCache.Cache.Tombstone | src/bx_ids_cache.c:120-125 | Exactly that id loses its mark |
| IdsCache.Cache.Compact | src/bx_ids_cache.c:128-134 | The live items move to the front in their order |
| IdsCache.Cache.Prune | src/bx_ids_cache.c:127-139 | Exactly the tombstones leave the map; the array stays sorted |
| IdsCache.Cache.NextVersion | src/bx_ids_cache.c:178-186 | The version grows by one, or every mark and the version restart at 1; no mark is ever ahead of the version |
| IdsCache.Cache.ResetVersion | src/bx_ids_cache.c:78-83 | Every item, tombstones included, restarts at 1 |
| IdsCache.CacheIter.NextPrunableId | src/bx_ids_cache.c:103-118 | The next prunable item, skipping only items that are not |
| IdsCache.LiveMarks | src/bx_ids_cache.c:127-139 | Compacting the array is compacting the map |
| IdsCache.LiveMark | src/bx_ids_cache.c:127-139 | The same for each id |
| IdsCache.LiveSorted | src/bx_ids_cache.c:127-139 | Compaction keeps the array strictly sorted |
| IdsCache.InsertedSorted | src/bx_ids_cache.c:145-162 | Inserting at the lower bound keeps the array strictly sorted |
| IdsCache.MarksOfInserted | src/bx_ids_cache.c:156-163 | Inserting in the array is one update of the map |
| IdsCache.MarksOfUpdate | src/bx_ids_cache.c:146-150 | Rewriting an item in place is one update of the map |
| IdsCache.ResetMarks | src/bx_ids_cache.c:78-83 | Resetting the array is resetting the map |
| Sweep.SweepOne | src/bx_ids_cache.c:109-115 | Passing the next prunable item adds exactly its id to those passed, even while passed items are being rewritten |
| Sweep.SweepEnd | src/bx_ids_cache.c:109-117 | When none is left, exactly the prunable ids have been passed |
| Prune.PruneItems | src/bx_prune.c:9-38 | Deletes exactly the prunable ids from table and cache, ascending, each once; stopped at an id, exactly the smaller ones, whose tombstones stay |
| Prune.PrunedExactly | src/bx_prune.c:20-38 | What a pruning does to each id: a deleted one leaves the table, and the cache too when the pruning is done, until when it is a tombstone; any other keeps its row, and its mark unless that was a tombstone |
| Prune.DriftMeans | src/bx_prune.c:13-16 | The drift is 10 if none is configured; a negative one makes nothing prunable, short of 2^64 - 2^31 versions |
| Prune.DeleteAll | src/bx_prune.c:22-34 | The DELETE loop keeps table and cache in step at every point |
| Prune.DriftOf | src/bx_prune.c:13-16 | The drift that reaches the cache is never 0 |
| ChainAgreement.CacheAndTableAgree | src/main.c:384-438 | In every run: unless, since the last restart, a row was rewritten while the cache kept its old checksum, or a version reset revived a tombstone, every live cached id of all three resources has its row with the very checksum the cache compares to; a reviving reset apart, every live id has its row |
| ChainAgreement.LiveIdsHaveRows | src/bx_ids_cache.c:178-186 | In every run short of 2^64 - 3 bumps of a resource, every live cached id has its row |
| ChainAgreement.ItemAgrees | src/bxobjects/invoice.c:394-411 | Syncing one object keeps the agreement, except exactly when it rewrites the row of a cached id and leaves the cache alone, as an invoice whose positions fail does |
| ChainAgreement.ForgottenIsSkipped | src/bxobjects/invoice.c:403-410 | What that leads to: when the object goes back to what it was it is skipped, although the row has something else |
| ChainAgreement.SkippedIsStored | src/bx_ids_cache.c:167-176 | While they agree, an object is skipped only if its row has the very checksum |
| ChainAgreement.BumpAgrees | src/bx_ids_cache.c:78-83 | A bump keeps the agreement, except exactly when it resets the version while a tombstone has no agreeing row |
| ChainAgreement.PruneAgrees | src/bx_prune.c:20-38 | A pruning keeps it, however it ends |
| ChainAgreement.HydratedIs | src/bx_prune.c:40-61 | A restart knows exactly the rows it loaded, as seen in version 1 |
| OAuthRuns.LocatedUnlessLost | src/bx_oauth.c:957-1030 | Any number of processes in any interleaving, any number of failed commits: while the grant exists, the valid refresh token is in the row with nobody holding another unsaved one, or in exactly one process, which is the lock holder between post and commit or the one dirty process; as long as no process gives up with a copy of the row, this holds if and only if no answer that brought a new token and no process with one the row lacks was lost |
| OAuthRuns.CopyIsNotLocated | src/bx_oauth.c:290-302 | Giving up on commits while the row has that very refresh token ends this at once |
| OAuthRuns.PostIsValidIffNoneElsePending | src/bx_oauth.c:983-1027 | A post carries the valid refresh token if and only if no other process holds unsaved ones |
| OAuthRuns.EveryPostIsValid | src/bx_oauth.c:290-302 | If no commit fails and nothing is lost, every refresh posted is the valid token and none is refused, whether or not the server rotates it |
| OAuthRuns.MoveExcludes | src/bx_oauth.c:158-191 | The lock excludes: exactly its holder is in the section |
| OAuthRuns.MovePosts | src/bx_oauth.c:999-1027 | Who is about to post carries the row's refresh token, unless it is dirty |
| OAuthRuns.LocatedProcess | src/bx_oauth.c:232-302 | Every step that loses nothing leaves unsaved tokens where they are or moves them into the row |
| OAuthRuns.MoveLost | src/bx_oauth.c:462-466 | A loss is final: afterwards nobody has the valid token |
| OAuthRuns.ReachesAlone | src/bx_oauth.c:957-1030 | What one process does while it holds the lock is a stretch of a run of all |
| OAuthUnrotated.UnrotatedGrantUndone | src/bx_oauth.c:519-524 | A run with failed commits only, in which an answer without a refresh token leads to a spent one in the row |
| OAuthUnsure.UnsureGrantUndone | src/bx_oauth.c:266-302 | A run in which every token is rotated and nothing lost, but one COMMIT succeeds and is reported failed: the dirty process later overwrites a newer, valid token with a spent one |
| OAuthOnce.OneRefreshServesAll | src/bx_oauth.c:1005-1030 | Any number of clean processes with the same rejected or expired access token that each run ensure once, in any order: exactly one refresh is accepted, every call succeeds, and all end with the same new token |
| OAuthOnce.OneGrant | src/bx_oauth.c:935-955 | At every point of such a run at most one refresh was accepted, and everybody has the old token, or the one new one, or is on the way to it |
| OAuth.ForcedRenews | src/bx_oauth.c:971-1030 | A forced call that succeeds has another access token than the one it was called to replace |
| OAuth.UnforcedServes | src/bx_oauth.c:965-1030 | An unforced call that succeeds has a token usable when the clock was last read, if grants live longer than the margin or get the default |
| OAuth.GrantServesIffLongEnough | src/bx_oauth.c:529-536 | The bound is exact: a saved grant is usable when issued if and only if its lifetime, or the default, exceeds the margin |
| OAuth.AccessStaysKnown | src/bx_oauth.c:519-520 | Access tokens in memory and in the row always come from the server |
| OAuthEnsure.SuccessAgrees | src/bx_oauth.c:983-1030 | A call that took the lock and succeeds leaves in the rows what it has in memory and nothing unsaved; except after exactly three failed writes, and then its tokens are unsaved |
| OAuthEnsure.FailureHasCause | src/bx_oauth.c:957-1030 | A call fails only if the lock, the rows or the server failed it, if there is no refresh token, or if it ends with an unsaved token that is of no use |
| OAuthEnsure.RefusalLetsGo | src/bx_oauth.c:478-501 | A refused process gives up its unsaved tokens: the call fails and the next one reads the rows |
| OAuthEnsure.PostsOnlyIfNeeded | src/bx_oauth.c:935-955 | Under the lock a process posts exactly when it has a refresh token and the access token it finds is not usable for 60 more seconds, or is the rejected one, or is in memory alone and must be replaced |
| OAuthEnsure.PostsOnceIfNeeded | src/bx_oauth.c:957-1030 | A call that goes for the lock posts once if it looked at its tokens and found need, and otherwise never: it has a refresh token, and its access token is not usable, or the call is forced and the token is the rejected one or unsaved |
| OAuthEnsure.GrantServesUntil | src/bx_oauth.c:512-536 | A granted token serves as long as the server said, or 300 seconds if it did not, less 60 |
| OAuthEnsure.DefaultIsLongEnough | src/bx_oauth.c:529-531 | The default lifetime exceeds the margin |
| OAuthProcess.Process.Ensure | src/bx_oauth.c:957-1030 | Nothing is done exactly when memory has nothing unsaved and a usable token and the call is not forced; else the method takes exactly the steps of the model, with whatever others did before it got the lock. Success means rows and memory agree, or three failed writes; failure has a cause; one post if and only if the tokens found under the lock must be renewed; forced success means another token, unforced success a usable one |
| OAuthProcess.Process.Exclusive | src/bx_oauth.c:978-1030 | From asking for the lock to releasing it, on every path |
| OAuthProcess.Process.SectionDirty | src/bx_oauth.c:983-1004 | A process with unsaved tokens never reloads: it saves them or posts with them |
| OAuthProcess.Process.SectionClean | src/bx_oauth.c:1005-1030 | Any other reads the rows under the lock and decides |
| OAuthProcess.Process.WriteTokens | src/bx_oauth.c:290-302 | At most three attempts; the dirty flag is cleared exactly by a commit known to have succeeded |
| OAuthProcess.Process.WriteTurn | src/bx_oauth.c:293-298 | One attempt is one step of the model, and the last one that fails leaves the process dirty |
| OAuthProcess.Process.WriteOnce | src/bx_oauth.c:232-288 | The three rows change together or not at all, and only for an expiry that fits; a failure may be reported although they changed |
| OAuthProcess.Process.PostToken | src/bx_oauth.c:439-537 | Refused, lost or granted; a refusal clears the dirty flag, a grant is written or left unsaved |
| OAuthProcess.Process.TakeTokens | src/bx_oauth.c:504-537 | Granted tokens are taken up, keeping the refresh token if none came, and written |
| OAuthProcess.Process.Renew | src/bx_oauth.c:1026-1028 | An unsaved grant counts as success exactly when it is usable |
| OAuthProcess.Process.Lock | src/bx_oauth.c:158-191 | The lock was free and is now held, or the call is over and whoever holds it keeps it; the world may have moved before that |
| OAuthProcess.Process.Unlock | src/bx_oauth.c:146-156 | Released on every exit from the section |
| OAuthProcess.Process.LoadRows | src/bx_oauth.c:899-910 | Reloading takes each token the rows have, keeps those they lack, and never touches unsaved ones |
| OAuthProcess.Fetch | src/bx_net.c:290-374 | One attempt, unforced; a second, forced, exactly after a 401, and never with the refused token; the result is what the last attempt got, nothing without a token |
| OAuthProcess.TryOnce | src/bx_net.c:311-359 | Nothing is sent without a token |
| RequestQueue.EachRequestInOnePlace | src/bx_net.c:391-404 | In every interleaving of fewer than 2^64 adds: each issued id is in exactly one of the pending list, the worker, the finished list or the claimed requests, no other id is anywhere, and the worker serves rising ids |
| RequestQueue.NextConserves | src/bx_net.c:436-460 | Add, take, put back, claim and cancel each keep every id in its one place |
| RequestQueue.NextFalls | src/bx_net.c:396-400 | The pending list stays strictly decreasing |
| RequestQueue.NextRises | src/bx_net.c:833-843 | The worker takes the smallest pending id, so what it served rises |
| RequestQueue.NextSettles | src/bx_net.c:846-888 | What is finished or claimed was answered or cancelled; what is pending is neither |
| RequestQueue.ClaimIsOwn | src/bx_net.c:406-434 | A waiter gets the one request of its id, settled; the other finished ones keep their order |
| RequestQueue.EveryOutcomeIsAccounted | src/bx_net.c:436-460 | In every interleaving: what is finished or claimed was put back by the worker with that very outcome, or was pending when everything was cancelled, and is then marked cancelled and not answered |
| RequestQueue.ClaimIsTrue | src/bx_net.c:406-434 | A claim tells its waiter the truth: answered means that the worker took the request and put it back with that outcome; not answered, that it was cancelled before the worker took it |
| RequestQueue.CancelKeepsOrder | src/bx_net.c:444-457 | A cancel puts the pending requests behind the finished ones, in their order, flagged and otherwise as they were |
| RequestList.List.constructor | src/bx_net.c:462-470 | Two empty lists, no id issued |
| RequestList.List.Add | src/bx_net.c:391-404 | The request is numbered and put in front |
| RequestList.List.Take | src/bx_net.c:833-843 | The last pending node is unlinked, the rest stays linked |
| RequestList.List.PutBack | src/bx_net.c:881-888 | The request goes to the front of the finished list with its outcome |
| RequestList.List.Find | src/bx_net.c:411-427 | The scan stops at the first request of that id and knows the one before it |
| RequestList.List.Unlink | src/bx_net.c:416-424 | Exactly that node leaves the list |
| RequestList.List.GetFinished | src/bx_net.c:406-434 | One scan: the request of that id, unlinked, or nothing changed |
| RequestList.List.Append | src/bx_net.c:449-457 | A whole chain is hung onto the end of the finished list |
| RequestList.List.Cancel | src/bx_net.c:436-460 | All pending requests are flagged and follow the finished ones, in their order |
| RequestList.Mark | src/bx_net.c:444-446 | Exactly the cancel flags along the chain are set |
| RequestList.ChainSkips | src/bx_net.c:417-421 | Skipping one node leaves a chain of the others |
| HtmlEntities.Replace | src/include/bx_html_entities.h:1529-1565 | In-place decoding equals the left-to-right, non-rescanning decoding of the text up to its first NUL, writes nothing at or past unread bytes, never grows the text and clears what follows, for every text that fits |
| HtmlEntities.DecodeIffSplits | src/include/bx_html_entities.h:1534-1561 | The decoded text is the one result of cutting the text from left to right into whole entities of the table, each replaced by its text, and single bytes at which no entity begins, each kept |
| HtmlEntities.DecodeOne | src/include/bx_html_entities.h:1536-1560 | One turn replaces one byte or one entity; it touches nothing not read yet, unless the output gets ahead of the input: then exactly the bytes it runs over are lost |
| HtmlEntities.AllFitIffNeverGrows | src/include/bx_html_entities.h:1547-1552 | Every text fits if and only if no row of the table is longer than its entity |
| HtmlEntities.GrowsIff | src/include/bx_html_entities.h:1558-1563 | No text is decoded to a longer one if and only if no row of the table is longer than its entity |
| HtmlEntities.NltGrows | src/include/bx_html_entities.h:730 | With the row of five bytes that become six, whatever else the table has, its entity decodes to one byte more than there was: the length left to clear at the end is -1 |
| HtmlEntities.FitsIffNoMisfit | src/include/bx_html_entities.h:1545-1552 | A text fits if and only if decoding it never comes, all right so far, to a piece that reaches past what was read; DecodeOne says what such a piece does |
| HtmlEntities.OrderDoesNotMatter | src/include/bx_html_entities.h:1540-1557 | Tables with the same rows decode every text alike |
| HtmlEntities.OneMatch | src/include/bx_html_entities.h:1540-1546 | No text begins with two different entities of the table |
| HtmlEntities.DecodeEscaped | src/include/bx_html_entities.h:23 | Escaping the ampersands of any text is undone by decoding |
| HtmlEntities.FindRow | src/include/bx_html_entities.h:1540-1546 | The search finds the first row whose entity the text begins with |
| HtmlEntities.SameAt | src/include/bx_html_entities.h:1545-1546 | The comparison stops at the NUL and tells whether the entity is next |
| HtmlEntities.TraceFrom | src/include/bx_html_entities.h:1534-1561 | Decoding a text that fits stops with room in front of the unread rest at every piece |
| Placeholders.CountParameters | src/bx_database.c:165-182 | The counting pass, a two-bit state machine, counts the placeholders the rewriting pass finds, for every text |
| Placeholders.Rewrite | src/bx_database.c:191-214 | In place, every maximal :name becomes one question mark and the names are kept in order |
| Placeholders.ExpandedRestoresIffNotMixed | src/bx_database.c:191-209 | Putting the k-th name for the k-th question mark restores the text if and only if no question mark of its own stood before a placeholder |
| Placeholders.NamesStart | src/bx_database.c:198-204 | Every recorded name is a colon and at least one name character |
| Placeholders.NameAlphabet | src/bx_database.c:47-61 | Names are made of ASCII letters, digits and the underscore |
| Placeholders.NamesCounted | src/bx_database.c:167-181 | Colons directly before a name character are the placeholders |
| Placeholders.ReadName | src/bx_database.c:194-200 | The inner loop reads the maximal name |
| Placeholders.Query.constructor | src/bx_database.c:152-214 | Both passes together: the rewritten text, NUL-terminated, and its unset parameters |
| Placeholders.NewQuery | src/bx_database.c:152-157 | Exactly the empty text gives no query |
| Placeholders.Query.FindParam | src/bx_database.c:216-225 | The first parameter of that name |
| Placeholders.Query.AddParam | src/bx_database.c:241-259 | Only the first parameter of a name takes the value |
| Upsert.WriteQuery | src/bx_upsert.c:200-259 | The statement in the buffer, cut at its separators, names in order the columns of the fields, the parent and the row itself, with one question mark each, or sets each of them to its own; the k-th question mark has the value of the k-th of these columns, if and only if no field has a placeholder of the row's own columns and, in an UPDATE, the key column is called id |
| Upsert.InsertReads | src/bx_upsert.c:206-232 | The INSERT in the buffer names its columns in the order of its question marks |
| Upsert.UpdateReads | src/bx_upsert.c:212-239 | The UPDATE in the buffer sets each column to its own question mark |
| Upsert.SelectReads | src/bx_upsert.c:163-172 | The SELECT in the buffer compares each key column to its own question mark |
| Upsert.StatementBound | src/bx_upsert.c:240-259 | Which value each question mark has, and exactly when |
| Joining.SplitJoin | src/bx_upsert.c:204-232 | What is written with separators is cut apart again by them |
| Upsert.SelectQuery | src/bx_upsert.c:163-182 | The SELECT in the buffer compares each key column to its own question mark, which has the value of that column, with and without a parent |
| Upsert.UpdateBoundIffKeyIsId | src/bx_upsert.c:233-259 | The UPDATE is bound right if and only if the key column is called id and no field has the placeholder of one of the row's own columns |
| Upsert.SecondUnbound | src/bx_database.c:216-225 | Of two columns with the same placeholder the second is never bound |
| Upsert.InsertBoundIffNoneReserved | src/bx_upsert.c:246-259 | The INSERT is bound right if and only if no field has the placeholder of one of the row's own columns |
| Upsert.SelectBound | src/bx_upsert.c:179-183 | The SELECT is always bound right |
| Upsert.UpdateNames | src/bx_upsert.c:233-239 | The placeholders of the UPDATE are those of its columns, in order |
| Upsert.InsertNames | src/bx_upsert.c:230-232 | The placeholders of the INSERT are those of its columns, in order |
| Upsert.SelectNames | src/bx_upsert.c:163-172 | The placeholders of the SELECT are those of its key, in order |
| Upsert.ListTexts | src/bx_upsert.c:200-230 | The three growing buffers hold all columns, all placeholders, and all assignments but the key's |
| Upsert.WriteText | src/bx_upsert.c:229-239 | The statement put together from them |
| Upsert.BindList | src/bx_upsert.c:246-259 | Binding in order, names the text does not have included |
| PercentEncoding.DecodeEncoded | src/bx_net.c:542-744 | Decoding as in section 2.1 of RFC 3986 returns the original, for every byte string |
| PercentEncoding.Injective | src/bx_net.c:542-744 | No two texts are encoded alike |
| PercentEncoding.EscapeIsHex | src/bx_net.c:542-712 | Every escape of the table, and of every byte above 127, is % and the two upper-case hex digits of the byte |
| PercentEncoding.NothingReservedLeft | src/bx_net.c:542-717 | What is encoded holds nothing but letters, digits, its own percent signs, the space and control characters |
| PercentEncoding.EscapedExactly | src/bx_net.c:542-705 | The table leaves alone exactly letters, digits, the space and control characters |
| PercentEncoding.EncodeChar | src/bx_net.c:542-717 | Writes the piece where there is a buffer with room, and tells its kind either way |
| PercentEncoding.Measure | src/bx_net.c:719-727 | The first pass measures the encoded text |
| PercentEncoding.PercentEncode | src/bx_net.c:719-744 | The second pass fills the measured buffer exactly; the room left never runs short |

## Left out

- ChainInvoices.InvoicesAreAskedFor: assumes that a GET by id answers about that id; the answer type has no other id.
- ChainInvoices.DeletedOnlyAfter404: the same.
- ChainSafety.ListedSurvive: the foreign keys that make a DELETE of a parent row delete its children in the database are not modelled, so it speaks of the rows the pruning itself deletes.
- ChainAgreement.CacheAndTableAgree: the foreign key that deletes the invoices of a deleted project in the database is not modelled; it is one more way for a cached invoice to lose its row.
- ItemSync.SyncItem: an invoice from a list is fetched again in full before it is written; its full form is taken to have the same id and checksum.
- ChainDrift.ListedIdsOutliveDrift: a listing counts from the cache check on; what a decoder or a checksum collision does before is not modelled.
- ChainCycle.PassSyncsEachPageOnce: the list must end by offset INT_MAX, beyond which the page callback refuses every checkpoint.
- MissedIds.FetchOne: a 200 body that decodes to another id than the one asked for is no answer of the model.
- MissedIds.PrunableIffUnseen: under the same assumption; and it says nothing about how few ids are asked for; a failed attempt bumps the version, so the retry asks for all of them again.
- IdsCache.Cache.Grow: a size that would wrap at 32 bits is refused here; the code does not check.
- OAuthRuns.LocatedUnlessLost: interactive login and a lock connection that drops inside the section are not steps of the model; runs in which a process gives up with a copy of the row are excluded, and OAuthUnrotated and OAuthUnsure show why.
- OAuthOnce.OneRefreshServesAll: reloading without the lock during the run is not among its steps.
- OAuth.ForcedRenews: assumes that the server never issues a token twice.
- RequestList.List.GetFinished: one scan of the list; waiting to be woken is not modelled.
- RequestQueue.EachRequestInOnePlace: list contents only; the mutexes, the condition variables and the jump that cancels with the input mutex held are not modelled.
- HtmlEntities.Replace: holds for the texts that fit; what the code does to memory for others is not modelled.
- Placeholders.Query.AddParam: takes parameter names to be shorter than the 30-byte buffer they are copied to; for those, comparing at most 30 characters is comparing them whole.
- Placeholders.Query.FindParam: the same.
- Upsert.WriteQuery: the fixed statement buffers are taken to be large enough, and decoding fields, comparing the stored checksum and running the statements are left out.
- PercentEncoding.DecodeEncoded: says nothing of spaces and control characters being legal in a URL; the code leaves them as they are.
- ChainThread.Thread.WalkPages: the page-number and unpaged variants of the walk, which the chain does not use, and the sleeps between pages are left out.
- ChainThread.Thread.Turn: reconnecting, rebuilding the DELETE statements, sleeping and counting errors are left out; which error it was is reduced to whether there was one.
- Allocation failure is modelled for the cache and for decoding an object only.
- The other resources, lookup walkers, random checks and the SQL schema are left out: field lists and loops of the same shape.
- Pacing by floating-point averages and the parsing of rate-limit headers are left out.
- MySQL, curl, jansson, liboauth2, PKCE, signals and daemonizing appear only as answers that succeed or fail.
