# Verified models of the Turtle chat front end

A Dafny 4.11 project beside the Turtle chat repository. It models the parts of the scripts injected into Open WebUI and
of the API gateway that hold the most state and arithmetic, and proves what they are meant to guarantee. One module per
component:

- `ReadCache`, `CacheProtocol`, `MemoryLru`, `ReachableLru`, `SessionLru`: the conversation read cache. `ReadCache` is
  the program: a class with the 36-entry memory map, the 12-entry session tier, the single-flight table and the
  generation counter, each method proved against a function on values. `CacheProtocol` interleaves its steps with
  requests, responses, mutations committing at the origin and returning, quota failures and page loads, in any order,
  and proves run invariants: read-your-writes, two-tier coherence, single flight, stored versions that only grow. The
  origin has a version per chat; a reply shows some version current between its issue and its arrival. `MemoryLru`
  measures the memory map against the plain history of touches, and `ReachableLru` carries that over to every reachable
  state. `SessionLru` measures the session tier against the times at which the run itself used its records.
- `Sidebar`: the stale-while-revalidate sidebar cache, as a class and as a protocol.
- `HistoryLinks`: the loop that turns parent pointers into child lists after every range load.
- `Crc32`, `Zip`: the table-driven checksum against the bit-serial one, and the ZIP writer against a strict reader
  written from PKWARE's APPNOTE.TXT.
- `TaskLimiter`, `DeferredUploads`: the concurrency limiter and the machine of uploads that a send waits for.
- `Versioner`: the asset versioner, a fixpoint over the import graph whose edges it rewrites while it runs.
- `Calendar`: Beijing times in a form field, over the proleptic Gregorian calendar of ECMA-262 edition 5.1.
- `Selection`: capability tables built from the server's policy, and the chain of fallbacks that picks a lane.
- `Pricing`: simulated cost with its floating-point ceiling, and the tokenizer-free estimate with its split bound.

Clocks, storage quota outcomes, response bodies and identities of promises are parameters of the steps. Single steps
are the synchronous stretches between two awaits. `dafny verify dfyconfig.toml` checks everything.

Where a promised property does not hold as worded, the exact condition is proved: 16-bit ZIP fields (`Zip.RoundTrip`,
`Zip.PackedRoundTrip`), dates beyond 2107 (`Zip.StampRoundTrip`), two-digit base years and dates out of range
(`Calendar.ExpiryDay`), the suffix already present (`Versioner.EraseRestores`), the error bound on whole quotients
(`Pricing.CeilingAgrees`), and which delete requests a removal sends (`DeferredUploads.RemovalDeletes`,
`DeferredUploads.StoredFileFate`). For usage records that are not well formed, `Pricing.BoundIffClampsAdd` says when
the bound holds, and `Pricing.IllFormedRecordsBreakTheBound` gives a family without any bound.

## Model

| member | source | states |
|---|---|---|
| CacheProtocol.ReadYourWrites | branding/open-webui/client-read-cache.js:560-610 | In every run, a reply handed to a reader (memory, session or network) belongs to the resource it asked for and comes from a request issued after every mutation of its chat that had returned before the read began, however requests, failures and reloads interleave |
| CacheProtocol.EveryReaderGetsItsOwn | branding/open-webui/client-read-cache.js:560-610 | In every run a reader waits for a request of its own key, and every reply it is handed was asked for under that key; a read of tags never gets the chat |
| CacheProtocol.ClearedIsForgotten | branding/open-webui/client-read-cache.js:717-725 | After something that clears everything (a completion naming no chat, signing out) a read is served only from requests issued after all that was committed by then, in every chat |
| CacheProtocol.NothingServedTooOld | branding/open-webui/client-read-cache.js:544-558 | Nothing is served from either tier at an age above its time to live (30 seconds for tasks, ten minutes else), also after promotion from session to memory |
| CacheProtocol.TiersAgree | branding/open-webui/client-read-cache.js:476-558 | In every reachable state, quota failures included, a key held in both tiers has one body and one save time, those of the last write; 36 and 12 bound the tiers |
| CacheProtocol.SingleFlight | branding/open-webui/client-read-cache.js:572-609 | Per key at most one request of the current generation is outstanding |
| CacheProtocol.OldFinallyIsSilent | branding/open-webui/client-read-cache.js:604-606 | The cleanup of a request from an older generation changes nothing in the client |
| CacheProtocol.StoredVersionsGrow | branding/open-webui/client-read-cache.js:586-602 | Over any stretch of a run the origin version stored under a key never goes backwards |
| CacheProtocol.RunKeeps | branding/open-webui/client-read-cache.js:840-890 | The whole invariant (tiers, flight table, requests, readers, origin) holds in every state of every run |
| CacheProtocol.StepKeeps | branding/open-webui/client-read-cache.js:840-890 | Each of the eleven kinds of step keeps the invariant |
| CacheProtocol.ReadKeeps | branding/open-webui/client-read-cache.js:560-580 | A read (hit, join or issue) keeps the invariant |
| CacheProtocol.RespondKeeps | branding/open-webui/client-read-cache.js:590-603 | A response, cached or refused because its generation is old, keeps it |
| CacheProtocol.FinallyKeeps | branding/open-webui/client-read-cache.js:604-606 | The identity-guarded cleanup keeps it |
| CacheProtocol.ReturnKeeps | branding/open-webui/client-read-cache.js:882-888 | Processing a mutation response keeps it: what survives the invalidation was asked for after the commit |
| CacheProtocol.ForgetKeeps | branding/open-webui/client-read-cache.js:717-732 | So does any return, named or not: invalidate, then promise what was committed |
| CacheProtocol.InvalidateKeeps | branding/open-webui/client-read-cache.js:717-732 | Clearing everything keeps it |
| CacheProtocol.ReloadKeeps | branding/open-webui/client-read-cache.js:476-508 | A page load that keeps only the session tier keeps it |
| ReadCache.KeyTextInjective | branding/open-webui/client-read-cache.js:433-434 | Two resources never share a memory key |
| ReadCache.EveryKeyOfTheChatIsNamed | branding/open-webui/client-read-cache.js:727-730 | The suffix test of the invalidation catches every key of the chat |
| ReadCache.NamedIff | branding/open-webui/client-read-cache.js:727-730 | It catches no other key, but those of chats whose id ends in a colon and this id |
| ReadCache.ReadDecides | branding/open-webui/client-read-cache.js:544-580 | A read is served from memory within the time to live, else from an unexpired session record, else joins the request of its own key, else issues one; a hit is in memory afterwards, and after a miss neither tier holds the key |
| ReadCache.ConversationCache.WriteConversationMemoryEntry | branding/open-webui/client-read-cache.js:534-542 | The written key goes to the back; the oldest go until 36 remain |
| ReadCache.ConversationCache.ListLiveRecords | branding/open-webui/client-read-cache.js:443-466 | Exactly the expired records are deleted, and every live one is listed once with its access time |
| ReadCache.SortByAccess | branding/open-webui/client-read-cache.js:467 | The list becomes ordered by access time and keeps exactly its members |
| ReadCache.ConversationCache.DropLongestUnused | branding/open-webui/client-read-cache.js:468-470 | At most twelve stay, and no removed record has a later access time than a kept one |
| ReadCache.DropOldest | branding/open-webui/client-read-cache.js:468-470 | Removing the first of the ordered list keeps both facts |
| ReadCache.ConversationCache.PruneConversationStorage | branding/open-webui/client-read-cache.js:441-474 | Live records only, all of them if they fit, else twelve with the latest access times |
| ReadCache.ConversationCache.RemoveConversationStorageEntries | branding/open-webui/client-read-cache.js:75-94 | Exactly the records of the chat go, or all for an empty id |
| ReadCache.ConversationCache.WriteConversationStorageEntry | branding/open-webui/client-read-cache.js:510-532 | Stored and pruned, or on quota failure stored alone after clearing, or nothing left |
| ReadCache.ConversationCache.ReadConversationStorageEntry | branding/open-webui/client-read-cache.js:476-508 | An expired record is removed and not served; a hit moves its access time if that still fits |
| ReadCache.ConversationCache.ReadConversationEntry | branding/open-webui/client-read-cache.js:544-558 | Memory first, then session with promotion; the entry keeps its save time |
| ReadCache.ConversationCache.BeginConversationRead | branding/open-webui/client-read-cache.js:560-607 | Hit, join of the request in flight, or a new request entered into the table |
| ReadCache.ConversationCache.HandleConversationResponse | branding/open-webui/client-read-cache.js:590-603 | Only a cacheable reply of the current generation is written, to memory and then to the session |
| ReadCache.FinishUndoesIssue | branding/open-webui/client-read-cache.js:573-607 | Issuing a request and finishing it leaves the flight table as it was; finishing any other promise of the key leaves the registered one alone |
| ReadCache.ConversationCache.ForgetChat | branding/open-webui/client-read-cache.js:728-730 | Deleting while iterating leaves exactly the unnamed keys, in order |
| ReadCache.ConversationCache.InvalidateConversation | branding/open-webui/client-read-cache.js:717-732 | New generation, empty flight table, and both tiers without the chat |
| MemoryLru.TouchOrder | branding/open-webui/client-read-cache.js:534-553 | After any operations the map stands in the order of last touch, holds what the last touch wrote, and has at most 36 entries |
| MemoryLru.EvictedByYounger | branding/open-webui/client-read-cache.js:534-542 | A key evicted by a write had at least 36 distinct keys touched after it |
| MemoryLru.GoneMeansYounger | branding/open-webui/client-read-cache.js:534-553 | A touched key that is gone and was never removed has had 36 distinct younger keys at some time since |
| MemoryLru.ExactLru | branding/open-webui/client-read-cache.js:534-558 | Whatever is removed in between, a key is held if and only if it was touched, not removed since, and at no moment since were there 36 distinct younger keys that had not been removed |
| MemoryLru.PushedOut | branding/open-webui/client-read-cache.js:534-542 | What pushes a key out is 36 others touched after it and all still held |
| MemoryLru.ExactForTouches | branding/open-webui/client-read-cache.js:534-553 | Without removals: if and only if fewer than 36 distinct keys were touched after it |
| MemoryLru.LookupIsOps | branding/open-webui/client-read-cache.js:544-558 | A lookup is a touch, a removal, or a removal and a promotion, so the history theorems apply to it |
| MemoryLru.UnnamedIsDrop | branding/open-webui/client-read-cache.js:728-730 | An invalidation is one removal of the named keys |
| MemoryLru.WithoutIsDrop | branding/open-webui/client-read-cache.js:546-547 | Dropping an expired entry is one removal |
| ReachableLru.StepApplies | branding/open-webui/client-read-cache.js:534-732 | Every step of the running protocol changes the memory map by exactly its touches and removals |
| ReachableLru.MemoryIsTrace | branding/open-webui/client-read-cache.js:534-732 | In every reachable state the memory map is what the run's own trace of touches and removals leaves |
| ReachableLru.ReachableMemoryIsLru | branding/open-webui/client-read-cache.js:534-732 | So in every reachable state it stands in the order of last touch and holds exactly the keys touched, not removed since, and never crowded out by 36 younger ones |
| SessionLru.StampIsLastUse | branding/open-webui/client-read-cache.js:476-532 | In every run the access time in a session record is the clock time at which the run last stored it, or served it and could note that |
| SessionLru.PruneKeepsLastUsed | branding/open-webui/client-read-cache.js:441-474 | After a write that fits, the unexpired records remain, all if at most twelve, else twelve; and no record that went was last used, by the history of the run, later than one that stayed |
| SessionLru.QuotaClears | branding/open-webui/client-read-cache.js:510-532 | When the quota refuses a write, everything else goes and the record stays alone if it fits then |
| Sidebar.InvalidationIsFinal | branding/open-webui/client-read-cache.js:104-119 | No response asked for before an invalidation is held after it or handed to a read that begins after it; a store hit is at most six hours old |
| Sidebar.DeliveredAtMostOnce | branding/open-webui/client-read-cache.js:396-403 | The changed result of one revalidation is handed out by one-shot delivery at most once |
| Sidebar.OneRevalidation | branding/open-webui/client-read-cache.js:369-394 | Per key at most one current revalidation, and at most one current first load, is outstanding |
| Sidebar.EveryReaderGetsItsOwn | branding/open-webui/client-read-cache.js:396-431 | One-shot, from the store or from a joined request, in every run a reader is handed what it asked for |
| Sidebar.OnlyNewsIsSetAside | branding/open-webui/client-read-cache.js:369-394 | A reply is set aside for delivery if and only if it is cacheable, current, from a revalidation of the chats or the pinned list, and its body differs from the one that was served |
| Sidebar.CurrentReplyIsStored | branding/open-webui/client-read-cache.js:342-382 | A current reply is stored under the key asked for, alone after a quota failure, and any other reply leaves the store as it was |
| Sidebar.ReadDecides | branding/open-webui/client-read-cache.js:396-431 | Delivery first and once; a record of at most six hours is served, and asked for again when older than 15 seconds and nobody asks; else join the own key or issue |
| Sidebar.RunKeeps | branding/open-webui/client-read-cache.js:369-431 | The invariant behind the three holds in every state of every run |
| Sidebar.SidebarCache.ReadSidebarEntry | branding/open-webui/client-read-cache.js:318-340 | An entry older than six hours is removed and not returned |
| Sidebar.SidebarCache.BeginSidebarRead | branding/open-webui/client-read-cache.js:396-431 | One-shot delivery, hit with or without a revalidation, join, or issue |
| Sidebar.SidebarCache.RemoveSidebarEntries | branding/open-webui/client-read-cache.js:64-73 | No sidebar record is left |
| Sidebar.SidebarCache.WriteSidebarEntry | branding/open-webui/client-read-cache.js:342-354 | Stored; or on quota failure stored alone, or nothing left |
| Sidebar.SidebarCache.HandleSidebarResponse | branding/open-webui/client-read-cache.js:376-389 | Only a current, cacheable reply is stored, and only a changed chat or pinned list is set aside for delivery |
| Sidebar.FinishUndoesIssue | branding/open-webui/client-read-cache.js:369-431 | Issuing a first load or a revalidation and finishing it leaves its table as it was; any other promise of the key leaves the registered one alone |
| Sidebar.SidebarCache.InvalidateSidebarSnapshots | branding/open-webui/client-read-cache.js:104-119 | New generation and nothing held |
| HistoryLinks.AscendingUnique | branding/open-webui/client-read-cache.js:625-629 | Ordered lists with the same members are equal, so the child lists are determined |
| HistoryLinks.RebuiltUnique | branding/open-webui/client-read-cache.js:612-637 | A rebuild has exactly one possible result |
| HistoryLinks.RebuildAbsorbs | branding/open-webui/client-read-cache.js:694-706 | Rebuilding after a load does not depend on having rebuilt before it |
| HistoryLinks.LoadsRebuild | branding/open-webui/client-read-cache.js:694-706 | After any sequence of range loads every loaded message lists exactly its loaded children, once each, by time and id |
| HistoryLinks.LoadsEqualOneShot | branding/open-webui/client-read-cache.js:694-706 | Any sequence of range loads gives what one rebuild of everything merged gives |
| HistoryLinks.InsertAscends | branding/open-webui/client-read-cache.js:625-629 | Sorted insertion keeps the order by time and id |
| HistoryLinks.LinkStep | branding/open-webui/client-read-cache.js:630-635 | Pushing one more id extends its parent's list and no other |
| HistoryLinks.History.DropInvalid | branding/open-webui/client-read-cache.js:615-624 | Exactly what is not a message goes; every child list is emptied |
| HistoryLinks.History.SortedIds | branding/open-webui/client-read-cache.js:625-629 | All ids, by time and then by id |
| HistoryLinks.History.RebuildLoadedHistoryLinks | branding/open-webui/client-read-cache.js:612-637 | Each child list is exactly the loaded messages naming that parent, duplicate-free, in order |
| HistoryLinks.History.LoadRange | branding/open-webui/client-read-cache.js:694-706 | Valid payload messages join or replace, then the links are rebuilt |
| Crc32.ShiftLinear | branding/open-webui/storage-controls.js:1401 | One shift of the register is linear over exclusive or |
| Crc32.ShiftsLinear | branding/open-webui/storage-controls.js:1400-1402 | So are n shifts |
| Crc32.FeedBitsIsShifts | branding/open-webui/storage-controls.js:1400-1402 | Adding n message bits one by one equals adding them at once and shifting n times |
| Crc32.TableStep | branding/open-webui/storage-controls.js:1411 | One table step feeds exactly one byte to the bit-serial register |
| Crc32.TableEntry | branding/open-webui/storage-controls.js:1399-1403 | The inner loop computes the eightfold shift of the index |
| Crc32.BuildTable | branding/open-webui/storage-controls.js:1396-1406 | All 256 entries are correct |
| Crc32.Checksum | branding/open-webui/storage-controls.js:1408-1414 | For every byte sequence the table-driven loop gives the bit-serial CRC-32 of section 4.4.7 of APPNOTE.TXT |
| Crc32.FeedInjective | branding/open-webui/storage-controls.js:1408-1414 | Different register values stay different under any message |
| Crc32.OneChangedByteIsDetected | branding/open-webui/storage-controls.js:1408-1414 | Changing any one byte of a message changes its checksum |
| Crc32.MagicNumber | branding/open-webui/storage-controls.js:1396-1414 | Every message followed by its checksum, low byte first, leaves 0xdebb20e3 in the register, the magic number of section 4.4.7 |
| Zip.GetPut | branding/open-webui/storage-controls.js:1435-1444 | A little-endian field that fits reads back |
| Zip.PutKeeps | branding/open-webui/storage-controls.js:1435-1444 | A write leaves every field it does not overlap |
| Zip.LowByteFirst | branding/open-webui/storage-controls.js:1435-1444 | Two- and four-byte fields are written low byte first |
| Zip.HeaderFields | branding/open-webui/storage-controls.js:1433-1445 | All fields of a header read back together, the gaps between them are zero and the name follows |
| Zip.WriteLocal | branding/open-webui/storage-controls.js:1433-1445 | The writes produce the local header of section 4.3.7 field by field |
| Zip.WriteCentral | branding/open-webui/storage-controls.js:1448-1463 | The writes produce the directory header of section 4.3.12 |
| Zip.WriteEnd | branding/open-webui/storage-controls.js:1472-1478 | The writes produce the end record of section 4.3.16 |
| Zip.Assemble | branding/open-webui/storage-controls.js:1472-1479 | The parts are joined in order |
| Zip.WriteZip | branding/open-webui/storage-controls.js:1424-1480 | The loop over running offsets yields the specified archive, or refuses when a total exceeds 32 bits |
| Zip.Layout | branding/open-webui/storage-controls.js:1464-1479 | Local regions, directory and end record fill the archive exactly, and no 32-bit offset has wrapped |
| Zip.Tiling | branding/open-webui/storage-controls.js:1431-1479 | Regions and directory entries of all files follow each other without gap or overlap |
| Zip.ReadBack | branding/open-webui/storage-controls.js:1424-1480 | From any file on, the reader recovers the rest of the files in order |
| Zip.RoundTrip | branding/open-webui/storage-controls.js:1424-1480 | Whenever the writer returns, a strict reader that compares every field of both headers and of the end record recovers each file's bytes, checksum, sizes, versions, flags, times and name in order if and only if there are fewer than 65536 files and every name length and time word of a file fits 16 bits |
| Zip.PackedRoundTrip | branding/open-webui/storage-controls.js:1416-1480 | For an archive packed at a clock time: if and only if there are fewer than 65536 files, no name has 65536 bytes and, unless it is empty, the year is below 2108 |
| Zip.LocalHeaderSays | branding/open-webui/storage-controls.js:1433-1445 | Every field of section 4.3.7 in a local header, both sizes and the flag for UTF-8 names included |
| Zip.CentralHeaderSays | branding/open-webui/storage-controls.js:1448-1463 | Every field of section 4.3.12 in a directory header, those left zero included |
| Zip.EndRecordReads | branding/open-webui/storage-controls.js:1472-1479 | Every field of section 4.3.16 in the end record of the finished archive, both counts included |
| Zip.ReadableHasFittingFields | branding/open-webui/storage-controls.js:1444-1475 | The other half: beyond those bounds no reading can be right |
| Zip.StampRoundTrip | branding/open-webui/storage-controls.js:1416-1422 | The two 16-bit words give the clock back to two seconds if and only if the year is below 2108 |
| Zip.ArchiveCarriesClock | branding/open-webui/storage-controls.js:1416-1428 | Before the year 2108, both headers of every file read back as the clock's time, to two seconds |
| TaskLimiter.AtMostConcurrency | branding/open-webui/storage-controls.js:88-109 | In every run at most `concurrency` jobs are under way, and none waits while a slot is free |
| TaskLimiter.StartsInOrder | branding/open-webui/storage-controls.js:92-108 | The k-th job to start is the k-th submitted |
| TaskLimiter.SettlesAtMostOnce | branding/open-webui/storage-controls.js:95-101 | No job settles twice, and none before it started |
| TaskLimiter.EveryJobSettles | branding/open-webui/storage-controls.js:88-109 | With a slot at all, nothing is left to do only when every submitted job has settled, exactly once |
| TaskLimiter.RunsAreShort | branding/open-webui/storage-controls.js:91-109 | A run with m submissions has at most 5m steps, so it gets there |
| TaskLimiter.RunKeeps | branding/open-webui/storage-controls.js:88-109 | The invariant behind them holds in every state of every run |
| TaskLimiter.DrainKeeps | branding/open-webui/storage-controls.js:91-103 | Draining keeps the order, counts what it takes and stops only when full or empty |
| TaskLimiter.WorkShrinks | branding/open-webui/storage-controls.js:91-103 | Every step but a submission uses up work |
| TaskLimiter.TaskLimiter.DrainPending | branding/open-webui/storage-controls.js:91-103 | The loop takes as many waiting jobs as there are free slots, in order |
| TaskLimiter.TaskLimiter.Run | branding/open-webui/storage-controls.js:104-108 | Submitting enqueues at the back and drains |
| TaskLimiter.HeadIsNext | branding/open-webui/storage-controls.js:92-97 | The job about to start is the next one in the order of submission |
| TaskLimiter.TaskLimiter.ReleaseSlot | branding/open-webui/storage-controls.js:98-101 | The finally handler frees one slot and drains |
| DeferredUploads.SendWaitsForUploads | branding/open-webui/storage-controls.js:841-938 | A message is submitted only by a send that began while none was under way or nothing was pending, and every upload live at that moment has completed or been cancelled, in every interleaving |
| DeferredUploads.NothingLiveAtSubmission | branding/open-webui/storage-controls.js:891-910 | At a submission no upload is live at all, those staged while the send waited included |
| DeferredUploads.CancelledIsFinal | branding/open-webui/storage-controls.js:745-754 | A cancelled task never settles, completes or fails afterwards |
| DeferredUploads.CompletedFileIsKept | branding/open-webui/storage-controls.js:730-754 | A completed attachment stays completed and neither kind of delete request is sent for it; neither kind is sent twice for a task |
| DeferredUploads.StoredFileFate | branding/open-webui/storage-controls.js:745-754 | Once the routine has returned, deletion of a stored file is requested if and only if its attachment neither settles nor completed and the storage callback had not come after the removal |
| DeferredUploads.RunFate | branding/open-webui/storage-controls.js:745-754 | The invariant behind it, over every run: a file stored late is never deleted, any other stored file exactly when its task is removed or fails |
| DeferredUploads.OrphansAreUnanswered | branding/open-webui/storage-controls.js:584-608 | Where the abort of a removal reaches every pending request, a file completed at the server that is neither attached nor deleted stays behind if and only if the answer to its completion never arrived |
| DeferredUploads.NoReservationLeft | branding/open-webui/storage-controls.js:605-608 | A reservation the server has not completed is always taken back |
| DeferredUploads.CancelledStays | branding/open-webui/storage-controls.js:745-754 | There the state of a removed task stays cancelled |
| DeferredUploads.RemovalDeletes | branding/open-webui/storage-controls.js:605-608 | A removal deletes the file exactly when it was stored and takes the reservation back exactly when a transfer or the step after it was under way; both exactly in between storing and returning |
| DeferredUploads.FlushWasBegun | branding/open-webui/storage-controls.js:841-859 | A send under way goes back to one that began while no other was, and covers the uploads then pending |
| DeferredUploads.SubmissionWasBegun | branding/open-webui/storage-controls.js:841-938 | A submission has waited for all uploads pending when its send began; with something pending that is never while another send is under way |
| DeferredUploads.SubmitDecides | branding/open-webui/storage-controls.js:841-910 | The submit handler submits at once if and only if every open upload is older than thirty minutes; these are cancelled, all others are left alone and waited for |
| DeferredUploads.SendDecides | branding/open-webui/storage-controls.js:862-893 | A send is refused if and only if an upload it waited for failed or was not shown in time; else it submits if and only if no open upload is younger than thirty minutes |
| DeferredUploads.SendGoesThrough | branding/open-webui/storage-controls.js:841-893 | When all routines have returned without failure and the page shows what they uploaded, one sweep completes the attachments and the form is submitted |
| DeferredUploads.WaitsFiveSeconds | branding/open-webui/storage-controls.js:811-839 | What is not shown is looked for again until five seconds have passed, then fails, leaves the map and has its file deleted, and the send is refused |
| DeferredUploads.UndisturbedUpload | branding/open-webui/storage-controls.js:984-1010 | The six segments of an undisturbed upload leave it settling with the file reserved for it, shown it completes, and nothing is deleted |
| DeferredUploads.CompletedWasShown | branding/open-webui/storage-controls.js:691-703 | An attachment completes only when a look at the page finds its own file there |
| DeferredUploads.ScanCompletes | branding/open-webui/storage-controls.js:697-703 | A rescan that finds the file completes the attachment and drops it |
| DeferredUploads.ReturnedIsDropped | branding/open-webui/storage-controls.js:1019-1028 | A routine that returns without leaving its task to settle has it dropped from the map |
| DeferredUploads.LiveIsPending | branding/open-webui/storage-controls.js:852-857 | The map never loses a live upload, so a send sees them all |
| DeferredUploads.BegunEnds | branding/open-webui/storage-controls.js:846-857 | What the age limit takes out of a send has been cancelled |
| DeferredUploads.JudgedEnd | branding/open-webui/storage-controls.js:862-875 | When nothing settles or failed, every upload of the send has ended |
| DeferredUploads.RunEvolves | branding/open-webui/storage-controls.js:941-1031 | Over any stretch of a run a task only moves forward |
| DeferredUploads.RunKeeps | branding/open-webui/storage-controls.js:811-1031 | The invariant behind them holds in every state of every run |
| DeferredUploads.StepTaskEvolves | branding/open-webui/storage-controls.js:984-1018 | Every segment of the staging routine moves its task forward |
| DeferredUploads.CancelEnds | branding/open-webui/storage-controls.js:745-754 | A removal leaves completed and failed tasks alone, ends and cancels any other, deletes a stored file, and done again changes nothing |
| DeferredUploads.ComposerUploads.StageDeferredComposerUpload | branding/open-webui/storage-controls.js:947-981 | A new task joins the map, cancelled at once for an aborted request |
| DeferredUploads.ComposerUploads.AgeOut | branding/open-webui/storage-controls.js:846-851 | Exactly the held tasks older than thirty minutes are cancelled |
| DeferredUploads.ComposerUploads.PendingUploads | branding/open-webui/storage-controls.js:852-857 | Exactly the held tasks neither cancelled, completed nor failed |
| DeferredUploads.ComposerUploads.SettleSweep | branding/open-webui/storage-controls.js:817-828 | Exactly the settling tasks the page shows are completed and leave the map; reports whether others remain |
| DeferredUploads.ComposerUploads.GiveUpSettling | branding/open-webui/storage-controls.js:831-838 | Past the deadline exactly the settling tasks fail, leave the map and have their files deleted |
| Versioner.ResolvedIsCanonical | branding/open-webui/turtle_asset_versioning.py:16-29 | A reference resolves to a canonical path strictly below the root or to nothing |
| Versioner.RelativeResolves | branding/open-webui/turtle_asset_versioning.py:16-29 | A reference written as n steps up and names down resolves to the importing file's directory without its last n names, followed by the names, when that is below the root, and to nothing otherwise |
| Versioner.RootedResolves | branding/open-webui/turtle_asset_versioning.py:22-23 | A reference written from the site's root resolves to the root followed by its names |
| Versioner.EveryTargetIsNamed | branding/open-webui/turtle_asset_versioning.py:16-29 | Every file below the root has such references from every other file, and they resolve to exactly it |
| Versioner.WrittenIsReference | branding/open-webui/turtle_asset_versioning.py:9-13 | The pattern sees every such reference to a script |
| Versioner.WrittenImportIsStamped | branding/open-webui/turtle_asset_versioning.py:32-60 | A literal that names a file in either way is stamped "?v=" and the version if and only if that file is a target |
| Versioner.ReferenceForm | branding/open-webui/turtle_asset_versioning.py:9-13 | The pattern: one of three prefixes, at least one more character, ".js", and no quote character |
| Versioner.VersionForm | branding/open-webui/turtle_asset_versioning.py:70-71 | A version is 8 to 64 lowercase hexadecimal digits |
| Versioner.ModulesAreScripts | branding/open-webui/turtle_asset_versioning.py:74 | The modules are the scripts below the root at any depth |
| Versioner.CountMeansImport | branding/open-webui/turtle_asset_versioning.py:38-55 | The replacement count is positive exactly when the file imports a target |
| Versioner.StampedIsNoReference | branding/open-webui/turtle_asset_versioning.py:9-13 | A stamped literal no longer matches the pattern |
| Versioner.PassesCompose | branding/open-webui/turtle_asset_versioning.py:32-60 | Two passes with growing targets equal one pass with the larger set: no reference is stamped twice and none is missed |
| Versioner.LaterImports | branding/open-webui/turtle_asset_versioning.py:81-95 | What a later pass still finds are the imports of new targets |
| Versioner.EraseRestores | branding/open-webui/turtle_asset_versioning.py:50-54 | Erasing the suffix restores the file if and only if no literal carried it before |
| Versioner.ClosedHoldsChain | branding/open-webui/turtle_asset_versioning.py:81-95 | A closed set holds everything with an import path into it |
| Versioner.ClosureOf | branding/open-webui/turtle_asset_versioning.py:81-95 | A closed set of reachable modules is exactly the least fixpoint |
| Versioner.FileTree.VersionReferences | branding/open-webui/turtle_asset_versioning.py:32-60 | One file: exactly the references that resolve into the targets are stamped, and counted |
| Versioner.FileTree.VersionRound | branding/open-webui/turtle_asset_versioning.py:82-91 | One pass brings all modules to the larger target set and finds exactly the importers of the new targets |
| Versioner.FileTree.VersionModules | branding/open-webui/turtle_asset_versioning.py:73-95 | The loop ends with exactly the modules that reach an initial target, every module stamped for that set; its target sets grow from the initial ones to the result, and every pass but the last leaves strictly fewer modules unversioned |
| Versioner.FewRounds | branding/open-webui/turtle_asset_versioning.py:81-95 | So there are at most as many passes as modules, and one more |
| Versioner.FileTree.VersionChain | branding/open-webui/turtle_asset_versioning.py:63-107 | The result is the least fixpoint; afterwards a reference of a module or of the index is stamped if and only if it resolves into it; the run fails exactly for a bad version, bad targets or an index that references no member |
| Calendar.YearUnique | branding/open-webui/admin-console.js:273-278 | Year numbers of days are determined by the year's first day (ECMA-262 section 15.9.1.3) |
| Calendar.DayOfCivil | branding/open-webui/admin-console.js:273-297 | Day number to civil date and back is the identity, for every day |
| Calendar.CivilOfDay | branding/open-webui/admin-console.js:273-297 | Civil date to day number and back is the identity, for every real date |
| Calendar.DaysFollow | branding/open-webui/admin-console.js:273-278 | Day 0 is 1970-01-01 and the date of every next day, forwards and backwards, is the Gregorian successor by the rule of thirty days in four months, 28 or 29 in February and 31 in the others; so every date is the civil one |
| Calendar.DatesExist | branding/open-webui/admin-console.js:280-285 | A date is real if and only if that rule has it |
| Calendar.PrintedFieldReads | branding/open-webui/admin-console.js:273-278 | The printed characters, read as numbers, are the calendar date, hour and minute in Beijing, eight hours ahead |
| Calendar.LastOfAugust | branding/open-webui/admin-console.js:273-285 | 1788148800 prints as noon of 2026-08-31 and comes back as the end of that minute |
| Calendar.YearOfRange | branding/open-webui/admin-console.js:273-278 | The four-digit Beijing years as an exact range of timestamps |
| Calendar.PrintThenParse | branding/open-webui/admin-console.js:273-285 | Every timestamp of a four-digit Beijing year but 0 comes back as the last second of its minute; every other one as null |
| Calendar.ParseThenPrint | branding/open-webui/admin-console.js:273-285 | A text of the field's form always parses, and comes back unchanged if and only if it names a real moment in a year from 1000 on |
| Calendar.ResaveIsStable | branding/open-webui/admin-console.js:273-285 | Saving what the form shows never moves an expiry earlier, and a second save changes nothing |
| Calendar.ExpiryIs | branding/open-webui/admin-console.js:287-297 | For all inputs: the last second of the day the requested number of days after the counted one, or NaN exactly when the base or that second is out of a Date's range |
| Calendar.CountsFromBase | branding/open-webui/admin-console.js:288-290 | The count starts at the base day if and only if the base year is not 0 to 99 |
| Calendar.ExpiryDay | branding/open-webui/admin-console.js:287-297 | A default expiry is the last second of the Beijing day exactly the requested days after the base day if and only if both are in a Date's range and the base year is not 0 to 99 |
| Calendar.ExpiryIsFixedPoint | branding/open-webui/admin-console.js:273-297 | There is a default expiry and the form keeps it if and only if the base is in a Date's range and the day counted to lies in the years 1000 to 9999; outside base years 0 to 99 it lies past the base if and only if days are not negative |
| Selection.BuildIsWellFormed | branding/open-webui/model-controls.js:834-883 | Every registered table has versions, levels and an existing default |
| Selection.BuildIsUnique | branding/open-webui/model-controls.js:834-883 | Building keeps ids unique |
| Selection.AvailableIsKept | branding/open-webui/model-controls.js:925-935 | An available request is kept, version and level, with the mode the picker shows |
| Selection.ResultIsALane | branding/open-webui/model-controls.js:921-963 | The result always names a lane of the table |
| Selection.AvailableWheneverAny | branding/open-webui/model-controls.js:921-963 | The result is an available lane if and only if the table has one |
| Selection.ValidIsIdempotent | branding/open-webui/model-controls.js:921-963 | Choosing again changes neither version, level nor mode |
| Selection.NothingAvailable | branding/open-webui/model-controls.js:946-962 | With nothing available the choice no longer depends on the request |
| Selection.FallbackIsHonoured | branding/open-webui/model-controls.js:938-944 | An exhausted lane gives way to the available fallback the policy names |
| Selection.VersionOrder | branding/open-webui/model-controls.js:946-955 | The version asked for, then the default version, as long as they offer something |
| Selection.LaterVersions | branding/open-webui/model-controls.js:946-955 | When neither of them offers anything, the first version that does; when none does, the first with an allowed level, else the first |
| Selection.FallbackMode | branding/open-webui/model-controls.js:925-962 | A lane other than the available one asked for comes as smart if and only if the picker lists it, whatever mode was asked for |
| Selection.LevelOrder | branding/open-webui/model-controls.js:956-961 | The level asked for, then the version's default, then any available, then any allowed |
| Selection.FirstUse | branding/open-webui/model-controls.js:902-908 | With nothing saved the default version is used when it offers something |
| Selection.ChoiceSurvivesReload | branding/open-webui/model-controls.js:902-967 | A choice that was saved is read back as it was and chosen again |
| Selection.RequestFollowsPolicy | branding/open-webui/model-controls.js:2874-2886 | Whatever is displayed or saved, a chat request names a version and a level of the model list, and one the server offers exactly when the server offers any |
| Selection.BuiltLevelSays | branding/open-webui/model-controls.js:834-862 | A level is available, or allowed, if and only if the quota state of its key says so, or without one the key is on the allowed list; only a quota state names a fallback |
| Selection.DefaultOfTable | branding/open-webui/model-controls.js:873-875 | The default is the model's own when that version has levels, else the first version that has |
| Selection.OffersAreBuilt | branding/open-webui/model-controls.js:834-883 | A table has an available lane exactly when the policy makes one of the model's keys available |
| Selection.ModelControls.RegisterCapability | branding/open-webui/model-controls.js:834-883 | A usable model gets the table of the policy in force, any other leaves the tables alone |
| Selection.ModelControls.RefreshRegisteredCapabilities | branding/open-webui/model-controls.js:1467-1469 | Afterwards every usable source has its table under the current policy |
| Selection.ModelControls.BeginPolicyLoad | branding/open-webui/model-controls.js:1471-1474 | One load at a time, and none within thirty seconds unless forced |
| Selection.ModelControls.FinishPolicyLoad | branding/open-webui/model-controls.js:1475-1505 | A proper answer replaces the policy and every table with it; any other changes nothing |
| Pricing.ChargedTokensPartition | src/chatgpt_web_gateway/api_pricing.py:64-72 | For all integers the charged tokens partition the clamped prompt, and no class exceeds what was reported |
| Pricing.MissingRateIsOrdinary | src/chatgpt_web_gateway/api_pricing.py:68-78 | Tokens without a rate of their own cost the ordinary rate |
| Pricing.CostIsMonotone | src/chatgpt_web_gateway/api_pricing.py:54-79 | More input or output tokens never cost less |
| Pricing.CostCovers | src/chatgpt_web_gateway/api_pricing.py:79 | The cost is the least whole number of micro-USD that covers the nano-USD |
| Pricing.CachedBeforeWritten | src/chatgpt_web_gateway/api_pricing.py:64-72 | Cached tokens are billed first as far as the prompt goes, cache-written ones from what is left, the rest is ordinary |
| Pricing.ListedPrice | src/chatgpt_web_gateway/api_pricing.py:31-79 | On well-formed counts the price of one listed model, each class at its own rate, rounded up |
| Pricing.NanoAdds | src/chatgpt_web_gateway/api_pricing.py:64-78 | On well-formed records the unrounded price is additive |
| Pricing.SeparateExceedsTotal | src/chatgpt_web_gateway/api_pricing.py:54-79 | Charging n well-formed records one by one exceeds charging their total by 0 to n - 1 micro-USD |
| Pricing.BoundIffClampsAdd | src/chatgpt_web_gateway/api_pricing.py:64-79 | The bound of 0 to n - 1 holds under every price if and only if clamping the total is adding up the clamped records |
| Pricing.IllFormedRecordsBreakTheBound | src/chatgpt_web_gateway/api_pricing.py:64-66 | Without well-formedness two records can exceed their total by any amount |
| Pricing.CeilingAgrees | src/chatgpt_web_gateway/api_pricing.py:79 | Below 2^53 nano-USD and within relative error 2^-53 the ceiling of the quotient is the exact one if and only if a whole quotient is not rounded up |
| Pricing.FloatCeilingIsExact | src/chatgpt_web_gateway/api_pricing.py:79 | So it is exact for any rounding with that error that is exact on whole quotients (IEEE 754 section 4.3.1) |
| Pricing.ErrorBoundAloneIsNotEnough | src/chatgpt_web_gateway/api_pricing.py:79 | The relative error bound alone would allow one micro-USD too much on a whole quotient |
| Pricing.FloatCostIsExact | src/chatgpt_web_gateway/api_pricing.py:54-79 | So the program's cost is the exact one |
| Pricing.EstimateIsScan | src/chatgpt_web_gateway/api_pricing.py:82-97 | Matching the pattern and summing equals one pass that remembers the current word's length |
| Pricing.WordCosts | src/chatgpt_web_gateway/api_pricing.py:82-97 | A word of n letters, digits and underscores costs n / 4 rounded up |
| Pricing.CharacterCosts | src/chatgpt_web_gateway/api_pricing.py:82-97 | Any other character costs one, a blank nothing |
| Pricing.PartsAdd | src/chatgpt_web_gateway/api_pricing.py:85-97 | Away from the inside of a word the estimate is additive; with the two costs this determines it for every text |
| Pricing.CutAnywhere | src/chatgpt_web_gateway/api_pricing.py:85-97 | One cut anywhere adds at most one token and saves none |
| Pricing.SplitBound | src/chatgpt_web_gateway/api_pricing.py:85-97 | Splitting a text into k pieces gives at least the whole estimate and at most k - 1 more |
| Pricing.LinksAreFree | src/chatgpt_web_gateway/api_pricing.py:109-114 | Image and link fields add nothing, whatever they hold |
| Pricing.EstimateCompletionTokens | src/chatgpt_web_gateway/api_pricing.py:136-156 | The loop sums the estimates of all choices, malformed ones counting nothing |
| Pricing.ValueIsTexts | src/chatgpt_web_gateway/api_pricing.py:100-115 | A payload of any depth costs what its texts, keys and numbers cost one by one, link fields left out |
| Pricing.ChoicesAreTexts | src/chatgpt_web_gateway/api_pricing.py:136-156 | A completion costs each text of its messages and deltas, tool calls and function calls, once |
| Pricing.PiecesBound | src/chatgpt_web_gateway/api_pricing.py:85-97 | Empty pieces neither cost nor cut: the bound counts only pieces that are not empty |
| Pricing.ChoiceSplits | src/chatgpt_web_gateway/api_pricing.py:144-155 | A choice costs its texts and the rest of it |
| Pricing.ChunksAreChoices | src/chatgpt_web_gateway/api_pricing.py:136-156 | Metering chunk by chunk is metering all their choices; a chunk without any adds nothing |
| Pricing.SplitByAnswer | src/chatgpt_web_gateway/api_pricing.py:136-156 | Every choice counts once, under its own answer |
| Pricing.StreamingBound | src/chatgpt_web_gateway/api_pricing.py:136-156 | For any stream of payloads, chunks without choices or text and several answers included, the metered text costs at least what the whole answers cost and at most one token more for every cut within an answer; what is not text is metered as it is |
| Pricing.OneAnswerBound | src/chatgpt_web_gateway/api_pricing.py:136-156 | With one answer of k pieces that are not empty, at most k - 1 more |

## Left out

- Page mounting, rendering, dialogs, toasts, galleries and observers in all scripts: user interface.
- HTTP and `fetch` themselves, `encodeURIComponent`, JSON text and the SHA-256 scope: a key is a scope, a chat id and a
  part; a body is a string; whether a reply is cacheable is a parameter.
- Malformed session-storage records, which the code removes on sight: the session tier holds well-formed records only.
- A step of a handler reads the clock once; the code may read it again a moment later inside one step.
- Mutations that commit after their response headers (streamed completions), and mutations on reserved chat paths,
  which do not invalidate: only mutations that commit before their response are in `CacheProtocol`.
- The age of a one-shot sidebar delivery: the code does not check it, so nothing is claimed about it.
- The history page state that `loadOlderHistoryRange` stores without a generation check, and the request around the
  range load; only its merge and rebuild are modelled.
- The order of message ids under `localeCompare` is a parameter that has to be a strict total order.
- Which of several equally old session records goes first when pruning: it follows the storage's own key order and is
  left open.
- The transfer steps inside `directUpload` and its retries: to an upload task they are a reservation, a storage
  callback and a return, or a failure that takes the reservation back. A delete request that gets lost is not modelled;
  of the server only this is: it completes an upload before it answers, and ignores a reservation request for a
  completed one. A reservation whose answer never arrives is left to expire.
- Previews and wrappers of attachments: a rescan is a step that may complete any settling task of the map whose file
  the page shows.
- A send whose last upload is confirmed between the final sweep and the deadline is refused although all completed, as
  in the code (DeferredUploads.SendDecides).
- UTF-8 encoding of file names: a name is its byte sequence.
- Symbolic links, directories named like modules, and overlapping quotes in rewritten text: a module is a sequence of
  text and literal tokens, a path a list of names.
- Local time zones: `Zip.ZipTimestamp` takes what the local clock shows.
- `capabilityForModel` and the display texts of versions and levels; the server's other quota numbers.
- `price_for_route` and the price table, `estimate_chat_input_tokens`: constant tables and one sum.
- SessionLru.PruneKeepsLastUsed: takes for granted that the clock never reads 0, which the code takes for a missing
  access time.
- Versioner.FileTree.VersionChain: takes for granted that the index file exists and is not itself one of the modules.
- Pricing.FloatCostIsExact: says nothing from 2^53 nano-USD on, where doubles are too coarse for the quotient.
- DeferredUploads.OrphansAreUnanswered: takes for granted that an aborted request is not answered; a response already
  being processed in the turn of the abort is covered by DeferredUploads.StoredFileFate alone.
- Pricing.StreamingBound: tool calls and other parts that are not text are metered as they come; no bound relates them
  to a whole answer, as every chunk repeats their keys.
- Pricing.SplitBound: which characters beyond ASCII are spaces is a parameter.
- DeferredUploads.CancelledIsFinal: says nothing about the state "staging", which the storage callback may still set on
  a cancelled task.
- TaskLimiter.EveryJobSettles: assumes that every started task settles, as a state in which one never does is not at
  rest.
- Selection.AvailableWheneverAny: needs unique version ids and unique level ids within a version.
- The Redis concurrency coordinator, the migration and database modules, quota tables, image patches and launch
  scripts: their behaviour lies in other engines or in constant tables.
