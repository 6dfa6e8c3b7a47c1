# Verification model of the client core

This project models the stateful algorithms of a Qt chat client and proves what they keep over every
run. Each file is one component. Objects whose methods update fields are classes with those fields,
loops are loops, and every such method is tied to a function of the old state; the results are
lemmas about these functions and about runs of them.

| file | component |
|---|---|
| MemberRows.dfy | the sparse rows of the virtual member list and the batched list ops |
| MemberSubscription.dfy | range requests of the member list, one in flight at a time |
| AttachmentUpload.dfy | the attachment upload protocol with concurrent PUTs, failure and cancel |
| StreamSplitter.dfy, Ingest.dfy | the marker splitter, and the queue and worker of the compressed stream |
| MurmurHash3.dfy | the 32-bit Murmur hash and its injectivity |
| PermissionCache.dfy | the permission LRU kept as hash, list and iterator index |
| Permissions.dfy | effective channel permissions, bit by bit |
| ForumRequests.dfy | the request batch of the forum manager and its drain loops |
| MessageOrder.dfy | the message order of a channel |
| Reactions.dfy | reaction counters |
| ImagePins.dfy | pin groups and reference counts of images |
| GifCache.dfy | the GIF animation cache and its eviction loop |
| GatewaySession.dfy | session, resume, heartbeat and reconnect of the gateway |
| Emoji.dfy | custom emoji text, registry and name index |
| Options.dfy, Sequences.dfy, Sorting.dfy | shared definitions |

## How to read it

A system with several threads or callbacks is a `State`, an `Event` and a `Next` function; `Run` folds
it over any event sequence, so a lemma about `Run` is about every interleaving of atomic handlers.
An event whose handler is not enabled changes nothing, or is excluded by a `ValidRun` predicate where
the environment could not produce it. Network, disk, clock, hash order, inflate, case folding and
random jitter are parameters or choices left open.

## Where the code falls short of its description

The model follows the code. Each point below is a lemma that gives the exact condition, or the run that
shows it.

- A run of DELETE ops is sorted before it is applied, which agrees with the order of arrival only for
  ascending runs (MemberRows.BatchMatchesArrivalIffAscending).
- Refreshing the member subscription drops a pending range (MemberSubscription.RefreshKeepsWantedIff).
- Whether the compressed buffer outgrows its cap depends on where the chunk boundaries fall
  (Ingest.RunsCleanIffSound, Ingest.BoundariesMatterPastTheCap).
- A flush that finds its batch emptied by `forget` leaves `flushScheduled` set, and nothing is ever flushed
  again (ForumRequests.QueuedIsFlushedIff, ForumRequests.IdleFlushIsForEver,
  ForumRequests.ForgottenBatchStaysSilent).
- A late reply clears the mark of a thread forgotten and queued again meanwhile, which is then asked for
  twice (ForumRequests.RunsStayMarkedIff, ForumRequests.LateReplyQueuesTwice).
- The comment at src/Core/ForumManager.cpp:270-275 takes an unread reply to stand for the whole batch
  awaited. It does exactly while no batch exceeds 180 ids and no batch is given up whose request may still
  be answered (ForumRequests.RepliesStayExactIff); the two runs that break it are
  ForumRequests.OversizedBatchLosesMark and ForumRequests.LateReplyLosesMark.
- A debounced reaction without users appends an entry with count zero (Reactions.GroupIsSinglesIff,
  Reactions.EventIsSinglesIff).
- Removing right after adding does not restore an entry with count zero or an own flag already set
  (Reactions.RemoveUndoesAddIff), and removing a kind that is not shown breaks the total
  (Reactions.RemovalKeepsTotalsIff).
- Unpinning a group does not withdraw its claims on images still being fetched
  (ImagePins.UnpinnedStaysUnheldIff, ImagePins.LateImageStaysPinned).
- Unloading never lowers the number of GIF animations, so with more than 200 of them a creation unloads
  loaded ones within the budget too: exactly those older than the first empty shell
  (GifCache.OverCountUnloadsShellFree, GifCache.WithinBudgetUnloadsNothingIff), which is all of them
  right after the 200th (GifCache.OneTooManyUnloadsAll).
- The deferred destruction of a released GIF animation removes a newer one of the same url; an animation
  is safe from this exactly if none of its url awaits destruction (GifCache.SurvivesIff,
  GifCache.LateDestructionDropsTheNewOne).
- The close handler clears `canResume` outside the lock; a READY in between leaves the flag without an
  id, and a RESUME naming no session follows (GatewaySession.SplitClearAgreesIff,
  GatewaySession.ReadyBetweenResumesNothing). All other gateway results take the handlers as atomic.
- A fatal close code does not end the gateway if a reconnect was requested before it or is requested by
  another thread before the connection is cleaned up (GatewaySession.FatalCloseEndsIff,
  GatewaySession.FatalCloseSurvived).
- An empty history page is taken to end the history for every id, so after one a request for an id above it
  is answered as exhausted even if something is older (MessageOrder.EmptyPageHidesTheRest); scrolling back
  only, it is right (MessageOrder.ExhaustedIsRight).
- A batch that repeats a message id leaves it repeated in the channel list until trimming takes it
  (MessageOrder.RunsStayStrictIff, MessageOrder.RepeatIsKept).
- A custom emoji text followed by a line feed is accepted (Emoji.PrintParsedIff).

## Model

| member | source | states |
|---|---|---|
| MemberRows.BatchMatchesArrivalIffAscending | src/Core/MemberListManager.cpp:854-890 | A batched DELETE run means the same as deleting one row at a time in order of arrival, on every list and at every row, if and only if the run is ascending |
| MemberRows.OpsOnLoadedList | src/Core/MemberListManager.cpp:779-890 | On a list all of whose rows are loaded, one INSERT, DELETE, UPDATE or SYNC is the plain edit of the sequence of rows |
| MemberRows.OpsOnRanges | src/Core/MemberListManager.cpp:779-903 | INVALIDATE and a SYNC without rows empty exactly their range; an op that lacks a field changes nothing |
| MemberRows.IgnoredOpsPartNothing | src/Core/MemberListManager.cpp:339-388 | A DELETE without index and an unknown op do not part a run of DELETEs |
| MemberRows.OtherOpsEndRuns | src/Core/MemberListManager.cpp:339-388 | Every other op ends the run before it |
| MemberRows.AscendingRunsReplay | src/Core/MemberListManager.cpp:339-388 | For any op list whose consecutive DELETE runs ascend, the batched stream leaves the same row at every index as replaying the ops one by one |
| MemberRows.BatchedRunClosedForm | src/Core/MemberListManager.cpp:854-890 | After a batched DELETE run, row j is the original row j plus the number of deleted indices at or below j |
| MemberRows.BatchVersusArrival | src/Core/MemberListManager.cpp:339-388 | One DELETE run in both readings: where each row comes from when batched and when replayed in order of arrival |
| MemberRows.CountPermutation | src/Core/MemberListManager.cpp:854-890 | That number depends only on which indices are deleted, so the order in which they arrive makes no difference to the batch |
| MemberRows.OriginAscending | src/Core/MemberListManager.cpp:854-890 | Replaying an ascending run in order of arrival takes row j from the place the closed form names |
| MemberRows.OriginDescent | src/Core/MemberListManager.cpp:862-863 | A run with a descent replayed in order of arrival takes some row from further down than the closed form, which is why sorting changes the meaning |
| MemberRows.SortedDeletes | src/Core/MemberListManager.cpp:854-890 | Deleting in sorted order one at a time reaches the closed form of the unsorted multiset |
| MemberRows.ListData.ProcessSync | src/Core/MemberListManager.cpp:779-804 | A SYNC writes the rows of its range and leaves the others |
| MemberRows.ListData.ProcessBatchInserts | src/Core/MemberListManager.cpp:806-842 | The rebuilt map is the one that inserting the batch one row after the other yields |
| MemberRows.ListData.ProcessUpdate | src/Core/MemberListManager.cpp:844-852 | An UPDATE replaces one row |
| MemberRows.ListData.ProcessBatchDeletes | src/Core/MemberListManager.cpp:854-890 | The shifted map holds at j the row the closed form names, for indices in any order and with repetitions |
| MemberRows.ListData.ProcessInvalidate | src/Core/MemberListManager.cpp:892-903 | An INVALIDATE empties its range |
| MemberRows.ListData.FlushInserts | src/Core/MemberListManager.cpp:339-388 | Settling the collected INSERT ops keeps the rows equal to the replay of everything settled so far |
| MemberRows.ListData.FlushDeletes | src/Core/MemberListManager.cpp:339-388 | Settling the collected DELETE run keeps the rows equal to the replay with that run sorted |
| MemberRows.ListData.ApplyOps | src/Core/MemberListManager.cpp:339-388 | The whole update with its batching at kind changes leaves at every index the row of the op stream in which each DELETE run is sorted |
| MemberSubscription.LastScrollWins | src/Core/MemberListManager.cpp:543-614 | However scrolls, replies and timeouts interleave, the effective range (the pending one if set) is the last one asked for |
| MemberSubscription.SentOnceAnswered | src/Core/MemberListManager.cpp:592-614 | Once a reply or the timer frees the slot, the range last sent is the range last asked for |
| MemberSubscription.RunsAreCoherent | src/Core/MemberListManager.cpp:543-629 | In every run a range is pending only while a reply is awaited, and the ranges in force are the ones last requested |
| MemberSubscription.RequestsBounded | src/Core/MemberListManager.cpp:543-629 | Coalescing: a run sends at most one request per reply, timeout, refresh or channel switch, plus one |
| MemberSubscription.RefreshKeepsWantedIff | src/Core/MemberListManager.cpp:616-629 | A refresh keeps the wanted range exactly when no different range is pending |
| MemberSubscription.RefreshDropsPending | src/Core/MemberListManager.cpp:626 | A concrete run in which the refresh drops a pending range |
| MemberSubscription.WhatIsSent | src/Core/MemberListManager.cpp:592-629 | A refresh asks again for the ranges in force, the timer for the range wanted, a reply only for a wanted range not in force; without an open channel nothing is asked |
| MemberSubscription.OpeningAsksForTheTop | src/Core/MemberListManager.cpp:100-165 | Opening another channel asks for its first hundred rows |
| MemberSubscription.ClosingForgets | src/Core/MemberListManager.cpp:167-181 | Closing forgets channel and ranges, and opening the channel again asks again |
| MemberSubscription.ScrollAsksIffFree | src/Core/MemberListManager.cpp:543-577 | A scroll sends at once exactly if nothing is awaited and the range is not in force |
| MemberSubscription.WantedRangesExact | src/Core/MemberListManager.cpp:543-577 | The ranges requested hold exactly the first hundred rows and the hundreds in which the window has a row |
| MemberSubscription.VisibleRowsWanted | src/Core/MemberListManager.cpp:543-577 | Every visible row is inside the requested ranges |
| MemberSubscription.MemberListManager.SetActiveChannel | src/Core/MemberListManager.cpp:100-165 | Switching the channel resets the subscription state and asks for the first block, unless the channel is already active |
| MemberSubscription.MemberListManager.Clear | src/Core/MemberListManager.cpp:167-181 | Clearing returns to the initial state |
| MemberSubscription.MemberListManager.UpdateSubscriptionRange | src/Core/MemberListManager.cpp:543-577 | A scroll takes the step of the state machine with the ranges of the window |
| MemberSubscription.MemberListManager.ApplyAndSendRanges | src/Core/MemberListManager.cpp:579-590 | Ranges put in force are sent and awaited, and the rows outside them are evicted |
| MemberSubscription.MemberListManager.EvictUnsubscribedItems | src/Core/MemberListManager.cpp:631-651 | Eviction keeps exactly the loaded rows inside the ranges |
| MemberSubscription.MemberListManager.FlushPendingRanges | src/Core/MemberListManager.cpp:592-614 | The freed slot goes to the pending range if it differs from the ranges in force; otherwise those are requested again while a channel is active |
| MemberSubscription.MemberListManager.RefreshActiveSubscription | src/Core/MemberListManager.cpp:616-629 | A refresh re-sends the ranges in force and forgets the pending one |
| MemberSubscription.MemberListManager.HandleMemberListUpdate | src/Core/MemberListManager.cpp:339-419 | A list update applies its ops to the rows and then serves the waiting range |
| AttachmentUpload.UploadOutcome | src/Discord/Client.cpp:1103-1253 | In every interleaving of slot reply, PUT completions and cancel: one settlement exactly when nothing is outstanding; onUploaded exactly when nothing aborted, with the name granted for each attachment; onFailed exactly when a failure aborted it, with its error; deletions exactly the granted names of the attachments whose PUT succeeded in an aborted upload |
| AttachmentUpload.UploadOrder | src/Discord/Client.cpp:1103-1253 | In every interleaving the effects in their order: settlement before the upload callback; failure, deletions, settlement when the PUTs were started; settlement before the failure otherwise |
| AttachmentUpload.LaunchedNames | src/Discord/Client.cpp:1137-1151 | Once the PUTs are started each attachment has the file name of the last granted slot with its index, and none if there is no such slot |
| AttachmentUpload.LastSlotNames | src/Discord/Client.cpp:1149 | The name granted for an attachment is that of the last slot for it |
| AttachmentUpload.SettledIsFinal | src/Discord/Client.cpp:1241-1253 | After settlement only a cancel can still arrive and it changes nothing |
| AttachmentUpload.RunExplained | src/Discord/Client.cpp:1103-1192 | The state after any run is determined by its first abort and by the PUTs that succeeded |
| AttachmentUpload.PutDoneExplained | src/Discord/Client.cpp:1157-1177 | One completion updates this explanation, including the last one that settles |
| AttachmentUpload.SlotReplyExplained | src/Discord/Client.cpp:1117-1151 | The slot reply in all its outcomes: cancelled, failed, wrong count, bad index, granted |
| AttachmentUpload.LaunchExplained | src/Discord/Client.cpp:1153-1190 | Launching the PUTs, of which any may be answered at once, keeps the explanation |
| AttachmentUpload.Client.SendAttachments | src/Discord/Client.cpp:1059-1088 | Sending attachments registers the upload, in place of any other of its nonce, and asks for slots |
| AttachmentUpload.Client.OnSlotReply | src/Discord/Client.cpp:1117-1190 | The slot reply handler takes the step of the model in every branch |
| AttachmentUpload.Client.RecordSlots | src/Discord/Client.cpp:1137-1151 | The slot loop records names until the first bad index and reports it |
| AttachmentUpload.Client.LaunchPuts | src/Discord/Client.cpp:1153-1190 | The launch loop takes one step for each attachment, with the refused ones answered inside it |
| AttachmentUpload.Client.OnDone | src/Discord/Client.cpp:1157-1177 | A completion counts down, records success or the first failure, and ends the upload when it is the last |
| AttachmentUpload.Client.RecordPut | src/Discord/Client.cpp:1157-1167 | Counting down and recording success or the first failure, which cancels the rest |
| AttachmentUpload.Client.FinishUpload | src/Discord/Client.cpp:1194-1219 | The last success settles and then reports, or cleans up if a cancel came first |
| AttachmentUpload.Client.FailUpload | src/Discord/Client.cpp:1221-1225 | A failure is reported to the caller |
| AttachmentUpload.Client.CleanupUploadedSlots | src/Discord/Client.cpp:1227-1239 | The clean-up loop deletes exactly the uploaded slots with a name, in order |
| AttachmentUpload.Client.SettleUpload | src/Discord/Client.cpp:1241-1244 | Settling removes the entry of the nonce from the active uploads, whichever upload holds it |
| AttachmentUpload.Client.CancelMessageSend | src/Discord/Client.cpp:1246-1253 | A cancel marks the active upload of the nonce and reports whether there was one |
| StreamSplitter.SplitUnique | src/Discord/IngestThread.cpp:135-222 | A byte stream is cut at the markers 00 00 FF FF in one way only |
| StreamSplitter.PayloadsSplit | src/Discord/IngestThread.cpp:146-218 | The scan yields that cut: payloads ending at a marker, concatenating with the rest to the stream, no marker in the rest |
| StreamSplitter.SplitIsPayloads | src/Discord/IngestThread.cpp:146-218 | Any cut with these properties is the one the scan yields |
| StreamSplitter.PayloadsExtend | src/Discord/IngestThread.cpp:135-222 | The cut of a longer stream is the cut of the shorter one followed by the cut of the old rest with the new bytes |
| StreamSplitter.MarkerBytes | src/Discord/IngestThread.cpp:135-145 | The marker is the four bytes 00 00 FF FF |
| Ingest.BoundariesIrrelevant | src/Discord/IngestThread.cpp:135-222 | Two ways of chunking one stream give the same inflated payloads and the same pending bytes, as long as no payload fails and the buffer cap is kept |
| Ingest.CleanIffSound | src/Discord/IngestThread.cpp:135-232 | One generation digested in any chunks has put out exactly the payloads of the undivided stream and buffers its rest, if and only if no payload fails and the rest after each chunk fits the cap |
| Ingest.RunsCleanIffSound | src/Discord/IngestThread.cpp:52-232 | In every run, for the generation the worker is in: the output since that generation began is exactly the payloads of what it received, and the buffer the rest, if and only if no payload fails, each rest fits the cap, and the first bytes found zlib initialised |
| Ingest.BoundariesMatterPastTheCap | src/Discord/IngestThread.cpp:224-232 | At the cap chunking does matter, with no chunk above the 8192 bytes of a network read: a marker arriving whole completes a payload that the same bytes, cut after the first byte of the marker, lose |
| Ingest.DeliveredIffClean | src/Discord/IngestThread.cpp:146-232 | By counting bytes: output and buffer are the payloads and the rest exactly if nothing was lost |
| Ingest.RunsKeepQueue | src/Discord/IngestThread.cpp:52-113 | In every interleaving the queued chunks are the newest pushes of the current generation, counted exactly in queuedBytes and within both caps, or a single chunk |
| Ingest.PushDropsOnlyWhatItMust | src/Discord/IngestThread.cpp:57-71 | A push drops its k oldest chunks only if it has to: with the last of them put back the queue is over 1000 chunks or 4 MiB; and what stays is within both or a single chunk |
| Ingest.SmallGenerationsLoseNothing | src/Discord/IngestThread.cpp:52-73 | In every run nothing is dropped of a generation whose pushes together fit both caps |
| Ingest.BreakIsAnnounced | src/Discord/IngestThread.cpp:146-232 | A chunk that completes a payload which does not inflate, or leaves more than 16 MiB, closes the stream and announces exactly one error; any other is inflated and kept and announces none |
| Ingest.FirstChunkOpens | src/Discord/IngestThread.cpp:104-130 | Without an open stream a chunk opens one from nothing, or is given up where zlib cannot be initialised |
| Ingest.RunsKeepOrder | src/Discord/IngestThread.cpp:52-113 | Generations only grow on the way from the queue to the worker, and every queued chunk carries the current one |
| Ingest.RunsKeepFlow | src/Discord/IngestThread.cpp:52-113 | Of the chunks pushed in a generation as many are digested, in hand, queued or dropped as were pushed; without drops those past the queue are exactly the first ones pushed |
| Ingest.RunsKeepPushOrder | src/Discord/IngestThread.cpp:52-113 | Whatever overflow or resets drop, the chunks digested, in hand and queued are pushed chunks, in the order of their pushes |
| Ingest.RunsKeepWorker | src/Discord/IngestThread.cpp:104-222 | The pending input never holds bytes of two generations, and of a clean stream it is what the splitter left |
| Ingest.CaughtUp | src/Discord/IngestThread.cpp:52-232 | When the worker has caught up with a generation that overflow took nothing from, the output of that generation is exactly the payloads of the bytes pushed and the buffer the rest, if and only if no payload failed, no rest outgrew the buffer and zlib could be initialised |
| Ingest.AppendKeepsNewest | src/Discord/IngestThread.cpp:52-73 | A push extends the newest chunks and their byte count |
| Ingest.IngestThread.Push | src/Discord/IngestThread.cpp:52-73 | A push tags the chunk, counts it, and drops the oldest chunks past the caps but never the last one |
| Ingest.IngestThread.DropOldest | src/Discord/IngestThread.cpp:52-73 | The drop loop leaves the longest suffix within the caps, with its byte count |
| Ingest.IngestThread.Reset | src/Discord/IngestThread.cpp:75-83 | A reset empties the queue and opens the next generation |
| Ingest.IngestThread.TakeChunk | src/Discord/IngestThread.cpp:92-102 | Taking a chunk removes it from queue and count |
| Ingest.IngestThread.DigestChunk | src/Discord/IngestThread.cpp:92-232 | Digesting the chunk in hand is the worker step of the run |
| Ingest.IngestThread.Process | src/Discord/IngestThread.cpp:104-232 | Digesting a chunk takes the step of the worker: generation switch, init, append, split, overflow guard |
| Ingest.IngestThread.InflateSegment | src/Discord/IngestThread.cpp:149-191 | A segment is inflated, or the stream is reset and the error announced |
| Ingest.IngestThread.FailStream | src/Discord/IngestThread.cpp:174-181 | A failure drops stream and pending input |
| Ingest.IngestThread.SplitAndInflate | src/Discord/IngestThread.cpp:146-222 | The moving cursor inflates exactly the complete payloads up to the first failure and strips them |
| MurmurHash3.OneGroupNeverCollides | src/Core/MurmurHash3.cpp:94-150 | Two inputs of one length that agree outside one aligned 4-byte block, or outside the tail, hash alike under one seed if and only if they are equal |
| MurmurHash3.TwoGroupsCollide | src/Core/MurmurHash3.cpp:94-150 | This is as far as it goes: every input of at least two blocks shares its hash with one that differs in the first two blocks only |
| MurmurHash3.LengthDecides | src/Core/MurmurHash3.cpp:145 | From one running hash two lengths below 2^32 give the same hash exactly if they are equal |
| MurmurHash3.ZeroByteChangesHash | src/Core/MurmurHash3.cpp:127-150 | A zero byte after whole blocks mixes in nothing, and the length alone changes the hash |
| MurmurHash3.HashOfNothing | src/Core/MurmurHash3.cpp:94-150 | Known values without input, under three seeds |
| MurmurHash3.HashOfTails | src/Core/MurmurHash3.cpp:127-141 | Known values of tails of one and three bytes |
| MurmurHash3.HashOfFourBytes | src/Core/MurmurHash3.cpp:107-125 | Known values of one block under two seeds |
| MurmurHash3.Fmix32Undone | src/Core/MurmurHash3.cpp:68-77 | The finaliser has an inverse |
| MurmurHash3.Fmix32Injective | src/Core/MurmurHash3.cpp:68-77 | The finaliser is injective modulo 2^32 |
| MurmurHash3.MixKInjective | src/Core/MurmurHash3.cpp:107-125 | The block mix is injective |
| MurmurHash3.MixHInjective | src/Core/MurmurHash3.cpp:107-125 | A round is injective in the running hash for a fixed block and in the block for a fixed hash |
| MurmurHash3.BytesOfWord | src/Core/MurmurHash3.cpp:55-58 | Four bytes read as a little-endian word and taken apart again are the same bytes |
| MurmurHash3.MurmurHash3_x86_32 | src/Core/MurmurHash3.cpp:94-150 | Block loop, fall-through tail and finalisation compute the hash function the theorems are about |
| MurmurHash3.MixBlock | src/Core/MurmurHash3.cpp:107-125 | The body of the block loop is one round |
| MurmurHash3.MixTail | src/Core/MurmurHash3.cpp:127-141 | The fall-through switch mixes the one to three tail bytes as one word |
| PermissionCache.RunsInUseOrder | src/Core/PermissionManager.cpp:26-67 | In every reachable state the cache holds at most 10000 keys, no duplicates, and lists them in order of last use |
| PermissionCache.EvictsLeastRecentlyUsed | src/Core/PermissionManager.cpp:26-49 | A new key entering a full cache removes a key if and only if it is the one used least recently |
| PermissionCache.CachesMostRecent | src/Core/PermissionManager.cpp:26-67 | After any run of uses without invalidation the cache holds exactly the last 10000 distinct keys used, in order |
| PermissionCache.CachedIsLatest | src/Core/PermissionManager.cpp:26-67 | Over every run a cached value is the one last stored for its key, or computed for it when it was not cached |
| PermissionCache.LinkedIsLru | src/Core/PermissionManager.cpp:26-67 | Where hash, list and iterator index agree, they stand for a well-formed LRU of the size of the hash |
| PermissionCache.SplicedKeeps | src/Core/PermissionManager.cpp:51-60 | Moving a node to the back keeps the three tables in agreement and makes its key the most recent |
| PermissionCache.ErasedKeeps | src/Core/PermissionManager.cpp:150-191 | Erasing a key from the three tables keeps the others in agreement and in order |
| PermissionCache.LinkedOneMore | src/Core/PermissionManager.cpp:40-49 | Appending a node for a new key keeps the tables in agreement |
| PermissionCache.PermissionManager.InsertIntoCache | src/Core/PermissionManager.cpp:26-49 | Inserting refines the abstract LRU; the branch for a cached key without index entry cannot be reached |
| PermissionCache.PermissionManager.MakeRoom | src/Core/PermissionManager.cpp:26-49 | The eviction loop drops least recently used keys until there is room |
| PermissionCache.PermissionManager.EvictOldest | src/Core/PermissionManager.cpp:26-49 | Evicting removes the front of the list everywhere |
| PermissionCache.PermissionManager.GetChannelPermissions | src/Core/PermissionManager.cpp:51-67 | A lookup returns the cached value or the computed one, and counts as a use |
| PermissionCache.PermissionManager.InvalidateChannelCache | src/Core/PermissionManager.cpp:150-167 | Exactly the keys of the channel go, the others keep their order, and the channel is announced |
| PermissionCache.PermissionManager.InvalidateUserGuildCache | src/Core/PermissionManager.cpp:169-195 | Exactly the keys of the user in the channels of the guild go, and each such channel is announced once |
| Permissions.ChannelBit | src/Core/PermissionComputer.cpp:11-29 | Each bit of the result is set exactly for the owner, for an administrator, or by precedence: member allow, member deny, any role allow, any role deny, everyone allow, everyone deny, base |
| Permissions.BaseBit | src/Core/PermissionComputer.cpp:11-52 | A base bit is set exactly for the owner, for an administrator, or if the everyone role or a role of the member gives it |
| Permissions.OverwriteBit | src/Core/PermissionComputer.cpp:64-96 | What an overwrite allows and denies are the bits of the two masks of the first one for its target |
| Permissions.ChannelIsOverwrittenBase | src/Core/PermissionComputer.cpp:104-144 | For channels outside direct messages the result is the overwrites applied to the base permissions, owner and administrator included |
| Permissions.RoleOrderIrrelevant | src/Core/PermissionComputer.cpp:78-91 | Reordering or repeating the member roles does not change the result |
| Permissions.AdministratorIsBit3 | src/Core/PermissionComputer.cpp:20-28 | A member is an administrator exactly if the everyone role or one of the member roles has bit 3 |
| Permissions.DirectMessageMask | src/Core/PermissionComputer.cpp:104-144 | In a direct message everyone has the same eleven permissions |
| Permissions.LastRoleCounts | src/Core/PermissionComputer.cpp:33-40 | Of the roles with one id the last is the one that counts |
| Permissions.FirstOverwriteCounts | src/Core/PermissionComputer.cpp:54-76 | Of the overwrites for one target the first is the one that counts |
| Permissions.BitsInjective | src/Core/PermissionComputer.cpp:54-102 | Two 64-bit masks with the same bits are equal, so statements about bits are statements about masks |
| Permissions.GivenBit | src/Core/PermissionComputer.cpp:20-23 | A bit of the united role permissions is set exactly if some role of the member has it |
| Permissions.RolesBit | src/Core/PermissionComputer.cpp:78-89 | A bit of the collected role allows (denies) is set exactly if the first overwrite of some role of the member allows (denies) it |
| Permissions.BuildRoleMap | src/Core/PermissionComputer.cpp:33-40 | Of two roles with one id the later one is kept |
| Permissions.ComputeBaseWithMap | src/Core/PermissionComputer.cpp:11-29 | The loop unites everyone and the member roles; the administrator bit gives everything |
| Permissions.ComputeBasePermissions | src/Core/PermissionComputer.cpp:42-52 | The owner has everything, others the base of their roles |
| Permissions.FindOverwrite | src/Core/PermissionComputer.cpp:64-70 | The loop with its break finds the first overwrite of a target |
| Permissions.CollectRoleOverwrites | src/Core/PermissionComputer.cpp:77-88 | The nested loops unite the first overwrites of the member roles |
| Permissions.ComputeOverwrites | src/Core/PermissionComputer.cpp:54-102 | Everyone, roles and member are applied in this order, deny before allow |
| Permissions.ComputeChannelPermissions | src/Core/PermissionComputer.cpp:104-144 | The channel computation in all branches, direct messages included |
| ForumRequests.DrainExactlyOnce | src/Core/ForumManager.cpp:41-65 | From any batch, draining hands out exactly the queued ids and the parked ones not yet requested, and each only once exactly if no id is queued repeatedly and queued ids that are also parked are marked |
| ForumRequests.DrainHandsOutEverything | src/Core/ForumManager.cpp:41-65 | From any batch, marked or not: the pending list goes out as it stands, and after it each parked thread not yet requested exactly once |
| ForumRequests.DrainAttributes | src/Core/ForumManager.cpp:18-65 | Every id is handed out under a forum it was queued for |
| ForumRequests.DrainEmpties | src/Core/ForumManager.cpp:776-812 | The drain loop ends with nothing pending and no flush scheduled |
| ForumRequests.AddOutcome | src/Core/ForumManager.cpp:18-39 | A thread not yet requested waits for its forum after an add and is all that is new; one already requested changes nothing |
| ForumRequests.AnswerOutcome | src/Core/ForumManager.cpp:798-806 | A reply uses up one request in flight and unmarks exactly the ids of that request |
| ForumRequests.ForgetOutcome | src/Core/ForumManager.hpp:130-142 | A thread forgotten is neither marked nor waited for, and all others are as before |
| ForumRequests.TakeShrinks | src/Core/ForumManager.cpp:41-65 | The measure behind its termination: a take lightens the batch, or fills its empty pending list |
| ForumRequests.TakeKeepsParked | src/Core/ForumManager.cpp:41-65 | A take hands out the pending ids and drops a parked request only if its thread is already requested |
| ForumRequests.RequeuedContents | src/Core/ForumManager.cpp:41-65 | What requeuing does with each parked request: queue it for its forum, leave it parked, or drop it as requested |
| ForumRequests.FlushSendsEachIdOnce | src/Core/ForumManager.cpp:776-812 | With valid forums a flush sends exactly the owed ids, and each in only one request, of at most ten, under the same exact condition |
| ForumRequests.SentIsHandedOut | src/Core/ForumManager.cpp:776-812 | Sending in pieces neither loses nor repeats an id of a valid forum |
| ForumRequests.SentSizes | src/Core/ForumManager.cpp:776-812 | No request is empty, too long, or for an invalid forum |
| ForumRequests.ChunksFlatten | src/Core/ForumManager.cpp:786-790 | The pieces of a list put together are the list |
| ForumRequests.ChunkSizes | src/Core/ForumManager.cpp:786-790 | Each piece has between one and the allowed number of ids, and one piece suffices exactly up to that number |
| ForumRequests.RunsStayMarkedIff | src/Core/ForumManager.cpp:18-84 | In every run of adds, takes, forgets at any time and replies to requests in flight, queued ids stay distinct and marked throughout exactly if no reply names an id queued again since its request |
| ForumRequests.StepKeepsMarkedIff | src/Core/ForumManager.hpp:130-160 | Of all steps only such a reply takes the mark from a queued id |
| ForumRequests.TimelyRunsFlushOnce | src/Core/ForumManager.cpp:776-812 | After such a run a flush hands out each owed id once and only once |
| ForumRequests.AnswerKeepsMarkedIff | src/Core/ForumManager.hpp:155-160 | A reply keeps the queued ids marked exactly when it answers none of them |
| ForumRequests.LateReplyQueuesTwice | src/Core/ForumManager.hpp:130-160 | The run that breaks it: a thread flushed, forgotten while its request is in flight and asked for again is queued twice after the late reply |
| ForumRequests.FlushScheduledAfter | src/Core/ForumManager.cpp:776-812 | The scheduled mark survives a flush exactly when the flush found nothing to do |
| ForumRequests.QueuedIsFlushedIff | src/Core/ForumManager.cpp:767-812 | After any run of adds, scheduled flushes, forgets and replies, the next thread asked for that is not already requested is queued, and a flush is scheduled for it exactly if no flush of the run found nothing to do |
| ForumRequests.RunsArmedIff | src/Core/ForumManager.cpp:767-812 | The scheduled mark stands for exactly one flush to come, and everything queued has it, exactly if no flush was idle; otherwise the mark stands for none |
| ForumRequests.StepKeepsArmedIff | src/Core/ForumManager.cpp:18-65 | Of all steps only an idle flush disarms |
| ForumRequests.IdleFlushIsForEver | src/Core/ForumManager.cpp:776-812 | After one idle flush no continuation of the run flushes or requests anything again |
| ForumRequests.ForgottenBatchStaysSilent | src/Core/ForumManager.hpp:130-140 | The run that gets there: a thread is added and forgotten before its flush; whatever is asked for next is queued with no flush to come |
| ForumRequests.UnreadSingleForum | src/Core/ForumManager.cpp:210-249 | One flush: nothing is sent while an unanswered batch is younger than the timeout, and what is sent becomes the awaited batch |
| ForumRequests.TurnOutcome | src/Core/ForumManager.cpp:210-300 | Threads forgotten or named by a reply are neither marked nor waited for nor asked for again; a reply, an overdue batch or a free flush asks for something unless nothing waits |
| ForumRequests.UnreadSingleRequestIff | src/Core/ForumManager.cpp:237-242 | A batch goes out as one request exactly up to 180 ids |
| ForumRequests.RepliesStayExactIff | src/Core/ForumManager.cpp:210-297 | Over any run of adds, forgets, flushes, watchdog firings, replies and lost requests: whatever request the next reply answers, it unmarks exactly the ids of that request, throughout the run, exactly if no batch of more than 180 ids is sent and none is given up while its request may still be answered; such a run never has more than one request unanswered |
| ForumRequests.RepliesExactIff | src/Core/ForumManager.cpp:268-283 | In any state, whichever unanswered request is answered next, the reply unmarks exactly its ids, exactly if none is unanswered or the only one is all of the awaited batch |
| ForumRequests.StepExactIff | src/Core/ForumManager.cpp:210-297 | One step from single flight keeps replies exact exactly if it is careful in this sense, and keeps single flight then |
| ForumRequests.OversizedBatchLosesMark | src/Core/ForumManager.cpp:237-242 | The run that fails by size: 181 posts go out as two requests, and the reply to the first unmarks the post of the second |
| ForumRequests.LateReplyLosesMark | src/Core/ForumManager.cpp:251-283 | The run that fails by time: the batch of one forum is given up, another forum is asked, and the late reply to the first unmarks the post of the second and leaves nothing awaited |
| ForumRequests.RequestBatch.Add | src/Core/ForumManager.cpp:18-39 | Adding queues, parks or ignores the thread, and says whether to schedule a flush |
| ForumRequests.RequestBatch.Take | src/Core/ForumManager.cpp:41-65 | Taking hands out the pending batch, remembers it, and requeues the parked requests |
| ForumRequests.RequestBatch.Forget | src/Core/ForumManager.hpp:130-140 | Forgetting removes the mark, the first queued copy and all parked copies |
| ForumRequests.RequestBatch.ForgetTaken | src/Core/ForumManager.hpp:155-160 | An answer clears the marks of exactly the ids it names |
| ForumRequests.RequestBatch.ForgetAllTaken | src/Core/ForumManager.hpp:167-173 | An unread reply clears the marks of the batch handed out last |
| ForumRequests.ForumManager.FlushStarterRequests | src/Core/ForumManager.cpp:776-812 | The flush loop sends what draining hands out, in pieces of ten |
| ForumRequests.ForumManager.FlushUnreadRequests | src/Core/ForumManager.cpp:210-249 | The unread flush sends one forum at most, and nothing while a fresh batch is awaited |
| ForumRequests.ForumManager.OnUnreadReplyTimeout | src/Core/ForumManager.cpp:251-266 | The watchdog gives up an overdue batch and serves the next forum |
| ForumRequests.ForumManager.OnForumUnreads | src/Core/ForumManager.cpp:268-297 | A reply clears the awaited batch and the named threads, and serves the next forum |
| ForumRequests.SendInPieces | src/Core/ForumManager.cpp:786-790 | The piece loop sends the pieces in order |
| MessageOrder.RunsKeepListing | src/Core/MessageManager.cpp:296-510 | While batches hold distinct ids, after any run of fetches, creations and deletions the list is the strictly ascending listing of the known ids, at most 2000 |
| MessageOrder.StepKeepsListing | src/Core/MessageManager.cpp:296-510 | The same for one event |
| MessageOrder.ReceivedIsListing | src/Core/MessageManager.cpp:956-1000 | One batch leaves the listing of the 2000 largest of the ids kept and received |
| MessageOrder.MergedIsListing | src/Core/MessageManager.cpp:296-343 | On all three paths (append, prepend, merge) a batch of distinct ids yields the listing of the union |
| MessageOrder.FastPathsAreMerge | src/Core/MessageManager.cpp:296-343 | Appending and prepending are what the general merge would do |
| MessageOrder.MergeStrictIff | src/Core/MessageManager.cpp:320-343 | The merge is strictly ascending exactly when the batch is |
| MessageOrder.StrictIffDistinct | src/Core/MessageManager.cpp:296-343 | Before trimming, a batch leaves the list strictly ascending exactly when its ids are distinct |
| MessageOrder.RunsKeepAscending | src/Core/MessageManager.cpp:296-510 | Whatever batches repeat, every run keeps the list ascending and at most 2000 long, as the binary search demands |
| MessageOrder.RunsStayStrictIff | src/Core/MessageManager.cpp:296-510 | The list stays strictly ascending throughout a run exactly if every id a batch repeats has at least 1999 known ids above it when it arrives |
| MessageOrder.ReceivedStrictIff | src/Core/MessageManager.cpp:956-1000 | The same for one batch |
| MessageOrder.TrimmedStrictIff | src/Core/MessageManager.cpp:345-349 | An ascending list cut to its last n ids is strict exactly if each repeated id has n - 1 ids above it |
| MessageOrder.RepeatIsKept | src/Core/MessageManager.cpp:320-343 | A first batch that repeats an id leaves it repeated |
| MessageOrder.CachedIsListing | src/Core/MessageManager.cpp:345-349 | After trimming the list is the listing of the 2000 largest |
| MessageOrder.LastNLargest | src/Core/MessageManager.cpp:345-349 | Popping from the front keeps the largest ids |
| MessageOrder.StrictUnique | src/Core/MessageManager.cpp:296-350 | A set of ids has one strictly ascending listing |
| MessageOrder.WindowIsLastKnown | src/Core/MessageManager.cpp:215-249 | The history window served from memory is the last min(30, n) known ids below the requested one, in order |
| MessageOrder.ExhaustedIsRight | src/Core/MessageManager.cpp:196-215 | With any set of ids on the server and any run of history pages: the answer that nothing is older is right if a lowest id was noted, or if the id asked for is above no bound asked before |
| MessageOrder.PagesProveIff | src/Core/MessageManager.cpp:965-973 | The pages seen prove that nothing lies below an id, on every server that sends the same pages, exactly if one of them is empty at or above it or is short and begins at or above it |
| MessageOrder.NotedIsShown | src/Core/MessageManager.cpp:965-973 | What is noted was seen: a lowest id begins a page of fewer than 30 ids, no lowest id means an empty page |
| MessageOrder.ShortPageEndsHistory | src/Core/MessageManager.cpp:969-973 | Right after a page of fewer than 30 ids, exactly the requests at or below its first id are answered at once, all of them if it was empty |
| MessageOrder.FullPageGoesOn | src/Core/MessageManager.cpp:969-973 | A page of 30 ids notes nothing |
| MessageOrder.EmptyPageHidesTheRest | src/Core/MessageManager.cpp:969-971 | The input that fails: after an empty page nothing is said to be older than any id, even one with an older message |
| MessageOrder.MessageManager.CacheMessages | src/Core/MessageManager.cpp:296-350 | The list of the channel becomes the merged and trimmed list; the message cache gains the batch, less whatever its bound makes it give up |
| MessageOrder.MessageManager.OnApiMessagesReceived | src/Core/MessageManager.cpp:956-1000 | A fetch sorts, notes exhausted history, drops the stale tail of a latest fetch, and merges |
| MessageOrder.PreviewIsReplaced | src/Core/MessageManager.cpp:352-376 | The message with a pending nonce takes away its preview and nothing else; a message without one, or with an empty one, takes away nothing |
| MessageOrder.MessageManager.OnMessageCreated | src/Core/MessageManager.cpp:352-376 | A created message replaces the preview with its nonce |
| MessageOrder.MessageManager.OnMessageDeleted | src/Core/MessageManager.cpp:436-453 | A deletion removes the id from its channel |
| MessageOrder.MessageManager.OnMessagesDeletedBulk | src/Core/MessageManager.cpp:455-482 | A bulk deletion removes exactly the named ids |
| MessageOrder.MessageManager.OnMessageSendFailed | src/Core/MessageManager.cpp:484-510 | A failed send removes its preview |
| MessageOrder.MessageManager.RequestLoadHistory | src/Core/MessageManager.cpp:196-294 | A history request is answered from memory, from disk or by a fetch, and empty once the oldest message is known |
| MessageOrder.LowerBound | src/Core/MessageManager.cpp:219-220 | On an ascending list, repeats allowed, the binary search finds how many ids come before the bound |
| MessageOrder.LastBefore | src/Core/MessageManager.cpp:219-226 | The ids taken from memory are the window: the last page before the bound |
| MessageOrder.MergeLists | src/Core/MessageManager.cpp:320-343 | The two-cursor loop computes the merge |
| Reactions.RunsKeepTheTally | src/Core/MessageManager.cpp:709-885 | After any run of adds, debounced adds and removals of what is shown, each emoji shows exactly adds minus removals of each kind, entries stay unique and totals stay sums |
| Reactions.EntryByKey | src/Core/MessageManager.cpp:617-626 | Each emoji has one entry, found by its id or else its name, and the counts shown are those of that entry |
| Reactions.NamesKeptApart | src/Core/MessageManager.cpp:617-626 | Two unicode emoji of different names stand in entries of their own |
| Reactions.AddMarks | src/Core/MessageManager.cpp:715-760 | An add marks the own reaction of its kind, sets the colours of a burst, and leaves other entries alone |
| Reactions.GroupMarks | src/Core/MessageManager.cpp:803-828 | A debounced group marks the user if it names the user |
| Reactions.RemoveUnmarks | src/Core/MessageManager.cpp:855-885 | A removal takes back the own mark of its kind, and drops exactly an entry with one reaction |
| Reactions.NextTallies | src/Core/MessageManager.cpp:709-885 | The same for one event |
| Reactions.ListedIffReacted | src/Core/MessageManager.cpp:877-878 | An emoji is listed exactly while it has reactions, with their sum as its count |
| Reactions.RemovalKeepsTotalsIff | src/Core/MessageManager.cpp:855-885 | A removal keeps the totals sums exactly when it hits no entry, takes away what is shown, or removes the whole entry |
| Reactions.GroupIsSinglesIff | src/Core/MessageManager.cpp:788-830 | A debounced group of users equals their single adds exactly when it names someone or the emoji is already listed |
| Reactions.EventIsSinglesIff | src/Core/MessageManager.cpp:788-830 | A debounced event, its groups about any emoji, equals all its single adds in order exactly when leaving out the groups that name nobody changes neither which emoji the event lists first nor their order |
| Reactions.IdleGroupsLinger | src/Core/MessageManager.cpp:815-828 | The debounced event lists every emoji it mentions, the single adds only those some group names a user for, each in the order of first mention after the old entries |
| Reactions.RemoveUndoesAddIff | src/Core/MessageManager.cpp:709-885 | Removing right after adding restores the list exactly when the emoji was new or its entry is restorable: positive count, non-negative details, own flag not yet set, burst colours unchanged |
| Reactions.AddTallies | src/Core/MessageManager.cpp:709-760 | An add raises one tally by one, keeps the others, and keeps the list consistent |
| Reactions.RemoveTallies | src/Core/MessageManager.cpp:855-885 | A removal of a shown reaction lowers one tally by one, keeps the others, and keeps the list consistent |
| Reactions.Message.ApplyReactionAdd | src/Core/MessageManager.cpp:709-760 | The add loop changes the first matching entry or appends one |
| Reactions.Message.ApplyGroup | src/Core/MessageManager.cpp:803-828 | One debounced group in place |
| Reactions.Message.ApplyReactionAddMany | src/Core/MessageManager.cpp:788-830 | The groups are applied in order, each with its own-user test |
| Reactions.Message.ApplyReactionRemove | src/Core/MessageManager.cpp:855-885 | The remove loop lowers the first matching entry and drops it at zero |
| Reactions.BumpEntry | src/Core/MessageManager.cpp:715-741 | The field updates of an add on an existing entry |
| Reactions.LowerEntry | src/Core/MessageManager.cpp:859-880 | The field updates of a removal |
| ImagePins.PinnedIffHeld | src/Core/ImageManager.cpp:566-627 | In every reachable state the reference count of a key is the number of groups holding it, and the key is pinned exactly when that is positive |
| ImagePins.RunsKeepInv | src/Core/ImageManager.cpp:566-688 | Every run keeps groups, counts and pinned images in agreement, and pending pins only for requests under way |
| ImagePins.UnpinOutcome | src/Core/ImageManager.cpp:980-1004 | Unpinning a group leaves pinned exactly what the other group holds, with the same images, and hands every other pinned image to the cache |
| ImagePins.UnpinningAllLeavesNothing | src/Core/ImageManager.cpp:980-1004 | After both groups are unpinned nothing is pinned, counted or held |
| ImagePins.PinnedUntilUnpinned | src/Core/ImageManager.cpp:566-1004 | A key a group holds stays pinned through any run in which that group is not unpinned |
| ImagePins.UnpinnedStaysUnheldIff | src/Core/ImageManager.cpp:566-1004 | Once unpinned a group never holds the key again before it asks for it again, over every continuation, exactly if it was not waiting for its image |
| ImagePins.UnpinnedGroupHoldsLateImageIff | src/Core/ImageManager.cpp:925-942 | An image arriving right after the unpin is pinned for the group again exactly if the group was waiting for it |
| ImagePins.FetchedIsShownIff | src/Core/ImageManager.cpp:925-943 | What was fetched is what is shown, exactly unless another image of the key is pinned and no waiting group takes this one |
| ImagePins.GetKeepsShown | src/Core/ImageManager.cpp:566-627 | A lookup leaves what is shown of every image in memory as it is |
| ImagePins.LoadedIsShown | src/Core/ImageManager.cpp:598-620 | An image loaded from its file is shown from memory afterwards |
| ImagePins.ShownFrom | src/Core/ImageManager.cpp:566-627 | A lookup shows the pinned image, else the cached one, else what the file yields |
| ImagePins.WaitersAreServed | src/Core/ImageManager.cpp:656-943 | A group that waits for an image keeps waiting over every continuation and holds the key once it arrives |
| ImagePins.FailedIsNotRetried | src/Core/ImageManager.cpp:656-688 | A failed key is not requested again before failures are cleared or its image arrives after all |
| ImagePins.MissOutcome | src/Core/ImageManager.cpp:621-688 | What a lookup without image does: nothing after a failure, join the request under way, send one, or fail at once |
| ImagePins.MissWaits | src/Core/ImageManager.cpp:640-688 | After a miss a group waits for the image if it did before or the lookup was for it and a request is or goes out |
| ImagePins.MissKeepsOthers | src/Core/ImageManager.cpp:640-688 | A miss leaves those waiting for other keys alone |
| ImagePins.RequestEnds | src/Core/ImageManager.cpp:656-664 | An answer ends the request; an image serves every group that waited, a failure is remembered |
| ImagePins.LateImageStaysPinned | src/Core/ImageManager.cpp:925-942 | The run that gets there: asked for, unpinned, fetched; the key is then held, counted and pinned |
| ImagePins.StoredKeepsInv | src/Core/ImageManager.cpp:925-942 | Storing a fetched image for several waiting groups keeps the tables in agreement |
| ImagePins.GetKeepsInv | src/Core/ImageManager.cpp:566-634 | A lookup from any source, with or without pinning, keeps the tables in agreement |
| ImagePins.ImageManager.Get | src/Core/ImageManager.cpp:566-634 | The lookup order pinned, cache, disk, network, with its pinning, and the image it returns |
| ImagePins.ImageManager.Request | src/Core/ImageManager.cpp:666-688 | A request is ignored after failure, joined while under way, and sent otherwise |
| ImagePins.ImageManager.FailRequest | src/Core/ImageManager.cpp:656-664 | A failure ends the request and its pending pins |
| ImagePins.ImageManager.StoreFetchedPixmap | src/Core/ImageManager.cpp:925-943 | A fetched image is pinned for each waiting group that does not hold it, or cached if none waits |
| ImagePins.ImageManager.UnpinGroup | src/Core/ImageManager.cpp:980-1004 | The unpin loop releases each key of the group |
| ImagePins.ImageManager.ReleaseKey | src/Core/ImageManager.cpp:988-1003 | One released reference, and the image moved to the cache with the last one |
| GifCache.CreationRestoresBudget | src/Core/ImageManager.cpp:393-424 | After any history, creating an animation leaves the memory total equal to the sum of costs and within budget, or every other animation empty |
| GifCache.EndsWithinBudget | src/Core/ImageManager.cpp:469-507 | The eviction loop ends within budget or with every other animation empty |
| GifCache.EvictsOldestFirst | src/Core/ImageManager.cpp:476-506 | The loop empties a prefix of the use order and touches nothing else, and below the entry limit no more than the budget calls for |
| GifCache.EvictedStep | src/Core/ImageManager.cpp:476-506 | Each round that goes on moves the newest animation one place towards the front: the termination measure |
| GifCache.WhatEventsLeave | src/Core/ImageManager.cpp:393-459 | A use makes an animation newest and changes nothing else; only release and destruction take one away; loading sets its cost |
| GifCache.NewAnimationEnters | src/Core/ImageManager.cpp:393-424 | A new animation enters empty; every other keeps its cost or is unloaded |
| GifCache.UnloadsUpToTheEnd | src/Core/ImageManager.cpp:476-506 | What one run of the loop unloads in closed form: everything before the first position at which the loop ends, that is where count and budget both suffice, the budget suffices and a shell is in front, or the newest is reached; and the rest is untouched |
| GifCache.OverCountUnloadsShellFree | src/Core/ImageManager.cpp:476-506 | With more than 200 entries within the budget, exactly the run of loaded animations at the old end is emptied, up to the first empty shell or the newest |
| GifCache.WithinBudgetUnloadsNothingIff | src/Core/ImageManager.cpp:476-506 | Within the budget nothing is unloaded exactly if there are at most 200 entries, or the oldest is an empty shell or the newest |
| GifCache.OverCountUnloadsAll | src/Core/ImageManager.cpp:476-506 | With more than 200 entries and no empty shell among the older ones, every other animation is emptied whatever it costs |
| GifCache.OneTooManyUnloadsAll | src/Core/ImageManager.cpp:393-507 | The run that gets there: 200 animations of one byte each, and the next creation empties all of them |
| GifCache.SurvivesIff | src/Core/ImageManager.cpp:405-447 | An animation in use stays until it is released, over every continuation, exactly if no released animation of its url still awaits destruction |
| GifCache.LateDestructionDropsTheNewOne | src/Core/ImageManager.cpp:405-415 | The run that fails: create, release and create again, then the late destruction removes the new animation from every table |
| GifCache.SumSplit | src/Core/ImageManager.cpp:461-467 | The memory total does not depend on the order in which the hash is walked |
| GifCache.ImageManager.TouchGifAnimation | src/Core/ImageManager.cpp:449-459 | A touch makes an animation most recently used |
| GifCache.ImageManager.RecalcGifMemoryTotal | src/Core/ImageManager.cpp:461-467 | The recount is the sum of the costs |
| GifCache.ImageManager.PassFront | src/Core/ImageManager.cpp:494-505 | Emptying the front animation lowers the total by its cost and moves it to the back |
| GifCache.ImageManager.EvictFront | src/Core/ImageManager.cpp:479-506 | One round of the loop |
| GifCache.ImageManager.EnforceGifCacheLimits | src/Core/ImageManager.cpp:469-507 | The loop ends in the state the theorems describe; its branches for keys missing from map or table cannot be reached |
| GifCache.ImageManager.CreateGifAnimation | src/Core/ImageManager.cpp:393-424 | A known url is only touched, a new one enters empty and the limits are enforced |
| GifCache.ImageManager.GifAnimation | src/Core/ImageManager.cpp:426-432 | A lookup touches what it finds |
| GifCache.ImageManager.ReleaseGifAnimation | src/Core/ImageManager.cpp:434-447 | A release removes the animation from every table and recounts |
| GifCache.ImageManager.OnDestroyed | src/Core/ImageManager.cpp:405-415 | The destruction handler removes the url from every table and recounts |
| GatewaySession.RunsAreProper | src/Discord/Gateway.cpp:810-824 | In every interleaving of handlers canResume holds exactly while there is a session id, and the history is proper: RESUME names the session of the latest READY that named one and did not die since, only for the first HELLO after a reconnect that carried it over; IDENTIFY otherwise; beats, zombies, urls and delays as stated by the history alone |
| GatewaySession.DeadSessionIsNotResumed | src/Discord/Gateway.cpp:210-223 | After a non-resumable INVALID_SESSION, 4006 or 4007 no HELLO is answered with RESUME until a READY names a session |
| GatewaySession.EndedSessionIsNotResumed | src/Discord/Gateway.cpp:1097-1102 | After a close with 4006 or 4007, or an INVALID_SESSION that cannot be resumed, no continuation without a READY naming a session sends RESUME |
| GatewaySession.OthersKeepSession | src/Discord/Gateway.cpp:185-236 | No other step but READY touches session id and flag |
| GatewaySession.NamedSessionIsResumed | src/Discord/Gateway.cpp:440-460 | A session named by READY outlives any other close: the next dial goes to its url and HELLO is answered by RESUME with its id and the latest sequence number |
| GatewaySession.PayloadNotes | src/Discord/Gateway.cpp:185-236 | What each payload leaves in the history, that its sequence number becomes the latest, and that after a stop nothing counts |
| GatewaySession.HelloNotes | src/Discord/Gateway.cpp:810-848 | A HELLO counts as an ACK and is answered by RESUME or IDENTIFY as the history says, and sets the interval |
| GatewaySession.HeartbeatNotes | src/Discord/Gateway.cpp:1188-1215 | Every check sends a beat with the latest sequence number, except after two silent ones: that is a zombie and asks for a reconnect |
| GatewaySession.CloseNotes | src/Discord/Gateway.cpp:1062-1108 | Each close code: the penalty, the death or nothing it leaves, and whether it brings a reconnect |
| GatewaySession.DialNotes | src/Discord/Gateway.cpp:893-910 | A dial goes to the resume url exactly while a live session is carried over |
| GatewaySession.DialFailedNotes | src/Discord/Gateway.cpp:915-945 | A failed dial waits as long as the attempts since the last welcome and the server demand |
| GatewaySession.TailNotes | src/Discord/Gateway.cpp:1115-1170 | The end of a connection carries it over with the due wait exactly if a reconnect was asked for and the gateway runs |
| GatewaySession.QuietSteps | src/Discord/Gateway.cpp:55-135 | The remaining steps only move the connection along or set its flags |
| GatewaySession.OutOfPhase | src/Discord/Gateway.cpp:893-1170 | Dialling, its outcome, the clean-up and a cut wait happen in their phase only |
| GatewaySession.WithoutConnection | src/Discord/Gateway.cpp:893-1225 | Without a connection nothing is lost, closed or left, and without its thread nothing beats |
| GatewaySession.ZombieNeedsTwoSilentBeats | src/Discord/Gateway.cpp:1188-1204 | A zombie is declared only after two beats with no ACK since before the first of them |
| GatewaySession.NextKeepsInv | src/Discord/Gateway.cpp:893-1170 | Every handler of the three threads keeps session, heartbeat and retry flags equal to what the history says |
| GatewaySession.CloseKeepsInv | src/Discord/Gateway.cpp:1062-1108 | The same for a close frame with any code |
| GatewaySession.SplitClearAgreesIff | src/Discord/Gateway.cpp:1097-1102 | Whatever other handlers run between dropping the flag and clearing the id, both agree afterwards exactly unless the last READY or death among them was a READY that left a session id |
| GatewaySession.FlagDecidesResume | src/Discord/Gateway.cpp:810-824 | After a close and an undisturbed reconnect the HELLO is answered by RESUME with whatever id there is exactly if the flag was set |
| GatewaySession.ReadyBetweenResumesNothing | src/Discord/Gateway.cpp:1097-1102 | The run that fails: a READY between the two steps leaves the flag without an id, and the next HELLO is answered by a RESUME naming no session |
| GatewaySession.BackoffDoublesToTheCap | src/Discord/Gateway.cpp:1360-1370 | The waits double from one second, never fall, and stay at 30 seconds from the sixth attempt on |
| GatewaySession.FatalCloseEndsIff | src/Discord/Gateway.cpp:1093-1158 | A fatal close code ends the gateway exactly if no reconnect was asked for before it and none is by the UI, ingest or heartbeat thread until the connection is cleaned up, or if it is stopped hard meanwhile; whatever these threads do in between |
| GatewaySession.MeanwhileNet | src/Discord/Gateway.cpp:118-235 | Whatever the other threads do, the connection leaves its phase only by a hard stop, and a reconnect is flagged afterwards exactly if it was before or one of their steps asked for it |
| GatewaySession.FatalCloseSurvived | src/Discord/Gateway.cpp:1103-1128 | Two runs from the start that survive code 4004: a decompression error just before the close frame, and one between the frame and the end of the connection |
| GatewaySession.OtherCloseReconnects | src/Discord/Gateway.cpp:1103-1158 | Any other close leads to the wait for another attempt, with the heartbeat joined, and to the attempt itself, whatever the other threads do before each, exactly unless they stop the gateway hard |
| GatewaySession.ReconnectBackoffMs | src/Discord/Gateway.cpp:1360-1370 | The shift and the cap compute the backoff |
| GatewaySession.Gateway.HandleReady | src/Discord/Gateway.cpp:440-460 | READY stores session and url if present and resets the attempts |
| GatewaySession.Gateway.HandleHello | src/Discord/Gateway.cpp:810-848 | HELLO counts as an ACK, is answered, and starts a heartbeat thread if there is none |
| GatewaySession.Gateway.AnswerHello | src/Discord/Gateway.cpp:819-824 | The choice between RESUME and IDENTIFY |
| GatewaySession.Gateway.DispatchBody | src/Discord/Gateway.cpp:204-235 | Each opcode does what the model says |
| GatewaySession.Gateway.OnPayloadReceived | src/Discord/Gateway.cpp:185-236 | Payloads after a stop are dropped, others note their sequence and are dispatched |
| GatewaySession.Gateway.HeartbeatIteration | src/Discord/Gateway.cpp:1188-1215 | One check consumes the ACK flag and beats, tolerates or declares a zombie |
| GatewaySession.Gateway.OnCloseFrame | src/Discord/Gateway.cpp:1062-1108 | A close frame sets the server delay, clears a dead session, and asks for a reconnect unless fatal |
| GatewaySession.Gateway.WaitBeforeRetry | src/Discord/Gateway.cpp:922-934 | One attempt more, its delay, and the server delay used up |
| GatewaySession.Gateway.AfterConnection | src/Discord/Gateway.cpp:1123-1170 | After a connection the session is carried over and the heartbeat joined, or the gateway ends |
| GatewaySession.Gateway.ChooseUrl | src/Discord/Gateway.cpp:893-910 | The resume url is used exactly when a session is being resumed |
| Emoji.ParseIffMatches | src/Core/EmojiCatalog.cpp:227-242 | The parser accepts exactly the texts of the expression, in one way each: brackets, optional a, name of 1 to 32 word characters, id of 17 to 20 digits, and at most one line feed after them |
| Emoji.CharacterClasses | src/Core/EmojiCatalog.cpp:227-242 | Word characters are ASCII letters, digits and the underscore |
| Emoji.ParsedExample | src/Core/EmojiCatalog.cpp:227-242 | An animated and a still emoji as written, and what they stand for |
| Emoji.SelectionValueParsesIff | src/Core/EmojiCatalog.hpp:24-30 | The text of a custom item is parsed exactly if its name and id are well formed, and then into that name, id and flag |
| Emoji.InsertedText | src/Core/EmojiCatalog.hpp:24-30 | Selecting an item inserts the emoji itself, or the text of a custom one |
| Emoji.PrintParsedIff | src/Core/EmojiCatalog.cpp:227-242 | Printing what was parsed gives the text back exactly if it did not end in a line feed |
| Emoji.RegistryIsLastWord | src/Core/EmojiCatalog.cpp:309-364 | After any sequence of register, unregister and clear each id is registered as what was said about it last |
| Emoji.NamedCustomItemsEnter | src/Core/EmojiCatalog.cpp:309-318 | An item enters the registry exactly if it has a custom id and a name |
| Emoji.IndexIsScan | src/Core/EmojiCatalog.cpp:110-124 | A lookup in a fitting index finds what a first-match scan of its list finds |
| Emoji.UnicodeLookupIgnoresRegistry | src/Core/EmojiCatalog.cpp:205-214 | A unicode name is found among the built-in emoji alone |
| Emoji.HashOrderMattersIff | src/Core/EmojiCatalog.cpp:106-124 | The order in which the registry hash is walked decides what a name finds exactly if no built-in emoji has the name and two registered ones do |
| Emoji.EmojiCatalog.RegisterCustomEmoji | src/Core/EmojiCatalog.cpp:309-318 | An acceptable item replaces the one with its id and marks the list stale; others are ignored |
| Emoji.EmojiCatalog.RegisterCustomEmojis | src/Core/EmojiCatalog.cpp:320-331 | The loop registers the acceptable items in order |
| Emoji.EmojiCatalog.UnregisterCustomEmoji | src/Core/EmojiCatalog.cpp:333-339 | One id is removed |
| Emoji.EmojiCatalog.UnregisterCustomEmojisByGuild | src/Core/EmojiCatalog.cpp:341-356 | Exactly the items of the guild are removed |
| Emoji.EmojiCatalog.ClearCustomEmojis | src/Core/EmojiCatalog.cpp:358-364 | Everything is removed |
| Emoji.EmojiCatalog.CombinedEmojiData | src/Core/EmojiCatalog.cpp:94-137 | A stale list is rebuilt with an index that fits it; a failed allocation keeps the old pair |
| Emoji.EmojiCatalog.UnicodeForName | src/Core/EmojiCatalog.cpp:205-214 | The lookup answers as a first-match scan of the current list would, and as one of the built-in emoji alone |
| Emoji.EmojiCatalog.ValueForName | src/Core/EmojiCatalog.cpp:216-225 | The lookup answers as a first-match scan of the current list would |

## Left out

- The widgets, themes, REST wrappers, repositories, settings and key storage around these components.
- zlib, JSON and image decoding: inflating a segment is an arbitrary function of the stream so far, payload parsing and the emission of the parsed object are not modelled.
- Integer widths of counters and indices: rows, ids, counts and byte totals are unbounded integers; only the hash and the permission masks have their width.
- Member list groups, role colours, added and removed members and the eviction of whole stale lists: only row contents, ranges and row eviction are modelled.
- AttachmentUpload.UploadOutcome: runs of one upload; a second upload registered under the same nonce takes over its cancel and loses its entry when the first settles, which the contracts of the Client methods state one call at a time.
- The upload body and progress signals, and an upload without attachments, which callers do not start.
- MurmurHash3.MurmurHash3_x86_32: a little-endian host, and keys shorter than 2^31 bytes as the length parameter of the code requires; the 128-bit variants are not modelled.
- The bulk precomputation of guild permissions, which is a loop of cache insertions, and the repository lookups before a permission computation.
- ForumRequests.QueuedIsFlushedIff: the starter batch; whether a queued unread request has a flush to come also depends on when replies and the 30 second watchdog arrive, and is not stated.
- Forum posts, sorting, badges and search paging; of the request batch only the queueing.
- Message contents: the order of ids is modelled, and of the bounded message cache which ids it holds; what it gives up while a batch is entered is a parameter.
- Clearing all reactions of a message or of one emoji, and the stored JSON of the reactions.
- ImagePins.ImageManager.Get: disk files and refused hosts are parameters, and the cost-based eviction of the image cache is an event that may drop any cached image at any time.
- GifCache: iterators into the use order are represented by their keys; the agreement of list and iterators is proved for the permission cache, which uses the same structure.
- GatewaySession: a note of RESUME, IDENTIFY or a beat records that it was handed to the send function; whether the bytes left is the SendFailed event. Failing to create the connection handle and the close timeout are not modelled.
- Category lists, search and completion of the emoji catalog, and the list of built-in emoji, which is a parameter.
