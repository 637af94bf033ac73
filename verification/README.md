# Verified models of Telegram Desktop's protocol and data code

A Dafny project that models the parts of the client where the hard properties are, and proves
them. `dafny verify dfyconfig.toml` checks everything.

| part | files |
|---|---|
| SHA-1 of the update packer against FIPS 180-4 (sections 4.1.1, 4.2.1, 5.1.1, 5.2.1, 5.3.1, 6.1.2) | `Fips180`, `Fips180Example`, `PackerSha1` |
| the packer's flattening of directories | `PackerFiles`, `PackerOrder` |
| live push in the WebSocket bridge | `BridgeLog`, `BridgePush`, `BridgeRuns`, `BridgeDelivery`, `BridgeTurn`, `BridgeRescan`, `BridgeConnection` |
| requests for message data | `MessageData`, `MessageBatches`, `MessageDataApi` |
| loading of dialog lists | `DialogsLoad`, `DialogsPages`, `DialogsFinish`, `DialogsLoader` |
| pending web pages | `WebPages`, `WebPagesReplies`, `WebPagesStranded`, `WebPagesApi` |
| saving sticker sets | `StickerSets`, `StickerOutcome`, `StickerReorder`, `StickerSaving` |
| forwarding | `Forward` |
| the mesh converters | `MeshBinary`, `MeshText`, `MeshObj`, `MeshFaces`, `MeshTrip`, `MeshTools` |
| list hashes | `ApiHash`, `ApiHashOrders` |
| the web-app shell | `Shell`, `ShellReload`, `ShellPage` |
| blocked peers | `BlockedPeers`, `BlockedList`, `BlockedAnswers`, `BlockedPeersApi` |

`Basics` and `Locations` hold what several parts share.

The asynchronous parts have one shape. A datatype `State` and an `Event` type give the machine; a
step is the code that runs between two waits. Replies, clocks and the outcome of requests are
parts of events and arbitrary. A request in flight completes at most once, in any order; request
ids are fresh and positive; a cancelled request does not complete. Invariants are proved step by
step and then over all runs. A class with the client's own fields has one method per function of
the source, and each method is proved to take exactly the machine's step.

## What was found

Properties the code does not have, with the exact condition under which it has them:

- The bridge's send path writes the watermark without a guard. A row can be pushed twice, and the
  write is safe exactly when it covers what was pushed (`WriteBackIsSafeExactlyWhenItCovers`).
- The same write is there so that a turn already streamed is not shown again. A tick between the
  save and the write shows it again all the same (`TurnStaysStreamedExactlyWhen`).
- A not-modified reply to the list of dialogs leaves the request id set, and the load never ends;
  nothing else has this effect (`SticksExactlyByNotModified`, `FinishesExactlyWhenNotStuck`).
- Requests for web pages have no fail handler; a page of a failed request stays pending until it
  is cleared (`FailedPageSticks`).
- The wait for a pending web page is a 32-bit product. A date more than 2147483 seconds past can
  set the timer days ahead, where it should go off at once (`DelayedInTimeExactlyWhen`,
  `OldPageWaitsFifteenDays`).
- A due page without a message leaves no timer behind, and is asked for again only after some
  page is delayed (`StrandedUntilDelay`, `DelayThenAsked`).
- The price of a forwarded run is a 32-bit product too, and beyond that range a run can pay a
  negative amount and the whole the wrong sum (`PaidInAllExactlyWhen`, `ThreeMessagesPayNegative`).
- Saved music pays from a copy of the approved stars, so that music and forwards can pay more than
  was approved (`BudgetKeptExactlyWhen`, `BudgetKeptInPlainNumbers`).
- The header of the mesh decoder promises a byte-identical round trip; it holds exactly for whole
  groups and quiet NaNs (`ByteIdenticalExactlyWhenWellFormed`). The encoder itself can write a
  file that fails it, from a text with `-nan` (`SignedNanDoesNotSurvive`). After one trip it holds
  for good (`OneTripIsEnough`).
- The packer's SHA-1 pads as the standard does exactly below 2^29 bytes, and its digest is the
  standard's there (`PackerPadIsPad`, `HashSha1`).
- After switching between block and unblock an old completion answers the newer request's
  callbacks (`StaleBlockAnswersUnblock`); each completion answers its own exactly as long as no
  call switches (`EachAnswersItsOwn`, `OwnAnswersExactlyUntilSwitch`).

The comment at line 408 of the bridge says a message is never pushed twice, and line 621 speaks of
jumping past the newest row; the model follows the code, which may also move the mark back.

## Model

| member | source | states |
|---|---|---|
| PackerSha1.HashSha1 | Telegram/SourceFiles/_other/packer.cpp:96-132 | the streaming hash over arrays returns the FIPS 180-4 digest for every buffer shorter than 2^29 bytes; beyond that, the digest of the message padded with a truncated length; the bytes behind the digest stay |
| Fips180Example.DigestOfAbc | Telegram/SourceFiles/_other/packer.cpp:60-132 | the digest of the bytes of abc is the 20 literal bytes a9993e36 4706816a ba3e2571 7850c26c 9cd0d89d, through all 80 words and rounds |
| Fips180Example.ConstantsAreRoots | Telegram/SourceFiles/_other/packer.cpp:78-82 | the constant of each round is the first 32 bits of the square root of 2, 3, 5 or 10, by rounds of twenty |
| Fips180Example.ChChooses | Telegram/SourceFiles/_other/packer.cpp:78-79 | bit by bit, Ch takes its second argument where the first is one and its third elsewhere |
| Fips180Example.MajorityAndParity | Telegram/SourceFiles/_other/packer.cpp:80-82 | bit by bit, Maj is one for two or three ones, and Parity for one or three |
| Fips180Example.RotationsAreArithmetic | Telegram/SourceFiles/_other/packer.cpp:56-58 | the rotations by 1, 5 and 30, as a product and a quotient by powers of two |
| PackerSha1.PackerPadIsPad | Telegram/SourceFiles/_other/packer.cpp:122 | padding with a single 32-bit bit length is the standard's padding exactly when the message is shorter than 2^29 bytes |
| PackerSha1.TailCompressions | Telegram/SourceFiles/_other/packer.cpp:111-123 | compressing the unfinished block, in one block or in two, equals folding over the whole padded message, for both tail cases |
| PackerSha1.HashTail | Telegram/SourceFiles/_other/packer.cpp:111-123 | the tail code brings the state from the full blocks to the fold over the padded message |
| PackerSha1.HashBlocks | Telegram/SourceFiles/_other/packer.cpp:99-109 | the block loop leaves the fold over all full blocks, and stops less than one block from the end |
| PackerSha1.OrAppendsByte | Telegram/SourceFiles/_other/packer.cpp:114-117 | OR-ing a byte into its word at its shift appends that byte to the zero-filled block |
| PackerSha1.Sha1PartHash | Telegram/SourceFiles/_other/packer.cpp:60-92 | the in-place round code computes the standard's compression of the block in the first 16 cells of the scratch array |
| PackerSha1.RunRounds | Telegram/SourceFiles/_other/packer.cpp:61-82 | the five macro loops, with the schedule written into the array they read, are the 80 rounds |
| PackerSha1.OrForms | Telegram/SourceFiles/_other/packer.cpp:78-82 | the OR forms of Ch and Maj equal the standard's XOR forms on all words |
| PackerSha1.StoreDigest | Telegram/SourceFiles/_other/packer.cpp:125-129 | the backwards store loop writes the big-endian digest and nothing else |
| Fips180.FoldBlock | Telegram/SourceFiles/_other/packer.cpp:96-132 | the specification's side of the streaming: one more 64-byte block is one more compression |
| PackerFiles.Flatten | Telegram/SourceFiles/_other/packer.cpp:211-234 | the erase-and-append loop terminates on every finite forest, fails exactly when a file met cannot be read, and otherwise leaves exactly the visible files, as a multiset and in queue order, and no directory |
| PackerFiles.QueueOrderIsForest | Telegram/SourceFiles/_other/packer.cpp:211-234 | the order in which the work list ends up is a permutation of the visible files of the forest |
| PackerOrder.FoundExactlyByWays | Telegram/SourceFiles/_other/packer.cpp:216-232 | a file is taken if and only if it is visible and at the end of a way down from what was given, each further entry of which is neither hidden nor a link |
| PackerOrder.GivesUpExactlyAtUnreadable | Telegram/SourceFiles/_other/packer.cpp:225-227 | the packer gives up if and only if a file at the end of such a way, hidden or not, cannot be read |
| PackerOrder.OrderIsLevelAfterLevel | Telegram/SourceFiles/_other/packer.cpp:214-234 | the files come level after level: those given, then those of the directories given, and so on, in listing order |
| PackerFiles.TakeOut | Telegram/SourceFiles/_other/packer.cpp:216-232 | taking out one directory or hidden file keeps the final order and the readability, and makes the measure smaller |
| BridgeLog.MessagesAfter | bridge/hermes_ws_bridge.py:313-348 | for a mapped peer exactly the user and assistant rows with content above the given id, oldest first; nothing for an unmapped one |
| BridgeLog.FreshRows | bridge/hermes_ws_bridge.py:319-348 | on an append-only log the rows come out in id order already, and they are exactly the user and assistant rows of the peer with content above the given id |
| BridgeLog.MaxIdIsMaximum | bridge/hermes_ws_bridge.py:628 | the value written back is the largest of the ids read |
| BridgePush.StepKeepsInv | bridge/hermes_ws_bridge.py:408-460 | every atomic step of the two tasks and of other writers keeps the invariant that every pushed row lies at or below its peer's mark or below what is about to be pushed |
| BridgePush.ReseededMarks | bridge/hermes_ws_bridge.py:497-500 | a session listing sets the mark of each listed peer to its newest row and leaves the other marks |
| BridgeRuns.NeverPushedTwice | bridge/hermes_ws_bridge.py:408-460 | over every run, other connections listing their sessions at any time, no row is pushed twice to one connection, provided each write of the send path covers what was pushed by then |
| BridgeRuns.WriteBackIsSafeExactlyWhenItCovers | bridge/hermes_ws_bridge.py:620-628 | in any reachable state the unguarded write is harmless in every continuation if and only if it covers: nothing was read back, or its value is at least every pushed id of the peer, or the poller is about to raise the mark again |
| BridgeRuns.SentAgain | bridge/hermes_ws_bridge.py:431-442 | when a mark lies below a row already sent, the poller alone sends that row again: a run is constructed from any such state |
| BridgeRuns.RaisingWriteCovers | bridge/hermes_ws_bridge.py:625-628 | a write that does not lower the mark always covers, which is the guard the code lacks |
| BridgeRuns.AnnouncedAtMostOnce | bridge/hermes_ws_bridge.py:443-457 | each peer gets at most one dialog.new in any run, with no condition on the send path or on other connections |
| BridgeRescan.RescanAnnouncesTheNew | bridge/hermes_ws_bridge.py:445-457 | from any state, a rescan that goes through its listing while no other handler moves a mark sends one dialog.new for each listed peer that had no mark, in listing order, and nothing else, and gives exactly these peers the mark of the listing |
| BridgeRescan.NewsAre | bridge/hermes_ws_bridge.py:449-453 | the peers announced are the listed ones without a mark, none of them twice even if listed twice |
| BridgeRescan.AnnouncedExactlyWhenSeeded | bridge/hermes_ws_bridge.py:449-457 | over every run, whatever else happens, a peer has its dialog.new if and only if a rescan has given it its mark or is about to |
| BridgeRescan.RescanEveryFifthTick | bridge/hermes_ws_bridge.py:431-444 | a rescan follows every fifth tick that went through, and no other |
| BridgeRescan.FailureEndsTick | bridge/hermes_ws_bridge.py:458-459 | a tick that fails sends nothing, moves no mark and is not counted |
| BridgeTurn.TurnStaysStreamedExactlyWhen | bridge/hermes_ws_bridge.py:614-632 | what the write is for: a row at or below the newest row read back is shown in no continuation after the write if and only if the poller did not push it before and neither holds it nor is to read from, or to seed, a mark below it |
| BridgeTurn.StepKeepsSettled | bridge/hermes_ws_bridge.py:408-460 | once a row lies below the mark and below every mark still to be used, no event of either task pushes it or undoes this |
| BridgeDelivery.DeliversExactly | bridge/hermes_ws_bridge.py:313-348 | while the listings and the send path leave the peer's mark as it is, the rows sent for the peer are exactly its visible rows above the seed and up to the mark, oldest first; writes for other peers, empty ones and ones that keep the mark are included |
| BridgeDelivery.ReadDrains | bridge/hermes_ws_bridge.py:433-442 | after the pushes of one read nothing visible is left above the mark |
| BridgeDelivery.TwoRowsOvertakeTheWrite | bridge/hermes_ws_bridge.py:620-628 | a concrete run from the start in which two rows arrive between the read and the write, so that the write does not cover |
| BridgeConnection.SynthIds.NextSynthId | bridge/hermes_ws_bridge.py:108-112 | the allocator moves to the successor inside its band |
| BridgeConnection.AllocatedClosedForm | bridge/hermes_ws_bridge.py:90-112 | the k-th id is BASE + 1 + (k - 1) mod 1147483646, always above BASE and below INT32_MAX |
| BridgeConnection.AllocatedDistinct | bridge/hermes_ws_bridge.py:90-112 | two allocations return the same id exactly when they are a multiple of the period apart |
| BridgeConnection.Connection.ListSessions | bridge/hermes_ws_bridge.py:497-503 | the loop over the listed dialogs is the reseeding step, and starts the poller once |
| BridgeConnection.Connection.Read | bridge/hermes_ws_bridge.py:434-437 | one executor read is the reading step of the machine |
| BridgeConnection.Connection.PushNext | bridge/hermes_ws_bridge.py:437-440 | one push sends the next row read and nothing else |
| BridgeConnection.Connection.RaiseMark | bridge/hermes_ws_bridge.py:441-442 | the guarded write raises the mark to the pushed id, never lowers it |
| BridgeConnection.Connection.RescanRound | bridge/hermes_ws_bridge.py:449-456 | a listed peer that has a mark is passed over, one without is announced, with its frame sent and its mark then set |
| BridgeConnection.Connection.JumpMark | bridge/hermes_ws_bridge.py:623-628 | the send path's write takes the newest id read back, whatever the mark is by then |
| BridgeConnection.NewestId | bridge/hermes_ws_bridge.py:628 | the maximum over the rows read |
| MessageData.CallbacksConserved | Telegram/SourceFiles/apiwrap.cpp:608-739 | over every run, registered callbacks are the waiting ones plus the fired ones, as multisets; none fires more often than it was registered |
| MessageData.QuietMeansAllFired | Telegram/SourceFiles/apiwrap.cpp:653-739 | once nothing is queued and no request is out, nothing waits and everything registered has fired exactly as often |
| MessageData.OwnedIsBatch | Telegram/SourceFiles/apiwrap.cpp:709-732 | a completion removes exactly the entries its own request asked for, and there are some |
| MessageData.StepKeepsInv | Telegram/SourceFiles/apiwrap.cpp:608-739 | each entry with a request id belongs to the one batch that asked for it, each entry without one has a queued resolve, and conservation holds, after every step |
| MessageBatches.ResolveAsksOncePerTable | Telegram/SourceFiles/apiwrap.cpp:653-707 | a resolve sends one request for each table with anything to ask for, for all the table has to ask for and nothing else; entries of one table that waited get the same new id, those of others different ones; no callback and no other entry is touched |
| MessageBatches.RegisteringJoins | Telegram/SourceFiles/apiwrap.cpp:608-621 | the callback joins its entry, and a resolve is queued exactly for an entry that is not asked for |
| MessageData.AskTablesStructure | Telegram/SourceFiles/apiwrap.cpp:653-707 | after the resolver visited its tables no visited entry is left without a request, and the others are as they were |
| MessageDataApi.CompletionFindsTable | Telegram/SourceFiles/apiwrap.cpp:709-715 | while a channel's request is in flight the channel's table exists, so finalizing never returns early with entries left |
| MessageDataApi.Api.RequestMessageData | Telegram/SourceFiles/apiwrap.cpp:608-621 | the nested tables gain the entry or the callback, and a resolve is queued exactly when the entry has no request |
| MessageDataApi.Api.ResolveMessageDatas | Telegram/SourceFiles/apiwrap.cpp:653-707 | the loops over the common table and the channel tables, empty ones erased, are the resolving step |
| MessageDataApi.Api.AskOne | Telegram/SourceFiles/apiwrap.cpp:683-704 | one table: collect, send, and mark what was asked for |
| MessageDataApi.Api.FinalizeMessageDataRequest | Telegram/SourceFiles/apiwrap.cpp:709-739 | the erasing loop takes out exactly the owned entries, drops an empty table, and fires exactly their callbacks |
| MessageDataApi.CollectMessageIds | Telegram/SourceFiles/apiwrap.cpp:623-634 | the ids without a request, all of them |
| MessageDataApi.MarkAsked | Telegram/SourceFiles/apiwrap.cpp:698-703 | the marking loop gives the id to exactly the entries without one |
| MessageDataApi.TakeOwned | Telegram/SourceFiles/apiwrap.cpp:716-732 | the erasing loop over one table: what stays, and all callbacks of what goes |
| DialogsLoad.RequestsHaveTheirLoad | Telegram/SourceFiles/apiwrap.cpp:883-1101 | in every reachable state, the date limit changing at any time, each load has at most one list and one pinned request out, each with its load there and its half missing; the fail handler's dereference never meets a missing load |
| DialogsLoad.AnnouncedOncePerLoad | Telegram/SourceFiles/apiwrap.cpp:1051-1068 | every load ever started is still there or was announced as done exactly once |
| DialogsLoad.AnnouncedWhenComplete | Telegram/SourceFiles/apiwrap.cpp:1051-1100 | a load is announced exactly by the event that brings the second of its two halves |
| DialogsLoad.StepKeepsCore | Telegram/SourceFiles/apiwrap.cpp:883-1101 | every event keeps the structural invariant of the loads and their requests |
| DialogsPages.EachPageFollowsTheLast | Telegram/SourceFiles/apiwrap.cpp:890-962 | over every run, each list request asks from the offset of the last slice that came for its load, with the first page size only for offset 0 in date; a slice of a reply counts for the requests that follow it at once |
| DialogsPages.FirstPageFromStart | Telegram/SourceFiles/apiwrap.cpp:900-913 | until the first slice of a list comes, it is asked for from offset (0, 0, 0) |
| DialogsPages.FailedAsksAgainFromThere | Telegram/SourceFiles/apiwrap.cpp:952-954 | a failed request moves no offset, and the next request for the list is the failed one again under a new id |
| DialogsPages.SliceReachesLimit | Telegram/SourceFiles/apiwrap.cpp:964-974 | a slice of the main list holds loading back if and only if its date is at or below the date limit, and then nothing is asked for |
| DialogsPages.NothingAskedUntilLimitMoves | Telegram/SourceFiles/apiwrap.cpp:890-898 | over every run, once held back no page of any list is asked for until the limit moves |
| DialogsPages.NextAsksAre | Telegram/SourceFiles/apiwrap.cpp:976-994 | after a reply the main list is asked for first, the archive only once the main list is done, and nothing while filter exceptions load |
| DialogsPages.FlagsAre | Telegram/SourceFiles/apiwrap.cpp:964-974 | when loading may be, and when it is, held back by date |
| DialogsLoader.Loader.SendListRequest | Telegram/SourceFiles/apiwrap.cpp:900-913 | the request carries the load's own offset and the page size that goes with it, under a new id |
| DialogsFinish.NotModifiedSticks | Telegram/SourceFiles/apiwrap.cpp:917-920 | a not-modified reply leaves the request id set with no request out, so the load is stuck |
| DialogsFinish.SticksExactlyByNotModified | Telegram/SourceFiles/apiwrap.cpp:890-962 | a load that is not stuck becomes stuck by exactly one event: a not-modified reply to its own list request |
| DialogsFinish.StuckForever | Telegram/SourceFiles/apiwrap.cpp:890-899 | no later event brings a stuck load further, over all runs |
| DialogsFinish.FinishesExactlyWhenNotStuck | Telegram/SourceFiles/apiwrap.cpp:883-1101 | a load in a reachable state has a continuation that announces it if and only if it is not stuck |
| DialogsLoader.FindOffset | Telegram/SourceFiles/apiwrap.cpp:996-1029 | the next page exists exactly when some dialog's top message has a date; the date is that of the last such dialog, the peer and id those of the last dialog with a top message |
| DialogsLoader.LastDate | Telegram/SourceFiles/apiwrap.cpp:1016-1024 | the date of the last message that matches the dialog's peer and top id |
| DialogsLoader.Loader.RequestDialogs | Telegram/SourceFiles/apiwrap.cpp:883-888 | starts a folder's load when there is none, then asks |
| DialogsLoader.Loader.RequestMoreDialogs | Telegram/SourceFiles/apiwrap.cpp:890-962 | one list request unless one is out or loading is blocked by date; the pinned half is asked for too |
| DialogsLoader.Loader.RequestPinnedDialogs | Telegram/SourceFiles/apiwrap.cpp:1070-1101 | one pinned request unless it is out or has arrived |
| DialogsLoader.Loader.RefreshDialogsLoadBlocked | Telegram/SourceFiles/apiwrap.cpp:964-974 | the two flags about blocking by date |
| DialogsLoader.Loader.SetTimeSlice | Telegram/SourceFiles/apiwrap.cpp:261-270 | changing the date limit is the machine's event of that name, at any time |
| DialogsLoader.Loader.RequestMoreBlockedByDateDialogs | Telegram/SourceFiles/apiwrap.cpp:1103-1113 | the date limit moves back by the given time from the oldest date loaded, and loading goes on |
| DialogsLoader.Loader.RequestMoreDialogsIfNeeded | Telegram/SourceFiles/apiwrap.cpp:976-994 | what is asked for after a page arrived |
| DialogsLoader.Loader.GotDialogs | Telegram/SourceFiles/apiwrap.cpp:915-952 | the done handler is the machine's step for each kind of reply |
| DialogsLoader.Loader.UpdateDialogsOffset | Telegram/SourceFiles/apiwrap.cpp:1030-1040 | a next offset is kept for the next request and frees the one that came back, none ends the list |
| DialogsLoader.Loader.DialogsFailed | Telegram/SourceFiles/apiwrap.cpp:952-954 | the fail handler frees the request of a load that is there |
| DialogsLoader.Loader.GotPinnedDialogs | Telegram/SourceFiles/apiwrap.cpp:1076-1100 | done and fail alike deliver the pinned half |
| DialogsLoader.Loader.DialogsLoadFinish | Telegram/SourceFiles/apiwrap.cpp:1051-1068 | the load goes and is announced only with both halves |
| WebPages.ResolveAsksForDuePages | Telegram/SourceFiles/apiwrap.cpp:2415-2487 | after a resolve each due page with a message has the id of a new request, of its own channel, whose list contains that message; every other entry is unchanged |
| WebPages.StepKeepsInv | Telegram/SourceFiles/apiwrap.cpp:2392-2491 | no negative id is left, a positive id is that of a request that asked for the page, and a page still to be asked for has a timer running unless the last resolve found no message for it |
| WebPages.TimerIsSoonest | Telegram/SourceFiles/apiwrap.cpp:2449-2490 | after a resolve the timer runs exactly when some entry waits for its time, and goes off with the soonest of them or after a day |
| WebPages.DelayMovesTimerEarlier | Telegram/SourceFiles/apiwrap.cpp:2392-2401 | a delayed page is pending, with a timer that goes off no later than a millisecond after the 32-bit wait, and no later than a millisecond after a timer that was still to go off |
| WebPages.MsLeftExact | Telegram/SourceFiles/apiwrap.cpp:2396-2397 | the 32-bit product of the time left and 1000 is the true one if and only if the date lies within 2147483 seconds of now |
| WebPages.DelayedInTimeExactlyWhen | Telegram/SourceFiles/apiwrap.cpp:2392-2401 | a delayed page is looked at by its own time, if and only if its date is at most 2147483 seconds past, or the wrapped product is not positive, or a running timer goes off by then and sooner than the wrapped wait; from an idle timer the wait is exact within 2147483 seconds |
| WebPages.WaitPlusOneFits | Telegram/SourceFiles/apiwrap.cpp:2397-2399 | adding the one millisecond never overflows, whatever the product wraps to |
| WebPages.OldPageWaitsFifteenDays | Telegram/SourceFiles/apiwrap.cpp:2396-2400 | a page whose date is 3,000,000 seconds past is looked at only after 1,294,967,297 milliseconds |
| WebPages.GotRemovesExactlyItsPages | Telegram/SourceFiles/apiwrap.cpp:2741-2759 | a reply removes exactly the pages of its own request, each no longer pending, and marked failed if it had a pending time |
| WebPagesReplies.FailsExactlyWhenLeftPending | Telegram/SourceFiles/apiwrap.cpp:2741-2757 | an event makes a page failed if and only if it is a reply to the page's own request that leaves the page with a pending time above 0 |
| WebPagesReplies.FailedExactlyAfterSuchReply | Telegram/SourceFiles/apiwrap.cpp:2741-2757 | over every run a page is failed if and only if it was at first or such a reply came |
| WebPagesReplies.TimesAfterReply | Telegram/SourceFiles/apiwrap.cpp:2745-2751 | exactly the pages left pending by a reply lose their pending time; every other page has the one the reply gave it, or keeps its own |
| WebPagesReplies.EntriesComeFromDelays | Telegram/SourceFiles/apiwrap.cpp:2392-2413 | which pages are pending after each event: only a delay adds one, its own and neither failed nor done |
| WebPagesReplies.AsksInEntryOrder | Telegram/SourceFiles/apiwrap.cpp:2423-2474 | a new request asks for exactly the due entries of its own table that have none, by the message of each, in the order of the entries |
| WebPagesReplies.CommonGoesFirst | Telegram/SourceFiles/apiwrap.cpp:2454-2463 | the request for messages outside channels is the first of a resolve |
| WebPagesReplies.DelaySetsTimer | Telegram/SourceFiles/apiwrap.cpp:2397-2400 | a delay moves the timer to its page's wait unless it goes off sooner already |
| WebPages.StaysUntilTaken | Telegram/SourceFiles/apiwrap.cpp:2415-2491 | over every run an asked page keeps its entry if and only if no reply of its request and no clear occurs, and is not asked for meanwhile |
| WebPages.FailedPageSticks | Telegram/SourceFiles/apiwrap.cpp:2454-2474 | requests have no fail handler: after a failure the page keeps the dead request id and is never asked for again, exactly until it is cleared |
| WebPagesStranded.UnaskedExactlyUntilTaken | Telegram/SourceFiles/apiwrap.cpp:2403-2487 | over every run a page without a request stays without one if and only if no clear occurs and no resolve finds it due with a message |
| WebPagesStranded.StrandedUntilDelay | Telegram/SourceFiles/apiwrap.cpp:2392-2491 | a due page without a message leaves no timer: while no delay of any page takes effect it stays without a request exactly until it is cleared, since only the timer resolves |
| WebPagesStranded.DelayThenAsked | Telegram/SourceFiles/apiwrap.cpp:2392-2491 | any delay that takes effect starts the timer again, and the next resolve asks for the stranded page if its message is there |
| WebPagesApi.CollectDue | Telegram/SourceFiles/apiwrap.cpp:2416-2452 | the collecting loop: lists per channel in entry order, dense channel indices, each asked entry coded with its temporary number, and the soonest time left |
| WebPagesApi.AddToChannel | Telegram/SourceFiles/apiwrap.cpp:2430-2443 | a new channel's index is the number of channels so far, so indices stay distinct and below the count |
| WebPagesApi.Api.AskCommon | Telegram/SourceFiles/apiwrap.cpp:2454-2463 | one request for the messages outside channels, if there are any |
| WebPagesApi.Api.AskChannels | Telegram/SourceFiles/apiwrap.cpp:2464-2474 | one request per channel, its id stored under the channel's index |
| WebPagesApi.Decode | Telegram/SourceFiles/apiwrap.cpp:2475-2487 | the decoding loop is in bounds and replaces exactly the negative numbers |
| WebPagesApi.DecodedIsMarked | Telegram/SourceFiles/apiwrap.cpp:2475-2487 | decoding a temporary number gives the id of the request for the entry's own table |
| WebPagesApi.Api.ResolveWebPages | Telegram/SourceFiles/apiwrap.cpp:2415-2491 | the whole resolver is the machine's step: ids, requests, counter and timer, capped at a day |
| WebPagesApi.Api.GotWebPages | Telegram/SourceFiles/apiwrap.cpp:2741-2759 | the erasing loop, with the flags it sets on the way, is the machine's step |
| WebPagesApi.Api.RequestWebPageDelayed | Telegram/SourceFiles/apiwrap.cpp:2392-2401 | an entry is added only when there is none; the timer is set when idle or when the 32-bit wait is not longer than what it has left, which an overdue timer may exceed by a millisecond |
| WebPagesApi.Api.ClearWebPageRequest | Telegram/SourceFiles/apiwrap.cpp:2403-2408 | one entry goes, and the timer with the last one |
| StickerSets.RemoveAllIsRemaining | Telegram/SourceFiles/apiwrap.cpp:1635-1715 | the sets left by the removing loop do not depend on the order of the removals, and are given set by set |
| StickerSets.OrderIsWhatSurvives | Telegram/SourceFiles/apiwrap.cpp:1730-1764 | the new order is the local order filtered to the sets that exist after the save |
| StickerSets.InstalledExactlyInOrder | Telegram/SourceFiles/apiwrap.cpp:1717-1764 | every remaining set of the saved kind that is not archived is installed if and only if it is in the order |
| StickerSets.SavedSetsHaveReason | Telegram/SourceFiles/apiwrap.cpp:1766-1778 | every remaining set is featured, installed, archived, special, emoji or locked; a set of the order stays archived only if it was archived and removed |
| StickerOutcome.SavedSetsAre | Telegram/SourceFiles/apiwrap.cpp:1634-1778 | which sets are known after a save, by their flags and the two lists alone |
| StickerOutcome.SavedSetIs | Telegram/SourceFiles/apiwrap.cpp:1634-1778 | the flags, the date and the stickers of every remaining set, by the flags it had and the two lists alone |
| StickerOutcome.UninstallAskedExactly | Telegram/SourceFiles/apiwrap.cpp:1671-1698 | a set is uninstalled on the server if and only if it is named to be removed, known, not archived and none of the cloud's |
| StickerOutcome.UninstallsAre | Telegram/SourceFiles/apiwrap.cpp:1635-1715 | the uninstall requests in their order, one for each place of the list that asks |
| StickerOutcome.InstallAskedExactly | Telegram/SourceFiles/apiwrap.cpp:1731-1757 | exactly the archived sets of the order that were not removed are installed again, each once |
| StickerOutcome.RecentStaysExactly | Telegram/SourceFiles/apiwrap.cpp:1635-1681 | a recent sticker stays if and only if no cloud list is cleared and no named set that is known has it |
| StickerSets.SavingAgainChangesNothing | Telegram/SourceFiles/apiwrap.cpp:1634-1778 | saving the same settings twice is saving them once |
| StickerSets.OtherKindUntouched | Telegram/SourceFiles/apiwrap.cpp:1717-1728 | a set of another kind that is named nowhere is left as it is |
| StickerSets.RecentForgetsRemovedSets | Telegram/SourceFiles/apiwrap.cpp:1671-1681 | no sticker of a removed set stays among the recent ones, in whatever order sets are removed |
| StickerReorder.ReorderedOnceAndLast | Telegram/SourceFiles/apiwrap.cpp:1559-1612 | over every run each save's order is sent at most once and unchanged, and the last save's order has been sent exactly when its installs and uninstalls are over and it has two sets or more |
| StickerReorder.StepSendsLatestWhenIdle | Telegram/SourceFiles/apiwrap.cpp:1602-1612 | a step sends at most one reorder request, the latest save's, with no install or uninstall of it outstanding |
| StickerReorder.StepKeepsInv | Telegram/SourceFiles/apiwrap.cpp:1559-1612 | everything in flight belongs to the latest save and is noted in the request fields, after every step |
| StickerSaving.StickerSaver.SaveStickerSets | Telegram/SourceFiles/apiwrap.cpp:1543-1816 | the method with its loops: the sets, the order, the requests for each set, and the step of the reorder machine |
| StickerSaving.StickerSaver.RemoveListed | Telegram/SourceFiles/apiwrap.cpp:1635-1715 | the removing loop, with uninstall requests and the recent stickers |
| StickerSaving.StickerSaver.PlaceAll | Telegram/SourceFiles/apiwrap.cpp:1730-1764 | the ordering loop: what is placed, and each archived set installed again once |
| StickerSaving.EraseStickers | Telegram/SourceFiles/apiwrap.cpp:1674-1681 | the erasing loop over the recent stickers keeps exactly the others, in order |
| StickerSaving.ClearInstalled | Telegram/SourceFiles/apiwrap.cpp:1717-1728 | the clearing loop touches exactly the sets of the kind that are not archived |
| StickerSaving.DropWithoutReason | Telegram/SourceFiles/apiwrap.cpp:1766-1778 | the last loop keeps exactly the sets with a reason |
| StickerSaving.LoopsGiveSaved | Telegram/SourceFiles/apiwrap.cpp:1634-1778 | the four loops one after the other give each set its fate as stated set by set |
| StickerSaving.StickerSaver.StickerSetDisenabled | Telegram/SourceFiles/apiwrap.cpp:1602-1612 | the handler of an install or uninstall is the machine's step |
| StickerSaving.StickerSaver.SaveOrder | Telegram/SourceFiles/apiwrap.cpp:1566-1600 | no request for an order of fewer than two sets |
| Forward.ForwardMessages | Telegram/SourceFiles/apiwrap.cpp:3517-3753 | saved music goes first and alone, each piece paying from a copy of the approved stars; the rest is sent in maximal runs of one source chat whose concatenation is the input, with its random ids aligned; each run pays from what is left, and all together the right sum exactly under the condition of `PaidInAllExactlyWhen` |
| Forward.RunsAreUnique | Telegram/SourceFiles/apiwrap.cpp:3614-3751 | a list splits into non-empty runs of one source with neighbours of different sources in one way only |
| Forward.PaidInAllExactlyWhen | Telegram/SourceFiles/apiwrap.cpp:3625-3632 | paying each run min(left, its 32-bit price) pays min(approved, the whole price) if and only if each run's own price fits 32 bits, or the 32-bit prices reach the approved stars and those of no end of the runs are negative together |
| Forward.PaidAtLeast | Telegram/SourceFiles/apiwrap.cpp:3625-3632 | the requests pay at least a given amount exactly when the whole of the prices and every end of them allow it |
| Forward.ThreeMessagesPayNegative | Telegram/SourceFiles/apiwrap.cpp:3625-3632 | three messages of one chat at 1,000,000,000 stars go out in one run that pays -1,294,967,296, where the approved stars should be paid |
| Forward.LeftFitsExactlyWhen | Telegram/SourceFiles/apiwrap.cpp:3628-3630 | what is left of the approved stars is never negative, and fits 32 bits exactly when no end of the prices falls too far below zero |
| Forward.BudgetKeptExactlyWhen | Telegram/SourceFiles/api/api_sending.cpp:208-229 | music and forwards together stay within the approved stars if and only if the music and all prices do, or the music and some end of the prices come to nothing |
| Forward.BudgetKeptInPlainNumbers | Telegram/SourceFiles/api/api_sending.cpp:208-229 | with prices that fit: exactly when the price of all messages is within the budget, or the price or the budget is zero, or there is no music, or the one message is music |
| Forward.PaysRightExactlyWhen | Telegram/SourceFiles/apiwrap.cpp:3625-3632 | one request pays its true price, as far as the stars go, if and only if the price fits 32 bits or what is left does not exceed the wrapped one |
| Forward.CalledOnceExactlyWhenAllSucceed | Telegram/SourceFiles/apiwrap.cpp:3678-3685 | for every number of requests and every order of completions the success callback runs exactly once when all have succeeded, and never otherwise |
| Forward.SendAccumulated | Telegram/SourceFiles/apiwrap.cpp:3619-3711 | one request: counted, paid and appended |
| Forward.AddItem | Telegram/SourceFiles/apiwrap.cpp:3715-3750 | one turn of the loop sends the run when the source changes |
| Forward.TakeMusic | Telegram/SourceFiles/apiwrap.cpp:3525-3533 | the erasing loop splits the draft into saved music and the rest, both in order; each piece of music pays min(price, approved), as nothing is taken from the budget |
| Forward.SharedCallback.RequestDone | Telegram/SourceFiles/apiwrap.cpp:3683-3685 | success counts down, and calls at zero |
| MeshBinary.Encode | Telegram/cmake/obj2binobj.py:60-69 | the written bytes are the encoding of the mesh; a count or index outside 32 bits raises |
| MeshBinary.Decode | Telegram/cmake/binobj2obj.py:31-55 | reading succeeds exactly on the files that are the encoding of a mesh, and returns that mesh; trailing or missing bytes fail |
| MeshBinary.UnpackSection | Telegram/cmake/binobj2obj.py:40-48 | a counted section is read exactly when there is one, and it is the only one the bytes can hold |
| MeshText.ParsePrintInt | Telegram/cmake/obj2binobj.py:52-54 | a printed integer is read back, negative ones too |
| MeshText.WordsAppend | Telegram/cmake/obj2binobj.py:37 | splitting on blanks finds an appended word |
| MeshText.ThreeFields | Telegram/cmake/obj2binobj.py:50 | splitting on slashes finds the three fields of a corner |
| MeshText.LinesJoined | Telegram/cmake/obj2binobj.py:36 | lines written one after the other are read back one by one |
| MeshTrip.TextTrip | Telegram/cmake/binobj2obj.py:57-80 | printing a mesh and reading the text gives the mesh back, up to incomplete groups and the spelling of NaN |
| MeshTrip.ByteIdenticalExactlyWhenWellFormed | Telegram/cmake/binobj2obj.py:13-20 | the claimed byte-identical round trip holds exactly when the counts are whole groups and every NaN is the quiet one |
| MeshTrip.OneTripIsEnough | Telegram/cmake/binobj2obj.py:13-20 | whatever file is decoded and baked again, the result survives every later trip unchanged |
| MeshTools.ConvertedTextSurvivesExactlyWhenCanonical | Telegram/cmake/obj2binobj.py:30-69 | whatever text was converted, the resulting file survives decoding and baking again byte for byte if and only if none of its floats is an odd NaN |
| MeshTools.SignedNanDoesNotSurvive | Telegram/cmake/obj2binobj.py:41-46 | the line `v -nan 0 0` converts, and its file does not survive |
| MeshTools.ObjToBin | Telegram/cmake/obj2binobj.py:25-71 | the whole converter: every line, then the encoding |
| MeshTools.BinToObj | Telegram/cmake/binobj2obj.py:26-82 | the whole converter: fails exactly on what is not an encoding, otherwise prints the mesh |
| MeshTools.RoundTrip | Telegram/cmake/binobj2obj.py:13-20 | the two converters composed return the input bytes if and only if the file is a well-formed encoding |
| MeshTools.FanCorners | Telegram/cmake/obj2binobj.py:56-58 | triangle j of the fan of a face is its corner 0 with the corners j + 1 and j + 2, in this order, for each j; what was read before stays in front |
| MeshFaces.FaceLineAddsFan | Telegram/cmake/obj2binobj.py:47-58 | a face line is accepted exactly when each of its corners is, and appends for each j the corners 0, j + 1 and j + 2 of its face, and nothing else to any list |
| MeshFaces.QuadIsTwoTriangles | Telegram/cmake/obj2binobj.py:57-58 | a face of four corners becomes the triangles 0 1 2 and 0 2 3 |
| MeshFaces.CornerIsItsFields | Telegram/cmake/obj2binobj.py:48-53 | whatever its fields, a corner is read exactly when each is empty or an integer, with index -1 for an empty or missing one and one less than the integer for the others |
| MeshFaces.ShortOrBadWords | Telegram/cmake/obj2binobj.py:41-46 | a line of numbers is read exactly when it has enough words and the ones it needs are numbers |
| MeshFaces.NumbersAreAppended | Telegram/cmake/obj2binobj.py:41-46 | its numbers go to the end of its own list, in order, and nothing else changes |
| MeshFaces.OtherLinesAddNothing | Telegram/cmake/obj2binobj.py:38-40 | any other line, comments and blank ones too, adds nothing |
| MeshFaces.TextChangesOnlyNan | Telegram/cmake/binobj2obj.py:57-80 | a float comes back from text with every bit unless it is a NaN, which comes back as the quiet one |
| MeshTools.ReadFace | Telegram/cmake/obj2binobj.py:47-55 | missing fields become -1, the others are one less than printed |
| ApiHash.UpdateIsBijection | Telegram/SourceFiles/api/api_hash.h:40-45 | for every value the update of the 64-bit state is a bijection: an explicit inverse undoes it both ways |
| ApiHash.UpdateInjective | Telegram/SourceFiles/api/api_hash.h:40-45 | equal results mean equal states for one value, and equal values for one state |
| ApiHash.Undoes4 | Telegram/SourceFiles/api/api_hash.h:43 | the last xor-shift is undone by four shakes, both ways |
| ApiHash.OneChangeShows | Telegram/SourceFiles/api/api_hash.h:63-70 | two lists that differ in one place have the same hash only if they do not differ there |
| ApiHash.EqualHashesAgree | Telegram/SourceFiles/api/api_hash.h:63-70 | the same by position, for lists of one length that agree everywhere but in one place: equal hashes if and only if equal lists |
| ApiHash.ListUpdateIsBijection | Telegram/SourceFiles/api/api_hash.h:63-70 | a whole list's update is a bijection of the state |
| ApiHash.HashUpdate | Telegram/SourceFiles/api/api_hash.h:40-45 | the three xor-shifts and the addition, step by step |
| ApiHash.ShiftsArePowers | Telegram/SourceFiles/api/api_hash.h:40-45 | the three shifts divide by 2^21, multiply by 2^35 and divide by 2^4, on 64 bits |
| ApiHash.HashOfOneBit | Telegram/SourceFiles/api/api_hash.h:40-70 | the hash of the list 2097152, 0 is 0x110000880220001 |
| ApiHash.CountHash | Telegram/SourceFiles/api/api_hash.h:63-70 | the loop is the fold from zero |
| ApiHashOrders.CountStickersOrderHash | Telegram/SourceFiles/api/api_hash.cpp:38-61 | 0 exactly when an outdated default set is found and asked about, otherwise the hash over the hashes of the known, non-default, non-special, non-archived sets in order |
| ApiHashOrders.OneIdHash | Telegram/SourceFiles/api/api_hash.cpp:46-60 | a single id has its set's own hash if the set is known, not the default one, not special and not archived, and 0 otherwise |
| ApiHashOrders.ForcedExactly | Telegram/SourceFiles/api/api_hash.cpp:46-60 | a default set forces 0 exactly when it is asked about |
| ApiHashOrders.IgnoredIdInserted | Telegram/SourceFiles/api/api_hash.cpp:46-57 | inserting an id that is unknown, or special or archived and not the default set, anywhere leaves the hash as it was |
| ApiHashOrders.IgnoredIdMoved | Telegram/SourceFiles/api/api_hash.cpp:46-57 | moving such an id leaves it too |
| ApiHashOrders.ChangedLiveHashShows | Telegram/SourceFiles/api/api_hash.cpp:46-60 | a new hash of one live set changes the result if and only if it differs, for every order that holds the set once and is not forced to 0 |
| Shell.QueueInEveryRun | Telegram/Resources/bot_webview_shell_html/page.js:117-143 | in every run: at most 64 queued events, all of the current generation, none while the frame is loaded; an attached frame has its window; at most one reload timer armed, and it is the noted one |
| Shell.DeliveryInEveryRun | Telegram/Resources/bot_webview_shell_html/page.js:117-198 | each frame got events posted in its own generation, in order and at most once; an event of the current generation is lost only with 64 newer ones posted |
| Shell.StepKeepsInv | Telegram/Resources/bot_webview_shell_html/page.js:845-967 | every input keeps these, and the queue is exactly the last 64 events since the frame was unloaded |
| Shell.LoadedPostNeedsWindow | Telegram/Resources/bot_webview_shell_html/page.js:129-143 | what the window test of the sending condition is good for: were the window of a loaded frame gone, a post would break the invariant, and with it a post never does |
| Shell.WindowlessPostIsOvertaken | Telegram/Resources/bot_webview_shell_html/page.js:129-143 | such a post would be delivered after the next one, in every state with a loaded frame; no run reaches one, since an attached frame has its window |
| Shell.FlushDelivers | Telegram/Resources/bot_webview_shell_html/page.js:191-198 | flushing delivers the whole queue in order after what was delivered before |
| ShellReload.ReloadAsksOrReplaces | Telegram/Resources/bot_webview_shell_html/page.js:951-967 | a loaded frame that can reload itself is asked once and stays, with one timer armed in place of any other; any other frame is replaced; without a frame nothing happens |
| ShellReload.SilentFrameIsReplaced | Telegram/Resources/bot_webview_shell_html/page.js:947-967 | over every run in which the asked frame keeps silent and no other reload begins, the timer stays armed, and its going off puts a new frame in |
| ShellReload.OwnReloadKeepsFrame | Telegram/Resources/bot_webview_shell_html/page.js:848-855 | a frame that announces its own reload stays, no timer will replace it, and its events wait |
| ShellReload.TimerReplacesFrame | Telegram/Resources/bot_webview_shell_html/page.js:918-963 | the frame the timer puts in is of the next generation, not loaded, with an empty queue and no timer |
| ShellReload.PostSendsOrQueues | Telegram/Resources/bot_webview_shell_html/page.js:129-143 | an event goes to a loaded frame at once, and otherwise to the end of the queue |
| ShellReload.LoadSendsAllThatWaits | Telegram/Resources/bot_webview_shell_html/page.js:929-936 | the load of the current frame, and of no other, sends all that waits, in order, once |
| ShellPage.Window.PostToFrame | Telegram/Resources/bot_webview_shell_html/page.js:129-143 | queues, dropping from the front beyond 64, or sends |
| ShellPage.Window.SendToFrame | Telegram/Resources/bot_webview_shell_html/page.js:117-127 | sends only to the attached frame of the event's generation |
| ShellPage.Window.FlushPendingEvents | Telegram/Resources/bot_webview_shell_html/page.js:191-198 | the loop over the taken queue |
| ShellPage.Window.CreateIframe | Telegram/Resources/bot_webview_shell_html/page.js:918-945 | a new generation with an empty queue and no timer |
| ShellPage.Window.OnLoad | Telegram/Resources/bot_webview_shell_html/page.js:929-936 | only the current frame's load counts |
| ShellPage.Window.OnWillReload | Telegram/Resources/bot_webview_shell_html/page.js:848-855 | the timer is cleared and the frame counts as unloaded |
| ShellPage.Window.ReloadFrame | Telegram/Resources/bot_webview_shell_html/page.js:951-967 | asks the frame and arms one timer, or creates a new frame |
| ShellPage.Window.OnTimer | Telegram/Resources/bot_webview_shell_html/page.js:960-963 | the fallback when the frame did not reload itself |
| BlockedPeers.QuietMeansAllAnswered | Telegram/SourceFiles/api/api_blocked_peers.cpp:75-187 | over every run, once nothing is in flight no entry is stored and every accepted callback was called exactly as often as it was accepted |
| BlockedPeers.StepKeepsInv | Telegram/SourceFiles/api/api_blocked_peers.cpp:75-187 | after every step accepted callbacks are the waiting ones plus the called ones, a stored entry's own request is in flight, and the total is at least the length of the list, announced slices included |
| BlockedPeers.SuccessMeansUnblocked | Telegram/SourceFiles/api/api_blocked_peers.cpp:131-151 | only a done unblock answers with success, and then the peer is not blocked |
| BlockedPeers.CompletionAnswersStoredEntry | Telegram/SourceFiles/api/api_blocked_peers.cpp:87-107 | a completion takes and answers whatever entry its peer has by then |
| BlockedPeers.OverlapsExactlyOnSwitch | Telegram/SourceFiles/api/api_blocked_peers.cpp:168-187 | requests for one peer begin to overlap if and only if a call switches between blocking and unblocking while one is stored |
| BlockedPeers.AloneAnswersItsOwn | Telegram/SourceFiles/api/api_blocked_peers.cpp:84-160 | while nothing overlaps a completion answers exactly the callbacks that waited for it |
| BlockedPeers.EachAnswersItsOwn | Telegram/SourceFiles/api/api_blocked_peers.cpp:75-187 | over every run without switches between blocking and unblocking, each completion answers exactly the callbacks that joined its own request, in order, with its own outcome |
| BlockedAnswers.OwnAnswersExactlyWithoutOverlap | Telegram/SourceFiles/api/api_blocked_peers.cpp:75-187 | from any reachable state, every completion after every continuation without a switch answers exactly the callbacks that joined its own request, if and only if no requests overlap |
| BlockedAnswers.OwnAnswersExactlyUntilSwitch | Telegram/SourceFiles/api/api_blocked_peers.cpp:75-187 | after a call every later completion answers its own callbacks, if and only if the call did not switch, in either direction |
| BlockedAnswers.RunKeepsSilent | Telegram/SourceFiles/api/api_blocked_peers.cpp:75-114 | over every run nobody waits for a block |
| BlockedPeers.StaleBlockAnswersUnblock | Telegram/SourceFiles/api/api_blocked_peers.cpp:87-107 | after a switch the old block's completion tells the unblock's callback of failure, and the unblock's own success tells nobody |
| BlockedList.CompletionChangesList | Telegram/SourceFiles/api/api_blocked_peers.cpp:87-158 | a done block puts the peer in front of the list, blocked and counted; a done unblock takes its first item out, everything else in place, and counts it off as far as there is one; a failure changes neither |
| BlockedList.CallSendsItsKind | Telegram/SourceFiles/api/api_blocked_peers.cpp:75-187 | a call sends one request of its own kind for its own peer exactly when it goes through and none of its kind is stored, and touches no other entry |
| BlockedList.LoadingReplacesList | Telegram/SourceFiles/api/api_blocked_peers.cpp:24-50 | a loaded list replaces the one shown, with the larger of count and length, and is announced exactly when it differs |
| BlockedPeersApi.Api.Block | Telegram/SourceFiles/api/api_blocked_peers.cpp:75-114 | nothing for a blocked peer, otherwise at most one request of this kind |
| BlockedPeersApi.Api.Unblock | Telegram/SourceFiles/api/api_blocked_peers.cpp:116-166 | the callback joins the request sent, or a new one |
| BlockedPeersApi.Api.BlockAlreadySent | Telegram/SourceFiles/api/api_blocked_peers.cpp:168-187 | a request of the other kind is given up and its callbacks answered with failure |
| BlockedPeersApi.Api.BlockDone | Telegram/SourceFiles/api/api_blocked_peers.cpp:87-101 | the peer goes to the front of the list |
| BlockedPeersApi.Api.RequestFailed | Telegram/SourceFiles/api/api_blocked_peers.cpp:102-108 | a failed request answers the stored callbacks with failure and leaves the list |
| BlockedPeersApi.Api.GotSlice | Telegram/SourceFiles/api/api_blocked_peers.cpp:24-50 | the loaded total is at least the length of the list, and a slice is announced only when it differs |
| BlockedPeersApi.Api.UnblockDone | Telegram/SourceFiles/api/api_blocked_peers.cpp:131-151 | the peer's first item goes, and the total never falls below the length |
| BlockedPeers.BlockThenUnblockRestores | Telegram/SourceFiles/api/api_blocked_peers.cpp:87-146 | adding a peer and removing it again gives back the list and the total |
| BlockedPeersApi.EraseAt | Telegram/SourceFiles/api/api_blocked_peers.cpp:135-141 | erasing at the first match is removing the first item of the peer, and nothing when there is none |
| BlockedPeersApi.ErasePeer | Telegram/SourceFiles/api/api_blocked_peers.cpp:135-141 | only the first item of the peer is erased |

## Left out

- PackerSha1.HashSha1: stated for lengths below 2^32 - 64 only, because from there on the source's 32-bit sum `block + 64` wraps and its loop does not end.
- PackerFiles.Flatten: the forest is a finite tree; a link given on the command line is taken as what it names, and files that change while the packer runs are not modelled.
- BridgeLog.MessagesAfter: the text, the sender and the date of the returned messages are not modelled, only id, peer, role and whether there is content.
- BridgeRuns.NeverPushedTwice: peer ids of listed sessions are taken as distinct; colliding hashes of session ids are not modelled, and a send that raises ends the tick or the connection.
- BridgeDelivery.DeliversExactly: the text and date of a pushed message are not part of a row, only its id, peer, role and whether it has content.
- MessageDataApi.Api.FinalizeMessageDataRequest: the callbacks of one batch are given as a multiset; their order among themselves is not stated.
- MessageData.StepKeepsInv: callbacks that register new requests while they run are separate events after the completion.
- DialogsLoader.Loader.RequestMoreDialogsIfNeeded: asking for contacts and preloading shortcuts are not modelled.
- DialogsLoader.Loader.GotPinnedDialogs: applying the received pinned dialogs is not modelled.
- DialogsLoader.Loader.GotDialogs: applying the received dialogs, users and chats to the session's data is not modelled.
- WebPagesApi.Api.GotWebPages: what the reply does to pages in general is an arbitrary map of new pending times; pages delayed again while it is applied are events before it.
- WebPagesApi.Api.ResolveWebPages: entries are visited in the order they were added, where the source goes by address; requests are numbered when sent, and their short delay is not modelled.
- StickerSaving.StickerSaver.SaveStickerSets: models one kind of sets at a time; saves of other kinds share only the sets and the clear-recent requests. What is written to local storage and which updates are notified is not modelled.
- StickerSaving.StickerSaver.RemoveListed: which parts of local storage are marked for writing is not modelled.
- Forward.ForwardMessages: the local message shown for a single forward, the flags and the reply target of the request are not modelled; what is left of the approved stars is not wrapped where it exceeds 32 bits, which is undefined in the source (`LeftFitsExactlyWhen` says when it does not).
- WebPages.MsLeftExact: signed overflow, which the language leaves undefined, is taken to wrap.
- Forward.CalledOnceExactlyWhenAllSucceed: requests complete only after all are sent, as the sender is asynchronous.
- MeshTrip.ByteIdenticalExactlyWhenWellFormed: `%.9g` and `float` are a pair of functions under the hypothesis that nine digits round-trip a 32-bit float up to the spelling of NaN and that a printed float is one word; `BitCodecIsCodec` shows the hypothesis can be met. A parsed float too large for 32 bits counts as unparsable.
- MeshText.WordsAppend: blanks are the ASCII ones that Python splits on, digits the ASCII ones.
- ApiHash.HashUpdate: written with named operators for xor, shift and sum on 64-bit words, so that the solver does not expand them.
- ApiHashOrders.ChangedLiveHashShows: for orders that hold the set once; an order with the same set twice may keep its hash by chance.
- Shell.DeliveryInEveryRun: event data is a string, and viewport scheduling only posts events; frames are named by their generation.
- ShellPage.Window.OnLoad: the viewport event scheduled after the flush is an ordinary later post.
- BlockedPeersApi.Api.Block: the update notification of the early return for a blocked peer is not modelled.
- BlockedPeersApi.Api.Unblock: the update notification of the early return is not modelled.
- BlockedPeers.StepKeepsInv: callbacks that call block or unblock while they run are separate calls after it; the offset and paging of the list request are not modelled.
- `CountFeaturedHash` and `CountDocumentVectorHash` are the same fold over other lists and would add only easy members.
- `buttonRippleForBackground`: colour arithmetic on bytes, a finite matter.
- RSA, LZMA and OpenSSL in the packer, SQL, JSON, the network, TL serialization and all user interface code: outside of what is modelled; replies are arbitrary inputs.
- Albums, text splitting and the internals of histories are not part of this model.
