# LAN file synchroniser: model and proofs

Peers on a LAN exchange tables of their files, decide which files to fetch, cut each file into blocks of 1 MiB,
download the blocks from several owners at once, write them at their offsets and compare a hash. This project models
that program in Dafny and proves what it keeps, what it delivers, and exactly where it does not.

The files, from the bottom up:

- `Basics`, `TextOrder`, `Decimal`: integers of fixed width, the order in which a `std::map` keyed by strings is walked,
  and decimal text as `operator<<`, `stoi` and `sscanf("%lu")` treat it.
- `BlockRange`, `ContentRange`, `Packet`, `PacketClass`, `Messages`, `ResourceCodec`, `Framing`: everything that travels
  as bytes. `Messages` runs a request or reply through the real packet codec and the real range text; the protocol
  below only sees what comes out of that. `WireFormat` states the formats byte by byte.
- `FileStore`, `SyncDecision`: byte files behind short reads and writes, and which announced files are wanted.
- `Scheduler`: what each operation of `Task`, `TaskManager` and `TaskCoordinator` does to the whole state, as functions.
  `Coordinator` holds the mutable classes with their loops and the callback from the manager into the coordinator, and
  proves that they compute those functions. `LogicCore` does the same for the message handlers, over `Transfer`.
- `Partition`, `Operations`, `Requests`, `Records`, `Clock`, `Rotation`, `Failover`, `Completion`: invariants and
  behaviour over any sequence of operations.
- `IndexRules`: what a node makes of an index, told from its files and the peer's table alone.
- `Accounts`, `Protocol`, `Delivery`, `EndToEnd`, `Finishing`: one node and its environment as a step system. A step is an
  index that arrives, a timer tick, a peer that answers some request, a reply that arrives, or a message that is lost. The
  network is a bag: any message in it may be next.
- `Witnesses`, `Stall`, `Names`: runs from the empty state that end where a promise of the code ends, and the exact
  conditions around them.
- `NetAddr`, `Sessions`, `SessionClass`: the connection registry keyed by rendered addresses, and the session table.

Text is a sequence of bytes, as in `std::string`. Calls whose outcome the program does not choose are parameters: the
elapsed time of a tick, the set of peers whose write throws, whether a connect succeeds, how many bytes each `read` or
`write` moved, whether a file could be opened, and the hash function.

## Main results

- End to end (`EndToEnd.EndToEnd`): if all owners of a uri hold the same bytes, names can travel (no `:` or NUL, short
  enough for the 16-bit header length) and each save is one full write, then over every run every finished block holds
  the owners' bytes, every file that was verified equals the owners' file, and verification never fails.
- Finishing (`Finishing`): over the same runs a file is done exactly when the replies of all its blocks were taken. When
  nothing is lost and sizes are 1..INT_MAX, the network runs dry exactly when every announced file is done, whatever the
  order of the messages and even across time-outs, and that takes exactly two steps a block.
- Slot accounting (`Protocol.SlotAccounting`, `Names.SlotAccountingExactly`): over every run without a failed verification,
  with announcements of any sizes, the slot counter is the number of requests issued minus the number of replies matched,
  stays in 0..5 and covers every block in flight, for exactly the sets of names none of which is read as another.
- Packets, tables, ranges and frames are read back unchanged exactly under stated conditions.
- Completion in exactly ceil(N / 5) rounds and at most one request per block. Over every run from the empty state a block
  is given up no sooner than 300000 ms after the step that requested it and no later than a bound (`Clock`).
- A peer with a session is heard: each packet it sends reaches the core logic, once and in order, until its connection is
  lost or the server stops (`Sessions.KnownPeerIsHeard`).

## What is false of the code, and exactly when it holds

- `saveTo` does not advance within its data. It stores every buffer correctly exactly when one write moves everything
  (`FileStore.SaveToExact`); beyond 2 MiB it is never right (`FileStore.LongSavesAreWrong`).
- A range survives its text exactly when it is not empty and both ends fit an `int` (`BlockRange.RangeRoundTrip`). The
  comment in `src/constants/proto_constants.h:14-17` gives `0-` the meaning "to the end of the file"; the code throws on it.
- A name is read up to its first NUL and then up to its first `:` (`Names.NameReadExact`); a message survives the wire
  exactly when, besides, its uri is not empty and has neither (`Messages.HeardExact`). A request for `a:b` is answered as
  one for `a`, and the reply marks a block of `a`: over the names of a run slot accounting holds exactly when none is read
  as another one of them, with a run of six steps that breaks it otherwise (`Names.AmbiguousRun`). A name that begins with
  NUL loses its header and one that begins with `:` is read as the empty name; neither marks anything.
- Packet lengths stay exact unless a header whose value is empty is set again (`Packet.AddHeaderSized`); headers come
  back unchanged exactly when no key or value has a `:` or NUL and no value is empty (`Packet.PacketRoundTrip`).
- The 32-bit planning loop covers a file exactly when it has fewer than 2^32 - 1 whole blocks (`Partition.PlanCountExact`);
  otherwise the last byte is in no block (`Partition.PlanTruncated`).
- One read callback on less than 4 GiB drains its buffer exactly when at most 1025 frames are waiting
  (`Framing.CallbackDrains`); the 1026th frame of one arrival stays behind until more bytes come (`Framing.LastFrameIsStranded`).
- Failover visits each owner once in a turn exactly when the owners are pairwise different (`Rotation.FullTurnsExactly`),
  and reaches every owner from every owner exactly when the first repeated owner is the first of the list and no new owner
  stands behind it (`Rotation.FailoverReachesExactly`). The list a, b, a, c is announced in four steps and c is then never
  reached (`Failover.DuplicateOwnerTraps`). In no case is a failed block requested again (`Failover.FailedTaskWalks`).
- `fail` gives back slots that `success` already gave back. Without replies under way, nothing is ever requested again
  exactly when the 8-bit counter, less one for each entry of the failed list, lands at five or above
  (`Stall.FailSilencesExactly`), and then no index, tick or message changes that (`Stall.StalledForever`). One announced
  one-byte file with a wrong hash is enough (`Stall.StallIsReached`).
- A session talks over the connection registered for its peer exactly as long as no second connection from that peer is
  accepted (`Sessions.OwnedExactly`), and over a client connection exactly as long as no HELLO or packet comes from a
  listening address (`Sessions.ClientsExactly`), such as the server's own (`Sessions.OwnHelloMisconnects`).

## Model

| member | source | states |
|---|---|---|
| EndToEnd.EndToEnd | src/logic/logic_core.cc:40-149 | Over every interleaving, reordering and loss: Success blocks hold the owners' bytes, verified files equal the owners' files in content and length, the fail branch is never taken, no complete list is left lying, and files nobody announced keep their bytes |
| EndToEnd.AskedOnce | src/task/task.cc:159-165 | Under the same assumptions each block of each file is requested at most once and its reply matched at most once |
| EndToEnd.DoneIsNotAskedAgain | src/logic/logic_core.cc:94-103 | After a file is verified no truthful index makes the node want it again |
| EndToEnd.PeerIndexIsTruthful | src/logic/logic_core.cc:27-38 | The index of a peer whose files are current arrives unchanged, packet and table, and satisfies what the end-to-end theorem asks of an index |
| EndToEnd.NextDelivers | src/logic/logic_core.cc:94-149 | Every step keeps the delivery invariant: the ledger, one request per block, right bytes, honest messages |
| Finishing.DoneExactlyWhenTaken | src/logic/logic_core.cc:120-147 | Over every truthful run, with any losses and time-outs: a file is done exactly when as many of its replies were taken as it has blocks |
| Finishing.DryExactlyWhenDone | src/logic/logic_core.cc:94-149 | When nothing is lost the network is empty exactly when every announced file is done: no deadlock under any order of messages, ticks and announcements |
| Finishing.DoneInExactlySteps | src/logic/logic_core.cc:40-149 | Until the next index all files are done exactly when as many answers and arrivals found their message as were still to come, and never more do |
| Finishing.AnnouncedToDo | src/task/task_coordinator.cc:58-96 | A new file adds two such steps for each of its blocks |
| Finishing.TakenExactly | src/task/task.cc:216-224 | A block is Success exactly when its reply was taken |
| EndToEnd.OwedBlockInside | src/task/task_coordinator.cc:78-92 | A message under way is about a block inside its file |
| Delivery.AllBlocksAreTheFile | src/logic/logic_core.cc:125-134 | When isSuccess holds, the local file equals the owners' file and validRes succeeds |
| Delivery.SettleStore | src/logic/logic_core.cc:125-146 | Judging a file after a block either verifies it or leaves it unfinished, never fails it, and keeps the file invariants |
| Delivery.SaveKeepsRight | src/logic/logic_core.cc:120-124 | Saving an honest reply makes its block right and leaves every other right block right |
| Delivery.NeededIsFetchable | src/resource_manager.cc:81-125 | What the sync decision wants is not finished and never longer locally than at the peer, so writing blocks without truncation suffices |
| Delivery.AddResourceDelivers | src/task/task_coordinator.cc:7-96 | A truthful announcement keeps the ledger, the single request per block and the right bytes |
| Delivery.TickSingle | src/task/task.cc:147-176 | A tick never requests a block that was requested before |
| Delivery.ReplyDelivers | src/logic/logic_core.cc:105-148 | A matched reply finds its block, and file and scheduler stay consistent through save, mark, verdict and clean-up |
| Protocol.SlotAccounting | src/task/task.cc:147-240 | Over runs without a failed verification, announcing names none of which is read as another: counter = requests written - replies matched, within 0..5, at least the number of slots in flight or given up, and at least the number of messages under way |
| Names.SlotAccountingExactly | src/proto/lan_share_protocol.cc:57-61 | The same accounting holds over all runs announcing a set of names exactly when no name of the set is read as another one |
| Names.AmbiguousRun | src/logic/logic_core.cc:105-124 | For any two names, one read as the other, a run of two indexes, two answers and two arrivals after which fewer slots are counted than blocks are in flight |
| Names.NameReadExact | src/proto/lan_share_protocol.cc:55-61 | What the other side reads of a name: nothing, the empty name, a prefix, or the name |
| Protocol.NextLedger | src/task/task.cc:147-225 | Every step keeps the ledger balanced |
| Protocol.OneAnswer | src/logic/logic_core.cc:40-92 | A request for a block draws at most one reply, for the identical range, under the name as read, carrying the bytes of that range |
| Accounts.SucceedBooks | src/task/task.cc:209-225 | Matching a reply that was under way never underflows the counter and keeps the ledger balanced |
| Accounts.AddResourceBooks | src/task/task_coordinator.cc:7-96 | Announcing, replacing and joining files, of any names and sizes, keeps the ledger balanced |
| Accounts.TickBooks | src/task/task.cc:147-176 | A tick keeps the ledger balanced at every visit, so at most five slots are taken |
| Partition.PlanTiles | src/task/task_coordinator.cc:70-93 | Every byte of a file lies in exactly one planned block |
| Partition.PlanCountExact | src/task/task_coordinator.cc:78-86 | The 32-bit loop plans every block exactly for files under 2^32 - 1 whole blocks |
| Partition.PlanTruncated | src/task/task_coordinator.cc:78-86 | Otherwise the last byte is in no planned block |
| Partition.PlanBlockFacts | src/task/task_coordinator.cc:83-87 | A planned block lies in the file, is at most 1 MiB, is not empty unless the file is, and its position is its index |
| Partition.ReAssignIsLocal | src/task/task_coordinator.cc:120-142 | The failover callback rewrites exactly the slot it was called for, and only its owner |
| Partition.VisitIsLocal | src/task/task.cc:153-174 | One visit of the tick loop changes its own slot, at most one counter unit and one request, and the shape of no list |
| Operations.ReachableListsTile | src/task/task_coordinator.cc:7-96 | In every state reachable by announcements, ticks, successes, failures and cancellations each list tiles its file and asks known owners only |
| Operations.RunOpsKeeps | src/task/task.cc:105-240 | Every operation keeps every list equal to its plan |
| Operations.AllSlotsOnce | src/task/task.cc:149-155 | The nested tick loops visit every slot exactly once |
| Operations.TickAt | src/task/task.cc:147-176 | After a tick each slot is as one visit leaves it, at a counter value between the old and the new one |
| Operations.TickIsWorkConserving | src/task/task.cc:159-165 | A tick leaves a block waiting only when the limit is reached |
| Operations.TickKeeps | src/task/task.cc:147-176 | A tick changes the shape of no list although the callback adds to the lists being walked |
| Operations.AddPlanShape | src/task/task_coordinator.cc:69-93 | Planning over an existing list changes only owners of unfinished blocks; over none it builds the plan |
| Operations.ReplanShape | src/task/task_coordinator.cc:58-96 | assignTask before its tick, slot by slot: finished blocks stay, others move to their round-robin owner, statuses return |
| Operations.MarkSuccessOnce | src/task/task.cc:216-224 | A success marks at most one block of a planned list and gives back at most one slot |
| Coordinator.TaskManager.constructor | src/task/task.cc:97-99 | Starts empty |
| Coordinator.TaskManager.AddTask | src/task/task.cc:105-129 | A new list, a new entry, or an existing unfinished entry whose uri, block and owner alone are replaced (assignment, lines 7-13); finished entries stay |
| Coordinator.TaskManager.CancelTask | src/task/task.cc:131-140 | Removes one list and nothing else |
| Coordinator.TaskManager.ReplaceStatusByStatus | src/task/task.cc:188-207 | Changes exactly the statuses asked for |
| Coordinator.TaskManager.Success | src/task/task.cc:209-225 | Marks matching blocks and decrements the 8-bit counter once for each |
| Coordinator.TaskManager.Fail | src/task/task.cc:227-240 | Fails a whole list and decrements the counter for every entry |
| Coordinator.TaskManager.IsSuccess | src/task/task.cc:242-255 | True exactly when the list exists and every entry is Success |
| Coordinator.TaskManager.Visit | src/task/task.cc:155-173 | One visit, with the re-entrant call of addTask on the manager being walked |
| Coordinator.TaskManager.TickList | src/task/task.cc:151-174 | One list of a tick |
| Coordinator.TaskManager.Tick | src/task/task.cc:147-176 | The tick loops with the callback compute the slot-by-slot specification and keep the partition |
| Coordinator.TaskCoordinator.Tick | src/task/task_coordinator.cc:102-106 | Ticks the manager with itself as callback |
| Coordinator.TaskCoordinator.ReAssignTask | src/task/task_coordinator.cc:120-142 | Moves a block to the owner after its present one, cyclically |
| Coordinator.TaskCoordinator.AddBlocks | src/task/task_coordinator.cc:76-93 | The block loop with its 32-bit and 16-bit counters adds the plan, owners dealt round robin |
| Coordinator.TaskCoordinator.PlanBlocks | src/task/task_coordinator.cc:58-94 | Stops waiting blocks, plans over the list, makes them wait again |
| Coordinator.TaskCoordinator.AssignTask | src/task/task_coordinator.cc:58-96 | Plans and ticks; does nothing without owners |
| Coordinator.TaskCoordinator.AddResource | src/task/task_coordinator.cc:7-56 | New file, newer version, additional owner, or out-of-date announcement; keeps the partition |
| Records.NewVersionRecord | src/task/task_coordinator.cc:10-39 | An unknown file or newer version: the table holds exactly what was announced, hash included, and the new list asks its announcer alone |
| Records.AnnouncedRecord | src/task/task_coordinator.cc:7-56 | The table after any announcement: a known version gains an owner and keeps its hash, an older one changes nothing, no other record changes |
| Records.AnnouncedElsewhere | src/task/task_coordinator.cc:7-106 | Blocks of other files see one tick of zero ms, or nothing |
| Records.FailedList | src/task/task.cc:227-240 | After fail each block of the list is Failed with block, owner and timers kept, other lists are untouched, and the file is not complete |
| Records.TickAsksOwners | src/task/task.cc:159-165 | Each request a tick writes is for a waiting block, goes to the owner in charge of it, and failed exactly when that owner is gone |
| Records.TickInOrder | src/task/task.cc:149-165 | Free slots go to waiting blocks in uri order and then block order |
| Requests.RequestedOnce | src/task/task.cc:105-240 | Whatever is announced: within the lifetime of its list a block is requested at most once while it waited, and never again after that, not after a time-out, a failed write or a joining owner |
| Requests.StepAsks | src/task/task_coordinator.cc:7-142 | No single operation writes more requests for a block than were left to write, unless it ends the list |
| Requests.CreatedAsks | src/task/task_coordinator.cc:7-96 | The announcement that makes a list writes at most one request for each of its blocks |
| Failover.FailedTaskRotates | src/task/task_coordinator.cc:120-142 | After k ticks a failed block is at owner (j + k) mod n, otherwise unchanged, and was not requested |
| Failover.FailedTaskWalks | src/task/task_coordinator.cc:120-142 | For any list of owners: a failed block takes one step of the walk over its owners at each tick, changes in nothing else, and is not requested |
| Failover.FailoverVisits | src/task/task_coordinator.cc:120-142 | After k ticks it is at a given owner exactly when the walk is |
| Failover.FailoverReaches | src/task/task_coordinator.cc:120-142 | Some number of ticks brings it to an owner exactly when the walk reaches that owner |
| Rotation.FullTurnsExactly | src/task/task_coordinator.cc:120-142 | For every list of n owners: n steps from any owner visit each exactly once and return exactly when the owners are pairwise different |
| Rotation.FailoverReachesExactly | src/framework/dep/resource.cc:50-53 | For every list of owners: each is reached from each exactly when the first repeated owner is the first one and no new owner stands behind it |
| Failover.DuplicateOwnerTraps | src/framework/dep/resource.cc:50-53 | Four announcements make the owners a, b, a, c with a failed block, and no number of ticks ever brings it to c |
| Clock.NoEarlyTimeout | src/task/task.cc:45-59 | Over runs from the empty state, however time is cut into ticks: from the operation that requests a block it stays in flight or finished for under 300000 ms of ticks |
| Clock.TimeoutHappens | src/task/task.cc:45-59 | With ticks of at most d ms it is finished or given up once 5 * (60000 + d) ms were ticked |
| Clock.TimeoutExactly | src/task/task.cc:45-59 | With ticks every d ms it is given up at exactly the tick that ends its fifth minute, minutes rounded up to whole ticks |
| Clock.RetryClock | src/task/task.cc:45-59 | 60000 * retries + passed time never exceeds the ticked time |
| Clock.RetryClockLag | src/task/task.cc:45-59 | Nor does it fall behind by more than one tick per retry |
| Clock.ReachableSettled | src/task/task.h:35-36 | In every reachable state a waiting block has retry and passed time zero and no list is stopped |
| Clock.StepStarts | src/task/task.cc:147-176 | Whatever the operation, a block it asks for starts its clock at zero, or has failed for a write that threw |
| Failover.OwnerJoinKeepsProgress | src/task/task_coordinator.cc:40-96 | A joining owner leaves finished blocks and the partition alone, and block i goes to owner i mod min(n, 2^16), n counting the new owner; failed blocks move one on |
| Failover.TickUnsent | src/task/task.cc:156-174 | A tick writes no request for a block that is not waiting |
| Stall.FailSilencesExactly | src/task/task.cc:227-240 | For lists of every length: without replies no request is ever written again after fail exactly when (counter - length) mod 256 is at least five |
| Stall.SilentExactly | src/task/task.cc:159-165 | For every reachable partition: without replies nothing is ever requested exactly when the counter is at its limit or above |
| Stall.StalledForever | src/logic/logic_core.cc:94-149 | With the counter there and nothing under way, no index, tick or message of any later run writes a request |
| Stall.MismatchStallsEverything | src/logic/logic_core.cc:130-147 | A hash mismatch that lands the counter there with nothing under way stalls the node |
| Stall.StallIsReached | src/logic/logic_core.cc:105-147 | From the empty state: one one-byte file announced with a wrong hash, answered and received, leaves the counter at 255 and the node stalled for every continuation |
| Completion.CompletionBound | src/task/task.cc:147-225 | From N waiting blocks and no taken slot, all lists are complete after k answered rounds exactly when k >= ceil(N / 5) |
| Completion.RoundProgress | src/task/task.cc:147-225 | A round of one tick and the successes of all blocks in flight, in any order, finishes min(5, N) blocks and frees every slot |
| Completion.TickFromRest | src/task/task.cc:147-176 | A tick with no slot taken starts exactly min(5, N) blocks |
| Completion.RepliesExist | src/task/task.cc:209-225 | The blocks in flight can always be listed, so answered rounds exist |
| Transfer.ServeTiles | src/logic/logic_core.cc:51-92 | A non-empty range is answered by exactly ceil(length / 1 MiB) replies in order, each of 1 byte to 1 MiB, tiling the range up to the first batch that starts at 2^63 or beyond; their payloads concatenate to that slice of the file |
| Transfer.ServeEmptyOrReversed | src/logic/logic_core.cc:51-72 | An empty range draws one empty reply from a file that can be opened there, a reversed one draws nothing |
| IndexRules.IndexWants | src/resource_manager.cc:98-124 | An entry is acted on exactly when it is the table's last for a non-empty uri and the local file is absent, shorter, or as long with another hash |
| IndexRules.IndexRecords | src/logic/logic_core.cc:94-103 | After an index the record of every uri is what one announcement of its wanted entry makes of it, and unchanged when there is none |
| IndexRules.IndexAsksFirstUriFirst | src/logic/logic_core.cc:101-102 | The first request an index draws from an idle node is for the first wanted uri |
| LogicCore.Core.RecvIdx | src/logic/logic_core.cc:94-103 | Announces every wanted entry, in uri order |
| LogicCore.Core.ReadDataThenReplyRs | src/logic/logic_core.cc:75-92 | One reply with the bytes of the block, or none when the file cannot be read |
| LogicCore.Core.Batches | src/logic/logic_core.cc:59-72 | The batch loop emits the tiling replies |
| LogicCore.Core.ReqRs | src/logic/logic_core.cc:40-73 | Missing headers, unparsable range, small range, batched range |
| LogicCore.Core.BlockDone | src/logic/logic_core.cc:122-147 | Mark, judge a complete list by its hash, clean up or fail, tick; the unknown-resource branch is dead |
| LogicCore.Core.RecvRs | src/logic/logic_core.cc:105-149 | A reply saved in full becomes exactly the specified new node state, from as many payload bytes as its range has; any other leaves it unchanged |
| FileStore.Files.SaveTo | src/framework/impl/persist/persist_framework_egine_filesystem.cc:81-111 | What the write loop leaves in the file for any sizes of the individual writes; the data restarts at each write |
| FileStore.Files.WriteAll | src/framework/impl/persist/persist_framework_egine_filesystem.cc:88-110 | The loop itself; it reports all bytes as written |
| FileStore.Files.Read | src/framework/impl/persist/persist_framework_egine_filesystem.cc:27-79 | The bytes of the range, zeros past the end, however short the individual reads |
| FileStore.SaveToExact | src/framework/impl/persist/persist_framework_egine_filesystem.cc:93-106 | All buffers of a length are stored correctly exactly when one write moved all bytes |
| FileStore.LongSavesAreWrong | src/framework/impl/persist/persist_framework_egine_filesystem.cc:91-106 | Beyond 2 MiB no sequence of writes stores every buffer correctly |
| FileStore.FullWriteAllowed | src/framework/impl/persist/persist_framework_egine_filesystem.cc:91-106 | One write can move a whole buffer exactly when it has at most 2 MiB |
| FileStore.FullWriteIsRight | src/framework/impl/persist/persist_framework_egine_filesystem.cc:93-106 | One full write leaves exactly the data at the offset |
| SyncDecision.NeedToSyncLoop | src/resource_manager.cc:81-125 | The loops, default insertions and erasures compute the wanted entries in uri order |
| SyncDecision.FilterOne | src/resource_manager.cc:99-118 | One local entry removes exactly the uri it makes pointless |
| SyncDecision.NeedToSyncExact | src/resource_manager.cc:81-125 | An entry is wanted exactly when it is the peer's last for a non-empty uri and every local entry of that uri is smaller, or as large with another hash |
| SyncDecision.NeedToSyncOrdered | src/resource_manager.cc:120-124 | Results come in strict uri order |
| SyncDecision.AsksExactly | src/resource_manager.cc:101-114 | Which of two holders of a uri asks |
| SyncDecision.ExactlyOneAsks | src/resource_manager.cc:103-114 | At different sizes exactly one side asks |
| SyncDecision.SettledAfterCopy | src/resource_manager.cc:109-112 | With equal size and hash neither asks |
| BlockRange.RangeRoundTrip | src/framework/dep/block_range.cc:40-86 | Parsing the text gives the range back exactly when it is not empty and both ends fit an int, and throws otherwise |
| Decimal.PrintDigits | src/framework/dep/block_range.cc:76-86 | Numbers print in decimal, most significant digit first, without leading zeros |
| Decimal.ScanForm | src/framework/dep/block_range.cc:40-45 | `stoi` and `%lu` read a sign and digits and ignore what follows; `Decimal.ScanBlank`: leading blanks are skipped |
| Decimal.ScanLuExact | src/proto/lan_share_protocol.cc:234-250 | `%lu` saturates from 2^64 on, and a minus sign negates modulo 2^64 |
| BlockRange.ParseOtherTexts | src/framework/dep/block_range.cc:40-45 | A number alone reads as an empty range, and a negative end wraps to 64 bits |
| BlockRange.PosOfBitPos | src/framework/dep/block_range.cc:15-28 | The position of the i-th block start is i |
| ContentRange.ContentRangeRoundTrip | src/proto/lan_share_protocol.cc:234-282 | Parsing inverts printing for all values, even where start + size wraps |
| Packet.PacketRoundTrip | src/proto/lan_share_protocol.cc:32-116 | A written packet, with anything behind it, is read back with its lengths, type and payload, and equal exactly when its headers are clean |
| Packet.HeadersSurvive | src/proto/lan_share_protocol.cc:48-63 | Headers come back exactly when no key or value has ':' or NUL and no value is empty |
| Packet.BuiltSized | src/proto/lan_share_protocol.cc:118-133 | Over every sequence of edits that fits, with non-empty values: header length = 8 + sum of key + value + 2, total = header + payload |
| Packet.AddHeaderSized | src/proto/lan_share_protocol.cc:118-133 | The lengths stay exact exactly when no empty value is set again, and are never too small |
| Packet.WithPayloadSized | src/proto/lan_share_protocol.cc:184-200 | Setting a payload, once or again, keeps the lengths exact; an empty one changes nothing |
| Packet.HeaderLengthsWrap | src/proto/lan_share_protocol.cc:118-133 | Whatever is set, the lengths are kept modulo 2^16 and 2^32, and what a header adds to the total is itself cut to 16 bits |
| Packet.PayloadLengthWraps | src/proto/lan_share_protocol.cc:184-200 | A payload counts from the header length when it replaces one, else from the total, modulo 2^32 |
| Packet.BuiltContents | src/proto/lan_share_protocol.cc:118-200 | After any sequence of edits a packet holds the last value set for every key, no other key, and the last data set |
| PacketClass.LanSyncPkt.constructor | src/proto/lan_share_protocol.h:55-56 | A new packet is eight bytes long |
| PacketClass.LanSyncPkt.AddXheader | src/proto/lan_share_protocol.cc:118-133 | Replaces a header and both lengths, 16 and 32 bits wide |
| PacketClass.LanSyncPkt.SetPayload | src/proto/lan_share_protocol.cc:184-200 | Replaces the payload and the total length |
| PacketClass.LanSyncPkt.WriteTo | src/proto/lan_share_protocol.cc:85-116 | Fills a zeroed buffer of exactly the total length with header, strings and payload |
| PacketClass.LanSyncPkt.WriteHeaders | src/proto/lan_share_protocol.cc:96-107 | The string loop stays inside the header and leaves zeros behind short strings |
| PacketClass.LanSyncPkt.ParseHeaders | src/proto/lan_share_protocol.cc:45-64 | The string loop of the parser |
| PacketClass.LanSyncPkt.Parse | src/proto/lan_share_protocol.cc:32-77 | The parsing constructor on a buffer that begins with a frame |
| PacketClass.LanSyncPkt.Equals | src/proto/lan_share_protocol.cc:149-172 | The comparison is equality of packets, for built and parsed ones |
| Messages.HeardExact | src/task/task.cc:19-43 | What the other side, choosing its handler by the packet type, reads of every request and reply that fits, and exactly which it reads as they were sent (replies: src/logic/logic_core.cc:83-91) |
| Messages.HeardOrLost | src/logic/logic_core.cc:40-51 | A message of any name that fits arrives under the name as read, all else as sent, or not at all |
| WireFormat.HeaderLayout | src/proto/lan_share_protocol.cc:91-113 | The first eight bytes: version, type, both lengths most significant byte first; the payload stands behind the header |
| WireFormat.HeaderStrings | src/proto/lan_share_protocol.cc:96-107 | Between them the entries in key order |
| WireFormat.MessageBytes | src/task/task.cc:19-43 | Every byte of a request (type 5) and a reply (type 6; src/logic/logic_core.cc:83-91): "range:start-end", "uri:name", data |
| WireFormat.ParsedFields | src/proto/lan_share_protocol.cc:32-77 | What the parser takes from any buffer: each field from its bytes, or a packet without anything when the total is below eight |
| WireFormat.StringRead | src/proto/lan_share_protocol.cc:55-61 | Any header string: nothing without a value, else the text before its first ':' and the text from there to the next |
| WireFormat.RecordLayout | src/resource_manager.cc:195-223 | Every byte of a table record: two flag bits per length, lengths of 1, 2 or 4 bytes and the size in 8, least significant byte first, then name, uri, path, hash |
| WireFormat.AddressText | src/framework/dep/net_addr.cc:30-45 | The key of an address: scheme, four octets, port |
| WireFormat.ContentRangeText | src/proto/lan_share_protocol.cc:271-282 | start-end/total/last or more; `WireFormat.ContentRangeExample` is the documented example |
| ResourceCodec.TableRoundTrip | src/resource_manager.cc:165-317 | A table survives exactly when it has no more records than the loop limit, 2^32 - 1, and no string of 2^32 bytes or more |
| ResourceCodec.TableReads | src/resource_manager.cc:249-317 | A table of short strings is read back up to the loop limit |
| ResourceCodec.CutTable | src/resource_manager.cc:249-317 | A table cut behind a record reads as the records up to there; cut inside one, the loop leaves the buffer |
| WireFormat.LengthRead | src/resource_manager.cc:227-247 | A length by its flag: one byte, two, or four for both other flags |
| ResourceCodec.RecordRoundTrip | src/resource_manager.cc:195-223 | One record is read back, with what follows it, exactly when its strings are short |
| ResourceCodec.SetFlag | src/resource_manager.cc:165-188 | Flag and width of a length |
| ResourceCodec.SerializeOne | src/resource_manager.cc:197-222 | Flag byte, four lengths, size, four strings |
| ResourceCodec.SerializeTable | src/resource_manager.cc:189-225 | The records one after the other |
| ResourceCodec.ReadSize | src/resource_manager.cc:227-247 | A length of the flagged width |
| ResourceCodec.ReadRecord | src/resource_manager.cc:258-313 | One turn of the loop: the position and the read offset advance alike |
| ResourceCodec.Deserialize | src/resource_manager.cc:249-317 | The loop reads records until the end of the buffer or the loop limit, position and read offset equal at each head, and ends exactly at the buffer size unless the limit stopped it |
| Framing.ChunkingConsistent | src/framework/impl/net/recv_base_event.cc:55-103 | However bytes are cut into arrivals: delivered frames plus buffer = bytes received, and deliveries are a prefix of the frames those bytes spell |
| Framing.ChunkingIndependent | src/framework/impl/net/recv_base_event.cc:55-103 | Two chunkings of the same bytes, with no complete frame left over, delivered the same |
| Framing.StreamDelivered | src/framework/impl/net/recv_base_event.cc:55-103 | Deliveries are a prefix of the frames sent; complete exactly when the buffer is empty |
| Framing.CallbackDrains | src/framework/impl/net/recv_base_event.cc:69-100 | A callback on less than 4 GiB leaves no complete frame exactly when at most 1025 were waiting |
| Framing.LastFrameIsStranded | src/framework/impl/net/recv_base_event.cc:69-100 | Of 1026 frames in one arrival the last stays in the buffer |
| Framing.PacketsDelivered | src/framework/impl/net/recv_base_event.cc:85-95 | Packets sent one after the other and cut anyhow: each frame delivered parses to the packet sent in its place |
| Framing.PacketIsFrame | src/logic/logic_core.cc:153-164 | Every written packet is a frame by the length rule |
| Framing.FrontFrameStays | src/logic/logic_core.cc:153-164 | A frame recognised at the front stays recognised whatever follows |
| Framing.SeenIsFront | src/framework/impl/net/recv_base_event.cc:75-82 | With the buffer length cut to 32 bits a frame seen is still the one at the front, and below 4 GiB every one is seen |
| Framing.Conn.ReadCb | src/framework/impl/net/recv_base_event.cc:55-103 | The loop with its reused buffer delivers the first 1025 frames it sees and keeps the rest, for buffers of any length |
| Framing.Conn.Receive | src/framework/impl/net/recv_base_event.cc:55-103 | An arrival and its callback |
| NetAddr.StrInjective | src/framework/dep/net_addr.cc:30-45 | Two addresses share a registry key exactly when they agree on address, port and being TCP |
| Sessions.RegistryFaithful | src/framework/impl/net/net_framework_engine_base_event.cc:119-258 | The string-keyed registry answers every lookup as one keyed by address, port and transport, after any run |
| Sessions.ServerInvariant | src/proto_server.cc:18-92 | In every reachable state all sessions are established, registered for TCP, and no two share address and port |
| Sessions.OwnedExactly | src/framework/impl/net/net_framework_engine_base_event.cc:215-218 | Sessions go on owning their registered connection objects at exactly the events that register none for a peer with a session |
| Sessions.OwnedThroughout | src/proto_server.cc:18-92 | Over runs without such an event every session's TcpCli is the one registered for its peer |
| Sessions.ClientsExactly | src/framework/impl/net/net_framework_engine_base_event.cc:125-132 | Sessions stay on client connections at exactly the events that do not come from a registered address of another kind |
| Sessions.OwnHelloMisconnects | src/proto_session.cc:99-121 | A HELLO from the server's own address makes a session over its listening socket and acknowledges to it |
| Sessions.HelloAnsweredOnce | src/proto_server.cc:23-45 | A HELLO is acknowledged exactly once, for a new reachable peer; any other HELLO changes nothing |
| Sessions.OnlyHelloIsAcked | src/proto_session.cc:95-122 | One HELLO_ACK for each session made by a HELLO, none for anything else |
| Sessions.LostConnectionEndsSession | src/framework/impl/net/net_framework_engine_base_event.cc:244-259 | A lost TCP connection leaves no session and no connection for that address, and ends no other session |
| Sessions.RmSessionLeavesNone | src/proto_server.cc:80-92 | Removing the first session of a peer leaves none of it and all others |
| Sessions.PacketReachesCore | src/proto_server.cc:46-65 | In every reachable state a packet that is neither HELLO nor EXIT reaches the core logic exactly when its sender has a session or a registered TCP connection, and all else it changes |
| Sessions.KnownPeerIsHeard | src/proto_server.cc:52-64 | Once a peer has a session its packets reach the core logic, each once and in order, until its connection is lost or the loop stops |
| Sessions.ExitStopsEverything | src/proto_server.cc:46-50 | EXIT stops the loop and changes nothing else, and nothing is handled afterwards |
| Sessions.RegistryAfter | src/framework/impl/net/net_framework_engine_base_event.cc:119-259 | What every event makes of every registry entry |
| SessionClass.Engine.AddConn | src/framework/impl/net/net_framework_engine_base_event.cc:215-218 | Registers under the rendered address |
| SessionClass.Engine.FindTcpCli | src/framework/impl/net/net_framework_engine_base_event.cc:225-237 | The registered connection, or null |
| SessionClass.Engine.ConnectWithTcp | src/framework/impl/net/net_framework_engine_base_event.cc:119-168 | Reuses whatever endpoint is registered, of whatever kind, else connects and registers a client, else null |
| SessionClass.ProtoSession.Recv | src/proto_session.cc:27-54 | An established session drops HELLO and passes everything else on; its other branches are dead |
| SessionClass.ProtoSession.Bind | src/proto_session.cc:71-93 | Established over the connection the peer opened, if there is one |
| SessionClass.ProtoSession.Call | src/proto_session.cc:95-122 | Established over a connection to the announced port, one HELLO_ACK; or nothing |
| SessionClass.ProtoServer.FindSession | src/proto_server.cc:3-11 | Index of the first session of that peer |
| SessionClass.ProtoServer.RmSessionIfExist | src/proto_server.cc:80-92 | Removes the first session of that peer |
| SessionClass.ProtoServer.UnRegister | src/framework/impl/net/net_framework_engine_base_event.cc:244-259 | Ends the session of a TCP address, then forgets the connection |
| SessionClass.ProtoServer.RecvHello | src/proto_server.cc:23-45 | What a HELLO does to sessions, registry and acknowledgements |
| SessionClass.ProtoServer.OwnsExactly | src/proto_session.cc:22-25 | Owning a connection in the session table is holding the registered object |
| SessionClass.ProtoServer.NewConn | src/framework/impl/net/net_framework_engine_base_event.cc:215-218 | A new connection object, over any its key had |
| SessionClass.ProtoServer.RecvPacket | src/proto_server.cc:46-65 | What any other packet does; EXIT ends the event loop |

## Left out

- EndToEnd.EndToEnd: one version per uri, and saves that are one full write; files replaced by a newer version midway, owners with partial copies and split writes are outside it, since reply matching and `saveTo` do not support them. Lost and reordered messages, losses of connections and files of any other size are inside.
- Protocol.SlotAccounting: runs in which a verification failed, because `fail` breaks the count (see `Stall`), and names too long for a header, for which the original writes past its buffer.
- LogicCore.Core.RecvRs: a payload shorter than its range, past which the original reads.
- LogicCore.Core.ReqRs: a range that does not parse raises an exception that nothing catches in the original; the model ends the handler there.
- PacketClass.LanSyncPkt.Parse: malformed packets, on which the original reads outside its buffer, have no result; version and type of a packet shorter than its header are undefined there and 0 here.
- FileStore.Files.SaveTo: `write` returning -1, after which the original asks to write more bytes than its buffer holds.
- FileStore.Files.Read: `read` returning -1, which moves the original's position in front of its buffer, or 0 before the end of the file, on which it never ends; the read monitors.
- Coordinator.TaskCoordinator.AddBlocks: block offsets are not wrapped at 2^64; files that large do not exist.
- LogicCore.Core.BlockDone: `validRes` consults a cached table of local files that is never pruned; the model looks at the files.
- Sessions.ServerInvariant: one server; with several, `rmSessionCallBack` stops at the first server that had the session.
- `helloAck`, which asks for the index with a constant packet and stops a timer, and the dispatch of HELLO_ACK and GET_TABLE_INDEX: the model starts from an index that arrives; the index sent in return is `EndToEnd.PeerIndexIsTruthful`.
- Directory walking, path mapping and directory creation: local files are a map from uri to bytes.
- Hashing: any function of the contents.
- libevent, sockets, interface discovery, UDP sending, triggers and timers, configuration, logging: foreign calls and plumbing.
- `NetAddr::operator<`, session ids, `compareChar` and the body of `handleDisconnect`, whose call is proved unreachable.
