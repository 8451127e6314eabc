# Solana trade-event streaming: verified model

This project models the parts of the TypeScript SDK in which order, matching or state decide the
result, and proves what those parts promise. Each part is a pure specification (a state and its
steps, or a function), the loops and classes of the source proved to compute it, and lemmas about it
over every input, every run or every tree of calls.

- **Wire transactions** (`WireFormat`, `WireTransactions`, `WireAccounts`, `WireRoundTrip`, `WireLayout`,
  `WireDecoder`): the cursor-based decoder for legacy, V0 and V1 transactions. The repository has no encoder; the model
  adds a canonical one and proves that the decoder accepts exactly its outputs. The compact-u16
  lengths follow the "Compact-array format" section of the Solana transaction documentation.
- **Order dispatcher** (`OrderSpec`, `OrderLemmas`, `OrderProofs`, `OrderedMode`, `StreamingMode`,
  `OrderReleases`, `OrderDispatcher`): the reordering buffer with its four modes. The clock is an input of every step,
  so a timeout flush may fall between any two pushes.
- **Instruction merge** (`InstructionMerge`, `InstructionMergeProofs`, `InstructionMerger`,
  `CallForests`, `CallTree`, `EventCpis`, `StaleFrames`, `MergedFields`, `MergeJoins`): events of one transaction are sorted and folded
  into the frames that emitted them. The stack search, and which event-CPI a frame takes, are compared
  with the tree of calls itself.
- **Program stacks in logs** (`LogLines`, `LogStacks`, `LogReadings`, `LogChains`, `LogMessages`,
  `LogEntries`, `LogShifts`, `LogSelfCalls`, `LogWriters`, `LogAttribution`): the logs of all trees of program calls, with
  any messages that the programs print, and the two loops that rebuild the stack of active programs. **Top-level log alignment** (`LogOuterIndices`).
- **Log/instruction deduplication** (`EventPairing`, `EventPairer`, `PairedFields`, `CreateReorder`,
  `ReorderPlaces`, `PreferPlaces`, `DedupeProofs`, `LogInstrDedup`): pairing by occurrence number, creates before trades, current swaps for old ones.
- **Route analysis** (`MintPropagation`, `MintOrders`, `RouteInvocations`, `RouteAmounts`,
  `TokenInstructions`): inferred mints, the invocations inside an invocation, and the exact amounts a swap moved.
- **Replay window** (`Fingerprints`, `ReplaySpec`, `ReplayProofs`, `ReplayMemory`, `ReplayWindow`): which
  updates a reconnected subscription parses again, and from which slot it resumes.
- **Event queue** (`QueueSpec`, `QueueProofs`, `QueueChanges`, `EventQueue`): the bounded ring with waiting readers.
- **Mint and pool index** (`TradeIndexSpec`, `TradeIndexProofs`, `TradeIndexHistory`, `TradeIndex`),
  **same-transaction enrichment** (`EnrichSpec`, `EnrichProofs`, `EnrichFields`, `Enrichment`) and **snapshot refresh** (`Snapshots`).

Some promises do not hold on all inputs; the model keeps the code and states when they do:

- StreamingOrdered emits in increasing order except around slot 0: while the current slot is 0, older
  slots are not flushed (the guard `currentSlot > 0`). `StreamingMode.SlotZeroIsOvertaken` is a
  concrete run; `StreamingMode.EmissionsExactly` says when the order holds, over every run.
- In Ordered mode a push of a later slot lets all earlier slots out, except, by the same guard, from slot 0:
  `OrderReleases.LeftBehindExactly` says when something of an earlier slot stays buffered, over every run.
- The active program of a log line is right only while no message is taken for an invoke: a program may
  print "x invoke [1]", and since the parser looks for its markers anywhere in a line, both loops believe
  it. `LogMessages.MessageIsTakenForInvoke` and `LogMessages.CreateIsMissed` are concrete logs.
  `LogChains.StackIsChainExactly` says when the whole stack is right. A single data line can be right
  though the stack was wrong before: `LogWriters.EveryWriterIsACall` says when, over every log and with
  programs that call themselves; `LogWriters.DataLineExactly` says it in terms of the lines that the
  writer and its callees have printed, where no message misled the loops before the writer began.
- The mints inferred from transfers depend on the order of the transfers where two mints meet:
  `MintOrders.OrderMattersExactly` says when they do not.
- An event-CPI whose caller was not recorded can find the frame of an earlier call:
  `StaleFrames.StaleFrameIsFound` is an example, `StaleFrames.FoundIsCallersExactly` says when it does not.
- The fingerprint of an account hashes its data and the digits of its lamports with nothing in between, so
  two contents of one version can share it: `ReplayProofs.BothAreParsed` is a concrete run without replay.
  `ReplayProofs.ConflictIsRefused` says exactly which are told apart; data of one size always are.
- The accounts of the trading example are exactly the pinned ones, the tracked mints and their pools
  only while no address is both a mint and a pool. `TradeIndexProofs.SharedAddressIsLost` is a
  concrete run; `TradeIndexProofs.AccountsExactExactly` says when they stay exact, over every run.
- Applying snapshots can succeed in one order of arrival and fail in another: `Snapshots.OrderDecides` is
  an example, `Snapshots.AppliesExactly` says when one order fails, `Snapshots.NeverFailsExactly` when
  none does.

`dafny verify dfyconfig.toml` checks the whole project.

## Model

| member | source | states |
|---|---|---|
| `WireFormat.ShortIsCanonical` | src/wire_transaction.ts:70-82 | compact-u16 accepts exactly one encoding of every value below 65536, whatever follows, and nothing else |
| `WireFormat.BlobIsCanonical` | src/wire_transaction.ts:155-156 | a length-prefixed byte string is read from exactly its canonical encoding |
| `WireFormat.ManyIsCanonical` | src/wire_transaction.ts:141-161 | reading n items in a row inverts writing them, for every lawful item codec |
| `WireTransactions.LegacyIsCanonical` | src/wire_transaction.ts:138-178 | the legacy/V0 parser reads a message exactly from its encoding, version prefix, lookups and signature count included |
| `WireTransactions.PutGetV1` | src/wire_transaction.ts:101-137 | whatever the V1 parser accepts is the encoding of its result |
| `WireTransactions.GetPutV1` | src/wire_transaction.ts:101-137 | every well-shaped V1 transaction is read back from its encoding, with any suffix |
| `WireTransactions.PutGetConfig` | src/wire_transaction.ts:107-125 | whatever config the parser accepts under a valid mask, that mask and those bytes are what the encoder writes for it |
| `WireRoundTrip.PutIsEncode` | src/wire_transaction.ts:84-226 | the encoder only prepends: encoding before a suffix is the encoding followed by the suffix |
| `WireRoundTrip.GetIsCanonical` | src/wire_transaction.ts:101-204 | parsing and the later checks succeed exactly on encodings of valid transactions |
| `WireRoundTrip.DecodeExactly` | src/wire_transaction.ts:84-226 | the decoder returns a transaction and a length if and only if the transaction is valid and its encoding stands at the offset with that length, ending the input if completeness is required |
| `WireRoundTrip.DecodeUndoesEncode` | src/wire_transaction.ts:84-226 | a valid transaction decodes back to itself after any prefix and, unless completeness is required, before any suffix |
| `WireRoundTrip.EncodeUndoesDecode` | src/wire_transaction.ts:84-226 | an accepted byte range is the encoding of its result over exactly the reported length |
| `WireRoundTrip.EncodingsArePrefixFree` | src/wire_transaction.ts:84-226 | no valid transaction's bytes begin another's |
| `WireDecoder.Reader.Take` | src/wire_transaction.ts:50-57 | the cursor moves over exactly the bytes returned, or the input is refused as truncated |
| `WireDecoder.Reader.Uint` | src/wire_transaction.ts:58-69 | the loop reads a little-endian number of any width |
| `WireDecoder.Reader.Short` | src/wire_transaction.ts:70-82 | the three-byte loop computes the canonical compact-u16 reader, errors included |
| `WireDecoder.Reader.V1` | src/wire_transaction.ts:101-137 | the V1 branch reads exactly what the V1 specification reads |
| `WireDecoder.Reader.Legacy` | src/wire_transaction.ts:138-178 | the legacy/V0 branch reads exactly what its specification reads |
| `WireDecoder.Checks` | src/wire_transaction.ts:179-203 | the checks accept exactly the acceptable transactions: the header divides the keys, every lookup loads something, the resolved list has at most 256 accounts and every index of every instruction names one, and what V1 asks; otherwise the first failing check is reported |
| `WireDecoder.Decode` | src/wire_transaction.ts:84-226 | the entry point; an accepted result is valid and acceptable, and the bytes it covers are its encoding |
| `WireDecoder.DecodeFailsExactly` | src/wire_transaction.ts:84-226 | decoding fails if and only if no valid transaction is encoded at the offset |
| `WireAccounts.CountIsResolved` | src/wire_transaction.ts:179-203 | the number of accounts checked is the length of the list a message resolves to: its keys, then every loaded writable, then every loaded readonly address |
| `WireAccounts.CheckExactly` | src/wire_transaction.ts:179-203 | each check fails exactly if its demand is not met and all before it are; none fails exactly if the transaction is acceptable |
| `WireAccounts.MaskExactly` | src/wire_transaction.ts:107-125 | a config mask is valid exactly if it is that of some settings |
| `WireAccounts.HeapExactly` | src/wire_transaction.ts:107-125 | a heap size is valid exactly if it is 32 to 256 whole KiB |
| `WireLayout.LegacyLayout` | src/wire_transaction.ts:138-178 | the encoding of a legacy or V0 transaction, written out flat: signatures, version byte, header, keys, blockhash, instructions, lookups |
| `WireLayout.V1Layout` | src/wire_transaction.ts:101-137 | the encoding of a V1 transaction, written out flat |
| `WireLayout.NextByteCounts` | src/wire_transaction.ts:58-69 | numbers are little-endian: each further byte counts 256 times the one before |
| `OrderSpec.Sort` | src/grpc/order_buffer.ts:211-213 | sorting by slot, index and arrival number is an ordered permutation |
| `OrderProofs.StepIsSound` | src/grpc/order_buffer.ts:51-205 | in every mode every step keeps each pushed batch in exactly one place: emitted, buffered or dropped |
| `OrderProofs.RunIsSound` | src/grpc/order_buffer.ts:51-205 | over every run emitted, buffered and dropped batches together are exactly the multiset pushed |
| `OrderProofs.FlushAllEmpties` | src/grpc/order_buffer.ts:90-93 | a full flush leaves nothing buffered or pending, and nothing is lost |
| `OrderProofs.UnorderedRun` | src/grpc/order_buffer.ts:62-64 | Unordered mode emits what is pushed, in the same order |
| `OrderProofs.MicroBatchConserves` | src/grpc/order_buffer.ts:150-157 | over every run MicroBatch mode drops nothing: all that was pushed is emitted or in the window |
| `OrderReleases.MicroPushExactly` | src/grpc/order_buffer.ts:150-157 | a push joins the window, and ends it exactly if it has been open long enough: then all of it goes out in order |
| `OrderReleases.MicroTimerExactly` | src/grpc/order_buffer.ts:77-88 | a timer call ends the window exactly if there is one and it has been open long enough |
| `OrderReleases.WindowIsTimed` | src/grpc/order_buffer.ts:150-157 | over every run the time of an open window is that of the push that opened it |
| `OrderedMode.OrderedStep` | src/grpc/order_buffer.ts:95-111 | one push or flush keeps: emissions below the watermark, buffered batches beyond it |
| `OrderedMode.OrderedEmissions` | src/grpc/order_buffer.ts:95-205 | over every run emissions, followed by what is buffered, ascend in (slot, index) with ties in arrival order; the late counter is the number rejected |
| `OrderedMode.OrderedRejectsLate` | src/grpc/order_buffer.ts:96-105 | a transaction is rejected exactly when a later slot was pushed or something at or after its place was emitted |
| `OrderReleases.LaterPushReleases` | src/grpc/order_buffer.ts:95-111 | an accepted push of a later slot, the current one not being 0, emits all that was buffered, in order, and leaves only the new batch |
| `OrderReleases.OtherPushHolds` | src/grpc/order_buffer.ts:95-111 | any other accepted push emits nothing and buffers the new batch |
| `OrderReleases.LeftBehindExactly` | src/grpc/order_buffer.ts:90-111 | over every run something buffered is of an earlier slot than the highest pushed if and only if batches of slot 0 were buffered at the first accepted push beyond slot 0, and since then there was no full flush, no due timer and no accepted push of a later slot |
| `OrderReleases.EarlierSlotsAreOut` | src/grpc/order_buffer.ts:77-111 | over every run with slots of at least 1 all that is buffered is of the highest slot pushed, and every accepted batch of an earlier slot has been emitted |
| `OrderReleases.ClockIsLastFlush` | src/grpc/order_buffer.ts:77-111 | over every run the clock a timer is measured by is the time of the last operation that flushed, else of the start |
| `OrderReleases.TimerExactly` | src/grpc/order_buffer.ts:77-88 | over every run a timer call lets everything out exactly if more than the timeout has passed since then, and otherwise changes nothing |
| `StreamingMode.StreamingStep` | src/grpc/order_buffer.ts:113-194 | one step keeps: buffered batches duplicate-free, equal to the pending set and strictly above the watermark; and it keeps the order exactly unless a batch of slot 0 is overtaken |
| `StreamingMode.StreamingRun` | src/grpc/order_buffer.ts:113-194 | that invariant holds over every run of pushes and flushes |
| `StreamingMode.IncreasingExactly` | src/grpc/order_buffer.ts:113-120 | over every run emissions, followed by what is buffered, strictly increase if and only if no push overtakes a buffered batch of slot 0 |
| `StreamingMode.SlotsFromOneIncrease` | src/grpc/order_buffer.ts:113-194 | with all slots at least 1, emissions strictly increase over every run |
| `StreamingMode.EmissionsExactly` | src/grpc/order_buffer.ts:90-194 | over every run ended by a full flush the emissions strictly increase if and only if no push overtook a buffered batch of slot 0 |
| `StreamingMode.SlotZeroIsOvertaken` | src/grpc/order_buffer.ts:115-120 | a concrete run around slot 0, ended by a full flush, whose emissions are out of order |
| `StreamingMode.StreamingDropsExactly` | src/grpc/order_buffer.ts:114-148 | over every run a transaction is dropped exactly if its slot is past, its place was emitted or passed, or it is already buffered |
| `OrderDispatcher.Dispatcher.constructor` | src/grpc/order_buffer.ts:41-45 | the initial state, with the defaults of the two time limits |
| `OrderDispatcher.Dispatcher.EmitBatch` | src/grpc/order_buffer.ts:205-208 | one batch goes out whole, and in Ordered mode moves the watermark |
| `OrderDispatcher.Dispatcher.FlushBeforeSlot` | src/grpc/order_buffer.ts:165-175 | the loop over slots emits everything below a slot in order and keeps the rest |
| `OrderDispatcher.Dispatcher.FlushEverySlot` | src/grpc/order_buffer.ts:177-194 | the loop emits all slots in order and leaves the watermark of the current slot past its last index |
| `OrderDispatcher.Dispatcher.PushOrderedBatch` | src/grpc/order_buffer.ts:95-111 | the new state is the specified Ordered push |
| `OrderDispatcher.Dispatcher.EmitAndRelease` | src/grpc/order_buffer.ts:127-143 | the release loop emits the batch and the longest run that follows it |
| `OrderDispatcher.Dispatcher.PushStreamingBatch` | src/grpc/order_buffer.ts:113-148 | the new state is the specified StreamingOrdered push |
| `OrderDispatcher.Dispatcher.PushTransactionEvents` | src/grpc/order_buffer.ts:51-75 | a push in any mode is one step of the specified run: one batch of exactly these events, in the place that the first of them names, else in the given one; refused exactly where that is no pair of u64 values |
| `OrderDispatcher.Dispatcher.FlushIfDue` | src/grpc/order_buffer.ts:77-88 | a timer call is one step of the specified run |
| `OrderDispatcher.Dispatcher.Flush` | src/grpc/order_buffer.ts:90-93 | a full flush is one step of the specified run |
| `InstructionMerge.Sort` | src/rpc_transaction.ts:385-390 | the stable sort by outer index, then inner index with none first, is an ordered permutation |
| `InstructionMergeProofs.RunConserves` | src/rpc_transaction.ts:383-493 | every event has its own output or merged into an earlier one of the same outer instruction; outputs are in sorted order; no output holds two event-CPIs of Pump trades |
| `InstructionMerger.FindFrame` | src/rpc_transaction.ts:421-427 | the backward search finds the innermost frame that may have made the call |
| `InstructionMerger.PopEnded` | src/rpc_transaction.ts:434-439 | the loop removes exactly the frames that have ended |
| `InstructionMerger.MergeInstructionEvents` | src/rpc_transaction.ts:383-493 | the loop with its two stacks computes the specified merge, conserves events, and every output reports of the events sent to it what its kind demands, field by field |
| `MergedFields.TradesReport` | src/rpc_transaction.ts:144-256 | however many trades are merged: amounts and side are those of the last with an amount, else of the first; mint and user the last known; the name the last one of a later version, else the last one |
| `MergedFields.SwapsReport` | src/rpc_transaction.ts:300-322 | of merged swaps the last counts, with the last known mint |
| `MergedFields.CreatesReport` | src/rpc_transaction.ts:258-298 | of merged creates the first counts, with the last known mint, user and name |
| `MergedFields.OthersReport` | src/rpc_transaction.ts:324-376 | of all others the last counts, but for what only the first can know |
| `MergedFields.TradesAgreeExactly` | src/rpc_transaction.ts:340-376 | two trades are merged exactly if some execution is what both speak of |
| `MergedFields.SwapsAgreeExactly` | src/rpc_transaction.ts:340-376 | so are two swaps of one kind |
| `MergedFields.OthersAgreeExactly` | src/rpc_transaction.ts:340-376 | other events exactly if they are of one kind |
| `MergedFields.OutputReports` | src/rpc_transaction.ts:383-493 | over every list each output reports that of the events sent to it |
| `MergeJoins.PlainJoinsOuter` | src/rpc_transaction.ts:445-493 | an inner event that is neither a frame nor an event-CPI joins the output of its outer instruction if and only if that was recorded and the two agree |
| `MergeJoins.DlmmCpiJoinsItsCaller` | src/rpc_transaction.ts:383-493 | for every forest and every collection order an event-CPI of DLMM joins the output of its direct caller if and only if the two agree |
| `MergeJoins.OnlyCpisJoin` | src/rpc_transaction.ts:383-493 | nothing but an event-CPI joins the output of an inner Pump trade |
| `MergeJoins.FirstEventCpiReports` | src/rpc_transaction.ts:383-493 | for every forest with recorded callers and every collection order: an inner trade whose first event-CPI agrees with it reports that event-CPI's amounts, or its own if that has none |
| `CallTree.RunIsNested` | src/rpc_transaction.ts:393-491 | with known heights, all frames of a stack share one outer instruction and their heights strictly increase |
| `CallTree.SelectFindsCaller` | src/rpc_transaction.ts:420-427 | in a list with known heights the frame selected for an event-CPI is the output of the item that called it |
| `CallTree.SortRecoversExecution` | src/rpc_transaction.ts:385-390 | however a transaction's events were collected, sorting puts them in the order in which their calls ran |
| `CallTree.CalledInIsCalls` | src/rpc_transaction.ts:418-444 | a direct call in the tree shows in the flat list as everything in between running inside the caller |
| `CallTree.EventCpiFindsItsCaller` | src/rpc_transaction.ts:383-493 | for every forest of calls and every collection order, the frame selected for an event-CPI is exactly the one recorded for its direct caller |
| `EventCpis.EventCpiJoinsCaller` | src/rpc_transaction.ts:419-433 | in a list with known heights an event-CPI joins the output of its caller if and only if that made none before and the two events agree |
| `EventCpis.FirstEventCpiJoins` | src/rpc_transaction.ts:383-493 | the same for every forest of calls whose event-CPIs have recorded callers, in every collection order: the first event-CPI of a call joins it if the two agree, later ones stand alone |
| `StaleFrames.FoundExactly` | src/rpc_transaction.ts:419-444 | in a list, recorded callers or not, an event-CPI finds a Pump frame if and only if one stands one level up in its outer instruction, closed by no later frame or outer instruction; and then that one |
| `StaleFrames.FoundIsCallersExactly` | src/rpc_transaction.ts:383-493 | for every forest of calls and every collection order, the frame found is the direct caller's if and only if that caller was recorded as a frame |
| `StaleFrames.StaleFrameIsFound` | src/rpc_transaction.ts:419-433 | a concrete forest whose event-CPI finds the frame of a call that did not make it |
| `LogLines.InvokeIsRead` | src/logs/optimized_matcher.ts:1011-1025 | the runtime's own invoke line yields its address and depth, for every address |
| `LogLines.SuccessIsRead` | src/logs/optimized_matcher.ts:1027-1038 | the line at the end of a successful call yields its address |
| `LogLines.PrintedIsNoAddress` | src/logs/optimized_matcher.ts:1011-1038 | whatever a program prints, what is read out of it as a program is no address |
| `LogLines.NamesDiffer` | src/logs/optimized_matcher.ts:1011-1038 | no line is read as the invoke and as the end of the same name |
| `LogReadings.InvokeIsHeard` | src/rpc_transaction.ts:612-638 | the runtime's own invoke line is to both loops an invoke, to the letter, and no end |
| `LogReadings.SuccessIsHeard` | src/rpc_transaction.ts:612-638 | its line at the end of a successful call is an end, to the letter, and no invoke |
| `LogReadings.MisreadIsHeard` | src/rpc_transaction.ts:612-638 | a program that prints one word (not beginning with i, s or f) before " invoke [n]", n as the depth is printed, is to both loops an invoke at that depth, to the letter, and no end |
| `LogReadings.MisreadIsMisread` | src/rpc_transaction.ts:612-638 | printed with depth 1, it reads as the message of the two concrete logs below |
| `LogStacks.TruncateIsPrefix` | src/rpc_transaction.ts:611-639 | every prefix of the log of a forest of calls is a log under way, with its chain of open calls |
| `LogChains.StackIsChain` | src/rpc_transaction.ts:611-639 | while no message is taken for an invoke, both stack loops hold exactly the chain of open calls |
| `LogChains.StackIsChainExactly` | src/rpc_transaction.ts:611-639 | over every log either stack is the chain of open calls all along if and only if no message so far is taken for an invoke |
| `LogChains.DataIsAttributed` | src/rpc_transaction.ts:729-762 | until then the program on top of either stack, at the end of any log under way, is the one that runs |
| `LogChains.CreatesAreTrue` | src/rpc_transaction.ts:620-631 | until then a create is detected exactly where the program itself logged one |
| `LogMessages.MessageIsTakenForInvoke` | src/rpc_transaction.ts:729-762 | a concrete log on which both loops attribute a data line to the words of a message |
| `LogMessages.CreateIsMissed` | src/rpc_transaction.ts:611-640 | a concrete log whose create is not detected |
| `LogEntries.RightExactly` | src/rpc_transaction.ts:611-639 | whatever stack a call starts on and whatever it and its callees print, its next data line is attributed to it if and only if what is left of the stack is the stack up to an entry of its program |
| `LogEntries.RestoredOrEarlier` | src/rpc_transaction.ts:611-639 | that is: the stack is restored, or the own entry is lost and an earlier call of the same program is on top |
| `LogWriters.EveryWriterIsACall` | src/rpc_transaction.ts:611-639 | over every log, whatever was printed, self-calls included, each data line is written by a call that began on some stack, and is attributed rightly if and only if what was printed since leaves that stack up to an entry of the writer's program |
| `LogSelfCalls.RightWithoutReentry` | src/rpc_transaction.ts:611-639 | for a fixed chain none of whose programs is called: if and only if no message of the writer or its callees is taken for an invoke at its depth or above, and read by themselves they leave nothing |
| `LogSelfCalls.RightAtFloor` | src/rpc_transaction.ts:611-639 | the same where the writer's program may stand on the chain several times: the lowest depth claimed must leave an entry of its program on top, and nothing above it |
| `LogSelfCalls.SelfCallIsForgiven` | src/rpc_transaction.ts:611-639 | a concrete self-call whose own entry is lost and whose data line is attributed rightly |
| `LogSelfCalls.ChainDecides` | src/rpc_transaction.ts:611-639 | for every chain the runtime permits, and callees that may be the writer itself: if and only if no message reaches below the writer's own calls in a row, and the messages, read above those, leave its program on top |
| `LogWriters.DataLineExactly` | src/rpc_transaction.ts:611-639 | over every log the runtime permits, in which no message was taken for an invoke before the writer began, that condition is exact for its data line |
| `LogMessages.RightExactlyIfRestored` | src/rpc_transaction.ts:611-639 | on any stack without its program, the next data line of a call is attributed to it if and only if what it and its callees printed left the stack as it was |
| `LogMessages.AlwaysRightExactly` | src/rpc_transaction.ts:611-639 | under every chain of callers, also those that the runtime forbids, the next data line of a called program is attributed to it if and only if every message taken for an invoke claimed to be deeper than its printer, and those the call printed since its last callee ended have left nothing on the stack |
| `LogMessages.HarmlessIsRight` | src/rpc_transaction.ts:611-639 | at any depth, while every message taken for an invoke claimed to be deeper than its printer, it is right if and only if nothing was left on the stack |
| `LogMessages.RightBeforeAnyCall` | src/rpc_transaction.ts:611-639 | and it is exact at any depth for a call that has made no call yet |
| `LogMessages.StillOnTopExactly` | src/rpc_transaction.ts:611-639 | on any stack, a program on top is still on top after lines of its own, none taken for an end, if and only if none was taken for an invoke |
| `LogAttribution.DetectCreate` | src/rpc_transaction.ts:611-640 | true exactly if some line is a create while the program is on top of the stack; for the log of every forest of calls without such a message, exactly if the program logged one |
| `LogAttribution.Attribute` | src/rpc_transaction.ts:729-762 | the program that each line is parsed under; for the log of every forest of calls, until a message is taken for an invoke, the program the line belongs to |
| `LogAttribution.AttributedToOwner` | src/rpc_transaction.ts:729-762 | for every forest of calls, until a message is taken for an invoke: a data line or message is parsed under its writer, the first and the last line of a call under the program called |
| `LogAttribution.AttributedExactly` | src/rpc_transaction.ts:729-762 | over every log, whatever was printed: a data line is parsed under its writer if and only if what the writer and its callees printed leaves of the stack what it was up to an entry of the writer's program |
| `LogAttribution.AttributedByLines` | src/rpc_transaction.ts:729-762 | the same in terms of the lines printed, where the runtime's rule is kept and nothing misled the loop before the writer began |
| `LogAttribution.CreatesByLines` | src/rpc_transaction.ts:611-640 | the same condition, for the strict loop, decides whether a create is detected |
| `LogStacks.Shrink` | src/rpc_transaction.ts:633-638 | cutting at the last occurrence of the completed program |
| `LogOuterIndices.LogOuterIndices` | src/core/trade_source.ts:81-108 | the loops give each line the index of the latest invocation, or -1 where the program's invocations are incomplete |
| `LogOuterIndices.IndexIsOfLatestProgram` | src/core/trade_source.ts:97-107 | every index is -1 or an instruction of the most recently invoked program |
| `LogOuterIndices.IndexExactly` | src/core/trade_source.ts:81-108 | the index of a line is an instruction if and only if it is of the program invoked last, has as many of that program before it as there were invocations, and the log shows all of them; else unknown |
| `LogOuterIndices.NoneYet` | src/core/trade_source.ts:81-108 | unknown before any invocation |
| `LogOuterIndices.CompleteLogsCount` | src/core/trade_source.ts:81-108 | complete logs number their invoke lines 0, 1, 2, ... |
| `LogOuterIndices.LostProgramIsContained` | src/core/trade_source.ts:80-108 | deleting any invocations of one program never changes the indices given to the others |
| `EventPairing.PairsByNumber` | src/grpc/log_instr_dedup.ts:466-494 | with equal counts the k-th instruction of a base joins exactly the k-th log event; with different counts none joins and all are kept |
| `EventPairing.PlainJoinsLast` | src/grpc/log_instr_dedup.ts:466-494 | an instruction with an uncounted key joins the last log event with that key |
| `EventPairing.PlainJoinsFirst` | src/grpc/log_instr_dedup.ts:481-494 | if no log event has its key, the first instruction with an uncounted key gets the next place, and every later one joins it there |
| `EventPairing.UnkeyedStandsAlone` | src/grpc/log_instr_dedup.ts:483-486 | an instruction without a key joins nothing |
| `EventPairing.PassConserves` | src/grpc/log_instr_dedup.ts:457-494 | every log event keeps its place, every place holds exactly the merge of what went there, and the output size is the sum less the merges |
| `PairedFields.KeysExactly` | src/grpc/log_instr_dedup.ts:77-171 | two numbered events have a key in common exactly if they are of one execution: same mint, user, side and lane, or same protocol and identity, and same number; or creates of one mint; or of one identity |
| `PairedFields.PlaceReports` | src/grpc/log_instr_dedup.ts:173-455 | for all events and every place: the event there is the first that came to it, and takes only what it does not know from the first that does; a trade the last name of a later version |
| `EventPairer.DedupeKey` | src/grpc/log_instr_dedup.ts:77-171 | the key an event gets is its base with the number of earlier events of that base, and the counts stay those of the events seen |
| `EventPairer.DeleteUnbalanced` | src/grpc/log_instr_dedup.ts:474-479 | the deletion loops forget exactly the numbered keys of bases whose counts differ |
| `EventPairer.Pair` | src/grpc/log_instr_dedup.ts:457-494 | the loops compute the specified pairing, of the stated size |
| `CreateReorder.ReorderIsRight` | src/grpc/log_instr_dedup.ts:496-507 | the reorder is a permutation, keeps the order of all other events, and leaves no trade of a mint before its create |
| `ReorderPlaces.Reorder` | src/grpc/log_instr_dedup.ts:498-507 | the splicing loop computes that reorder: a permutation in ascending rank, creates before the trades of their mint, the others in their order |
| `ReorderPlaces.ReorderedInPlace` | src/grpc/log_instr_dedup.ts:498-507 | the reorder is the input in ascending rank: a create stands right before the trade it overtook |
| `ReorderPlaces.CreatePassesExactly` | src/grpc/log_instr_dedup.ts:498-507 | an event that is no create and stands before a create still does afterwards if and only if no trade of that create's mint stands at or before it |
| `ReorderPlaces.OthersStay` | src/grpc/log_instr_dedup.ts:498-507 | anything that stands before an event that is no create still does afterwards |
| `ReorderPlaces.CreatesPassExactly` | src/grpc/log_instr_dedup.ts:498-507 | of two creates the earlier stays first, unless a trade of the later one's mint stands before the place the earlier goes to |
| `CreateReorder.PreferReplacesOld` | src/grpc/log_instr_dedup.ts:512-528 | old swaps disappear and every current one stays exactly where a group's counts match; every other event keeps its multiplicity |
| `CreateReorder.PreferKeepsOrder` | src/grpc/log_instr_dedup.ts:522-527 | whatever is not in a matched group keeps its order |
| `LogInstrDedup.TreatGroups` | src/grpc/log_instr_dedup.ts:522-526 | whatever order the groups come in, each matched one is overwritten and marked, and no other event is touched |
| `LogInstrDedup.PreferCurrent` | src/grpc/log_instr_dedup.ts:512-528 | the grouping, overwriting and filtering loops compute the specified replacement; each current swap of a matched group stands in the place of the old swap of its number |
| `PreferPlaces.PreferredSettles` | src/grpc/log_instr_dedup.ts:512-528 | the output is the input with each old swap of a matched group replaced by the current swap of its number, which is gone from its own place |
| `DedupeProofs.EndsCreatesFirst` | src/grpc/log_instr_dedup.ts:496-528 | the swap pass keeps creates before the trades of their mint |
| `DedupeProofs.OnlyOldSwapsGo` | src/grpc/log_instr_dedup.ts:496-528 | the final output is, with multiplicities, what was paired less the old swaps of matched groups |
| `LogInstrDedup.DedupeLogInstructionEvents` | src/grpc/log_instr_dedup.ts:457-528 | the three passes in that order; in the end no trade stands before a create of its mint, every log event stands in what its place was merged to, only old swaps of matched groups are gone, and each event stands where the reorder and then the replacement puts it |
| `MintPropagation.Round` | src/transaction_route.ts:450-465 | a round keeps known mints, learns only what the component carries, and learns nothing only if the transfers are closed |
| `MintPropagation.Propagate` | src/transaction_route.ts:449-465 | the loop ends (fewer endpoints without a mint each round), computes the specified rounds, changes no known mint, and ends closed under plain transfers |
| `MintPropagation.ClosedIsComplete` | src/transaction_route.ts:449-465 | if each component carries at most one seed mint, an account has a mint exactly if its component carries it |
| `MintPropagation.OrderDoesNotMatter` | src/transaction_route.ts:449-465 | then any order of the transfers ends in the same mints |
| `MintOrders.InferredExactly` | src/transaction_route.ts:449-465 | an inferred mint has arrived from a seed through accounts that are none; and an account gets a mint exactly if any may so arrive |
| `MintOrders.SomeOrderBrings` | src/transaction_route.ts:449-465 | every mint that may arrive at an account does, in some order of the transfers |
| `MintOrders.OrderMattersExactly` | src/transaction_route.ts:449-466 | for any seeds, every order of the transfers ends in the same mints if and only if at no account but the default one two different mints may arrive |
| `MintPropagation.InferMints` | src/transaction_route.ts:449-466 | the inferred mints, the default account removed last: seeds kept, every mint carried by its component, and all that a component carries |
| `RouteInvocations.Children` | src/transaction_route.ts:487-491 | the scan collects the descendants up to the first invocation that is none |
| `RouteInvocations.ScanFindsSubtree` | src/transaction_route.ts:326-340 | for every forest of calls with known heights that scan collects exactly what ran inside the invocation |
| `RouteAmounts.LastNamingWins` | src/transaction_route.ts:428-448 | the mint recorded for an account is the one named last |
| `RouteAmounts.Mints` | src/transaction_route.ts:428-466 | the mints of a transaction, from balances, then checked and initializing instructions, then propagation |
| `RouteAmounts.Sum` | src/transaction_route.ts:353-357 | a sum is reported exactly if there is something to add, all of it is known, and it is at most 2^64-1; and then it is the sum of all |
| `TokenInstructions.MovesExactly` | src/transaction_route.ts:280-325 | an invocation is read as a move exactly if its bytes and accounts are those of a transfer of a token program, plain, checked or with fee; and then as what that transfer moves |
| `TokenInstructions.FlowExactly` | src/transaction_route.ts:484-505 | a transfer takes its amount from its source and gives its destination the amount less the stated fee, or an unknown amount where Token 2022 does not state it |
| `TokenInstructions.NoTransferNoFlow` | src/transaction_route.ts:293-325 | what is no transfer takes and gives nothing |
| `TokenInstructions.NamesExactly` | src/transaction_route.ts:436-448 | the mints named are those of both ends of a checked transfer, and of an account that is set up |
| `TokenInstructions.PaymentExactly` | src/transaction_route.ts:342-352 | an invocation is read as a payment exactly if it is a transfer of the system program, of those lamports |
| `TokenInstructions.FlowsAddUp` | src/transaction_route.ts:353-357 | over every list: nothing if no part moves anything, unknown if some part is, and otherwise the sum of the parts |
| `RouteAmounts.SumsAreExact` | src/transaction_route.ts:484-512 | what is summed for a leg is exactly what the calls inside it, at any depth, took from its input account or gave to its output account less withheld fees |
| `RouteAmounts.NativeDebit` | src/transaction_route.ts:342-352 | the loop with its early exits reports the lamports paid, or nothing |
| `RouteAmounts.DebitIsDirect` | src/transaction_route.ts:342-352 | a native debit is reported exactly if all payments of the trader inside the swap are made by its direct calls to its recipients, one at least to the pool; and it is their total |
| `RouteAmounts.LegAmounts` | src/transaction_route.ts:484-514 | both amounts of a leg: none unless the transaction succeeded, the native debit where the trader pays natively, the sums otherwise |
| `Fingerprints.PrintsExactly` | src/grpc/client.ts:802 | two contents share a fingerprint if and only if executable flag and rent epoch agree and owner, data and the digits of the lamports in a row are the same |
| `Fingerprints.SameSizeIsToldApart` | src/grpc/client.ts:802 | owners and data of one size share a fingerprint only if the contents are the same |
| `Fingerprints.AlikeByTrailingDigits` | src/grpc/client.ts:802 | otherwise exactly if the longer data ends in digits that the other's lamports begin with |
| `ReplayProofs.NeverParsedAgain` | src/grpc/client.ts:768-811 | over every run with replay enabled, while the slot of a parsed update is in the window its identity is never parsed again, whatever was evicted; it is refused if its fingerprint differs and counted as replayed otherwise |
| `ReplayMemory.IdsExactly` | src/grpc/client.ts:151-161 | an update has an identity exactly if it names its thing, and two share it exactly if they are of one transaction, one block, or one account, slot and write version |
| `ReplayMemory.RecognisedExactly` | src/grpc/client.ts:768-811 | over every run with replay enabled an update is skipped or refused if and only if one of the same thing was parsed before, and that one, or one parsed before it, has a slot within the window of all slots so far |
| `ReplayMemory.SkipsAreCounted` | src/grpc/client.ts:807-811 | the counter of replayed updates is the number of those skipped |
| `ReplayProofs.ConflictIsRefused` | src/grpc/client.ts:802-806 | with or without replay, of two contents of one account version the second is refused, while the first is in the window, if and only if they differ in flag, epoch, or owner, data and digits of the lamports in a row |
| `ReplayProofs.SameSizeIsRefused` | src/grpc/client.ts:802-806 | for owners and data of one size: if and only if they differ at all |
| `ReplayProofs.BothAreParsed` | src/grpc/client.ts:802-811 | two different contents of one version that share a fingerprint: without replay both are parsed, with replay the second counts as replayed |
| `ReplayProofs.OnlyParsedIsRecognised` | src/grpc/client.ts:803-811 | nothing is skipped or refused unless the same identity was parsed before |
| `ReplayProofs.ResumesFromHighest` | src/grpc/client.ts:768-771 | the resume slot is the greatest slot of the updates processed so far |
| `ReplayProofs.ReconnectResumes` | src/grpc/client.ts:990-997 | a connection asks to resume, from that slot, exactly if replay is enabled, it is not the first, and no request to resume was refused |
| `ReplayWindow.Subscription.RememberParsedUpdate` | src/grpc/client.ts:768-790 | the maps, the order list and its head represent the specified memory after the update is noted, stale entries evicted and the list compacted |
| `ReplayWindow.Subscription.EvictStale` | src/grpc/client.ts:782-785 | the loop forgets the oldest arrivals up to the first one in the window |
| `ReplayWindow.Subscription.Compact` | src/grpc/client.ts:786-789 | compaction bounds the passed entries and changes nothing that is remembered |
| `ReplayWindow.Subscription.ProcessUpdate` | src/grpc/client.ts:792-876 | the outcome and the new state are one step of the specified run |
| `ReplayWindow.Subscription.StartAttempt` | src/grpc/client.ts:980-997 | the slot asked for is the specified one |
| `QueueProofs.EveryPushIsAccountedFor` | src/grpc/async_event_queue.ts:22-62 | over every run under either strategy: delivery in push order, capacity never exceeded, with drop-oldest exactly the newest pushes queued, and every push delivered, queued, dropped or cleared, once |
| `QueueProofs.EveryRequestIsAccountedFor` | src/grpc/async_event_queue.ts:64-80 | requests are served in order, and each is served, waiting or ended, once |
| `QueueProofs.WaitersOnlyWhenEmpty` | src/grpc/async_event_queue.ts:22-80 | requests wait only while the queue is empty and open |
| `QueueProofs.HistoryAgrees` | src/grpc/async_event_queue.ts:22-80 | what was delivered, served and ended is what the answers say, in that order |
| `QueueChanges.LosesExactly` | src/grpc/async_event_queue.ts:22-62 | over every run an item is dropped if and only if a push finds neither a reader nor room, and it is the oldest or the new one as configured; items are cleared only by clearing |
| `QueueChanges.AnswersExactly` | src/grpc/async_event_queue.ts:22-80 | an item is handed out if and only if a push meets a reader or a request an item, and it is the oldest; a reader is told of the end exactly if the queue closes on it or it asks a closed and empty one |
| `QueueChanges.AcceptsExactly` | src/grpc/async_event_queue.ts:22-40 | a push is reported as accepted exactly if the queue is open and nothing is dropped for it |
| `EventQueue.Create` | src/grpc/async_event_queue.ts:12-20 | a queue without room for one item is refused |
| `EventQueue.AsyncEventQueue.Push` | src/grpc/async_event_queue.ts:22-40 | the ring, the waiters and the settled promises represent the specified state after a push; the answer tells whether anything was lost |
| `EventQueue.AsyncEventQueue.Shift` | src/grpc/async_event_queue.ts:51-58 | the oldest queued item is taken, if there is one |
| `EventQueue.AsyncEventQueue.Clear` | src/grpc/async_event_queue.ts:60-62 | the loop empties the queue |
| `EventQueue.AsyncEventQueue.Close` | src/grpc/async_event_queue.ts:64-70 | every waiting promise is resolved with the end, in order |
| `EventQueue.AsyncEventQueue.Next` | src/grpc/async_event_queue.ts:72-80 | the promise is resolved with the oldest item, or with the end, or waits |
| `TradeIndexProofs.RunIsSound` | examples/devtrades_pumpfun_pumpswap_low_latency.ts:67-113 | after any observations the pool maps are exact inverses over tracked mints only, the limit is kept, and the accounts hold all that is pinned and nothing beyond pinned, tracked and pools |
| `TradeIndexProofs.NewestMintsStay` | examples/devtrades_pumpfun_pumpswap_low_latency.ts:74-91 | the tracked mints are exactly those most recently refreshed, in that order |
| `TradeIndexHistory.KnowsExactly` | examples/devtrades_pumpfun_pumpswap_low_latency.ts:67-124 | over every run a pool is known to be of a mint if and only if the last event that told whose it is said so, and the mint has been tracked ever since |
| `TradeIndexHistory.CreatorsAreLast` | examples/devtrades_pumpfun_pumpswap_low_latency.ts:71-94 | the creator known of a tracked mint is the one that its last creation names |
| `TradeIndexProofs.AccountsAreExact` | examples/devtrades_pumpfun_pumpswap_low_latency.ts:67-113 | if no address is both mint and pool, the accounts are exactly pinned, tracked mints and their pools |
| `TradeIndexProofs.ForgetsExactly` | examples/devtrades_pumpfun_pumpswap_low_latency.ts:80-91 | forgetting a mint keeps the accounts exact if and only if neither it nor its pools are still needed in the other role |
| `TradeIndexProofs.AccountsExactExactly` | examples/devtrades_pumpfun_pumpswap_low_latency.ts:67-113 | over every run the accounts are exact throughout if and only if no create displaces a mint that, or whose pool, is still wanted in the other role |
| `TradeIndexProofs.SharedAddressIsLost` | examples/devtrades_pumpfun_pumpswap_low_latency.ts:80-91 | a concrete run in which a known pool is no longer subscribed to |
| `TradeIndex.Tracker.RememberDeveloper` | examples/devtrades_pumpfun_pumpswap_low_latency.ts:71-94 | the maps after the eviction loop; no account changes unless the answer is true |
| `TradeIndex.Tracker.RememberPool` | examples/devtrades_pumpfun_pumpswap_low_latency.ts:96-113 | the maps after the pool moved; the answer is true exactly if an account was added |
| `TradeIndex.Tracker.Handle` | examples/devtrades_pumpfun_pumpswap_low_latency.ts:278-342 | one event is one step of the specified run; no account changes unless the answer is true |
| `EnrichProofs.FirstIsFirst` | src/core/pumpfun_fee_enrich.ts:48-54 | a source is the first event that offers anything for its mint |
| `EnrichProofs.FirstSourcesWin` | src/core/pumpfun_fee_enrich.ts:155-160 | after all four passes every event is completed from the first sources among the events as they came; flags from the completed creates |
| `EnrichFields.CreatesAreCompleted` | src/core/pumpfun_fee_enrich.ts:44-83 | each field that a create of the second kind does not know is the same field of the earliest create of the first kind with its mint; without one only its quote mint and fee recipient can change |
| `EnrichFields.FeesAreObserved` | src/core/pumpfun_fee_enrich.ts:85-112 | its fee recipient, if not known, is the one that the earliest purchase of its mint names |
| `EnrichFields.QuotesAreNamed` | src/core/pumpfun_fee_enrich.ts:44-133 | a quote mint other than SOL stays; else the earliest trade of the mint that names another one decides |
| `EnrichFields.TradesAreFlagged` | src/core/pumpfun_fee_enrich.ts:135-153 | a trade is flagged as the earliest create of its mint is, once completed; volume is tracked if that create has cashback; nothing else of it changes |
| `EnrichFields.OthersStay` | src/core/pumpfun_fee_enrich.ts:44-153 | of a create of the first kind only the quote mint can change, and other events stay as they are |
| `EnrichProofs.EnrichOnlyAdds` | src/core/pumpfun_fee_enrich.ts:31-153 | texts and amounts only leave their default, quote mints only move unknown to SOL placeholder to real, flags only become true |
| `EnrichProofs.OnceIsEnough` | src/core/pumpfun_fee_enrich.ts:155-160 | enriching again changes nothing |
| `Enrichment.FirstWins` | src/core/pumpfun_fee_enrich.ts:48-54 | the first-wins map of each pass |
| `Enrichment.EnrichCreateV2FromCreates` | src/core/pumpfun_fee_enrich.ts:44-83 | the first pass, in place |
| `Enrichment.EnrichCreateV2ObservedFeeRecipient` | src/core/pumpfun_fee_enrich.ts:85-112 | the second pass, in place |
| `Enrichment.EnrichCreateQuoteMintFromTrades` | src/core/pumpfun_fee_enrich.ts:114-133 | the third pass, in place |
| `Enrichment.EnrichTradesFromCreates` | src/core/pumpfun_fee_enrich.ts:135-153 | the fourth pass, in place |
| `Enrichment.EnrichSameTransaction` | src/core/pumpfun_fee_enrich.ts:155-160 | the events become the specified enrichment of what they were |
| `Snapshots.ConsistentApplies` | examples/stonkfun_snapshot_refresh.ts:22-54 | consistent snapshots are applied without an error and leave the greatest (slot, version) |
| `Snapshots.OrderDoesNotMatter` | examples/stonkfun_snapshot_refresh.ts:22-54 | every order of consistent snapshots yields the same account |
| `Snapshots.NeverFailsExactly` | examples/stonkfun_snapshot_refresh.ts:22-54 | snapshots fail in no order of arrival if and only if they belong to the account with exact slots and agree from the saved version on |
| `Snapshots.AppliesExactly` | examples/stonkfun_snapshot_refresh.ts:22-54 | one given order succeeds if and only if every snapshot belongs and none has the version of the newest so far and differs from it; and then leaves the newest |
| `Snapshots.LeavesTheLatest` | examples/stonkfun_snapshot_refresh.ts:22-54 | whatever the order, if it succeeds the result is the saved account or one that a snapshot tells, empty if closed, and none is later |
| `Snapshots.OrderDecides` | examples/stonkfun_snapshot_refresh.ts:22-54 | three snapshots that are applied in one order and refused in another |

## Left out

- Base58 and base64: keys and texts are values that are equal exactly when the originals are. SHA-256 is taken to be injective.
- Regular expressions and the decoding of data lines: a data line is a payload and whether it is a create. What a message reads as is an input of the stack loops; `LogLines` and `LogReadings` model how a line becomes one, reading and printing of the number between the brackets being inputs, and the reason at the end of a failed call not modelled.
- StaleFrames.FoundExactly: for Pump frames only, because a DLMM event-CPI also takes away the frames above the one it finds; for DLMM frames only the recorded caller is treated.
- Log depths of 2^32 and more, for which the loose loop cannot make its array.
- Transport, timers, promises as such, metrics and console output: timers and stream failures are inputs, promises are numbers.
- Clock readings: one reading per operation; the program reads the clock once more after a flush.
- Field layouts of the protocols and account-fill tables, and the `swap` table of the route analysis: the accounts of a leg are inputs.
- Payload fields of merged events: the merge functions keep identity, kind, the fields that decide a branch, and one list of mergeable values. Fields that an instruction replaces outright (limits of CLMM swaps and of liquidity) are among those left out.
- Deduplication keys are tuples instead of joined strings, and their bases are compared as tuples.
- In-place sorting of the caller's array in the instruction merge and the splice in the create reorder: modelled on sequences, so a caller's other references to the array are not captured.
- Grouping of inner instructions by outer index before the route analysis, and its errors: the flat list of invocations is the input.
- Legs, transfers, native token actions and unknown invocations as reported lists: only mints, subtrees and amounts are modelled.
- Updates of a subscription carry one payload each, as the stream's `oneof` does.
- Fractional or non-numeric limits of the trading example, and its reporting.
- The status transitions of a subscription: cancellation can race with a connection that completes.
- Bit operations on disjoint bits are written as additions.
