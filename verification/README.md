# Verified models of the node-redis client

Dafny models of the state machines in `packages/client/lib`, with proofs of what the code and its comments
promise. Check everything with `dafny verify dfyconfig.toml`.

**RESP codec** (`RespTypes`, `Decimal`, `DecoderMachine`, `Decoder`, `RespPrinter`, `Doubles`, `Encoder`,
`RoundTrip`). The decoder suspends in the middle of any token by returning a bound closure. `DecoderMachine` is
a machine that reads one byte at a time; its `Cont` values are those closures as data. The class
`Decoder.Decoder` has the source's cursor, pending closure and loops, and each method is proved to do what the
machine does. `RespPrinter` is the grammar of well-formed messages, and the machine is proved to undo it under
every chunking. `Decimal` proves the fast path for doubles exact, for any rounding to doubles that keeps what is
representable.

**Linked lists** (`LinkedList`). Heap nodes relinked in place, refining sequences.

**Command queue** (`QueueSpec`, `CommandsQueue`, `QueueBlocks`, `QueueRuns`, `QueueGuarantees`, `QueueOutcomes`,
`QueueDelivery`, `QueueAdmission`, `QueueBatches`, `QueueChains`, `QueueCapacity`). `QueueSpec` says what each
operation does, the class `CommandsQueue.RedisCommandsQueue` does it with the source's loops, and `QueueRuns`
adds a server that answers in wire order, connections, timers, aborts and slot migration, in any interleaving.
What the server owes is read off the commands on the wire alone. A promise is settled by the first call that
settles it.

**Client-side cache** (`CacheSpec`, `ClientSideCache` in `Cache.dfy`, `CacheRuns`, `CacheGuarantees`,
`CacheKey`, `TypeAwareCopy`). `handleCache` is two atomic steps around its `await`; loads, waiters, evictions,
expiry, invalidations and clears interleave freely. The copier works on an explicit heap in which an address is
an object's identity.

**Pub/Sub** (`PubSubSpec`, `PubSubClient` in `PubSub.dfy`, `PubSubRuns`, `PubSubLosses`). The log of operations
in flight is replayed when subscriptions move to another client.

**Connection pool** (`PoolSpec`, `ClientPool` in `Pool.dfy`, `PoolRuns`, `PoolService`). An allocator with
waiting tasks, replacement, close and destroy, each segment between two `await`s one step.

In each of the last four, the class does step by step what the functions of the `…Spec` module say, and the
`…Runs` module proves its theorems about these functions for every run. The `Valid()` of the cache is the
agreement of its maps, that of the pool is the invariant of its runs.

How the source is read:

- Closures that behave alike are one constructor, and code the source writes twice is one parameterised member:
  maps and objects, numbers and big numbers, top-level and nested dispatch, the three listener maps.
- Decoded sets, maps and objects are kept as their insertions in order. Numbers are mathematical integers;
  `Number(...)` on a token that is not a plain decimal is an arbitrary function of the token.
- An unknown type byte throws in the source, and after an exception nothing is claimed. A negative length other
  than `-1` is treated as an exception too, where the source returns an empty set or map or a slice
  (`decoder.ts:815`, `decoder.ts:910`). Messages have no CR in simple strings and double tokens, and verbatim
  formats have three characters, as the RESP3 specification requires.
- `Command.head`, `Command.index` and `Command.size` are bookkeeping: they name a command's batch by the id of
  its head and place the command in it, where the source has only the chain id and who is the head.
- Timers, aborts, expiry and the clock are steps or parameters that may come at any time. Cache entries and pool
  members are numbered; `issued`, `touched`, `started`, `ended` and the like record what happened.
- In runs, commands that arrive by migration are not of the chain in execution here, ids are used once, and a
  server answers its requests in order, a subscription of n channels with n status pushes or an error.
- Unsubscribes in Pub/Sub runs name channels, all of them confirmed and not already leaving, and replies come in
  order.

Four promises hold only under a condition, and the theorems say which, for every state or run:

- The configured queue length is not a bound when commands have preludes, which are queued as one entry with
  their command and written as two: twice the maximum less one is reached for every maximum
  (`QueueCapacity.PreludesReachTheDoubleBound`). It is kept exactly when a caller counts preludes before each
  addition (`QueueCapacity.MaximumIsKeptExactlyWhenAllFits`).
- A batch goes out whole exactly when all its commands encode
  (`QueueBatches.BatchIsWrittenWholeExactlyWhenItEncodes`).
- `clear()` empties the cache maps without marking promise entries, so a load pending at that moment can store
  what was invalidated afterwards. It is harmless exactly when no load that depends on a key is pending
  (`CacheRuns.ClearIsHarmlessExactlyWhenCalm`).
- A listener that joins a confirmed channel goes with it exactly when an unsubscribe from the channel is in
  flight (`PubSubLosses.JoinerIsLostExactlyWhenLeaving`). An unsubscribe flags the entry to prevent such joins,
  and fails to exactly when a subscribe in flight makes the entry, or makes it again, after the flag was set
  (`PubSubLosses.UnsubscribeExposesExactlyWhen`).

## Model

| member | source | states |
|---|---|---|
| `DecoderMachine.ConsumeSplit` | packages/client/lib/RESP/decoder.ts:100-131 | The reference machine does not see where its input is cut: running it on `a + b` is running it on `a` and then, from the state and the skip debt it is left in, on `b`. |
| `DecoderMachine.ChunkingDoesNotMatter` | packages/client/lib/RESP/decoder.ts:100-131 | Any list of chunks, empty and one-byte ones included, leads to the state and the calls of the uncut stream. |
| `DecoderMachine.RunIn` | packages/client/lib/RESP/decoder.ts:724-730 | A closure bound around an inner closure behaves as the inner one run to its end and then resumed, wherever the chunk ends. |
| `RespPrinter.RunPrinted` | packages/client/lib/RESP/decoder.ts:138-245 | Every well-formed message tree, printed anywhere in a chunk, decodes to the value it stands for under the type mapping, consuming exactly its bytes. |
| `RespPrinter.ConsumeStream` | packages/client/lib/RESP/decoder.ts:100-264 | A stream of messages and pushes makes one call each, in order, with the right handler and value. |
| `RespPrinter.ParserUndoesPrinter` | packages/client/lib/RESP/decoder.ts:100-264 | However the bytes of a stream of well-formed messages are cut, the calls are the messages' values, once each and in order, and the decoder ends idle with cursor 0. |
| `RespPrinter.BytesOfTheProtocol` | packages/client/lib/RESP/decoder.ts:8-32 | The type bytes and the other codes are the characters that the RESP3 specification names. |
| `Decimal.ReadPrintedNat` | packages/client/lib/RESP/decoder.ts:312-325 | Accumulating the digits of a printed length or number gives the number back. |
| `Decimal.AppendDigitExactly` | packages/client/lib/RESP/decoder.ts:41-43 | Below the bound 900719925474098 neither the product nor the sum of one more digit rounds. |
| `Decimal.ScanIsExact` | packages/client/lib/RESP/decoder.ts:377-435 | Over every accepted token the floating significand is the token's digits as an integer, at most 2^53 - 1, and the fraction digits are counted. |
| `Decimal.PowerOfTenExact` | packages/client/lib/RESP/decoder.ts:34-39 | Every tabulated power of ten is a double. |
| `Decimal.FastPathIsExact` | packages/client/lib/RESP/decoder.ts:377-435 | On every token it accepts the fast path returns what the slow path returns for the whole token. |
| `Doubles.PrintedIsRead` | packages/client/lib/RESP/decoder.ts:45-64 | An infinity with its sign, `nan`, and n / 10^k printed with k digits behind the point are read as the infinity of that sign, NaN, and the rounding of n / 10^k with that sign. |
| `Decoder.Decoder.constructor` | packages/client/lib/RESP/decoder.ts:88-93 | A new decoder is in the idle state of the machine. |
| `Decoder.Decoder.Write` | packages/client/lib/RESP/decoder.ts:100-131 | One chunk advances cursor, pending closure and calls exactly as the byte machine, and throws exactly where the machine dies. |
| `Decoder.Decoder.WriteAll` | packages/client/lib/RESP/decoder.ts:100-131 | Chunks of any number and size do what the machine does on the uncut stream, up to the first exception. |
| `Decoder.Decoder.CallNext` | packages/client/lib/RESP/decoder.ts:112-117 | The pending closure, applied to the next chunk, does what the machine does on it. |
| `Decoder.Decoder.DecodeTypeValue` | packages/client/lib/RESP/decoder.ts:138-245 | A type byte followed by more input dispatches as the machine does: the callback or the closure that waits. |
| `Decoder.Decoder.HandleDecodedValue` | packages/client/lib/RESP/decoder.ts:247-264 | A finished value is reported to its handler; an unfinished one becomes the pending closure. |
| `Decoder.Decoder.DecodeUnsignedNumber` | packages/client/lib/RESP/decoder.ts:312-325 | The digit loop, also for big numbers, stops where the machine stops, with its value or its closure. |
| `Decoder.Decoder.FindCRLF` | packages/client/lib/RESP/decoder.ts:444-454 | The first CR at or after the position, or -1 when the chunk has none. |
| `Decoder.Decoder.DecodeSimpleString` | packages/client/lib/RESP/decoder.ts:456-484 | A line, in one chunk or accumulated over many. |
| `Decoder.Decoder.DecodeDouble` | packages/client/lib/RESP/decoder.ts:377-435 | The fast path, whose counters round, returns what the machine computes with the slow parse, or buffers a token that the chunk cuts. |
| `Decoder.Decoder.ContinueDecodeDouble` | packages/client/lib/RESP/decoder.ts:437-442 | A token split over chunks is parsed once whole. |
| `Decoder.Decoder.DecodeStringWithLength` | packages/client/lib/RESP/decoder.ts:515-555 | A counted string ends one byte late and leaves the cursor past its CRLF, even past the end of the chunk. |
| `Decoder.Decoder.DecodeNumber` | packages/client/lib/RESP/decoder.ts:277-310 | An optional sign, then the digits; also for big numbers. |
| `Decoder.Decoder.DecodeBlobString` | packages/client/lib/RESP/decoder.ts:486-513 | A length or the RESP2 null `-1`, then the string. |
| `Decoder.Decoder.DecodeWithLength` | packages/client/lib/RESP/decoder.ts:561-574 | Length-prefixed types: the length, then what it counts. |
| `Decoder.Decoder.DecodeNestedTypeValue` | packages/client/lib/RESP/decoder.ts:652-696 | The dispatch for values inside containers. |
| `Decoder.Decoder.DecodeNestedType` | packages/client/lib/RESP/decoder.ts:645-650 | A nested value, or the closure that waits for its type byte. |
| `Decoder.Decoder.DecodeMapKeyValue` | packages/client/lib/RESP/decoder.ts:968-981 | The dispatch for map keys: simple and blob strings are read as strings even when they are mapped to Buffers. |
| `Decoder.Decoder.DecodeMapKey` | packages/client/lib/RESP/decoder.ts:961-966 | A map key, or the closure that waits for its type byte. |
| `Decoder.Decoder.DecodeArrayItems` | packages/client/lib/RESP/decoder.ts:732-775 | The item loop, resumable at every item. |
| `Decoder.Decoder.DecodeSetAsSet` | packages/client/lib/RESP/decoder.ts:813-858 | The element loop of sets, resumable at every element. |
| `Decoder.Decoder.DecodeMapEntries` | packages/client/lib/RESP/decoder.ts:908-959 | The entry loop of maps and of objects, resumable between key and value. |
| `Decoder.Decoder.Return` | packages/client/lib/RESP/decoder.ts:983-1038 | What follows the inner value of a resumed closure is what the machine does when a frame is resumed. |
| `Decoder.Decoder.Call` | packages/client/lib/RESP/decoder.ts:261-264 | Applying any closure to the next chunk is running the machine from it. |
| `Encoder.EncodeCommand` | packages/client/lib/RESP/encoder.ts:5-28 | The parts, written one after the other, are the RESP array of the arguments' bytes; the first argument that is neither string nor Buffer throws, with its index. |
| `Encoder.DecodeUndoesEncode` | packages/client/lib/RESP/encoder.ts:5-28 | The encoded command, fed to the decoder in any chunks, makes exactly one reply: the array of the arguments' bytes. |
| `RoundTrip.SendAndReceive` | packages/client/lib/RESP/encoder.ts:5-28 | The encoder's parts, handed one by one to the decoder object, make exactly one reply, the array of the arguments' bytes, and leave it idle with cursor 0; arguments that do not encode make none. |
| `RoundTrip.ReceiveCommand` | packages/client/lib/RESP/decoder.ts:100-131 | The same when the encoded bytes arrive in any other chunks. |
| `RoundTrip.Receive` | packages/client/lib/RESP/decoder.ts:100-264 | The decoder object, given any chunks of a stream of well-formed messages and pushes, reports each once and in order, and is ready for the next. |
| `RoundTrip.ReceiveDouble` | packages/client/lib/RESP/decoder.ts:377-442 | The decoder object, given a printed double in any chunks, reports exactly the double that is meant, or its text under a mapping to strings. |
| `LinkedList.DoublyLinkedList.Push` | packages/client/lib/client/linked-list.ts:28-44 | Appends; links stay mutually inverse and the length exact. |
| `LinkedList.DoublyLinkedList.Unshift` | packages/client/lib/client/linked-list.ts:46-62 | Prepends. |
| `LinkedList.DoublyLinkedList.InsertAfter` | packages/client/lib/client/linked-list.ts:64-74 | Inserts right behind the given node. |
| `LinkedList.DoublyLinkedList.Shift` | packages/client/lib/client/linked-list.ts:82-95 | Removes the head and returns its value; the node counts as removed from then on. |
| `LinkedList.DoublyLinkedList.Remove` | packages/client/lib/client/linked-list.ts:97-125 | Removes exactly the node's position; on a node that already left, by `shift` or `remove`, nothing changes. |
| `LinkedList.DoublyLinkedList.Reset` | packages/client/lib/client/linked-list.ts:127-130 | Empties the list. |
| `LinkedList.SinglyLinkedList.Push` | packages/client/lib/client/linked-list.ts:175-189 | Appends. |
| `LinkedList.SinglyLinkedList.Remove` | packages/client/lib/client/linked-list.ts:191-211 | Given the true predecessor, removes exactly the node's position; throws and changes nothing on a removed node. |
| `LinkedList.SinglyLinkedList.Shift` | packages/client/lib/client/linked-list.ts:213-225 | Removes the head and returns its value. |
| `CommandsQueue.RedisCommandsQueue.InsertAtFront` | packages/client/lib/client/commands-queue.ts:422-433 | The walk along the chain in execution ends where `FrontIndex` says and inserts there. |
| `CommandsQueue.RedisCommandsQueue.AddCommand` | packages/client/lib/client/commands-queue.ts:441-480 | Admits a command with its prelude or rejects both; where it is queued and what is listened to. |
| `CommandsQueue.RedisCommandsQueue.AddBatch` | packages/client/lib/client/commands-queue.ts:522-560 | The loop admits the longest prefix there is room for, as one block at the end, and rejects it whole if a listener cannot be armed. |
| `CommandsQueue.RedisCommandsQueue.RejectCommand` | packages/client/lib/client/commands-queue.ts:392-415 | Removes the command and the members that go with a batch head, and settles them. |
| `CommandsQueue.RedisCommandsQueue.Fire` | packages/client/lib/client/commands-queue.ts:364-390 | A timer or abort signal: nothing on a started batch, otherwise the command or its whole batch is rejected. |
| `CommandsQueue.RedisCommandsQueue.CommandsToWrite` | packages/client/lib/client/commands-queue.ts:811-856 | One turn of the generator: commands that do not encode are rejected, the next is written with its prelude first. |
| `CommandsQueue.RedisCommandsQueue.OnReply` | packages/client/lib/client/commands-queue.ts:255-262 | Settles the first waiting request, or reports it to the prelude. |
| `CommandsQueue.RedisCommandsQueue.OnPush` | packages/client/lib/client/commands-queue.ts:264-288 | Counts a status push off the first waiting request and settles it with the last; a message push consumes nothing. |
| `CommandsQueue.RedisCommandsQueue.FlushWaitingForReply` | packages/client/lib/client/commands-queue.ts:898-912 | Rejects what waits and the unwritten tail of the chain in execution. |
| `CommandsQueue.RedisCommandsQueue.FlushAll` | packages/client/lib/client/commands-queue.ts:914-922 | Rejects everything. |
| `CommandsQueue.RedisCommandsQueue.ExtractCommandsForSlots` | packages/client/lib/client/commands-queue.ts:946-972 | The walk stops at the first migrating command of the chain in execution and takes the migrating ones before it, in order. |
| `CommandsQueue.RedisCommandsQueue.PrependCommandsToWrite` | packages/client/lib/client/commands-queue.ts:1018-1068 | The commands, last first, are put behind the tail of the batch in execution, dropped or rejected if they were settled or cancelled on the way. |
| `QueueBlocks.CompanionsOfBlock` | packages/client/lib/client/commands-queue.ts:392-415 | Where batches are whole, what is rejected with a head is the rest of its batch, no more and no less. |
| `QueueBlocks.FrontIsACut` | packages/client/lib/client/commands-queue.ts:422-433 | The insertion point of `asap` and prepended commands is never inside a batch. |
| `QueueBlocks.SelectWhole` | packages/client/lib/client/commands-queue.ts:946-972 | Selecting by slot takes batches whole and leaves whole batches. |
| `QueueRuns.StepKeepsInv` | packages/client/lib/client/commands-queue.ts:140-1068 | Every operation, with any reply, push, signal or loss in between, keeps conservation, the pairing of requests and replies, preludes in front of their commands, and the listeners. |
| `QueueRuns.RunKeepsInv` | packages/client/lib/client/commands-queue.ts:140-1068 | So does every run. |
| `QueueAdmission.AddedInItsPlace` | packages/client/lib/client/commands-queue.ts:441-480 | A command is queued exactly when there is room for it and its prelude, no signal has fired and the listener can be armed; at the end, or `asap` right behind the tail in execution; and its timer and signal are listened to. |
| `QueueAdmission.AsapIsWrittenNext` | packages/client/lib/client/commands-queue.ts:422-433 | With no chain in execution an `asap` command that encodes is the next one written. |
| `QueueAdmission.BatchFillsTheRoom` | packages/client/lib/client/commands-queue.ts:522-560 | The first commands of a batch are queued, as many as there is room for, in order, at the end, on its chain and slot; none of them, but rejected, if the listener cannot be armed. |
| `QueueAdmission.ListeningIsKept` | packages/client/lib/client/commands-queue.ts:364-390 | As long as a command is queued its listeners stay, whatever happens to others, except the one that fires on a batch in execution. |
| `QueueAdmission.SignalsCancel` | packages/client/lib/client/commands-queue.ts:364-415 | In every run, the timer or signal of a command queued on its own takes it out of the queue and settles it as timed out or aborted. |
| `QueueAdmission.RejectedOnesAreDropped` | packages/client/lib/client/commands-queue.ts:1018-1068 | Commands whose promise was rejected on the way are dropped as if they had not come. |
| `QueueGuarantees.AnswerReachesItsOwn` | packages/client/lib/client/commands-queue.ts:255-262 | Against a server answering in wire order, a reply settles the command it answers, which was not settled before; a prelude's outcome is reported before its command is settled and never settles it. |
| `QueueGuarantees.ServerAnswersInWireOrder` | packages/client/lib/client/commands-queue.ts:836-856 | In every run, what the server still owes is the end of what the commands on the wire ask of it (a reply per prelude, then a reply or as many status pushes as channels), in the order in which they were written. |
| `QueueGuarantees.PushReachesItsOwn` | packages/client/lib/client/commands-queue.ts:264-288 | The push of a subscription with one channel left settles it; an earlier one settles nothing, leaves one less to come and moves no other request. |
| `QueueDelivery.SubscriptionIsSettledByItsLastPush` | packages/client/lib/client/commands-queue.ts:264-288 | A subscription of n channels, written when nothing waits, is unsettled after fewer than n status pushes and resolved by the n-th. |
| `QueueDelivery.AllAnswersDeliver` | packages/client/lib/client/commands-queue.ts:255-288 | Once the server has answered all it owes, nothing waits, every command it answered is resolved and every prelude told so, and nothing settled before has changed. |
| `QueueDelivery.HealthyConnectionResolvesEverything` | packages/client/lib/client/commands-queue.ts:811-856 | From any reachable state with encodable commands: write all that is queued and let the server answer all it owes, and every queued and every waiting command is resolved. |
| `QueueOutcomes.StepSettlesForCause` | packages/client/lib/client/commands-queue.ts:255-415 | A step changes no settled promise, and settles one only for the reason of its outcome: resolved by a good reply or the last push that is its own, timed out by a timer, and so on for all seven. |
| `QueueOutcomes.EveryOutcomeHasItsCause` | packages/client/lib/client/commands-queue.ts:255-415 | In every run each settled promise was given the reason for its outcome by some step. |
| `QueueOutcomes.LossRejectsWhatWaits` | packages/client/lib/client/commands-queue.ts:858-922 | With the connection everything that waits is rejected and every waiting prelude told of a failure; of the queue, the leading commands of the chain in execution are rejected, or all of it by a flush, and the rest stays. |
| `QueueGuarantees.RunsConserveCommands` | packages/client/lib/client/commands-queue.ts:441-1068 | In every run each admitted command is exactly once in to-write, waiting, handed out or settled, and nothing else is anywhere. |
| `QueueGuarantees.CancelledIsNeverWritten` | packages/client/lib/client/commands-queue.ts:364-415 | In every run a written command was not timed out, aborted or unencodable, and no timer or abort signal has an effect on it. |
| `QueueGuarantees.CancelRemovesTheBatch` | packages/client/lib/client/commands-queue.ts:392-415 | Cancelling a batch that has not started removes and settles exactly its block, with the outcome of the signal. |
| `QueueGuarantees.RunsNeverSplitABatch` | packages/client/lib/client/commands-queue.ts:522-560 | In every run with encodable arguments, what each connection carried holds batches, told apart by their head, contiguous, in order and from their first command, cut short only where the connection ends. |
| `QueueBatches.BatchReachesOneConnection` | packages/client/lib/client/commands-queue.ts:522-560 | In every run with encodable arguments, the commands that one `addBatch` admits reach at most one connection: the first ones of them, in order and behind one another, and all of them unless the connection carried nothing more. |
| `QueueBatches.BatchIsWrittenWholeExactlyWhenItEncodes` | packages/client/lib/client/commands-queue.ts:811-838 | In any state, a batch is written whole behind what is queued exactly when all its admitted commands encode; the others are left out and the rest keeps its order. |
| `QueueGuarantees.LossRejectsTheRest` | packages/client/lib/client/commands-queue.ts:898-912 | A connection lost in the middle of a batch has the rest of it at the front of the queue; all of it is rejected and none stays queued. |
| `QueueGuarantees.PrependPlaces` | packages/client/lib/client/commands-queue.ts:1018-1068 | Prepended commands that survive end up, in their order, right behind the tail of the batch in execution and in front of everything else. |
| `QueueGuarantees.ArriveInPlace` | packages/client/lib/client/commands-queue.ts:1018-1068 | The queue after a migration is the tail in execution, the surviving commands, the rest; batches stay whole. |
| `QueueGuarantees.ExtractionPartitions` | packages/client/lib/client/commands-queue.ts:946-972 | Where the chain in execution is only that of the queued tail, extraction takes nothing if that tail migrates and otherwise exactly the matching commands, in order, batches whole. |
| `QueueChains.MigrationIsAPartition` | packages/client/lib/client/commands-queue.ts:946-972 | In every run whose batches have chain ids of their own, the partition of the row above holds. |
| `QueueCapacity.RunsKeepWithinCapacity` | packages/client/lib/client/commands-queue.ts:216-227 | In every run of `addCommand` and `addBatch` the pending count is at most the maximum without preludes and at most twice the maximum less one with them. |
| `QueueCapacity.WritingStaysWithin` | packages/client/lib/client/commands-queue.ts:840-851 | From any state whose queue encodes, writing it out stays within a bound exactly when what waits and what is queued, preludes counted, is within it. |
| `QueueCapacity.MaximumIsKeptExactlyWhenAllFits` | packages/client/lib/client/commands-queue.ts:216-227 | A run, with its queue written out from any moment, stays within the configured maximum exactly when each addition passed the check that counts preludes before it was made. |
| `QueueCapacity.PreludesReachTheDoubleBound` | packages/client/lib/client/commands-queue.ts:840-851 | For every maximum above 0 some run with preludes has twice the maximum less one pending. |
| `ClientSideCache.BasicClientSideCache.DeleteFromKeyIndex` | packages/client/lib/client/cache.ts:902-916 | The cache key leaves the index set of each of its keys, and empty sets leave the index. |
| `ClientSideCache.BasicClientSideCache.Delete` | packages/client/lib/client/cache.ts:893-900 | The entry is marked and leaves all three maps. |
| `ClientSideCache.BasicClientSideCache.DeleteOldest` | packages/client/lib/client/cache.ts:980-992 | The first key of the map goes. |
| `ClientSideCache.BasicClientSideCache.Set` | packages/client/lib/client/cache.ts:922-951 | An old entry is marked, a full cache makes room, and the new entry is in all three maps. |
| `ClientSideCache.BasicClientSideCache.Get` | packages/client/lib/client/cache.ts:872-889 | A hit exactly when the key is stored, its entry not marked and its time not over; otherwise a stored entry is marked and out of all maps. A hit becomes the newest under LRU. |
| `ClientSideCache.BasicClientSideCache.Invalidate` | packages/client/lib/client/cache.ts:831-852 | Exactly the entries that list the key are marked and leave all three maps, which stay in agreement. |
| `ClientSideCache.BasicClientSideCache.Clear` | packages/client/lib/client/cache.ts:854-870 | All three maps are emptied; no entry is marked. |
| `ClientSideCache.BasicClientSideCache.StartCall` | packages/client/lib/client/cache.ts:712-765 | `handleCache` up to its `await`: the stored entry exactly when it is not marked and its time not over, and otherwise the new promise entry, with the old one marked; with the state of the run model after it. |
| `ClientSideCache.BasicClientSideCache.FinishCall` | packages/client/lib/client/cache.ts:766-794 | `handleCache` after its `await`: for an entry that is marked or past its time nothing changes; otherwise the value is stored, or the entry goes, or, for a waiter that failed, stays; as the run model does. |
| `CacheSpec.SetAgrees` | packages/client/lib/client/cache.ts:922-951 | `set` keeps the maps in agreement and the size within the maximum. |
| `CacheSpec.DeleteAgrees` | packages/client/lib/client/cache.ts:893-900 | `delete` keeps the maps in agreement. |
| `CacheSpec.GetAgrees` | packages/client/lib/client/cache.ts:872-889 | `get` keeps the maps in agreement. |
| `CacheSpec.InvalidateAgrees` | packages/client/lib/client/cache.ts:831-852 | `invalidate` keeps the maps in agreement. |
| `CacheRuns.StepTracks` | packages/client/lib/client/cache.ts:712-951 | Every step keeps agreement, the order of touch and, unless it is a `clear` during a load, freshness. |
| `CacheRuns.RunsKeepTheMapsInAgreement` | packages/client/lib/client/cache.ts:817-951 | In every run: a cache key is in a Redis key's set exactly when that key is in its list, entries and lists have the same domain, no index set is empty, the size is within the maximum. |
| `CacheRuns.NothingStaleIsStored` | packages/client/lib/client/cache.ts:712-852 | In every run whose `clear`s find no pending load that depends on a key, no stored entry depends on a Redis key invalidated after its load was issued. |
| `CacheRuns.NothingStaleWithoutClear` | packages/client/lib/client/cache.ts:712-852 | So nothing stale is stored in any run without `clear`. |
| `CacheRuns.ClearIsHarmlessExactlyWhenCalm` | packages/client/lib/client/cache.ts:854-870 | A `clear` is harmless, whatever follows it, exactly when no load that depends on a Redis key is pending. |
| `CacheRuns.ClearDuringALoadStoresStale` | packages/client/lib/client/cache.ts:854-858 | Whenever a load is pending, `clear`, an invalidation and the completion store a stale value. |
| `CacheRuns.CallIsPending` | packages/client/lib/client/cache.ts:747-765 | One call on an empty cache leaves a load pending. |
| `CacheRuns.TheOldestIsEvicted` | packages/client/lib/client/cache.ts:980-992 | In every run a full cache evicts exactly one key for a new one, and every other key was touched (inserted, or hit under LRU) after it. |
| `CacheGuarantees.CallIsGiven` | packages/client/lib/client/cache.ts:712-752 | A call is given the stored entry exactly when its time is not over, with nothing changed, and otherwise a new load issued now, with the old entry marked. |
| `CacheGuarantees.NothingServedPastItsTime` | packages/client/lib/client/cache.ts:565-589 | In every run with a clock, what a call is given is younger than the time to live. |
| `CacheGuarantees.CompletionSettlesTheEntry` | packages/client/lib/client/cache.ts:753-794 | When a load is over, its entry gives way to a value of the same age or to nothing; only a waiter that failed leaves it. |
| `CacheGuarantees.InvalidationTakesTheDependents` | packages/client/lib/client/cache.ts:831-852 | An invalidation takes exactly the entries whose calls read the key, marks them, and keeps the others in order. |
| `CacheGuarantees.OnlyAFullCacheEvicts` | packages/client/lib/client/cache.ts:922-951 | Below the maximum, and on replacing an entry, nothing is evicted. |
| `CacheKey.GenerateCacheKey` | packages/client/lib/client/cache.ts:465-483 | The loop over the arguments fills lengths and contents and joins them. |
| `CacheKey.KeysTellArgumentsApart` | packages/client/lib/client/cache.ts:465-483 | Two argument lists, of any lengths and any mix of strings and Buffers, have the same key exactly when they are equal. |
| `TypeAwareCopy.Copier.Copy` | packages/client/lib/client/cache.ts:508-563 | Terminates on every heap, cycles included; the heap is only extended, every container met is copied in full, and the result stands for the value. |
| `TypeAwareCopy.Copier.CopyArray` | packages/client/lib/client/cache.ts:518-525 | The slot loop: holes stay holes. |
| `TypeAwareCopy.Copier.CopyMap` | packages/client/lib/client/cache.ts:527-534 | The entry loop: copies of different keys are different, so no entry is lost. |
| `TypeAwareCopy.Copier.CopySet` | packages/client/lib/client/cache.ts:536-543 | The item loop: copies of different items are different, so no item is lost. |
| `TypeAwareCopy.Copier.CopyObject` | packages/client/lib/client/cache.ts:545-558 | The field loop: same names, same order. |
| `TypeAwareCopy.Copied` | packages/client/lib/client/cache.ts:508-563 | A copy of any value of any closed heap. |
| `TypeAwareCopy.CopyReadsTheSame` | packages/client/lib/client/cache.ts:508-563 | Every path leads to the same kind, size, names and contents in the copy as in the source, or nowhere in both. |
| `TypeAwareCopy.CopyKeepsSharing` | packages/client/lib/client/cache.ts:506-516 | Two paths meet at the same container in the copy exactly when they do in the source. |
| `TypeAwareCopy.CopySharesNothing` | packages/client/lib/client/cache.ts:506-516 | No container and no Buffer of the copy is in the source, and the source is unchanged. |
| `PubSubClient.PubSub.Subscribe` | packages/client/lib/client/pub-sub.ts:143-184 | Joins confirmed channels at once and logs a request for the others. |
| `PubSubClient.PubSub.ResolveSubscribe` | packages/client/lib/client/pub-sub.ts:187-208 | Registers the listener on the channels asked for, unless a move carried the request away. |
| `PubSubClient.PubSub.RejectSubscribe` | packages/client/lib/client/pub-sub.ts:209-213 | Only drops the request from the log. |
| `PubSubClient.PubSub.Unsubscribe` | packages/client/lib/client/pub-sub.ts:308-325 | Flags the entries of the channels and logs the request. |
| `PubSubClient.PubSub.ResolveUnsubscribe` | packages/client/lib/client/pub-sub.ts:399-405 | Deletes the channels, unless a move carried the request away. |
| `PubSubClient.PubSub.RejectUnsubscribe` | packages/client/lib/client/pub-sub.ts:406-421 | Lifts the flag of each entry that no other request in flight deletes, unless carried. |
| `PubSubClient.PubSub.StillLeaving` | packages/client/lib/client/pub-sub.ts:428-433 | True exactly if a request in the log flagged the entry. |
| `PubSubClient.PubSub.RemoveAllListeners` | packages/client/lib/client/pub-sub.ts:532-564 | Replays the log onto the listeners in order of issue, marks every request carried, unflags and hands over the entries, and is left empty. |
| `PubSubRuns.StepKeepsInv` | packages/client/lib/client/pub-sub.ts:113-433 | Every step keeps: the live listeners are what settled requests made plus what those in flight joined; an entry is flagged exactly while a request in flight deletes it; replies find their requests in order. |
| `PubSubRuns.LogAndListenersAgree` | packages/client/lib/client/pub-sub.ts:113-129 | At every moment of every run whose replies succeed, the live listeners with the log replayed onto them are the fold of all operations issued. |
| `PubSubRuns.ReplayIsWanted` | packages/client/lib/client/pub-sub.ts:113-129 | The same with replies that fail: what failed counts for the channels it had joined. |
| `PubSubRuns.MovesLoseNothing` | packages/client/lib/client/pub-sub.ts:532-564 | A move hands over exactly the listeners asked for, on exactly the channels that have any, none of them flagged. |
| `PubSubRuns.LateRepliesChangeNothing` | packages/client/lib/client/pub-sub.ts:187-205 | After a move, any late replies to what it carried change nothing on the client it left. |
| `PubSubRuns.MovedClientStaysEmpty` | packages/client/lib/client/pub-sub.ts:532-564 | After a move the client has no listener and nothing in flight, and stays so through any late replies. |
| `PubSubLosses.JoinerIsLostExactlyWhenLeaving` | packages/client/lib/client/pub-sub.ts:143-165 | In any state, a listener that joins a confirmed channel at once is lost to the replies in flight exactly when an unsubscribe from the channel is among them. |
| `PubSubLosses.UnsubscribeExposesExactlyWhen` | packages/client/lib/client/pub-sub.ts:308-325 | In any state, an unsubscribe lets later joiners of its channel be lost exactly when, as it is issued, a subscribe in flight asks for the channel: any such one if the channel is not confirmed, one behind another unsubscribe from it if it is. |
| `PubSubLosses.RunsExposeNobody` | packages/client/lib/client/pub-sub.ts:308-325 | Unsubscribes from confirmed channels that are not leaving expose nobody. |
| `PubSubLosses.RunsLoseNobody` | packages/client/lib/client/pub-sub.ts:143-165 | In a run whose unsubscribes are such, no listener that joins is lost to what is in flight. |
| `ClientPool.RedisClientPool.Connect` | packages/client/lib/client/pool.ts:440-447 | Opens the pool and makes `minimum` members. |
| `ClientPool.RedisClientPool.Create` | packages/client/lib/client/pool.ts:461-469 | A new member counts as in use while it connects. |
| `ClientPool.RedisClientPool.Terminate` | packages/client/lib/client/pool.ts:463-467 | A member whose socket ends for good is marked; it keeps its place until it is used or returned. |
| `ClientPool.RedisClientPool.ConnectFailed` | packages/client/lib/client/pool.ts:473-489 | Removes the member; with none left, a closing or replacing pool gives its waiting tasks up and signals the drain. |
| `ClientPool.RedisClientPool.Execute` | packages/client/lib/client/pool.ts:494-555 | Skips terminated idle members; an idle member runs it, or it waits and the pool grows if it may. |
| `ClientPool.RedisClientPool.ReturnClient` | packages/client/lib/client/pool.ts:587-621 | Ignores destroyed members, replaces terminated ones, serves the first waiting task, or goes idle and signals the drain. |
| `ClientPool.RedisClientPool.Cleanup` | packages/client/lib/client/pool.ts:632-639 | Destroys idle members from the front, as many as are above the minimum. |
| `ClientPool.RedisClientPool.Close` | packages/client/lib/client/pool.ts:690-698 | Asks for a close, once. |
| `ClientPool.RedisClientPool.DoClose` | packages/client/lib/client/pool.ts:700-755 | One segment of a close; one that began before a `destroy` leaves the pool alone. |
| `ClientPool.RedisClientPool.Destroy` | packages/client/lib/client/pool.ts:757-800 | Empties the lists, marks the members in use, rejects what waits and ends any close. |
| `PoolRuns.StepKeepsInv` | packages/client/lib/client/pool.ts:440-800 | Every step keeps the placement of members, the bound, the order of tasks and the state of the close. |
| `PoolRuns.PoolIsSafe` | packages/client/lib/client/pool.ts:440-639 | In every run: a member is idle, connecting or leased, and in one of these only; no task has two members; the total is at most max(minimum, maximum); no task waits while a member is idle; tasks start in the order of submission. |
| `PoolRuns.LeaseIsKept` | packages/client/lib/client/pool.ts:494-621 | A task keeps its member through every step but its own end. |
| `PoolRuns.CleanupStopsAtTheMinimum` | packages/client/lib/client/pool.ts:632-639 | What cleanup leaves: the minimum, or the members in use if they are more; nothing changes at or below the minimum. |
| `PoolRuns.DrainIsSignalledWhenQuiet` | packages/client/lib/client/pool.ts:587-621 | The drain is signalled only with nothing in use and nothing waiting, and a close waiting for the drain always has a member in use to wait for. |
| `PoolRuns.MembersNeverComeBack` | packages/client/lib/client/pool.ts:757-800 | A member that was destroyed or closed is never in use again and takes no other task. |
| `PoolService.MembersStay` | packages/client/lib/client/pool.ts:440-800 | A member that was not terminated stays in the pool through every step but the failure of its connection, a cleanup, the end of a close and `destroy`. |
| `PoolService.ReturnedMemberServes` | packages/client/lib/client/pool.ts:587-621 | A good member that is connected or done takes the first waiting task, or is last in the idle list. |
| `PoolService.ReturnedMemberIsReplaced` | packages/client/lib/client/pool.ts:591-602 | A terminated one leaves, and a new member is made if a task waits. |
| `PoolService.OpenedPoolHasItsMinimum` | packages/client/lib/client/pool.ts:440-469 | `connect` makes the minimum of members, and once they are connected, in any order, all are idle. |
| `PoolService.ExecuteServes` | packages/client/lib/client/pool.ts:494-555 | A task is taken by the first idle member that was not terminated; if there is none it waits last in line, and a member is made if there is room. |
| `PoolService.TasksWaitOrStart` | packages/client/lib/client/pool.ts:494-639 | No step loses a waiting task: it waits on or starts, unless it gives up, the pool is destroyed, or the failing member was the last one. |
| `PoolService.GivenUp` | packages/client/lib/client/pool.ts:508-517 | Giving up takes that task and no other, in order. |
| `PoolService.FailureGivesUpExactlyWhenNobodyIsLeft` | packages/client/lib/client/pool.ts:473-489 | A failed connection takes its member, and the waiting tasks exactly when the pool closes or the member was a replacement, and nobody else is in use. |
| `PoolService.NobodyIsForgottenInARun` | packages/client/lib/client/pool.ts:440-800 | In every run, a member that leaves the pool has been closed or destroyed, unless its connection failed. |
| `PoolService.NoMemberIsForgotten` | packages/client/lib/client/pool.ts:632-639 | The same for one step; and cleaning up takes the members that are idle longest. |
| `PoolService.CloseGetsThere` | packages/client/lib/client/pool.ts:690-755 | A close drains while members are in use, then closes all idle members, and leaves the pool closed and empty. |
| `PoolService.TheLastOneSignals` | packages/client/lib/client/pool.ts:587-621 | While a close drains, a member that goes idle, leaves or fails signals its end exactly if it is the last in use. |

## Left out

- QueueGuarantees.ExtractionPartitions: asks that no other queued command has the chain of the tail in execution; `QueueChains.MigrationIsAPartition` has this in every run whose batches have chain ids of their own. Chains that `addCommand` callers share (handshake, ASKING) are not batches and may be cut by extraction.
- QueueGuarantees.RunsNeverSplitABatch: for encodable arguments; a member that does not encode is rejected alone, and its batch goes out without it.
- QueueCapacity.RunsKeepWithinCapacity: for runs without Pub/Sub commands and prepending, which the source admits without asking for room.
- QueueCapacity.MaximumIsKeptExactlyWhenAllFits: for the same runs, with encodable arguments; what does not encode takes up room only until its turn comes.
- QueueBatches.BatchReachesOneConnection: a command that comes back from another client after extraction comes back as it was handed out.
- QueueBatches.BatchIsWrittenWholeExactlyWhenItEncodes: with nothing between the writes; what cancellation, loss and migration do to a batch is for the rows about whole runs.
- CommandsQueue.RedisCommandsQueue.RejectCommand: the `onCancel` callback of a batch head.
- CommandsQueue.RedisCommandsQueue.OnPush: whether a push is a status is a parameter; sharded unsubscribes sent by the server and counters that are not numbers are left out.
- QueueDelivery.HealthyConnectionResolvesEverything: for encodable commands; the good answers come after the writes, in the server's order, with no other step between.
- QueueAdmission.SignalsCancel: for commands that are neither of a batch nor subscriptions, which have no signals; for the head of a batch `ListeningIsKept` and `QueueGuarantees.CancelRemovesTheBatch` say the same of one step.
- Doubles.PrintedIsRead: exponents; what `Number(...)` makes of them is arbitrary in the model.
- ClientSideCache.BasicClientSideCache.Invalidate: sets of cache keys are values, so the source's deletion from a set while iterating over it is a loop over what the set held.
- CacheRuns.NothingStaleIsStored: the Redis keys of a call are a function of its cache key, and keys are compared as they are on the wire.
- PubSubRuns.LogAndListenersAgree: for whole-channel unsubscribes; argument-less, listener-specific and sharded ones sent by the server are not modelled.
- TypeAwareCopy.Copied: an object of another class is one opaque node that `structuredClone` copies; what it refers to and what cannot be cloned are left out.
- ClientPool.RedisClientPool.Connect: that a failed first connection destroys the pool; `Destroy` may come at any time.
- ClientPool.RedisClientPool.Execute: `_rejectQueued` and the members it abandons are left out, and so is which error a caller sees.
- PoolRuns.DrainIsSignalledWhenQuiet: about the drain that members signal; a close that finds nothing in use does not wait for it, even with tasks left behind by failed connections.
- Decoder.Decoder.Write: lengths below `-1` of sets, maps and strings, which the source reads as empty, and exceptions thrown by callbacks; so do `WriteAll`, `Return` and `HandleDecodedValue`.
- Decoder.Decoder.DecodeUnsignedNumber: numbers above 2^53, where the source's sums round.
- Decoder.Decoder.DecodeSetAsSet: the insertions, in order; equal elements are not merged.
- Decoder.Decoder.DecodeMapEntries: the insertions, in order; equal keys are not merged.
- Decoder: RESP3 attributes and `__proto__` keys.
- Command queue: `setMaintenanceCommandTimeout`, RESP2 decoder swapping, MONITOR, RESET, `extractAllCommands`, the type mapping of each command. A status push while the first request is no subscription does nothing in the model; the server of the runs never sends one.
- Cache: statistics, events, eligibility (`resolveCacheIntent`), pooled providers, and the encoding of keys for the index.
- Pub/Sub: `isActive`, `#subscribing`, resubscription, message dispatch, and listeners taken over from another client.
- Pool: client errors, re-entrant callbacks during `destroy`, scheduling of the cleanup timer.
- Linked lists: `nodes` and the iterators, which the models of the callers walk as sequences. The pool's and the queue's lists are sequences there.
- Sockets, TLS, DNS, cluster slots, sentinel, multi-db, HIMPORT, command definitions, tracing and credentials.
