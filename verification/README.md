# Pion SCTP data path and DataChannel send protocol, modelled in Dafny

This project models the part of a WebRTC bridge that carries DataChannel traffic and
proves what that part promises. It has two halves.

The transport is a patched SCTP association. A sender keeps chunks in flight between its
cumulative ack point and its next TSN. A receiver keeps a window of received TSNs in a ring of
64-bit words and reports it as SACKs. Messages are cut into fragments, scheduled, bundled
into packets and reassembled out of order. Abandoned messages are skipped with FORWARD-TSN.

The bridge puts a queue in front of every DataChannel. Many `dc:send` calls, one sender
goroutine and one close with its drain must together answer every item exactly once. A
registry owns the handles and deletes them with all their descendants.

`dafny verify dfyconfig.toml` checks everything.

| file | content |
|---|---|
| `Options.dfy`, `Serial.dfy`, `Bits.dfy`, `Sets.dfy` | optional values; serial number arithmetic; 64-bit words; counting sets and ascending lists |
| `GapBlocks.dfy`, `ReceiveWindow.dfy`, `ReceiveQueue.dfy`, `WindowRuns.dfy` | the receive window as a set and as a ring of words, and its gap blocks |
| `RingQueue.dfy`, `Inflight.dfy`, `Forward.dfy`, `Sack.dfy` | the in-flight queue, SACK processing, FORWARD-TSN |
| `Transport.dfy` | sender, receiver and network as one system |
| `Fragments.dfy`, `ChunkSets.dfy`, `Unordered.dfy`, `DataQueue.dfy`, `MidQueue.dfy` | fragmenting, and the two reassembly queues |
| `Delivery.dfy`, `Mailing.dfy`, `Exchange.dfy` | delivery by message number, one message after another and over whole runs |
| `LinePool.dfy`, `Reassembly.dfy`, `MidPool.dfy`, `MidReassembly.dfy` | the two queues deliver so, over whole runs |
| `MessagePolicy.dfy`, `RoundRobin.dfy`, `Wfq.dfy`, `Scheduler.dfy`, `Bundling.dfy` | scheduling, bundling and burst budget |
| `Rack.dfy`, `WindowedMin.dfy`, `Timers.dfy`, `WriteGate.dfy` | loss detection, timers, the blocking-write gate |
| `DcSend.dfy`, `Forest.dfy`, `Registry.dfy`, `Cleanup.dfy` | the send protocol and the registry |

## How it is modelled

Objects that the code updates in place are classes, and each method is proved against a
value: the ring of words against a value that then refines a set of TSNs, the in-flight queue
against a sequence, the reassembly queues against values that refine delivery by message
number, the scheduler against its tag table, the linked list against a sequence of nodes. Concurrent
parts are state machines whose actions are the atomic steps of the program, and their
theorems speak of every run. Integer widths are modelled where they matter: TSNs, message
identifiers and sequence numbers wrap, the gap-block counter is 16 bits and the timer's
pending counter 8. Float64 scheduler tags are reals.

Clock readings, network arrivals, the application's writes and map iteration order are
parameters or free choices. `sort.Slice` is modelled as insertion of the new last element,
which is what sorting gives on keys that are distinct and lie in half the serial space.
Sequence numbers, message identifiers and TSNs are followed over a whole run as unbounded
integers. Where the code compares two of them, their wire values decide as the numbers would,
because what is compared at one time is taken to be less than half the number space apart; a
run as a whole has no such bound.

## Promises the code does not keep everywhere

Each is stated with the exact condition under which it holds.

- The window's bitmap is injective only for ring lengths that divide 2^26, or away from 2^32
  (`ReceiveWindow.SlotsDistinctIff`, `ReceiveQueue.FaithfulIff`); the default buffer is not
  such a length (`ReceiveQueue.DefaultRingAliases`). Across 2^32 it can then acknowledge a TSN
  that never came (`WindowRuns.CumulativeLies`, `Transport.FalseAck`).
- The in-flight lookup compares raw TSNs and loses sight of chunks past 2^32
  (`Inflight.GetIff`). A SACK with a gap block reaching across it is refused
  (`Transport.RefusedIff`), and FORWARD-TSN can stop inside a message there
  (`Forward.CutIff`).
- SACK processing pops before it can fail, so a SACK that is refused after popping leaves the
  in-flight interval broken (`Sack.Sender.ApplySack`), and the ack point never moves again
  (`Transport.RefusalIsFinal`).
- A gap block ending at 65535 is always refused, because the loop counter wraps
  (`Sack.Sender.MarkGap`).
- FORWARD-TSN reports unordered chunks too, and can make the peer skip an ordered message that
  was not abandoned (`Forward.SkipsOnlyIff`).
- A stream registered again under an id whose bytes are still on their way does not account for
  them (`Sack.Sender.GetOrCreateStream`).
- The reassembly queue counts the bytes of a repeated ordered chunk again
  (`DataQueue.ReassemblyQueue.PushOrdered`, `DataQueue.CountDrifts`).
- Full-size fragments fit a packet only if 4 divides the MTU (`Bundling.FullSizeFits`).
- A push between Peek and Pop can break the order of scheduler tags (`Wfq.StaleIff`); fairness
  then holds with a wider bound (`Wfq.Fairness`).
- The timer's pending counter decides right exactly unless the count is one more than a
  positive multiple of 256 (`Timers.ByteCounts`), and that count can be reached
  (`Timers.CountComesRound`). The closed form of the back-off is doubling with a ceiling exactly
  if 31 doublings reach the ceiling (`Timers.BackoffIsRule`).
- An empty message, or a window probe that leaves a reset marker behind, shuts the
  blocking-write gate for good (`WriteGate.ReopensIff`, `WriteGate.ShutsIff`).
- Overlapping threshold updates can leave the send goroutine waiting for a callback that does
  not come (`DcSend.StrandedIff`, `DcSend.OverlappingSetsStrand`).

In `advanceCumulativeTSN` the test for an empty set after a partial clear is never true, since
the tail lies beyond what is cleared; it has no counterpart in the model.

## Model

| member | source | states |
|---|---|---|
| `Serial.Compare` | go/pion-sctp-patched/util.go:24-38 | Less is a forward distance strictly under half the circle, and greater is exactly the negation of less-or-equal, so the two disagree only at distance one half, which RFC 1982 leaves undefined |
| `Serial.Compare16` | go/pion-sctp-patched/util.go:44-58 | The same for 16-bit sequence numbers |
| `Serial.OffsetOrder` | go/pion-sctp-patched/util.go:24-38 | Around any base, on offsets less than half the space apart, the serial comparisons are the integer order |
| `Serial.WireOrder` | go/pion-sctp-patched/util.go:24-38 | For counters taken as unbounded integers less than half the space apart, comparing the wire values is comparing the counters |
| `Bits.SetBitAt` | go/pion-sctp-patched/receive_payload_queue.go:75-76 | Setting bit i of a word makes bit i true and leaves every other bit |
| `Bits.ClearBitAt` | go/pion-sctp-patched/receive_payload_queue.go:89-90 | Clearing bit i makes bit i false and leaves every other bit |
| `Bits.TestBit` | go/pion-sctp-patched/receive_payload_queue.go:46-48 | The mask test is non-zero if and only if the bit is set |
| `Bits.MaskAt` | go/pion-sctp-patched/receive_payload_queue.go:131-148 | The mask of n bits at an offset has exactly those bits |
| `Bits.CountMasked` | go/pion-sctp-patched/receive_payload_queue.go:131-148 | The population count of a masked word is the number of set bits in the masked range |
| `Bits.FirstNonZeroBit` | go/pion-sctp-patched/receive_payload_queue.go:241-245 | The first set bit at or after start, and none when there is none |
| `Bits.FirstZeroBit` | go/pion-sctp-patched/receive_payload_queue.go:247-249 | The first clear bit at or after start, and none when there is none |
| `GapBlocks.RunsExact` | go/pion-sctp-patched/receive_payload_queue.go:158-212 | The reference list of gap blocks is in order, never adjacent, and covers exactly the received offsets |
| `GapBlocks.ExactUnique` | go/pion-sctp-patched/receive_payload_queue.go:158-212 | There is only one such list, so the specification of gap blocks leaves no choice |
| `ReceiveWindow.SlotsDistinctIff` | go/pion-sctp-patched/receive_payload_queue.go:41-49 | Distinct TSNs of the window have distinct ring slots if and only if the ring length divides 2^26, or the window does not reach across 2^32, or it lies just after it |
| `ReceiveWindow.Collision` | go/pion-sctp-patched/receive_payload_queue.go:41-49 | Whenever that condition fails, two TSNs of the window that share a bit |
| `ReceiveQueue.DefaultRingAliases` | go/pion-sctp-patched/receive_payload_queue.go:22-83 | The default 1 MiB buffer gives 132 words, and then, wherever the window reaches across 2^32, there is a TSN whose arrival makes hasChunk answer for an earlier one that never came |
| `ReceiveWindow.GetMaxTSNOffset` | go/pion-sctp-patched/association.go:1816-1821 | The window size lies between the two configured bounds for every buffer size, and is the quotient wherever that does; the product wraps at 32 bits |
| `ReceiveQueue.ReceivePayloadQueue.constructor` | go/pion-sctp-patched/receive_payload_queue.go:22-29 | A ring of whole words covering at least the requested offset, all clear |
| `ReceiveQueue.ReceivePayloadQueue.Init` | go/pion-sctp-patched/receive_payload_queue.go:31-39 | The ring is empty above any given cumulative TSN |
| `ReceiveQueue.ReceivePayloadQueue.HasChunk` | go/pion-sctp-patched/receive_payload_queue.go:41-49 | Answers as the words, the tail and the cumulative TSN say, for every ring |
| `ReceiveQueue.ReceivePayloadQueue.CanPush` | go/pion-sctp-patched/receive_payload_queue.go:51-59 | True exactly when a push would take the TSN |
| `ReceiveQueue.ReceivePayloadQueue.Push` | go/pion-sctp-patched/receive_payload_queue.go:63-83 | On every ring: sets exactly the bit of an accepted TSN, moves count and tail, and records exactly the duplicates |
| `ReceiveQueue.ReceivePayloadQueue.Pop` | go/pion-sctp-patched/receive_payload_queue.go:86-104 | On every ring: one step if the bit is set or the pop is forced |
| `ReceiveQueue.ReceivePayloadQueue.AdvanceCumulativeTSN` | go/pion-sctp-patched/receive_payload_queue.go:108-129 | On every ring: the word-by-word clearing equals clearing TSN by TSN, with count and tail |
| `ReceiveQueue.ReceivePayloadQueue.ClearTSNRange` | go/pion-sctp-patched/receive_payload_queue.go:131-148 | Clears and counts as clearing TSN by TSN would, whichever words the range spans |
| `ReceiveQueue.ReceivePayloadQueue.ClearWord` | go/pion-sctp-patched/receive_payload_queue.go:131-148 | One masked word of that range |
| `ReceiveQueue.ReceivePayloadQueue.PopDuplicates` | go/pion-sctp-patched/receive_payload_queue.go:151-156 | Hands the recorded duplicates over and forgets them |
| `ReceiveQueue.ReceivePayloadQueue.SeekStart` | go/pion-sctp-patched/receive_payload_queue.go:171-182 | One scan step for the start of a run, also when the first and last logical words share a physical word |
| `ReceiveQueue.ReceivePayloadQueue.SeekEnd` | go/pion-sctp-patched/receive_payload_queue.go:183-208 | One scan step for the end of a run |
| `ReceiveQueue.ReceivePayloadQueue.GetGapAckBlocks` | go/pion-sctp-patched/receive_payload_queue.go:158-212 | Terminates and returns exactly the first min(maxBlocks, n) maximal runs of set bits up to the tail |
| `ReceiveQueue.ReceivePayloadQueue.CreateSack` | go/pion-sctp-patched/association.go:3715-3738 | All gap blocks and all duplicates, or as many, gap blocks first, that one entry more would not fit the MTU or the 16-bit chunk length; within both of them, for any MTU of at least 28; the advertised window is the credit left |
| `ReceiveQueue.GetMyReceiverWindowCredit` | go/pion-sctp-patched/association.go:2403-2414 | The credit and what all streams have queued modulo 2^32 make up the buffer; a full buffer has no credit, in whatever order the streams are added up |
| `ReceiveQueue.HasRefines` | go/pion-sctp-patched/receive_payload_queue.go:41-49 | Where slots are distinct, hasChunk is membership in the set of received TSNs, for every 32-bit argument |
| `ReceiveQueue.PushRefines` | go/pion-sctp-patched/receive_payload_queue.go:63-83 | Where slots are distinct, a push on the ring is a push on the set |
| `ReceiveQueue.PopRefines` | go/pion-sctp-patched/receive_payload_queue.go:86-104 | Into a window where slots are distinct, a pop on the ring is a pop on the set |
| `ReceiveQueue.AdvanceRefines` | go/pion-sctp-patched/receive_payload_queue.go:108-148 | Into a window where slots are distinct, advancing the ring forgets exactly the TSNs passed |
| `ReceiveQueue.GapsRefine` | go/pion-sctp-patched/receive_payload_queue.go:158-212 | Where slots are distinct, the gap blocks are the maximal runs of received TSNs |
| `ReceiveQueue.FaithfulIff` | go/pion-sctp-patched/receive_payload_queue.go:41-83 | Receiving one TSN makes hasChunk answer for that one alone, for every pair of TSNs of the window, if and only if slots are distinct over it |
| `ReceiveQueue.Alias` | go/pion-sctp-patched/receive_payload_queue.go:41-83 | Otherwise a TSN that hasChunk answers for after only a later one came |
| `WindowRuns.StepExact` | go/pion-sctp-patched/receive_payload_queue.go:31-148 | On the set: each operation keeps the window equal to what was accepted and not passed |
| `WindowRuns.RunExact` | go/pion-sctp-patched/receive_payload_queue.go:31-148 | On the set, over every run of push, pop, forced pop and advance: the window holds exactly the accepted TSNs not yet passed, none is accepted twice, and every TSN passed was accepted or skipped |
| `WindowRuns.AcceptsIff` | go/pion-sctp-patched/receive_payload_queue.go:52-83 | After any run a push is answered true for exactly the TSNs of the window that were not accepted before |
| `WindowRuns.CumulativeMeansReceived` | go/pion-sctp-patched/association.go:2351-2373 | Of the ring, over every run without forced moves in which slots stay distinct: the cumulative TSN covers only TSNs that arrived |
| `WindowRuns.RingRunRefines` | go/pion-sctp-patched/receive_payload_queue.go:31-148 | As long as slots stay distinct, every run of the ring accepts what the run on the set accepts and stands for the same set |
| `WindowRuns.RingExact` | go/pion-sctp-patched/receive_payload_queue.go:41-148 | Over every such run hasChunk answers for exactly the accepted TSNs not passed, chunkSize counts them, and none is accepted twice |
| `WindowRuns.CumulativeLies` | go/pion-sctp-patched/receive_payload_queue.go:63-104 | With 132 words one arrival and one pop across 2^32 move the cumulative TSN over a TSN that never came |
| `RingQueue.Queue.constructor` | go/pion-sctp-patched/queue.go:15-24 | Empty, with at least the minimum and the requested capacity |
| `RingQueue.Queue.PushBack` | go/pion-sctp-patched/queue.go:30-35 | Appends to the sequence, growing first if the ring is full |
| `RingQueue.Queue.PopFront` | go/pion-sctp-patched/queue.go:37-45 | Removes and returns the first element of the sequence |
| `RingQueue.Queue.Len` | go/pion-sctp-patched/queue.go:26-28 | The length of the sequence |
| `RingQueue.Queue.Front` | go/pion-sctp-patched/queue.go:47-49 | The first element of the sequence |
| `RingQueue.Queue.Back` | go/pion-sctp-patched/queue.go:51-53 | The last element of the sequence, across the wrap of the ring |
| `RingQueue.Queue.At` | go/pion-sctp-patched/queue.go:55-57 | Indexing of the sequence |
| `RingQueue.Queue.GrowIfFull` | go/pion-sctp-patched/queue.go:59-74 | Reallocation keeps the sequence and leaves room |
| `Inflight.GetIff` | go/pion-sctp-patched/payload_queue.go:33-44 | For every 32-bit offset, get finds the chunk if and only if it is in flight and the stretch from the head to it does not cross 2^32, because its guard compares raw TSNs |
| `Inflight.PayloadQueue.PushNoCheck` | go/pion-sctp-patched/payload_queue.go:15-18 | Appends, with nBytes still the sum of the unacknowledged data |
| `Inflight.PayloadQueue.Pop` | go/pion-sctp-patched/payload_queue.go:21-30 | Removes the oldest chunk if and only if it has the given TSN, with nBytes exact |
| `Inflight.PayloadQueue.MarkAsAcked` | go/pion-sctp-patched/payload_queue.go:46-57 | The one chunk get finds becomes acknowledged and not to be resent, and its data is given up and reported; its TSN, stream, SSN, message and flags stay, and so does every other chunk |
| `Inflight.PayloadQueue.MarkAllToRetransmit` | go/pion-sctp-patched/payload_queue.go:59-67 | Marks every chunk that is neither acknowledged nor abandoned, and no other |
| `Forward.SkippedKept` | go/pion-sctp-patched/association.go:2860-2864 | Step C1 of section 3.5 of RFC 3758: after any SACK every TSN up to the advanced point is still abandoned and the advanced point is not behind the ack point |
| `Forward.ReachSkipped` | go/pion-sctp-patched/association.go:2866-2876 | Step C2 passes only abandoned chunks; without interleaving it stops on the last fragment of a message or at TSN 2^32 - 1 |
| `Forward.ReachFar` | go/pion-sctp-patched/association.go:2866-2876 | Step C2 passes abandoned chunks only, and stops only at one that is not, at the end or at 2^32 |
| `Forward.CutIff` | go/pion-sctp-patched/association.go:2866-2876 | Step C2 ends inside a message if and only if TSN 2^32 - 1 is in flight, does not end its message, and everything up to it is abandoned |
| `Forward.CutExists` | go/pion-sctp-patched/association.go:2866-2876 | Two fragments of one abandoned message on both sides of 2^32 are such a case |
| `Forward.ReportsNext` | go/pion-sctp-patched/association.go:2992-2999 | One more chunk keeps the report: each stream once, with its serial-greatest SSN |
| `Forward.SkipsOnlyIff` | go/pion-sctp-patched/association.go:2983-3013 | A FORWARD-TSN makes the peer skip no ordered message that was not abandoned if and only if every unordered chunk passed over was numbered before each such message |
| `Forward.SkipsTooMuch` | go/pion-sctp-patched/association.go:2986-2999 | An abandoned unordered message in front of the first ordered one makes the peer skip that one |
| `Sack.Sender.constructor` | go/pion-sctp-patched/association.go:762-783 | Starts with nothing in flight and no stream, the ack point one before the initial TSN |
| `Sack.Sender.GetOrCreateStream` | go/pion-sctp-patched/association.go:2475-2492 | Finds or registers the stream; the stream accounts then balance if and only if the stream was known or no bytes of an earlier one of its id are queued or in flight |
| `Sack.Sender.DropStream` | go/pion-sctp-patched/association.go:3324-3334 | Forgetting a reset stream keeps every invariant |
| `Sack.AddUp` | go/pion-sctp-patched/association.go:2813-2816 | The total over streams does not depend on the order of the map |
| `Sack.Sender.PopAcked` | go/pion-sctp-patched/association.go:2511-2580 | Succeeds if and only if the cumulative ack covers only TSNs in flight; pops exactly those; credits each stream with exactly what left |
| `Sack.Sender.MarkGap` | go/pion-sctp-patched/association.go:2586-2635 | Succeeds if and only if the block lies in flight, does not cross 2^32 and ends before 65535, where the 16-bit counter wraps; then exactly the chunks it names are acknowledged, and no other changes |
| `Sack.Sender.MarkGaps` | go/pion-sctp-patched/association.go:2585-2635 | The same for all blocks, overlapping or not, chunk by chunk; bytes credited and bytes in flight balance stream by stream |
| `Sack.Sender.OnBufferReleased` | go/pion-sctp-patched/stream.go:516-544 | Clamps if and only if more is released than buffered, and calls back exactly when the low-water mark is crossed downwards |
| `Sack.Sender.Release` | go/pion-sctp-patched/association.go:2829-2835 | With true accounts the clamp never fires: every stream is released exactly its own bytes, in any order |
| `Sack.Sender.ApplySack` | go/pion-sctp-patched/association.go:2497-2638 | Acceptable if and only if it names only sent, findable TSNs; then exactly the TSNs after it stay in flight, of these exactly those its gap blocks name are acknowledged, the acked total is the drop in nBytes, and no clamp fires. Otherwise an error, after which the in-flight interval is intact if and only if nothing was popped |
| `Sack.Sender.HandleSack` | go/pion-sctp-patched/association.go:2776-2883 | A stale SACK changes nothing; an acceptable one acknowledges exactly what it names, keeps in-flight = (ack point, next TSN), the stream accounts and the FORWARD-TSN invariant, calls back exactly the streams that crossed their low-water mark, and advances the peer point as far as steps C1 and C2 go |
| `Sack.Sender.Write` | go/pion-sctp-patched/stream.go:443-444 | Queued bytes are buffered bytes: the accounts stay exact |
| `Sack.Sender.Send` | go/pion-sctp-patched/association.go:3352-3384 | The chunk takes the next TSN; in-flight TSNs stay exactly (ack point, next TSN); with or without interleaving |
| `Sack.Sender.Abandon` | go/pion-sctp-patched/association.go:3575-3616 | Giving a message up keeps every invariant |
| `Sack.Sender.AdvancePeer` | go/pion-sctp-patched/association.go:2866-2881 | The loop over get goes exactly as far as step C2 goes, and FORWARD-TSN is sent if and only if the point is ahead of the ack point |
| `Sack.Sender.OnT3` | go/pion-sctp-patched/association.go:3937-3977 | A T3 expiry keeps all invariants and marks exactly the chunks that are neither acknowledged nor abandoned |
| `Sack.Sender.CreateForwardTSN` | go/pion-sctp-patched/association.go:2983-3015 | Reports the advanced point and exactly the streams passed over, each with an SSN it carried, and with the serial-greatest one where its SSNs lie in half the serial space |
| `Transport.StepKeeps` | go/pion-sctp-patched/association.go:2351-2638 | With the receiver deciding by its ring: every step of sender, receiver and network into a state where slots are distinct keeps that the ring stands for what was received, and that what is popped, marked or said in a packet was received or abandoned |
| `Transport.GapsReceived` | go/pion-sctp-patched/association.go:3732-3732 | Where the ring stands for what was received, a gap list cut to any length names only received TSNs |
| `Transport.RingOkIff` | go/pion-sctp-patched/receive_payload_queue.go:31-83 | The condition on the ring is that no two TSNs of its window share a bit; ring lengths that divide 2^26 always meet it |
| `Transport.NoFalseAcks` | go/pion-sctp-patched/association.go:2497-2638 | Over every run with loss, duplication and reordering in which slots stay distinct, every chunk the sender pops or marks was received by the peer or abandoned by the sender |
| `Transport.AckPointsMonotone` | go/pion-sctp-patched/association.go:2788-2806 | Over every such run neither cumulative point moves back, and the sender's never passes the receiver's |
| `Transport.RefusedIff` | go/pion-sctp-patched/association.go:2586-2591 | Over every such run a SACK that is not stale covers only sent TSNs, and is refused if and only if one of its gap blocks reaches across 2^32 |
| `Transport.RefusalIsFinal` | go/pion-sctp-patched/association.go:2511-2591 | After a refused SACK that popped anything the ack point never moves again, in any run |
| `Transport.SackTaken` | go/pion-sctp-patched/association.go:2776-2883 | A SACK that is not stale moves the ack point and marks all it names if it is acceptable, and only pops otherwise |
| `Transport.CatchesUp` | go/pion-sctp-patched/association.go:2776-2883 | From every state that no refusal has broken, on a ring length that divides 2^26, there is a way on in which everything sent so far is received and acknowledged |
| `Transport.CatchesUpIff` | go/pion-sctp-patched/association.go:2497-2638 | On such a ring the sender can still have everything acknowledged if and only if no SACK was refused after popping |
| `Transport.GivesUp` | go/pion-sctp-patched/association.go:2983-3013 | And there is a way on in which everything unacknowledged is given up and passed over with nothing more arriving |
| `Transport.FalseAck` | go/pion-sctp-patched/receive_payload_queue.go:63-104 | A run with the default ring, from a first TSN of 2^32 - 1, in which the sender pops a chunk that was neither received nor abandoned |
| `Fragments.Stream.constructor` | go/pion-sctp-patched/association.go:2443-2451 | All sequence counters start at 0 |
| `Fragments.Stream.Packetize` | go/pion-sctp-patched/stream.go:370-447 | Sent unordered unless the stream is ordered or the payload type is that of channel establishment; the chunks join up to the message, all but the last are full, flags and fragment numbers are those of one message, and exactly one counter moves on |
| `Fragments.Stream.CutUp` | go/pion-sctp-patched/stream.go:394-433 | The fragmenting loop: pieces in order, none empty, none above the limit |
| `Fragments.Stream.RollBack` | go/pion-sctp-patched/stream.go:331-343 | Undoes exactly the counter and the bytes of a write |
| `Fragments.Stream.WriteSCTP` | go/pion-sctp-patched/stream.go:311-351 | A message above the limit, one on a stream that is not open and one the association refuses leave the stream as it was, each with its own error; any other is cut into its fragments and counted |
| `ChunkSets.InsertSorts` | go/pion-sctp-patched/reassembly_queue.go:13-29 | Inserting a chunk with a new key into a sorted list in half the serial space is sorting |
| `ChunkSets.IsComplete` | go/pion-sctp-patched/reassembly_queue.go:76-119 | Decides: first and last flags on the ends and keys one by one |
| `ChunkSets.CompleteIff` | go/pion-sctp-patched/reassembly_queue.go:156-185 | A set of fragments of one message is complete if and only if all of them are there, and then it is the message |
| `ChunkSets.InsertPick` | go/pion-sctp-patched/reassembly_queue.go:58-74 | A fragment takes its own place whatever arrived before it |
| `ChunkSets.CopyOut` | go/pion-sctp-patched/reassembly_queue.go:556-564 | Copies the joined bytes, and reports a short buffer if and only if they are longer than the buffer |
| `Unordered.FindComplete` | go/pion-sctp-patched/reassembly_queue.go:392-437 | Finds a whole message among the chunks if and only if there is one |
| `Unordered.ArrivalCompletes` | go/pion-sctp-patched/reassembly_queue.go:392-451 | What is found is a message that was sent, the arriving chunk is its last missing part, and cutting it out leaves the other messages as they were, none of them whole |
| `Unordered.ArrivalWaits` | go/pion-sctp-patched/reassembly_queue.go:435-437 | If nothing is found, the message of the arriving chunk is not there in full |
| `DataQueue.ReassemblyQueue.constructor` | go/pion-sctp-patched/reassembly_queue.go:208-225 | Empty, expecting SSN 0 |
| `DataQueue.ReassemblyQueue.PushToSet` | go/pion-sctp-patched/reassembly_queue.go:58-74 | A TSN already there changes nothing; otherwise the chunk is put in order and the answer is whether the set is whole |
| `DataQueue.ReassemblyQueue.FindSet` | go/pion-sctp-patched/reassembly_queue.go:271-289 | The first set of the chunk's SSN, if both are fragmented |
| `DataQueue.ReassemblyQueue.PushOrdered` | go/pion-sctp-patched/reassembly_queue.go:265-302 | Does on the queue what PushOrderedTo does on its value, for every chunk: an SSN behind is ignored, a TSN already in the found set changes no set and completes nothing. The byte count, right before, is right after if and only if the chunk was ignored, its TSN was new or it is empty |
| `DataQueue.ReassemblyQueue.Push` | go/pion-sctp-patched/reassembly_queue.go:233-302 | The dispatch on stream and order: a chunk of another stream is ignored |
| `DataQueue.SetChosen` | go/pion-sctp-patched/reassembly_queue.go:271-289 | A whole message in one chunk gets a set of its own; a fragment joins the first set of its SSN that is not such a message |
| `DataQueue.PushKeeps` | go/pion-sctp-patched/reassembly_queue.go:265-302 | An ordered push leaves no empty set, and the stored bytes grow by exactly the chunk unless its TSN was there |
| `DataQueue.CountDrifts` | go/pion-sctp-patched/reassembly_queue.go:300-302 | A chunk received twice is held once and counted twice |
| `DataQueue.ReassemblyQueue.PushUnordered` | go/pion-sctp-patched/reassembly_queue.go:246-263 | Inserts, cuts out a whole message if and only if there is one, and keeps nBytes equal to the stored total |
| `DataQueue.ReassemblyQueue.IsReadable` | go/pion-sctp-patched/reassembly_queue.go:468-484 | True exactly when a read would deliver |
| `DataQueue.ReassemblyQueue.Read` | go/pion-sctp-patched/reassembly_queue.go:540-581 | Delivers the bytes and payload type of the head set and removes it, or says why not and changes nothing; a short buffer is told the length needed; a right byte count stays right |
| `DataQueue.ReassemblyQueue.ForwardTSNForOrdered` | go/pion-sctp-patched/reassembly_queue.go:583-606 | Drops exactly the incomplete sets up to the SSN and gives back exactly their bytes |
| `DataQueue.ReassemblyQueue.ForwardTSNForUnordered` | go/pion-sctp-patched/reassembly_queue.go:608-627 | Drops exactly the leading chunks up to the TSN and gives back exactly their bytes |
| `ChunkSets.DropChunks` | go/pion-sctp-patched/reassembly_queue.go:591-593 | Chunk by chunk subtraction, saturating at each step, is one saturating subtraction of their total |
| `DataQueue.KeptIff` | go/pion-sctp-patched/reassembly_queue.go:586-600 | No incomplete set up to the SSN survives and every other set does |
| `Delivery.InOrder` | go/pion-sctp-patched/reassembly_queue.go:233-606 | By message number, over every run of arrivals, reads and skips: messages are delivered in order, whole and once, and each one below next was delivered, is held whole or was given up incomplete |
| `Delivery.NextReady` | go/pion-sctp-patched/reassembly_queue.go:472-480 | Whenever the message expected next is whole, something can be delivered |
| `Delivery.Reliable` | go/pion-sctp-patched/reassembly_queue.go:233-581 | Without skips exactly the messages 0, 1, 2, ... up to next have been delivered |
| `Reassembly.PushRefines` | go/pion-sctp-patched/reassembly_queue.go:265-302 | With other messages in the queue and SSNs in half their space, an ordered chunk is an arrival by number, and the answer is whether its message is now whole |
| `Reassembly.ReadRefines` | go/pion-sctp-patched/reassembly_queue.go:540-581 | A read of the ordered half is a delivery by number, and gives the message's own bytes and payload type |
| `Reassembly.ForwardRefines` | go/pion-sctp-patched/reassembly_queue.go:583-606 | A FORWARD-TSN up to an SSN gives up, by number, what is not whole |
| `LinePool.PacketizedIsLoose` | go/pion-sctp-patched/stream.go:370-447 | What packetize cuts, sent unordered under consecutive TSNs from any number on, is a message the receiver can rely on |
| `LinePool.LooseNext` | go/pion-sctp-patched/stream.go:370-447 | Any number of such messages may follow one another |
| `LinePool.LineNumbered` | go/pion-sctp-patched/reassembly_queue.go:246-263 | The chunks of all unordered messages, in the order sent, ascend in TSN, however long the run |
| `LinePool.MailIsSegment` | go/pion-sctp-patched/reassembly_queue.go:392-437 | Every unordered message sent is a whole message on that line |
| `LinePool.SegmentIsMail` | go/pion-sctp-patched/reassembly_queue.go:392-437 | Every whole message on that line is one that was sent |
| `LinePool.PushRefinesLine` | go/pion-sctp-patched/reassembly_queue.go:246-263 | An unordered chunk is an arrival by number: a message is cut out if and only if it was the last fragment missing, and it is that message with its payload type |
| `LinePool.DropRefinesLine` | go/pion-sctp-patched/reassembly_queue.go:608-627 | A FORWARD-TSN gives up exactly the fragments numbered at or before it |
| `LinePool.ReadRefinesLine` | go/pion-sctp-patched/reassembly_queue.go:540-581 | An unordered message read has the bytes and payload type that were sent |
| `Exchange.FirstFair` | go/pion-sctp-patched/reassembly_queue.go:233-660 | Whatever is first to come, to be read or to be given up is within the assumptions on a run |
| `Exchange.StepOk` | go/pion-sctp-patched/reassembly_queue.go:233-660 | The model by messages: whatever arrives, is read or is given up, ordered messages are delivered in order and unordered ones once, and what came is delivered, held or given up |
| `Exchange.Orderly` | go/pion-sctp-patched/reassembly_queue.go:233-660 | What is delivered was delivered in order if ordered, once, and whole |
| `Exchange.ReliableModel` | go/pion-sctp-patched/reassembly_queue.go:233-660 | With nothing given up, ordered messages are delivered 0, 1, 2, ..., and once nothing is left to deliver every unordered message that came in full has been |
| `Reassembly.PacketizedIsInTurn` | go/pion-sctp-patched/stream.go:370-447 | What packetize cuts, under consecutive TSNs and the SSN of its turn, is a message the receiver can rely on |
| `Reassembly.Progress` | go/pion-sctp-patched/reassembly_queue.go:233-627 | Whatever chunk, read or FORWARD-TSN comes, the queue has a next state |
| `Reassembly.RunRefines` | go/pion-sctp-patched/reassembly_queue.go:233-627 | Over every run from empty, mixing arrivals in any order, reads and FORWARD-TSNs, the queue delivers what the model by messages delivers |
| `Reassembly.RoundTrip` | go/pion-sctp-patched/reassembly_queue.go:233-581 | Fragments of messages cut by packetize, ordered and unordered, arriving in any order and mixed, pushed and read: what is read are the original bytes and payload types; ordered messages in order, every message once and only when whole |
| `Reassembly.ReliableRoundTrip` | go/pion-sctp-patched/reassembly_queue.go:233-581 | With nothing given up, the ordered messages read are the first ones sent, and when nothing is readable everything that came in full has been read, up to the first gap |
| `MidQueue.ChunkSetMID.PushAndCheck` | go/pion-sctp-patched/reassembly_queue.go:136-154 | A complete set takes no more, a fragment number is taken once, and the answer is whether the set is now whole |
| `MidQueue.MidQueue.constructor` | go/pion-sctp-patched/reassembly_queue.go:208-225 | Empty, expecting identifier 0 |
| `MidQueue.MidQueue.Search` | go/pion-sctp-patched/reassembly_queue.go:31-34 | Binary search under serial order finds the place of the identifier |
| `MidQueue.MidQueue.AddSet` | go/pion-sctp-patched/reassembly_queue.go:362-366 | List and map keep holding the same sets, the list in order |
| `MidQueue.MidQueue.PushInto` | go/pion-sctp-patched/reassembly_queue.go:368-375 | Updating a set through the map is updating it in the list, with nBytes exact |
| `MidQueue.MidQueue.PushOrdered` | go/pion-sctp-patched/reassembly_queue.go:350-376 | Old identifiers are ignored, the entry limit is an error that changes nothing, and otherwise exactly one set gains the chunk; list and map agree, nBytes is the stored total |
| `MidQueue.MidQueue.PushNew` | go/pion-sctp-patched/reassembly_queue.go:359-376 | The first chunk of a message opens its set at its place |
| `MidQueue.MidQueue.IsReadable` | go/pion-sctp-patched/reassembly_queue.go:453-466 | True exactly when a read would deliver: an unordered message is whole, or the least ordered one is complete and due |
| `MidQueue.MidQueue.Read` | go/pion-sctp-patched/reassembly_queue.go:495-538 | Delivers a whole unordered message first, else the least ordered one if it is whole and due; the ordered number delivered is greater than every one before, the payload type is that of the first fragment, and no subtraction saturates |
| `MidQueue.MidQueue.DropFirst` | go/pion-sctp-patched/reassembly_queue.go:522-538 | The set read leaves list and map, and the next identifier moves if it was its own |
| `MidQueue.MidQueue.PushUnordered` | go/pion-sctp-patched/reassembly_queue.go:317-348 | Ignored while a whole message has its identifier; the limit over map and list is an error that changes nothing; otherwise its set takes it or not, and moves to the list when whole; bytes exact |
| `MidQueue.MidQueue.PushInPool` | go/pion-sctp-patched/reassembly_queue.go:325-347 | The chunk goes into the set of its identifier, old or new |
| `MidQueue.MidQueue.HasQueued` | go/pion-sctp-patched/reassembly_queue.go:382-390 | Whether a whole unordered message has the identifier |
| `MidQueue.MidQueue.ForwardTSNUnordered` | go/pion-sctp-patched/reassembly_queue.go:651-660 | Drops exactly the incomplete unordered messages up to the identifier, whatever the order of the map |
| `MidQueue.PushToKeeps` | go/pion-sctp-patched/reassembly_queue.go:317-348 | A push counts exactly the bytes taken and keeps each set under its identifier |
| `MidQueue.MidQueue.Filter` | go/pion-sctp-patched/reassembly_queue.go:630-644 | The filtering loop with deletion from the map keeps list, map and byte count in agreement |
| `MidQueue.MidQueue.ForwardTSN` | go/pion-sctp-patched/reassembly_queue.go:629-649 | Drops exactly the incomplete sets up to the identifier and moves past it |
| `MidQueue.LiveKept` | go/pion-sctp-patched/reassembly_queue.go:629-649 | After it no incomplete set below the next identifier survives, for live identifiers in half the serial space |
| `MidPool.PacketizedIsPosted` | go/pion-sctp-patched/stream.go:370-447 | What packetize cuts is a message the receiver can rely on, whatever its TSNs and the payload types of its later fragments |
| `MidPool.PushRefinesPool` | go/pion-sctp-patched/reassembly_queue.go:317-348 | An unordered I-DATA chunk is an arrival by number, and completes its message exactly if it was the last one missing |
| `MidPool.DropRefinesPool` | go/pion-sctp-patched/reassembly_queue.go:651-660 | Giving up by identifier is giving up by number, in half the identifier space |
| `MidPool.ReadRefinesPool` | go/pion-sctp-patched/reassembly_queue.go:498-531 | An unordered message read has its own bytes and payload type |
| `MidReassembly.PushRefinesMid` | go/pion-sctp-patched/reassembly_queue.go:350-376 | An ordered I-DATA chunk is an arrival by number |
| `MidReassembly.ReadRefinesMid` | go/pion-sctp-patched/reassembly_queue.go:501-537 | A read of the ordered half is a delivery by number, with the message's own bytes and payload type |
| `MidReassembly.ForwardRefinesMid` | go/pion-sctp-patched/reassembly_queue.go:629-649 | Giving up by identifier is giving up by number |
| `MidReassembly.NumbersNear` | go/pion-sctp-patched/reassembly_queue.go:350-376 | In a fair run every identifier compared is in half the identifier space, which is what the methods of the queue ask for |
| `MidReassembly.Progress` | go/pion-sctp-patched/reassembly_queue.go:305-660 | Whatever chunk short of the limit, read or I-FORWARD-TSN comes, the queue has a next state |
| `MidReassembly.RunRefines` | go/pion-sctp-patched/reassembly_queue.go:305-660 | Over every run from empty the interleaving queue delivers what the model by messages delivers |
| `MidReassembly.RoundTripMid` | go/pion-sctp-patched/reassembly_queue.go:305-538 | Fragments arriving in any order and interleaved, pushed and read: what is read are the original bytes and payload types; ordered messages in order, every message once and only when whole |
| `MidReassembly.ReliableMid` | go/pion-sctp-patched/reassembly_queue.go:305-538 | With nothing given up, the ordered messages read are the first ones sent, and when nothing is readable every unordered message that came in full has been read |
| `Wfq.LeastUnique` | go/pion-sctp-patched/pending_queue.go:325-336 | At most one stream has the least (tag, id): the choice does not depend on map order |
| `Wfq.PushOk` | go/pion-sctp-patched/pending_queue.go:294-312 | A push keeps tags ascending in its stream, at any time |
| `Wfq.ServeOk` | go/pion-sctp-patched/pending_queue.go:347-372 | Serving the least head keeps every queued tag at or after the virtual time |
| `Wfq.ServeOkIff` | go/pion-sctp-patched/pending_queue.go:347-372 | Serving any stream, chosen now or earlier, keeps queued tags within the lag if and only if no head is more than the lag ahead of the one served |
| `Wfq.StaleIff` | go/pion-sctp-patched/pending_queue.go:314-317 | Pushes between Peek and Pop break the order of tags if and only if one of them wakes an idle stream with a chunk that would finish before the chosen one |
| `Wfq.RunOk` | go/pion-sctp-patched/pending_queue.go:294-372 | Over every run, with pushes between Peek and Pop too, queued tags are never more than the lag behind the virtual time; the lag is 0 if no push woke a stream ahead of a choice |
| `Wfq.Tags` | go/pion-sctp-patched/pending_queue.go:307-310 | Every queued tag is at least the virtual time v less the lag, and a backlogged stream's head start tag lies in [v - L/w - lag, v] |
| `Wfq.HeadMoves` | go/pion-sctp-patched/pending_queue.go:294-372 | While a stream is backlogged, its head start tag moves by the bytes served over its weight, and by no more than the head catches up |
| `Wfq.OneStream` | go/pion-sctp-patched/pending_queue.go:294-372 | A backlogged stream keeps up with the virtual time to within one chunk and the lag |
| `Wfq.Fairness` | go/pion-sctp-patched/pending_queue.go:294-372 | For two streams backlogged throughout an interval, bytes served over the configured weight, or over 1, differ by at most Lmax_i/w_i + Lmax_j/w_j and twice the lag, the cost of the largest chunk chosen before an idle stream woke ahead of it |
| `Wfq.StaleChoice` | go/pion-sctp-patched/pending_queue.go:314-317 | Such a push: a queued tag of 1 left behind the virtual time 100 |
| `RoundRobin.RunOk` | go/pion-sctp-patched/pending_queue.go:204-257 | Over every run the order lists every backlogged stream once and no other |
| `RoundRobin.Alternate` | go/pion-sctp-patched/pending_queue.go:204-257 | Two streams that stay backlogged take turns strictly |
| `RoundRobin.Fairness` | go/pion-sctp-patched/pending_queue.go:204-257 | Over any interval in which two streams are backlogged throughout, their turns differ by at most one |
| `RoundRobin.RoundRobin.constructor` | go/pion-sctp-patched/pending_queue.go:190-202 | No stream, no choice |
| `RoundRobin.RoundRobin.PushChunk` | go/pion-sctp-patched/pending_queue.go:204-215 | Queues the chunk; a stream that was idle joins the end of the order; a remembered choice stands |
| `RoundRobin.RoundRobin.Peek` | go/pion-sctp-patched/pending_queue.go:217-228 | The head chunk of the stream whose turn it is |
| `RoundRobin.RoundRobin.Pop` | go/pion-sctp-patched/pending_queue.go:230-257 | Without a choice it is an error; it succeeds exactly for the head of the stream whose turn it is, which then goes to the end of the order or, if empty, out of it |
| `Scheduler.WeightedFairQueueing.constructor` | go/pion-sctp-patched/pending_queue.go:278-292 | Zero weights are dropped |
| `Scheduler.WeightedFairQueueing.Push` | go/pion-sctp-patched/pending_queue.go:294-312 | The chunk goes last in its stream, with a tag of its length over the configured weight past the later of the virtual time and the stream's last tag; with or without a choice this is the enqueue step on the value |
| `Scheduler.WeightedFairQueueing.Peek` | go/pion-sctp-patched/pending_queue.go:314-345 | Whatever order the streams are visited in, chooses the least head, and keeps a remembered choice |
| `Scheduler.WeightedFairQueueing.Pop` | go/pion-sctp-patched/pending_queue.go:347-372 | Without a choice it is an error; it succeeds exactly for the head of the chosen stream, and then serves that stream |
| `MessagePolicy.PendingQueue.PushMessage` | go/pion-sctp-patched/pending_queue.go:76-84 | A message pushed whole keeps its class in push order and both counters exact |
| `MessagePolicy.PendingQueue.Peek` | go/pion-sctp-patched/pending_queue.go:86-100 | There is a next chunk if and only if anything is queued: that of the open message, else the first unordered one, else the first ordered one |
| `MessagePolicy.PendingQueue.Drain` | go/pion-sctp-patched/pending_queue.go:86-160 | Popping what peek returns for as long as it returns anything empties both queues and sends each class whole and in push order |
| `MessagePolicy.PendingQueue.Pop` | go/pion-sctp-patched/pending_queue.go:102-160 | Succeeds if and only if the chunk is the next of the open message, or begins one at the head of its queue, and so for what peek returns; the output is whole messages one after the other, each class in push order, and both counters stay exact. Otherwise an error, after which the head of the queue looked at is lost unless the chunk was refused outright |
| `MessagePolicy.MessageUnbroken` | go/pion-sctp-patched/pending_queue.go:102-160 | In the output a message once begun goes on without a break, so its fragments get consecutive TSNs |
| `Bundling.Size` | go/pion-sctp-patched/chunk_payload_data.go:307-319 | A chunk in a packet is its header of 16 or 20 bytes and its data, padded to a multiple of 4 by less than 4 |
| `Bundling.FullSizeFits` | go/pion-sctp-patched/association.go:1883-1887 | A full-size fragment fits a packet if and only if 4 divides the MTU |
| `Bundling.Bundle` | go/pion-sctp-patched/association.go:3499-3527 | Keeps chunks and order; no packet is empty or above the MTU if and only if every chunk fits alone; the length on the wire is what popping charged |
| `Bundling.AllowSpent` | go/pion-sctp-patched/association.go:4691-4711 | Charge plus remaining budget stay at the greater of the first budget and the first charge |
| `Bundling.BurstBound` | go/pion-sctp-patched/association.go:4691-4711 | Over any sequence of requests, what a burst lets through is at most max(budget, first charge), and a request is refused only if it would go beyond that |
| `Bundling.Sender.PopPending` | go/pion-sctp-patched/association.go:3410-3470 | In a burst begun or not: takes pending chunks in order until a window, the MTU or the budget holds the next one back; keeps within cwnd and rwnd; and charges exactly the wire length of the packets they bundle into |
| `Bundling.Sender.PopToSend` | go/pion-sctp-patched/association.go:3391-3493 | The same with the zero-window probe: one chunk, only if nothing is in flight and nothing could be sent |
| `Bundling.Sender.Reserve` | go/pion-sctp-patched/association.go:3645-3670 | Room for one more chunk, in the packet being filled or a new one: charged if it fits and the budget allows it, else nothing changes |
| `Bundling.FoundIff` | go/pion-sctp-patched/payload_queue.go:33-44 | A chunk in flight is found by the resending loops exactly when the in-flight queue finds its TSN |
| `Bundling.Sender.ResendTimedOut` | go/pion-sctp-patched/association.go:3622-3691 | Resends the marked chunks in order, each losing its mark and counting one more send, and stops at a chunk that can be found only if it is over the window or cannot be paid for, with the probe of a closed window; the burst is charged exactly |
| `Bundling.Sender.ResendFast` | go/pion-sctp-patched/association.go:1364-1480 | Resends the chunks reported missing three times and sent once, in order, each counting one more send, and stops at a chunk that can be found only if it is over the fast-retransmission window or cannot be paid for; the burst is charged exactly |
| `Bundling.Sender.Gather` | go/pion-sctp-patched/association.go:1631-1637 | A whole burst: every packet is within the MTU, and under loss recovery retransmissions, new data and fast retransmissions together are at most max(budget, one MTU) on the wire |
| `Rack.List.Insert` | go/pion-sctp-patched/association.go:4508-4521 | Appends to a well-formed doubly linked list; a listed chunk stays where it is |
| `Rack.List.Remove` | go/pion-sctp-patched/association.go:4523-4544 | Takes one chunk out of a well-formed doubly linked list and detaches it; an unlisted chunk is left alone |
| `Rack.List.Sent` | go/pion-sctp-patched/association.go:3361-3383 | With a clock that does not run back, a first transmission keeps the list sorted by send time |
| `Rack.List.Resent` | go/pion-sctp-patched/association.go:3674-3682 | A retransmission moves the chunk, listed or not, to the end of the sorted list |
| `Rack.List.Scan` | go/pion-sctp-patched/association.go:4292-4328 | Although it may stop early, marks exactly the listed chunks that are un-acked, not abandoned, unmarked, sent once and overdue, and unlists them |
| `WriteGate.OneMessageQueued` | go/pion-sctp-patched/association.go:3530-3572 | With non-empty payloads, over every run in which no window probe strands a reset marker, at most one writer's message is pending |
| `WriteGate.NoLostWakeup` | go/pion-sctp-patched/association.go:1189-1195 | Over every such run: whenever the gate is open and a writer waits, there is a token or a woken writer; and at rest with nothing queued nobody waits |
| `WriteGate.Conserved` | go/pion-sctp-patched/association.go:3391-3572 | Over every run data and markers queued are those sent and those still queued, and until a close a token wakes one writer |
| `WriteGate.Settled` | go/pion-sctp-patched/association.go:3530-3572 | A writer that has sent or failed does nothing more: a message is queued once |
| `WriteGate.CloseWakesAll` | go/pion-sctp-patched/association.go:1199-1207 | Closing wakes every waiter |
| `WriteGate.ReopensIff` | go/pion-sctp-patched/association.go:3487-3490 | A shut gate can be reopened by sending if and only if data is pending behind it |
| `WriteGate.EmptyMessageShuts` | go/pion-sctp-patched/association.go:3530-3572 | An empty payload shuts the gate for good |
| `WriteGate.MarkerShuts` | go/pion-sctp-patched/association.go:3473-3490 | A reset marker queued behind a writer's only chunk and a window probe of that chunk leave the gate shut |
| `WriteGate.InvStepIff` | go/pion-sctp-patched/association.go:3391-3493 | Every step keeps the gate's invariant except exactly a window probe that takes the last data and leaves a marker |
| `WriteGate.ShutsIff` | go/pion-sctp-patched/association.go:3473-3490 | From a working gate, that is the only step after which sending cannot reopen a shut one |
| `Timers.RunInv` | go/pion-sctp-patched/rtx_timer.go:172-233 | Over every run a started timer is armed, or has run out with a callback still to come; a timer not started is not armed; timeouts reported never exceed the limit |
| `Timers.NeverEarly` | go/pion-sctp-patched/rtx_timer.go:172-186 | An expiry is accepted only if the current arming has expired; a stale one racing stop and start is never accepted, and none after close |
| `Timers.LastOneCounts` | go/pion-sctp-patched/rtx_timer.go:172-186 | Of several expiries outstanding only the last to be handled counts |
| `Timers.FailsExactly` | go/pion-sctp-patched/rtx_timer.go:172-186 | Failure is reported after exactly maxRetrans accepted timeouts, and never with a limit of 0 |
| `Timers.AckOnce` | go/pion-sctp-patched/ack_timer.go:47-85 | A delayed-ack timer reports one timeout for each start and is then stopped; other expiries change nothing |
| `Timers.ByteCounts` | go/pion-sctp-patched/rtx_timer.go:132-146 | The 8-bit counter decides as the true count does for up to 256 outstanding, and in general if and only if the count is not one more than a positive multiple of 256 |
| `Timers.CountComesRound` | go/pion-sctp-patched/rtx_timer.go:132-146 | A run to 257 outstanding expiries, where the byte lets a stray one through before the current arming has run out |
| `Timers.RtxTimer.StartTimer` | go/pion-sctp-patched/rtx_timer.go:188-207 | Starts only when stopped, and counts the arming |
| `Timers.RtxTimer.StopTimer` | go/pion-sctp-patched/rtx_timer.go:211-221 | Un-counts exactly an expiry that has not fired |
| `Timers.RtxTimer.CloseTimer` | go/pion-sctp-patched/rtx_timer.go:225-233 | Closed for good, un-counting exactly an expiry that has not fired |
| `Timers.RtxTimer.Fire` | go/pion-sctp-patched/rtx_timer.go:188-207 | The runtime fires an armed timer: pending is unchanged, the arming becomes an expiry on its way |
| `Timers.RtxTimer.OnTimeout` | go/pion-sctp-patched/rtx_timer.go:172-186 | Does what the protocol step does while the byte counts right; with the byte come round, reports a timeout exactly if the timer is started, though the protocol would not |
| `Timers.BackoffIsRule` | go/pion-sctp-patched/rtx_timer.go:244-257 | The closed form is doubling up to the ceiling at each expiry (rule E2), for every number of expiries, if and only if 31 doublings reach the ceiling |
| `Timers.BackoffGrows` | go/pion-sctp-patched/rtx_timer.go:244-257 | It never shrinks with the number of retries |
| `WindowedMin.PruneRepresents` | go/pion-sctp-patched/windowedmin.go:33-48 | Cutting the old end off keeps every recent sample represented |
| `WindowedMin.PushRepresents` | go/pion-sctp-patched/windowedmin.go:51-65 | Dropping larger samples from the back loses no minimum, now or later |
| `WindowedMin.FrontIsMin` | go/pion-sctp-patched/windowedmin.go:68-76 | The front is the least recent sample |
| `WindowedMin.WindowedMin.Prune` | go/pion-sctp-patched/windowedmin.go:33-48 | The binary search finds exactly the samples older than the window |
| `WindowedMin.WindowedMin.Push` | go/pion-sctp-patched/windowedmin.go:51-65 | Keeps the deque a faithful stand-in for all samples ever pushed |
| `WindowedMin.WindowedMin.Min` | go/pion-sctp-patched/windowedmin.go:68-76 | For call times that do not run back: the least of all samples ever pushed with t >= now - window, or 0 if there is none |
| `DcSend.InvStep` | go/internal/pionserver/handler.go:888-969 | Every atomic action of every party keeps: each item is in exactly one place; after the drain the queue is no longer than the callers still to re-check |
| `DcSend.AtMostOneResponse` | go/internal/pionserver/handler.go:928-966 | Over every interleaving no item is answered twice, and the sender sends in enqueue order |
| `DcSend.QueueBounded` | go/internal/pionserver/dcsend.go:76-92 | The queue never holds more than its capacity |
| `DcSend.CloseLasts` | go/internal/pionserver/dcsend.go:102-119 | Over every run a close is for good |
| `DcSend.WaitsOnRequest` | go/internal/pionserver/handler.go:258-282 | Only an item that asks for it waits for the buffer to drain |
| `DcSend.ClosedAnswersAll` | go/internal/pionserver/dcsend.go:102-119 | After a close the protocol comes to rest only with the queue empty, every item answered exactly once and the goroutine gone |
| `DcSend.OpenAnswersOrWaits` | go/internal/pionserver/dcsend.go:123-156 | Before a close, if threshold updates do not overlap, it rests only with every item answered or the buffer above the mark |
| `DcSend.OwnStepsRunOut` | go/internal/pionserver/handler.go:190-289 | The protocol's own steps run out: it cannot spin |
| `DcSend.StrandedIff` | go/internal/pionserver/dcsend.go:131-166 | A sender parked above both marks can come to wait on a drained buffer with nothing left to wake it if and only if the two copies of the threshold differ |
| `DcSend.OverlappingSetsStrand` | go/internal/pionserver/handler.go:971-995 | Two overlapping threshold updates: a run from the start to a sender that waits on a drained buffer with nothing left to wake it |
| `Forest.LinkedMinus` | go/internal/pionserver/registry.go:197-240 | Removing a handle with all it owns leaves the parent and child maps consistent |
| `Cleanup.SparesLive` | go/internal/pionserver/registry.go:265-319 | Whatever is registered, deleted or touched between the two passes of a cleanup: a handle whose root was there and live when the first pass looked, and which nothing else deleted, is still there after the second, and no handle on the list is |
| `Cleanup.ServedSameWay` | go/internal/pionserver/registry.go:116-192 | A registration or deletion that leaves a handle there leaves its chain of owners as it was |
| `Forest.SameRoot` | go/internal/pionserver/registry.go:281-291 | Everything below a handle has that handle's root |
| `Registry.Registry.ShiftLeft` | go/internal/pionserver/registry.go:228-228 | The in-place slice edit is removal of one element |
| `Registry.Registry.RemoveAt` | go/internal/pionserver/registry.go:225-231 | Editing one owner's slice in place leaves every other slice as it was |
| `Registry.Registry.Unlink` | go/internal/pionserver/registry.go:224-233 | The handle leaves its owner's list, if it is still there |
| `Registry.Registry.RemoveSelf` | go/internal/pionserver/registry.go:223-236 | The handle leaves all maps |
| `Registry.Registry.CollectChildren` | go/internal/pionserver/registry.go:208-213 | All children are collected although each recursion edits slices in place |
| `Registry.Registry.Collect` | go/internal/pionserver/registry.go:197-240 | Terminates; removes a handle and all descendants from all five maps and nothing else; collects each closer and send state exactly once, children before parents |
| `Registry.Registry.Delete` | go/internal/pionserver/registry.go:180-192 | An unknown handle is an error that changes nothing; otherwise as Collect |
| `Registry.Registry.Register` | go/internal/pionserver/registry.go:116-123 | A new root keeps the maps consistent |
| `Registry.Registry.RegisterDCSendState` | go/internal/pionserver/registry.go:72-80 | A second send state for a handle is refused and changes nothing |
| `Registry.Registry.Reap` | go/internal/pionserver/registry.go:307-314 | The write-locked pass of a cleanup: removes exactly what the handles still there own and collects each closer and send state once, children before parents |
| `Registry.Registry.RegisterChild` | go/internal/pionserver/registry.go:126-135 | A new handle below its owner keeps the maps consistent |
| `Registry.Registry.RootOf` | go/internal/pionserver/registry.go:281-288 | Terminates at the root of the handle |
| `Registry.Registry.Touch` | go/internal/pionserver/registry.go:153-173 | Refreshes exactly the handle and its ancestors: none of their stamps is then more than a second old, and stamps up to a second old are left alone |
| `Registry.Registry.Expired` | go/internal/pionserver/registry.go:265-305 | Lists exactly the handles past the age whose root is not live |

## Left out

- Sack.Sender.CreateForwardTSN: for streams whose SSNs span more than half the serial space, where greatest has no meaning, says only that the SSN reported was carried.
- Sack.Sender.HandleSack: takes partial reliability as enabled and the association as established, and leaves out the miss indicators that decide on fast retransmission, which come between the release of buffers and step C1. It is one step, while the code gives up the lock around each callback.
- Sack.Sender.DropStream: the reset request and its response are not modelled.
- Transport.NoFalseAcks: besides distinct slots assumes a packet lifetime, since over unbounded delay 32-bit TSNs come round again.
- Inflight.PayloadQueue.PushNoCheck: keeps its chunks in a sequence; that the growable ring is a sequence is proved of RingQueue.Queue alone.
- Reassembly.RoundTrip: each chunk comes once, as the receive window lets it. The SSNs of ordered messages held at one time lie in half their space, and so do the TSNs of unordered chunks held at one time.
- MidReassembly.RoundTripMid: each chunk comes once, message identifiers held at one time lie in half their space, and the limit of 1024 messages is not reached.
- MidQueue.MidQueue.PushUnordered: the sets of unordered messages are values, since the code never reaches one by two ways; the dispatch on stream identifier in front of it is that of DataQueue.ReassemblyQueue.Push.
- Registry.Registry.RegisterChild: its append always allocates a new backing array.
- Cleanup.SparesLive: the passes are taken on the values of the registry, as its methods are proved to leave them; the last loop, which touches the handles spared, is Registry.Registry.Touch.
- DcSend.AtMostOneResponse: that a response is an acknowledgement or an error is not told apart; which items were handed to the channel is.
- Bundling.Sender.PopPending: counts bytes as unbounded numbers, and takes the pending queue as the sequence its peeks return.
- Bundling.Sender.ResendFast: the miss indicators are given; how SACKs count them is not modelled.
- Rack.List.Scan: send times are integers from a clock that does not run back; how the reordering window is chosen is not modelled.
- Timers.BackoffIsRule: uses reals for the float64 RTO.
- Congestion window growth and RTT smoothing.
- createIForwardTSN, and the dispatch of the pending queue between its policies.
- Wire codecs, checksums, cookies, association setup and teardown.
- Read and write loops, deadlines, WebSocket frames, statistics, tracing and logging.
- The Flutter plugins, release tooling, examples and benchmarks.
