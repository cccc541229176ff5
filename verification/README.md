# NetDebugger: verified models

NetDebugger is a Windows tool that sends and receives raw data over TCP, UDP, serial, WebSocket and MQTT
connections. This project models the algorithms under its windows and proves what they promise. Where the code as
written does not keep a promise it states the exact condition under which the promise holds, as an equivalence or
with inputs that break it beside it.

| file | part of the program |
|---|---|
| `Bytes.dfy` | bytes and sequence functions shared by all |
| `Segments.dfy`, `BufferBlock.dfy`, `BufferChain.dfy`, `Compaction.dfy` | the value level and the heap level of `DataBuffer` |
| `DataBuffer.dfy`, `BufferRuns.dfy` | `DataBuffer`: bytes in a doubly linked chain of 8192-byte blocks; whole runs against a plain sequence |
| `BlockingQueue.dfy` | the bounded queue as a monitor, every interleaving of its threads |
| `Sha1Spec.dfy`, `Sha1.dfy`, `Sha1Example.dfy` | FIPS 180-4, the incremental, unrolled class against it, and the standard's example |
| `MqttHandlers.dfy`, `MqttTransactions.dfy` | where every transaction handler is; packet identifiers and the transaction table |
| `MqttFraming.dfy`, `MqttReadPump.dfy` | control packets on the wire; the asynchronous read pump and its buffers |
| `MqttDuties.dfy` | what the pump does for each packet: message callback and EndTransaction, joined with the transactions |
| `MqttReplies.dfy` | what the pump sends back for each packet |
| `MqttRuns.dfy`, `MqttOrder.dfy` | runs of the pump byte by byte; in which order messages reach the callback |
| `WebSocketFrame.dfy`, `WebSocketAccept.dfy` | frames of RFC 6455; the accept key |
| `ForwardClose.dfy`, `ForwardPump.dfy` | two forward channels closing each other; the bytes they forward |
| `ConnectBarrier.dfy` | the N-way completion barrier of the multi-client devices |
| `FastMemcpy.dfy` | the overlapping stores of `fast_memcpy` against one plain copy |
| `SendHistory.dfy`, `TextCodecs.dfy`, `Base64.dfy` | history save and load; hexadecimal, UTF-16BE and UTF-32; Base64 |

Code that works on the heap is modelled by classes and arrays and proved against functions on values.
Threads and callbacks are modelled as atomic steps of a state machine; the theorems quantify over all finite
sequences of steps. Sockets, timers and the registry appear only as the bytes they deliver and the moment an
operation completes or fails.

## Where the code departs from its intent

- `Insert` with overflow puts the displaced tail before the rest of the inserted data (`DataBuffer.cpp:392-421`).
  `InsertExact` gives the exact condition under which the result is still an insertion, `InsertKeeps` what holds
  always, and `InsertBeforeLast` runs into it. `InsertFill` spills zeros (`DataBuffer.cpp:477`): `InsertFillExact`.
- `Remove` across blocks miscounts (`DataBuffer.cpp:624-625`, `DataBuffer.cpp:640`): `RemoveAsWritten` says
  exactly when it is right, `RemoveAcrossBlocks` runs into the other case from a new buffer. `Remove` and `Resize`
  have the two accounting repairs. The front cut of a long `Remove` moves bytes down with `fast_memcpy` over an
  overlap (`DataBuffer.cpp:623`): `FrontCutIff` and `MovesDownIff` say exactly when that is right, `ClearIff` and
  `FarMovesAreRight` in terms of address, size and distance, and `OverlapGoesWrong` shows a move that is not. The
  model of `Remove` moves as `memmove` does.
- `Clear` keeps a stale `prev` link (`DataBuffer.cpp:46`): `ClearAsWritten` says when that matters; `Clear` has
  the missing assignment.
- `Compress` follows a null pointer when the last block is absorbed exactly (`DataBuffer.cpp:667-680`): the
  result `safe` of `Compress` says when, and the rest of its contract holds with the null check. `CompressHalves` runs
  into it from a new buffer.
- `CopyData` tests `*next` for `next` (`DataBuffer.cpp:181`): `comesBack` says when the call comes back.
- The queue admits `max_queue + 1` elements (`BlockingQueue.hpp:28`): `OneTooMany` for every bound, and
  `PushPassesBoundIff` for the step that does it. Once stopped it has no bound: `StoppedHasNoBound`.
- A new MQTT client hands out the identifiers 2, 4, ..., 65534 and then 0 for ever
  (`MQTTClient.cpp:913-930`): `NthBegin`. With identifier 0 and a full table the search would not end:
  `SearchNeverStops`.
- The MQTT reader reads on past four length bytes but counts only four (`MQTTClient.cpp:621-667`):
  `ReceivedIsFramed` gives the exact condition, `FiveLengthBytes` an input. A topic of 65536 bytes or more is written
  with a truncated length: `PublishRoundTrip` is an equivalence.
- CONNACK takes its return code from the first body byte, the session-present flag (`MQTTClient.cpp:719-725`):
  `ConnackRightIff` for the handler, `ConnackOutcome` from the start of the connection. A PUBREL is sent with
  flags 0 where section 3.6.1 of MQTT 3.1.1 asks for 2, and a PINGREQ is answered by PINGREQ
  (`MQTTClient.cpp:796-893`): `ReplyRightIff`. The handler of a QoS 0 publish is told CONNECTION_REFUSED on success too
  (`MQTTClient.cpp:497-503`): `PublishWritten` says when that is right.
- The read pump starts the next read before the message callback (`MQTTClient.cpp:737-745`), and the io context runs on
  several threads without a strand (`NetDebugger.cpp:113-119`), so that messages may be delivered in another order than
  they came (`OrderNotKept`). `DeliveredInOrderIff` gives the exact condition over all runs: no delivery overtakes an
  earlier message still held. `MayOvertakeIff` gives it for a state: order can be lost before the next packet if and
  only if two messages are under way, and then `EitherOrder` holds. With one thread or a strand the order is kept:
  `OneThreadKeepsOrder`.
- A WebSocket frame without mask and payload closes the channel (`Websocket.cpp:209-218`):
  `FrameRoundTrip` is an equivalence, `EmptyFrameCloses` its consequence for a stream.
- After a failed write the forwarding loop starts its next read before the channels are closed
  (`TCPSwitch.cpp:453-457`, `TCPSwitch.cpp:477-481`): `NoGapIff` says exactly when the bytes sent have no gap,
  `LateOnlyInWindow` that only this window can open one, and `GapAfterFailedWrite` that it does.
- The completion barrier can report Connected when all channels failed: `ReportIsRightIff` for a given run,
  `MisreportIff` for the number of channels, `ConnectedThoughAllFailed` for the runs.
- Loading drops an empty last record, or everything past 32 MiB: `SaveThenLoad` is an equivalence.
- UTF-32BE encoding swaps 16 bits (`TextEncodeType.h:317`): `Utf32BeRoundTripIff`.

## Model

| member | source | states |
|---|---|---|
| DataBuffers.DataBuffer.constructor | NetDebugger/DataBuffer.cpp:16-28 | a new buffer is a well-formed chain of one empty block |
| DataBuffers.DataBuffer.AfterBlock | NetDebugger/DataBuffer.cpp:90-103 | links one new empty block behind the given one; chain, counts and first prev link stay right |
| DataBuffers.DataBuffer.BeforeBlock | NetDebugger/DataBuffer.cpp:105-130 | links one new empty block before the first |
| DataBuffers.DataBuffer.RemoveBlock | NetDebugger/DataBuffer.cpp:64-88 | unlinks any block but the first, which it only empties, and returns the following one |
| DataBuffers.DataBuffer.FindBlockByOffset | NetDebugger/DataBuffer.cpp:144-153 | finds the one block and offset that hold byte `offset`, null exactly past the end |
| DataBuffers.DataBuffer.Append | NetDebugger/DataBuffer.cpp:245-273 | contents grow at the end by exactly the data, the last block being filled up before new ones are linked; chain invariant and total kept |
| DataBuffers.DataBuffer.AppendFill | NetDebugger/DataBuffer.cpp:275-300 | the same for `size` copies of a byte |
| DataBuffers.DataBuffer.Prepend | NetDebugger/DataBuffer.cpp:302-335 | contents grow at the front by exactly the data |
| DataBuffers.DataBuffer.PrependFill | NetDebugger/DataBuffer.cpp:337-368 | the same for copies of a byte |
| DataBuffers.DataBuffer.GetAt | NetDebugger/DataBuffer.cpp:229-235 | the byte at an index, 0 past the end |
| DataBuffers.DataBuffer.SetAt | NetDebugger/DataBuffer.cpp:237-243 | overwrites one byte and nothing else, nothing past the end |
| DataBuffers.DataBuffer.Fill | NetDebugger/DataBuffer.cpp:551-594 | overwrites the range, clipped at the end, across any number of blocks |
| DataBuffers.DataBuffer.Insert | NetDebugger/DataBuffer.cpp:370-430 | the chain stays well-formed and the contents are what the code's placing of block, overflow and displaced tail gives |
| DataBuffers.DataBuffer.InsertFill | NetDebugger/DataBuffer.cpp:432-489 | the same, the overflow being zeros |
| BufferRuns.InsertExact | NetDebugger/DataBuffer.cpp:370-430 | Insert inserts exactly if and only if nothing overflows, or displaced tail and overflow are repetitions of one word |
| BufferRuns.InsertPlaces | NetDebugger/DataBuffer.cpp:370-430 | the bytes that fit, then the displaced ones, then the overflow, and nothing else moved |
| BufferRuns.InsertKeeps | NetDebugger/DataBuffer.cpp:370-430 | whatever overflows, the bytes before the index stay and exactly the inserted bytes are added as a multiset |
| BufferRuns.InsertFillExact | NetDebugger/DataBuffer.cpp:432-489 | InsertFill inserts exactly if and only if nothing overflows or fill and tail are all zero |
| BufferRuns.InsertGoesWrong | NetDebugger/DataBuffer.cpp:392-421 | any byte inserted before the last byte of a full block lands behind it |
| BufferRuns.InsertBeforeLast | NetDebugger/DataBuffer.cpp:245-421 | from a new buffer filled with one block, so that the result is an insertion if and only if the byte equals the last one |
| DataBuffers.DataBuffer.Remove | NetDebugger/DataBuffer.cpp:596-641 | with the two accounting repairs exactly the clipped range is deleted, over any number of blocks; inside one block no other block changes |
| DataBuffers.DataBuffer.RemoveAsWritten | NetDebugger/DataBuffer.cpp:596-641 | as written the buffer stays valid and exact if and only if the range lies in one block or starts past the end |
| DataBuffers.DataBuffer.Resize | NetDebugger/DataBuffer.cpp:684-696 | a prefix when shrinking, zeros appended when growing |
| DataBuffers.DataBuffer.ClearAsWritten | NetDebugger/DataBuffer.cpp:35-62 | empties the buffer keeping the last block, and leaves it valid if and only if there was only one block |
| DataBuffers.DataBuffer.Clear | NetDebugger/DataBuffer.cpp:35-62 | with the prev link reset: an empty valid buffer |
| DataBuffers.DataBuffer.Compress | NetDebugger/DataBuffer.cpp:643-682 | terminates, keeps the contents, fills every block but the last, leaves max(1, ceil(Size/8192)) blocks and a gap size of 0; safe as written exactly unless the last block is absorbed exactly |
| Compaction.PackedSize | NetDebugger/DataBuffer.cpp:643-682 | a chain full but for its last block has max(1, ceil(n/8192)) blocks and no gaps |
| Compaction.NoGapsIff | NetDebugger/DataBuffer.cpp:214-218 | the free bytes of some blocks are 0 if and only if all of them are full |
| BufferRuns.CompressHalves | NetDebugger/DataBuffer.cpp:643-682 | from a new buffer, for any content: two blocks appended and the first half of each removed make Compress run off the end |
| BufferRuns.RemoveAcrossBlocks | NetDebugger/DataBuffer.cpp:596-641 | from a new buffer, for any content: after a removal across a full block and one of a single byte the buffer as written is not valid or not exact |
| DataBuffers.DataBuffer.Size | NetDebugger/DataBuffer.cpp:209-212 | the cached total is the length of the contents |
| DataBuffers.DataBuffer.GapSize | NetDebugger/DataBuffer.cpp:214-218 | the free bytes in all blocks but the last, from the two counters alone |
| DataBuffers.DataBuffer.CopyData | NetDebugger/DataBuffer.cpp:155-227 | the clipped slice of the contents; returns exactly when the index is past the end |
| DataBuffers.DataBufferIterator.Next | NetDebugger/DataBuffer.cpp:786-793 | moves one block on and tells whether there is one |
| DataBuffers.DataBufferIterator.Prev | NetDebugger/DataBuffer.cpp:795-802 | moves one block back, off the chain from the first |
| DataBuffers.Snapshot | NetDebugger/NetDebuggerDlg.cpp:831-853 | the receive view's copy loop collects exactly the contents |
| BufferRuns.Step | NetDebugger/DataBuffer.cpp:237-696 | each operation refines the same operation on a plain sequence |
| BufferRuns.Run | NetDebugger/DataBuffer.cpp:237-696 | any run from a new buffer, read back through the iterator, equals the run on a plain sequence |
| BlockingQueues.NextInv | NetDebugger/BlockingQueue.hpp:22-110 | every atomic step of every call keeps the wakeup balance, queue order and bound |
| BlockingQueues.NoLostWakeup | NetDebugger/BlockingQueue.hpp:22-110 | in every reachable state, while a consumer sleeps each element is matched by an owed notification or a woken consumer, and dually for producers and free places, or a notify_all is owed |
| BlockingQueues.SettledSleepers | NetDebugger/BlockingQueue.hpp:22-110 | with nothing owed a consumer sleeps only on an empty running queue, a producer only on a full one, never both |
| BlockingQueues.StopReleasesAll | NetDebugger/BlockingQueue.hpp:101-110 | after Stop has finished nobody sleeps |
| BlockingQueues.FirstInFirstOut | NetDebugger/BlockingQueue.hpp:22-91 | elements leave in order, none twice, none made up; while the queue runs at most max_queue + 1 are held |
| BlockingQueues.InIsOut | NetDebugger/BlockingQueue.hpp:22-110 | over all runs, what the calls have put in is in this order what the calls have handed out or cleared and what is still in the queue; so nothing is handed out twice |
| BlockingQueues.NotifyOne | NetDebugger/BlockingQueue.hpp:22-78 | notify_one wakes any one sleeper of the other side, and its thread is done |
| BlockingQueues.WokenAt | NetDebugger/BlockingQueue.hpp:80-110 | notify_all wakes every sleeper of the one side and nobody else |
| BlockingQueues.OneTooMany | NetDebugger/BlockingQueue.hpp:26-38 | for every bound and any number of threads a run reaches max_queue + 1 elements |
| BlockingQueues.PushPassesBoundIff | NetDebugger/BlockingQueue.hpp:26-38 | from within the bound a Push passes it if and only if the queue is full |
| BlockingQueues.StoppedHasNoBound | NetDebugger/BlockingQueue.hpp:28-36 | once stopped, any number of elements is reached |
| BlockingQueues.BlockingQueue.Push | NetDebugger/BlockingQueue.hpp:22-41 | the locked section as code is the state machine's step: waits on a full running queue, else adds the element behind the others |
| BlockingQueues.BlockingQueue.TryPop | NetDebugger/BlockingQueue.hpp:43-56 | the same: takes the front exactly if there is one |
| BlockingQueues.BlockingQueue.WaitForPop | NetDebugger/BlockingQueue.hpp:58-78 | the same: waits on an empty running queue, comes back empty-handed once stopped, else takes the front |
| BlockingQueues.BlockingQueue.PopAll | NetDebugger/BlockingQueue.hpp:80-91 | the same: hands out all elements and leaves none |
| BlockingQueues.BlockingQueue.Clear | NetDebugger/BlockingQueue.hpp:93-99 | the same: throws all elements away, waking every sleeping producer while the lock is held |
| BlockingQueues.BlockingQueue.Stop | NetDebugger/BlockingQueue.hpp:101-110 | the same: sets the flag and touches nothing else |
| Sha1Code.F1IsCh | NetDebugger/SHA1.h:226-229 | the rewritten f1 is Ch |
| Sha1Code.F3IsMaj | NetDebugger/SHA1.h:236-239 | f3 is Maj |
| Sha1Code.SwapIsBigEndian | NetDebugger/SHA1.h:246-253 | swapping a little-endian load gives the big-endian word |
| Sha1Code.LineIsRound | NetDebugger/SHA1.h:121-125 | one source line is one round of section 6.1.2 of FIPS 180-4 |
| Sha1Code.Lines | NetDebugger/SHA1.h:117-160 | five lines with rotated variable roles are five rounds, at any position of the schedule |
| Sha1Code.ScheduleWords | NetDebugger/SHA1.h:102-115 | the expanded words are those of section 6.1.2 |
| Sha1Code.SHA1.ProcessBlock | NetDebugger/SHA1.h:94-167 | for every state and block, the compression function of section 6.1.2 |
| Sha1Spec.ZeroBitsLeast | NetDebugger/SHA1.h:169-224 | the number of padding zeros is the least solution of the congruence of section 5.1.1 |
| Sha1Spec.BigEndian64Value | NetDebugger/SHA1.h:169-224 | the eight length bytes, read with their weights, are the length |
| Sha1Spec.WordBytesOrder | NetDebugger/SHA1.h:72-75 | the four bytes of a word, read as a big-endian word, are the word |
| Sha1Spec.BigEndian32Order | NetDebugger/SHA1.h:102-108 | the first byte is the top of the word |
| Sha1Example.Sha1OfAbc | NetDebugger/SHA1.h:17-224 | the known answer of FIPS 180-4 for "abc", word by word and round by round |
| Sha1Code.PaddedTail | NetDebugger/SHA1.h:169-224 | the one or two blocks laid out by hand are the rest of the padded message |
| Sha1Code.SHA1.Update | NetDebugger/SHA1.h:17-56 | the object stands for the bytes so far followed by the new ones, wherever block borders fall |
| Sha1Code.SHA1.Final | NetDebugger/SHA1.h:62-79 | returns the SHA-1 of all bytes (under 2^64 bits), the five words of the final hash value with the highest byte first, and leaves the object as new |
| Sha1Code.HashChunks | NetDebugger/SHA1.h:17-79 | for every message and every cutting into Update calls the result is the SHA-1 of the concatenation |
| MqttHandlers.EveryHandlerInOnePlace | NetDebugger/MQTTClient.cpp:394-421 | over all interleavings every handler is in exactly one of: table, pending QoS 0 write, taken and to be called, called, lost |
| MqttHandlers.NoneCalledTwice | NetDebugger/MQTTClient.cpp:909-949 | no handler is called twice |
| MqttHandlers.DisconnectCallsAll | NetDebugger/MQTTClient.cpp:394-421 | when the thread of a forced disconnect is done, each handler it found has been called exactly once |
| MqttHandlers.EndCallsIt | NetDebugger/MQTTClient.cpp:934-949 | when the thread of EndTransaction is done, the handler it found has been called exactly once |
| MqttHandlers.WriteCallsIt | NetDebugger/MQTTClient.cpp:478-507 | the same for the handler of a QoS 0 publish whose write has completed |
| MqttHandlers.RegisteredAs | NetDebugger/MQTTClient.cpp:909-933 | lost are the handlers registered under id 0 and no others; the table holds each under the identifier it was registered with |
| MqttHandlers.AllCalledInTheEnd | NetDebugger/MQTTClient.cpp:394-949 | with table, pending writes and hands empty, every handler has been called exactly once, but for those registered under id 0, which never are |
| MqttHandlers.LostIsNeverCalled | NetDebugger/MQTTClient.cpp:927-932 | a handler registered under id 0 is never called |
| MqttTransactions.MQTTClient.BeginTransaction | NetDebugger/MQTTClient.cpp:909-933 | terminates with the first unused identifier in cyclic order, 0 exactly if all are in use or the start is 65535; the table gains exactly that entry |
| MqttTransactions.MQTTClient.EndTransaction | NetDebugger/MQTTClient.cpp:934-949 | removes exactly the entry and returns its handler, to be called, or none if there is no entry |
| MqttTransactions.MQTTClient.Disconnect | NetDebugger/MQTTClient.cpp:394-421 | a forced disconnect takes every handler of the table once, in any order of the hash map |
| MqttTransactions.MQTTClient.Publish | NetDebugger/MQTTClient.cpp:458-477 | a QoS above 0 registers the handler, QoS 0 leaves it to the write |
| MqttTransactions.MQTTClient.PublishWritten | NetDebugger/MQTTClient.cpp:478-507 | a failed write of a QoS above 0 calls nothing beyond what the forced disconnect found; the code a QoS 0 handler is told is right if and only if the write failed |
| MqttTransactions.OneChoice | NetDebugger/MQTTClient.cpp:909-933 | the identifier is determined by state and table |
| MqttTransactions.SearchNeverStops | NetDebugger/MQTTClient.cpp:915-925 | from 0 with a full table no number of turns ends the search |
| MqttTransactions.NthBegin | NetDebugger/MQTTClient.cpp:909-949 | the n-th Begin of any run of a new client returns 2n, from the 32768th on 0 |
| MqttFraming.MQTTPacket.ToBuffer | NetDebugger/MQTTClient.cpp:191-211 | header, shortest length field, body |
| MqttFraming.DigitsRoundTrip | NetDebugger/MQTTClient.cpp:197-207 | the length bytes form one field of section 2.2.3 of MQTT 3.1.1 and stand for the length |
| MqttFraming.DigitsShortest | NetDebugger/MQTTClient.cpp:197-207 | no shorter field could hold the length |
| MqttFraming.DigitsInNumbers | NetDebugger/MQTTClient.cpp:197-207 | how many length bytes there are, and each as a number: a digit to the base 128, plus 128 on all but the last |
| MqttFraming.Uint16Order | NetDebugger/MQTTClient.cpp:153-158 | a 16-bit number is written with the high byte first |
| MqttFraming.HeaderBits | NetDebugger/MQTTClient.cpp:83-93 | the packet type is the upper half of the header byte, the QoS its bits 1 and 2 |
| MqttFraming.MQTTReader.OnReadMQTTPacket | NetDebugger/MQTTClient.cpp:592-701 | the chain of reads takes one packet off the stream, or fails as the stream demands |
| MqttFraming.MQTTReader.ReadLength | NetDebugger/MQTTClient.cpp:650-667 | the value of at most four length bytes |
| MqttFraming.FramesRoundTrip | NetDebugger/MQTTClient.cpp:191-701 | any packets with bodies up to 8 MiB are read back one by one, whatever follows |
| MqttFraming.CutShort | NetDebugger/MQTTClient.cpp:592-701 | a packet cut anywhere is a lost connection |
| MqttFraming.TooLongIsRefused | NetDebugger/MQTTClient.cpp:668-672 | a longer body is refused as PAYLOAD_EXCEED |
| MqttFraming.ReceivedIsFramed | NetDebugger/MQTTClient.cpp:621-701 | on any input the body is taken to start where it does if and only if the length field has at most four bytes |
| MqttFraming.FiveLengthBytes | NetDebugger/MQTTClient.cpp:650-667 | a packet whose body is taken to start inside its length field |
| MqttFraming.MakePublish | NetDebugger/MQTTClient.cpp:458-477 | the packet written for a publish |
| MqttFraming.PublishLayout | NetDebugger/MQTTClient.cpp:458-477 | length and topic, identifier if there is a QoS, payload, byte by byte |
| MqttFraming.ReadPublish | NetDebugger/MQTTClient.cpp:735-745 | topic, identifier if there is a QoS, and payload as they stand in the body |
| MqttFraming.PublishRoundTrip | NetDebugger/MQTTClient.cpp:458-477 | a publish body parses back to the same publish if and only if the topic is under 65536 bytes |
| MqttFraming.PublishArrives | NetDebugger/MQTTClient.cpp:592-745 | a publish written by one client, framed, cut out of the stream and parsed, is the same publish |
| MqttReadPump.NextKeeps | NetDebugger/MQTTClient.cpp:592-907 | every step of every handler keeps ownership, contents and byte accounting |
| MqttReadPump.ReadPump.OnLengthByte | NetDebugger/MQTTClient.cpp:592-648 | the handlers of the first reads as code are the state machine's step: another byte, or the length is complete |
| MqttReadPump.ReadPump.OnReadMQTTPacketLengthCompleted | NetDebugger/MQTTClient.cpp:650-701 | the same for the choice between refusing, reading a body and dispatching |
| MqttReadPump.ReadPump.OnReadMQTTPacketCompleted | NetDebugger/MQTTClient.cpp:703-907 | the same for every packet type up to the next read, in the packet's own buffer or a new one |
| MqttReadPump.ReadPump.AfterNextReadStarted | NetDebugger/MQTTClient.cpp:735-893 | the same for the message callback and the reply laid into the packet's buffer; that each reply is sent is in MqttReplies.EveryReplyOnce |
| MqttReadPump.OneReadOneOwner | NetDebugger/MQTTClient.cpp:592-907 | at most one outstanding read, and no buffer shared by a read, a handler that needs it and a pending write |
| MqttReadPump.PumpGoesOn | NetDebugger/MQTTClient.cpp:592-907 | until it stops, exactly one task is the next read or will start it |
| MqttReadPump.NothingStuck | NetDebugger/MQTTClient.cpp:592-907 | reads fit their buffers, handlers find the bytes their read left, writes send the bytes they were given |
| MqttReadPump.ReplyIsToOwnPacket | NetDebugger/MQTTClient.cpp:735-893 | an acknowledgement answers the packet its handler was started for, though the next read is under way |
| MqttReadPump.ReplyNamesItsPacket | NetDebugger/MQTTClient.cpp:747-893 | cut out of the stream a reply is one packet of the right type with the identifier it answers |
| MqttReadPump.PublishIdIsParsed | NetDebugger/MQTTClient.cpp:735-745 | the identifier acknowledged is the one the publish carries |
| MqttReplies.EveryReplyOnce | NetDebugger/MQTTClient.cpp:735-893 | in every reachable state each PUBACK, PUBREC, PUBREL, PUBCOMP and PINGREQ that the received packets ask for, byte for byte, has been started as a write or is owed by one handler, counted with multiplicity |
| MqttReplies.AllRepliedWhenIdle | NetDebugger/MQTTClient.cpp:735-893 | with no handler under way every reply asked for has been started, as often as it was asked for |
| MqttReplies.OnlyRepliesAreWritten | NetDebugger/MQTTClient.cpp:735-893 | a write that a handler starts is the reply to its own packet, from that packet's buffer; the handlers start no other |
| MqttReplies.ReplyIsAsked | NetDebugger/MQTTClient.cpp:735-893 | the reply the code computes is the one the packet asks for by type, QoS and identifier |
| MqttReadPump.StopsIff | NetDebugger/MQTTClient.cpp:592-907 | the pump is stopped exactly by a read that fails, a length over the limit, a CONNACK that is not taken for an acceptance, or a packet of no handled type |
| MqttReadPump.EndsOwnTransaction | NetDebugger/MQTTClient.cpp:787-870 | what is about to end a transaction was started by a PUBACK, PUBCOMP, SUBACK or UNSUBACK received, and has the identifier it carries, after its buffer was given up |
| MqttReadPump.ConnackJudged | NetDebugger/MQTTClient.cpp:717-734 | any CONNACK is one whole packet, and stops the pump if and only if its session-present byte is not zero |
| MqttReadPump.ConnackRightIff | NetDebugger/MQTTClient.cpp:717-734 | the answer is judged right if and only if that byte is zero just when the return code is; a refusal with code 5 is taken for a connection |
| MqttReadPump.ReplyRightIff | NetDebugger/MQTTClient.cpp:747-893 | every reply has flags 0, so they are right if and only if it answers no PUBREC; its type is the standard's if and only if it answers no PINGREQ |
| MqttDuties.NextFulfils | NetDebugger/MQTTClient.cpp:710-907 | every step keeps the account of what is done, still held by a handler, and asked for by the packets received |
| MqttDuties.EveryDutyOnce | NetDebugger/MQTTClient.cpp:710-907 | in every reachable state each message delivery and transaction end asked for is done or held by one handler, counted with multiplicity |
| MqttDuties.DeliveredAtMostOnce | NetDebugger/MQTTClient.cpp:735-745 | the messages delivered are a sub-multiset of the packets received |
| MqttDuties.EndedAtMostAcknowledged | NetDebugger/MQTTClient.cpp:787-870 | the identifiers ended are a sub-multiset of those of the acknowledgements received |
| MqttDuties.AllDoneWhenIdle | NetDebugger/MQTTClient.cpp:710-907 | with no handler under way everything asked for is done, as often as it was |
| MqttDuties.DutyIs | NetDebugger/MQTTClient.cpp:710-907 | which packets ask for a delivery, which for the end of a transaction, and of which one |
| MqttDuties.EveryMessageDelivered | NetDebugger/MQTTClient.cpp:735-745 | with no handler under way each PUBLISH received has been delivered as often as it came |
| MqttOrder.DeliveredInOrderIff | NetDebugger/MQTTClient.cpp:735-745 | over all runs, the messages delivered are the first ones received, in their order, if and only if no delivery has overtaken an earlier message still held |
| MqttOrder.AllInOrderIff | NetDebugger/MQTTClient.cpp:735-745 | once nothing is held all messages received have been delivered, in their order if and only if none overtook |
| MqttOrder.AloneKeepsOrder | NetDebugger/MQTTClient.cpp:735-745 | in a run in whose every state at most one message is dispatched and not delivered, those delivered followed by that one are the messages received, in their order |
| MqttOrder.OneThreadKeepsOrder | NetDebugger/NetDebugger.cpp:113-119 | the same whenever no read completes into its handler while another handler is under way, as with one thread or a strand |
| MqttOrder.EitherOrder | NetDebugger/MQTTClient.cpp:735-745 | from every reachable state in which two tasks hold a message, either can be delivered first |
| MqttOrder.MayOvertakeIff | NetDebugger/MQTTClient.cpp:735-745 | in a reachable state that has kept the order, some steps before the next packet break it if and only if two tasks hold a message |
| MqttOrder.OrderNotKept | NetDebugger/MQTTClient.cpp:735-745 | two publishes received one after the other, delivered in the other order |
| MqttRuns.ConnackOutcome | NetDebugger/MQTTClient.cpp:592-734 | from the start of the connection, any CONNACK read byte by byte: the pump stops if and only if the session-present byte is not zero and else reads on, whatever the return code |
| MqttDuties.OnlyAcknowledgementsEnd | NetDebugger/MQTTClient.cpp:787-949 | in every joint run of client and pump the transactions run as MqttHandlers says, their ends being among the acknowledgements received |
| MqttDuties.EndAcknowledged | NetDebugger/MQTTClient.cpp:934-949 | the handler's call of EndTransaction as code is both steps at once, and gives the handler of the transaction to be called |
| MqttReadPump.PumpReadsTheStream | NetDebugger/MQTTClient.cpp:592-745 | in every reachable state the packets dispatched are the first packets of the byte stream, in order and without gap, and all of them while a read is outstanding |
| WebSocketFrames.WebSocketHeader.ToBuffer | NetDebugger/Websocket.cpp:24-75 | the frame of section 5.2 of RFC 6455; with a mask, byte i behind the key is payload[i] xor key[i % 4] (section 5.3) |
| WebSocketFrames.WebSocketHeader.ReadPacket | NetDebugger/Websocket.cpp:77-242 | the chain of reads delivers one frame and leaves the rest, or closes the channel; with a mask, byte i delivered is the i-th byte behind the key xor key[i % 4] |
| WebSocketFrames.LengthRoundTrip | NetDebugger/Websocket.cpp:31-57 | the 7-, 16- and 64-bit forms stand for the length |
| WebSocketFrames.WireHeader | NetDebugger/Websocket.cpp:24-57 | flags, opcode, mask bit and the length as a number in its 2, 4 or 10 bytes |
| WebSocketFrames.WirePayload | NetDebugger/Websocket.cpp:59-74 | the key and each byte of the payload, masked or not |
| WebSocketFrames.Hello | NetDebugger/Websocket.cpp:24-75 | the two "Hello" frames of section 5.7 |
| WebSocketFrames.ReceivedPayload | NetDebugger/Websocket.cpp:77-242 | what is delivered, byte by byte off the wire |
| WebSocketFrames.CutShort | NetDebugger/Websocket.cpp:77-242 | a frame cut anywhere closes the channel |
| WebSocketFrames.ShortestLength | NetDebugger/Websocket.cpp:31-57 | the shortest form that can say the length is used |
| WebSocketFrames.MaskingCancels | NetDebugger/Websocket.cpp:59-70 | masking twice with one key gives the payload back |
| WebSocketFrames.FrameRoundTrip | NetDebugger/Websocket.cpp:24-242 | one frame is read back if and only if it has a payload or a mask |
| WebSocketFrames.FramesRoundTrip | NetDebugger/Websocket.cpp:24-242 | any list of such frames is read back one by one, whatever follows |
| WebSocketFrames.EmptyFrameCloses | NetDebugger/Websocket.cpp:209-218 | behind an unmasked empty frame nothing is read |
| WebSocketAccept.AcceptKey | NetDebugger/Websocket.cpp:517-521 | the Base64 form of the SHA-1 of key and GUID, 28 characters |
| ForwardClose.ClosedOnceReportedOnce | NetDebugger/TCPSwitch.cpp:292-335 | under any interleaving each channel is closed by at most one winner and reported at most once |
| ForwardClose.BothClosedAndReported | NetDebugger/TCPSwitch.cpp:292-335 | when all close calls begun on the pair have returned, both are closed, have lost their link and were each reported exactly once |
| ForwardClose.NeverBlocked | NetDebugger/TCPSwitch.cpp:292-335 | every call ends after at most seven pieces of its own |
| ForwardClose.TcpForwardChannel.CloseChannel | NetDebugger/TCPSwitch.cpp:319-335 | alone, one call closes and reports the target and then itself, or changes nothing |
| ForwardPump.ForwardedInOrder | NetDebugger/TCPSwitch.cpp:444-497 | up to the first failed write or lost target the bytes forwarded are the bytes read, in order |
| ForwardPump.BufferHasOneUser | NetDebugger/NetDebuggerDlg.cpp:745-760 | the shared buffer is never being read into while a write from it, or showing it, is pending |
| ForwardPump.ShownInOrder | NetDebugger/NetDebuggerDlg.cpp:745-760 | everything read is shown once and in order, forwarded or not |
| ForwardPump.StoppedIsClosed | NetDebugger/TCPSwitch.cpp:489-495 | a loop that has ended has its pair closed or a close owed |
| ForwardPump.BrokenIsClosed | NetDebugger/TCPSwitch.cpp:450-459 | after a failed write the pair is closed, or a close is owed or follows the handler about to run |
| ForwardPump.SizeKept | NetDebugger/NetDebuggerDlg.cpp:745-760 | every read has the whole buffer |
| ForwardPump.ForwardLoop.OnReadSome | NetDebugger/TCPSwitch.cpp:462-497 | the completion of a read as code is the state machine's step, a failure leaving a close to its caller |
| ForwardPump.ForwardLoop.OnWrite | NetDebugger/TCPSwitch.cpp:444-460 | the same for the completion of a write, which reports success either way and leaves a close behind the handler |
| ForwardPump.ForwardLoop.OnChannelData | NetDebugger/NetDebuggerDlg.cpp:745-760 | the same for the read loop's handler |
| ForwardPump.ForwardLoop.OnClose | NetDebugger/TCPSwitch.cpp:319-335 | the same for the close behind a handler |
| ForwardPump.SentIsRead | NetDebugger/TCPSwitch.cpp:444-497 | whatever fails, each byte sent was read, and none is sent twice or before an earlier one |
| ForwardPump.NoGapIff | NetDebugger/TCPSwitch.cpp:444-497 | the positions sent are 0, 1, 2, ... if and only if no byte was taken after a write that ended with bytes untaken or after a lost target |
| ForwardPump.LateOnlyInWindow | NetDebugger/TCPSwitch.cpp:450-459 | such a byte is taken only between the read a failed write's handler starts and the close behind it, and none once the pair is closed |
| ForwardPump.GapAfterFailedWrite | NetDebugger/TCPSwitch.cpp:450-459 | inside that window, for any two chunks the target receives the second without the first |
| ConnectBarrier.OneReport | NetDebugger/TCPClient.cpp:454-485 | at most one final report, exactly one when all handlers have run |
| ConnectBarrier.DisconnectedIsTrue | NetDebugger/Websocket.cpp:1204-1235 | Disconnected is reported only if every channel failed |
| ConnectBarrier.ReportIsRightIff | NetDebugger/TCPClient.cpp:454-485 | the report is right if and only if a channel succeeded or all failures had been counted |
| ConnectBarrier.MisreportIff | NetDebugger/TCPClient.cpp:454-485 | when all channels fail some run reports Connected if and only if there are at least two |
| ConnectBarrier.ConnectedThoughAllFailed | NetDebugger/TCPClient.cpp:454-485 | for any number from two on, the run that does |
| ConnectBarrier.MultipleClient.Start | NetDebugger/TCPClient.cpp:433-485 | one at a time, the handlers report once, Connected exactly if a channel succeeded; without channels nothing is reported |
| FastMemcpy.TailCovers | NetDebugger/fast_memcpy.hpp:78-564 | for every size up to 128 the stores of its case leave no gap and stay inside |
| FastMemcpy.StoresCover | NetDebugger/fast_memcpy.hpp:570-677 | for every address and size the stores of head, blocks and tail leave no gap and stay inside |
| FastMemcpy.SafeCopies | NetDebugger/fast_memcpy.hpp:570-677 | stores that cover the rest and load nothing overwritten complete the copy |
| FastMemcpy.DisjointIsCopied | NetDebugger/fast_memcpy.hpp:570-677 | on disjoint regions the stores are one plain copy |
| FastMemcpy.MovesDownIff | NetDebugger/fast_memcpy.hpp:570-677 | any size moved down by any distance arrives right for every content if and only if each store begins at most that distance before the end of the one before |
| FastMemcpy.ClearIff | NetDebugger/fast_memcpy.hpp:570-677 | that condition from address, size and distance: the table's case of the last partial block, and the first 16 bytes |
| FastMemcpy.FarMovesAreRight | NetDebugger/fast_memcpy.hpp:570-677 | moves by 15 bytes, or by 8 up to 128 bytes, are right |
| FastMemcpy.FrontCutIff | NetDebugger/DataBuffer.cpp:620-625 | the same for the bytes a long Remove moves to the front of its last block |
| FastMemcpy.Tiny | NetDebugger/fast_memcpy.hpp:78-564 | the stores of the case, in order, on any memory |
| FastMemcpy.Blocks | NetDebugger/fast_memcpy.hpp:594-672 | the 128-byte loops make their stores, every aligned access on an address divisible by 16 |
| FastMemcpy.FastCopy | NetDebugger/fast_memcpy.hpp:570-677 | for every size, alignment and content, overlapping or not, memory is as the stores leave it; on disjoint regions exactly the bytes are copied and nothing else changes |
| FastMemcpy.OverlapGoesWrong | NetDebugger/fast_memcpy.hpp:503-509 | moving 57 bytes down by one is wrong for some content, at any address |
| SendHistory.History.Append | NetDebugger/NetDebuggerDlg.cpp:1130-1145 | a known record changes nothing, a new one goes to the front, 64 are kept; no duplicates |
| SendHistory.History.Save | NetDebugger/NetDebuggerDlg.cpp:256-277 | the block is the records in order: encoding, size, data |
| SendHistory.EntryLayout | NetDebugger/NetDebuggerDlg.cpp:256-277 | encoding and size as four bytes each, the lowest first, then the data |
| SendHistory.History.LoadSaved | NetDebugger/NetDebuggerDlg.cpp:225-254 | the records the loop takes from any block, or that it would leave the block |
| SendHistory.CutBlock | NetDebugger/NetDebuggerDlg.cpp:225-254 | a block cut between the parts of an entry ends the loop, one cut inside a part would be left |
| SendHistory.BadSize | NetDebugger/NetDebuggerDlg.cpp:240-246 | a size over 32 MiB ends the loop, a negative one or one past the end would leave the block |
| SendHistory.SaveThenLoad | NetDebugger/NetDebuggerDlg.cpp:225-277 | save and load give the history back if and only if it is empty, or fits 32 MiB and does not end with an empty record |
| SendHistory.Restart | NetDebugger/NetDebuggerDlg.cpp:225-277 | any history reachable by sends whose block fits survives |
| TextCodecs.Parse | NetDebugger/TextEncodeType.h:125-164 | the cursor loop parses any text as the grammar of digit pairs says |
| TextCodecs.Format | NetDebugger/TextEncodeType.h:94-108 | two upper-case digits and a space for every byte |
| TextCodecs.FormattedAt | NetDebugger/TextEncodeType.h:94-108 | where the digits and the space of each byte are |
| TextCodecs.HexDigits | NetDebugger/TextEncodeType.h:94-108 | the digits are 0 to 9 and A to F |
| TextCodecs.DigitValues | NetDebugger/TextEncodeType.h:125-164 | the value of every digit, in either case |
| TextCodecs.HalvesAre | NetDebugger/TextEncodeType.h:94-164 | the high digit counts sixteen times |
| TextCodecs.LoneDigit | NetDebugger/TextEncodeType.h:146-164 | a digit without a partner is a high one, and what stands in its place is swallowed |
| TextCodecs.HexRoundTrip | NetDebugger/TextEncodeType.h:94-164 | formatted bytes are parsed back |
| TextCodecs.SeparatorsDoNotMatter | NetDebugger/TextEncodeType.h:125-164 | pairs of either case with any non-hexadecimal text before, between and behind parse to the bytes they spell |
| TextCodecs.EncodeUtf16Be | NetDebugger/TextEncodeType.h:297-308 | the loop writes each unit swapped |
| TextCodecs.DecodeUtf16Be | NetDebugger/TextEncodeType.h:213-225 | the loop reads each pair of bytes swapped and drops a last odd byte |
| TextCodecs.BigEndianOrder | NetDebugger/TextEncodeType.h:35-38 | in memory the high byte of each unit comes first |
| TextCodecs.Utf16BeAt | NetDebugger/TextEncodeType.h:297-308 | the two bytes of each unit, in order |
| TextCodecs.Utf16BeReadAt | NetDebugger/TextEncodeType.h:213-225 | the unit of each pair of bytes, in order |
| TextCodecs.Utf16BeRoundTrip | NetDebugger/TextEncodeType.h:213-225 | UTF-16BE text is decoded back |
| TextCodecs.EncodeUtf32 | NetDebugger/TextEncodeType.h:285-320 | both UTF-32 loops widen each unit to four bytes, the big-endian one after swapping it as 16 bits |
| TextCodecs.DecodeUtf32 | NetDebugger/TextEncodeType.h:204-238 | both UTF-32 branches take the low half of each word, the big-endian one after swapping it as 32 bits |
| TextCodecs.Utf32At | NetDebugger/TextEncodeType.h:285-320 | the four bytes of each unit, in order: the upper two are zero either way |
| TextCodecs.Utf32ReadAt | NetDebugger/TextEncodeType.h:204-238 | the unit of each four bytes, in order: the first two or the last two |
| TextCodecs.Utf32LeRoundTrip | NetDebugger/TextEncodeType.h:285-296 | UTF-32LE text of 16-bit units is decoded back |
| TextCodecs.Utf32BeRoundTripIff | NetDebugger/TextEncodeType.h:309-320 | as written UTF-32BE is decoded back if and only if every unit is zero |
| Base64.Encode | NetDebugger/Base64.h:8-48 | the loop and its tail branch produce the encoding |
| Base64.Table | NetDebugger/Base64.h:10-16 | the table in order |
| Base64.SixBySix | NetDebugger/Base64.h:21-27 | the four values are the 24 bits of three bytes, from the top |
| Base64.Vectors | NetDebugger/Base64.h:8-48 | four test vectors of section 10 of RFC 4648 |
| Base64.Base64RoundTrip | NetDebugger/Base64.h:8-48 | the decoder of section 4 of RFC 4648 gives the data back |
| Base64.OnlyEncoding | NetDebugger/Base64.h:8-48 | and accepts nothing but the encoding |
| Base64.EncodedLength | NetDebugger/Base64.h:8-48 | the length is 4 * ceil(n / 3) |

## Left out

- Window, dialog, drawing, property-grid and language code.
- Sockets, resolvers, timers, threads and the registry themselves: an operation is started and completes or fails.
- Deleting blocks and buffers; the destructors; `size_t` wrap-around and failing allocations. The private
  implementation object of `DataBuffer` is merged into the class.
- `DataBufferView`, the resizing `Replace`, the move constructor and the as-written `Resize` over the unrepaired `Remove`.
- DataBuffers.DataBuffer.Remove: is the code with its two accounting repairs and a shift that allows overlap; what the code does without the accounting repairs is in RemoveAsWritten, and with `fast_memcpy` on an overlap in FastMemcpy.FrontCutIff.
- DataBuffers.DataBuffer.Clear: has the `prev` assignment the code lacks; ClearAsWritten has the code.
- DataBuffers.DataBuffer.CopyData: the out-pointer of the private function is left out, since the public call passes none.
- The element type of the queue is abstract: a default-constructed result of WaitForPop after Stop is some value of the type.
- MqttTransactions.MQTTClient.BeginTransaction: requires that the search ends, which SearchNeverStops shows it does not from identifier 0 with a full table; NthBegin shows that no run of a new client gets there.
- MqttTransactions.MQTTClient.Publish: requires that the search ends, as BeginTransaction does.
- MqttFraming.MakePublish: bodies of 2^28 bytes or more are excluded, as for ToBuffer.
- MqttFraming.MQTTPacket.ToBuffer: bodies of 2^28 bytes or more, which overrun its five-byte array, are excluded.
- MqttFraming.ReadPublish: requires a body long enough to be read, which the code does not check.
- MQTT packets shorter than their type needs: the pump takes a missing identifier as 0 where the code reads past the body.
- The MQTT CONNECT, SUBSCRIBE and UNSUBSCRIBE packet bodies and the error codes handed to the callbacks.
- `WebSocketHeader`: the choice of the masking key, and lengths near 2^64 that wrap when the buffer is sized.
- URL and HTTP header parsing and printing.
- `TcpForwardChannel::Cancel`, which nothing in the program calls: an operation is canceled only by a close.
- ForwardPump.ForwardLoop.OnClose: one flag stands for the close of the pair; the exchange of the state and the reports of CloseChannel are in ForwardClose.
- Destruction of a forward channel while its peer closes, spurious failures of compare_exchange_weak, and the order of writes by several threads to one socket.
- In `MqttReadPump` a buffer is named by a number in a map, and a handler runs in pieces between which others may run; in `ForwardPump` the shared vector is one value.
- SendHistory.History.LoadSaved: what the code does once it has left the block is not modelled.
- `fast_memcpy`: prefetching and the difference between plain and streaming stores.
- The ASCII, UTF-8 and UTF-16LE branches, which lose information, are left to the standard library, or read and write twice the buffer's size.
- Speed statistics, random keys and the memory limit of the receive buffer.
