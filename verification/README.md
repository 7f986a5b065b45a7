# A verified model of go-socket.io

This project models the protocol core of go-socket.io in Dafny and proves properties of it. `dafny verify
dfyconfig.toml` checks the whole project. It has four parts.

**The Engine.IO payload codec** (`Numerals`, `CodeUnits`, `Base64`, `PayloadCodec`, `PayloadDevices`; Engine.IO
protocol revision 3, section "Encoding", subsection "Payload"). A frame announces its length in UTF-16 code units,
which the encoder counts from lead bytes. The decoder has only a byte-limited reader and refunds its budget, again
from lead bytes, after every chunk it reads. `CodeUnits` proves what that budget is at every byte (continuation bytes
still owed plus code units not yet started), that the end of a frame does not depend on how it is read in chunks
exactly if the refunds never carry the budget past 2^63-1, and exactly which frame bodies survive. `PayloadCodec`
builds the payload round trip on it, as an equivalence: it holds exactly if every packet is sendable.
`PayloadDevices` has the encoder and the decoder as objects changed in place, proved against those functions.

**Pause, hand-off and upgrade** (`Pauser`, `PauserObject`, `Handoff`, `HandoffProof`, `HandoffLedger`,
`HandoffTheorems`, `HandoffLimits`, `PauseLimits`, `UpgradeLedger`, `Dispatch`). HTTP polls meet session readers and
writers over unbuffered channels; a worker count lets `Pause` drain them; an upgrader then swaps the connection.
`Handoff` is a step relation: one step for each lock section, atomic operation or rendezvous, with any number of
polls and writing calls and one reading call after the other; timers fire at any time, and deadlines pass and are set
anew by steps. `HandoffProof` and `HandoffLedger` prove its invariants one at a time, and `HandoffTheorems` states
what holds: the barrier's own lock sections, the worker count, the order of the log and the exclusion of readers in
every run; the exclusion of writers and the wire in every run in which no flush gives up while its writer is out.
`HandoffLimits` and `PauseLimits` show what that condition is worth: runs in which two writers are out at once and in
which `Pause` returns with a writer out, and the exact conditions under which it can come to that. `UpgradeLedger` is
the upgrader alone, over every outcome of each of its operations, and `Dispatch` the session's read loop over every
stream of packets.

**The Redis cluster** (`Broadcast`, `RedisNode`, `Cluster`, `ClusterProof`, `ClusterTheorems`). `Broadcast` is the
in-memory adapter and serves as the specification. `RedisNode` is one server's handling of messages, `Cluster` any
number of servers with FIFO inboxes. The theorems say that the cluster does what one in-memory adapter over all
servers' rooms would do: for sending, for `Len` and `AllRooms`, and for clearing. A `Send` to the room "" is the
exception; the condition under which it still agrees is proved to be exact.

**The Socket.IO packet codec and acks** (`PacketHeader`, `EventText`, `Attachments`, `Acks`, `AckObjects`). A number
in a packet header may be an attachment count or an ack id, and is told apart by look-ahead. The header round trip is
an equivalence, and so is the splitting of an event's name from its arguments. `Attachments` lifts numbered buffers
out of a tree of arguments and puts them back, shared buffers included. `Acks` follows ack ids through namespaces
that are left and entered again.

How to read the model. What the source changes in place is a class with methods; what concurrent threads share is a
state and a relation between states, since the order of their steps is the point there. Bytes are integers from 0 to
255, and shifts of the source are divisions. Machine integers wrap explicitly, announced lengths and refunded budgets
included (`Wrap64`, `% TWO_64`). Fields marked as history or auxiliary are read by no step. Where a comment of the
source disagrees with its code, the model follows the code: `Payload.NextReader` is said not to be affected by a
pause (engineio/payload/payload.go:186-187), but `getReader` returns a temporary error when the payload is paused,
and the session starts over.

## Model

| member | source | states |
|---|---|---|
| Numerals.CanonicalUnique | engineio/payload/util.go:30-53 | a number has one decimal spelling without leading zeros, the one the writers produce |
| Numerals.LenRoundTrip | engineio/payload/util.go:5-89 | every length from 0 to 2^63-1, in both spellings and in front of any bytes, is read back and leaves exactly those bytes |
| Numerals.ReadLenValue | engineio/payload/util.go:55-89 | of a longer digit string the readers make its value wrapped to 64 signed bits |
| Numerals.WriteLen | engineio/payload/util.go:5-53 | both length writers emit the canonical digits and the terminator; zero and negative lengths are written as 0 |
| Numerals.ReadLength | engineio/payload/util.go:55-89 | both length readers return the value up to the terminator, or the error for the end of input or a foreign byte |
| Numerals.NumberRoundTrip | parser/encoder.go:139-153 | every uint64 in front of anything but a digit is read back, and reading stops there |
| Numerals.WriteUint64 | parser/encoder.go:139-153 | the header number writer emits the canonical digits |
| Numerals.ReadUint64FromText | parser/decoder.go:162-183 | the header number reader consumes all leading digits and puts the next byte back; says whether there was a digit and whether the input had ended |
| CodeUnits.CalcCodeUnitLength | engineio/payload/encoder.go:117-142 | one plus the code units counted at the lead bytes |
| CodeUnits.CostIsUnitsMinusOwed | engineio/payload/decoder.go:56-72 | reading bytes costs the budget their code units, less the continuation bytes they still owe |
| CodeUnits.BudgetMeaning | engineio/payload/decoder.go:56-72 | at every byte of a body the budget is the continuation bytes still owed plus the code units not yet started |
| CodeUnits.ChunkWithinBudget | engineio/payload/decoder.go:56-72 | a chunk that fits the budget, read without a surge (below), does not move the place where a reader of single bytes would stop, and its wrapped refund leaves no surge for later |
| CodeUnits.ChunkKeepsEnd | engineio/payload/decoder.go:52-74 | without a surge one `Read` of any size and any short count keeps what is left of the frame and what follows it; end of file exactly at the frame's end |
| CodeUnits.ChunkIndependence | engineio/payload/decoder.go:52-92 | without a surge, for every sequence of chunk sizes and short reads, the bytes read and those still to read are the frame, and the rest of the stream is the same |
| CodeUnits.ChunkIndependenceExactly | engineio/payload/decoder.go:52-74 | every budget and stream: all sequences of reads keep the frame exactly if the budget does not surge, that is if the refunds do not carry it past 2^63-1 before the last byte |
| CodeUnits.NoSurge | engineio/payload/decoder.go:56-72 | there is no surge if budget and bytes left are at most 2^63 together |
| CodeUnits.LargestBudget | engineio/payload/decoder.go:66-72 | with the budget 2^63-1 in front of 0xE0 0x41 0x41, a read of one byte leaves the budget -2^63 and so ends the frame, a read of three goes on |
| CodeUnits.RecoveredIffRecoverable | engineio/payload/decoder.go:56-72 | with more input behind it a body is recovered exactly if its budget first reaches zero at its end |
| CodeUnits.LastRecoveredIff | engineio/payload/decoder.go:56-72 | at the end of the input it is recovered exactly if the budget never runs out before its end |
| CodeUnits.ContinuationByteIsLost | engineio/payload/encoder.go:143-157 | the binary body 0x80 is announced with length 1 and read as empty |
| CodeUnits.UnitsAreUtf16 | engineio/payload/encoder.go:117-142 | of UTF-8 text the announced units are its UTF-16 code units, and nothing is owed at its end |
| CodeUnits.Utf8Recoverable | engineio/payload/decoder.go:56-72 | every UTF-8 text is recovered exactly |
| Base64.RoundTrip | engineio/payload/decoder.go:113-114 | standard base64 decoding undoes encoding (section 4 of RFC 4648) |
| PayloadCodec.HeaderRoundTrip | engineio/payload/encoder.go:96-157 | each of the three headers is parsed back to frame type, packet type and budget, and leaves the body |
| PayloadCodec.FrameRoundTrip | engineio/payload/encoder.go:64-157 | a sendable packet is read back and reading stops right behind it |
| PayloadCodec.FrameSpoiled | engineio/payload/encoder.go:143-157 | a packet that is not sendable does not come back as itself |
| PayloadCodec.PayloadRoundTrip | engineio/payload/decoder.go:76-177 | decoding the concatenated packets gives the same list and a clean end exactly if all of them are sendable |
| PayloadCodec.TextModeRoundTrip | engineio/payload/encoder.go:96-115 | in text mode UTF-8 string packets and any binary packets round trip |
| PayloadCodec.DecodeRound | engineio/payload/decoder.go:76-92 | one round of the decoder behind the packets it already has |
| PayloadCodec.AnnouncedBudget | engineio/payload/decoder.go:94-119 | an announced length of any size is read modulo 2^64; the length 2^63 leaves the budget 2^63-1 |
| PayloadCodec.SendableIsCalm | engineio/payload/encoder.go:64-157 | no frame of an encoded payload of sendable packets makes its budget surge, if the whole has at most 2^61 bytes |
| PayloadCodec.ChunkAt | engineio/payload/decoder.go:52-74 | without a surge a limited read at a position of the stream takes the bytes there, leaves the end of the frame where it is, and reports end of file exactly there |
| PayloadCodec.NoopIsPacket | engineio/payload/encoder.go:30-35 | the constant NOOP text is the encoding of an empty NOOP packet, in both modes |
| PayloadDevices.Encoder.Close | engineio/payload/encoder.go:64-94 | writes exactly the encoding of the packet made of the set types and the cached frame |
| PayloadDevices.Encoder.WriteTextHeader | engineio/payload/encoder.go:96-103 | length in code units and packet type as text |
| PayloadDevices.Encoder.WriteB64Header | engineio/payload/encoder.go:105-115 | length of the base64 text plus two, 'b' and packet type |
| PayloadDevices.Encoder.WriteBinaryHeader | engineio/payload/encoder.go:143-157 | frame type, length in code units as binary digits, packet type |
| PayloadDevices.Decoder.SetNextReader | engineio/payload/decoder.go:94-119 | takes over types and budget of the parsed header, or changes nothing and returns its error |
| PayloadDevices.Decoder.NextReader | engineio/payload/decoder.go:34-50 | starts on the fed reader only if there is none; a bad header is answered to the feeder |
| PayloadDevices.Decoder.Read | engineio/payload/decoder.go:52-74 | reads the next bytes of the stream and wraps the refunded budget, as the chunk function says, for every budget |
| PayloadDevices.Decoder.ReadAll | engineio/payload/decoder.go:76-79 | without a surge reads to the end of the frame, whose place does not depend on what was read before; a base64 error stays |
| PayloadDevices.Decoder.Close | engineio/payload/decoder.go:76-92 | discards the rest, goes on to the next header or ends, and answers the feeder at the end and on errors only; a base64 error met before is met again and answered |
| PayloadDevices.Decoder.Receive | engineio/payload/decoder.go:34-92 | reading and closing frame by frame answers the feeder exactly once, with success exactly at a clean end, and gives what decoding the stream gives unless a budget surges |
| PayloadDevices.CountRefund | engineio/payload/decoder.go:57-70 | the refund counted over a chunk is the total of its bytes' refunds |
| Pauser.NextKeepsInv | engineio/payload/pauser.go:32-84 | every lock section keeps: paused means no worker and a closed paused channel, pausing means a closed pausing channel, nobody sleeps without a worker to wake him |
| Pauser.RunKeepsInv | engineio/payload/pauser.go:32-84 | so no run of `Pause`, `Resume`, `Working` and `Done` by any threads closes a channel twice |
| Pauser.PausedUntilResumed | engineio/payload/pauser.go:58-74 | until a `Resume` a paused barrier stays paused, and neither `Working` nor another `Pause` succeeds |
| Pauser.OnePausePerResume | engineio/payload/pauser.go:32-64 | at most one `Pause` returns true between two `Resume`s |
| PauserObject.Barrier.PauseEnter | engineio/payload/pauser.go:32-56 | `Pause` up to its return or first wait changes the fields as the lock section says; each channel is closed while open |
| PauserObject.Barrier.PauseWake | engineio/payload/pauser.go:44-56 | a woken `Pause` checks its loop again and returns or waits |
| PauserObject.Barrier.Resume | engineio/payload/pauser.go:58-64 | back to normal with two fresh channels |
| PauserObject.Barrier.Working | engineio/payload/pauser.go:66-74 | counts a worker unless paused |
| PauserObject.Barrier.Done | engineio/payload/pauser.go:76-84 | takes a worker off and wakes the waiting, unless paused or without workers |
| HandoffProof.NextKeepsInv | engineio/payload/payload.go:121-180 | every step of every thread, unless a flush gives up while its writer is out, keeps: whoever holds a writer is the partner its flush waits for, and the other way round while the payload has no error and is open |
| HandoffProof.AnswerIsPartners | engineio/payload/payload.go:369-393 | a reply reaches the flush whose writer the call holds |
| HandoffProof.NextKeepsCore | engineio/payload/decoder.go:34-50 | every step whatever keeps: worker count is the number of live tokens, one claim per side, paused exactly while frozen or replaced; the one call that reads finds the decoder empty until it has read a header, then with its own reader until the clean end, and a feed that waits is the one whose reader is in use |
| HandoffProof.NextKeepsAttended | engineio/payload/decoder.go:76-92 | every step, unless a feed gives up on a reader in use or a reply leaves the decoder its reader, keeps: a feed waits for every reader in use |
| HandoffLedger.NextKeepsLedger | engineio/payload/payload.go:129-180 | every step, unless a flush gives up while its writer is out, keeps: a writer finds its own poll and frame in the shared encoder, what each response holds in each phase, the wire, and the order of the log |
| HandoffLedger.NextKeepsOrder | engineio/payload/encoder.go:37-94 | where these hold every step keeps the packets on the old wire in the order of their hand-overs |
| HandoffLedger.NextKeepsLog | engineio/session/session.go:402-470 | every step whatever keeps the order of the log, and no call in it twice |
| HandoffLedger.ResumedSince | engineio/session/session.go:419-424 | a log that is not frozen has a resume after each pause |
| HandoffTheorems.StepsMakeARun | engineio/payload/pauser.go:32-84 | no interleaving with polls, calls, timers and upgrader reaches a lock section whose close would be the second |
| HandoffTheorems.PauseStopsHandOvers | engineio/payload/payload.go:228-239 | in every run, from the return of `Pause` to `Resume`, and for good after the swap, no poll and no worker is inside the payload, and no rendezvous happens |
| HandoffTheorems.PauseIsABarrier | engineio/payload/payload.go:228-239 | unless a poll of that side has let go of something that stays out: from the return of `Pause` to `Resume` and after the swap nothing of the side is out, and all that the old connection handed out has been given back |
| HandoffTheorems.WorkersAreTokens | engineio/payload/pauser.go:66-84 | in every run the worker count is the number of polls and calls between `Working` and `Done` |
| HandoffTheorems.UpgradeKeepsOrder | engineio/session/session.go:402-470 | in every run: no hand-over on the old connection between a return of `Pause` and the next `Resume`; after the swap only hand-overs on the new one, before it none; no call is handed something twice |
| HandoffTheorems.WireIsSuccessOrder | engineio/session/session.go:258-275 | unless a flush has given up while its writer was out: every write that reports success is on the wire once, on the connection that handed the writer out; first the old connection's, in the order of hand-over, then the new one's |
| HandoffTheorems.OneWriterAtATime | engineio/payload/payload.go:342-393 | unless a flush has given up while its writer was out: at most one call is between `getWriter` and `putWriter`, and the shared encoder has its frame and its poll's writer |
| HandoffTheorems.OneReaderAtATime | engineio/payload/decoder.go:34-50 | in every run, whatever gives up: a reader is handed over only while no call reads and the decoder has no reader, and a call reads from the decoder's own |
| HandoffTheorems.ReplyIsForItsOwnPoll | engineio/payload/payload.go:98-180 | the reply a poll receives is from the call that has its own reader or writer: for a feed in every run, for a flush unless one has given up while its writer was out |
| HandoffTheorems.FlushWroteOneThing | engineio/payload/payload.go:121-180 | unless a flush has given up while its writer was out: a flush that returns nil wrote one whole packet or one NOOP, and nothing else |
| HandoffTheorems.OldWireIsResponses | engineio/payload/encoder.go:82-94 | unless a flush has given up while its writer was out: the packets written on the old connection are those in the responses, each in one |
| HandoffLimits.GivingUpExactly | engineio/payload/payload.go:162-180 | a flush gives up, the first to do so with its writer out if that is out: from there two calls can come to hold a writer at once exactly if its writer was still out and a flush and a call can still come in, the payload being open or both past their checks |
| HandoffLimits.SecondNeedsDeadline | engineio/payload/payload.go:342-367 | on every way from a flush that gave up to two writers out at once the write deadline is set anew |
| HandoffLimits.TwoWritersOut | engineio/payload/payload.go:162-180 | a run in which a deadline passes, is set anew, and two writers are out at once |
| PauseLimits.PauseExactly | engineio/payload/pauser.go:32-56 | either side, any step at the end of a run in which no poll has let go of what stays out: from there `Pause` can return with something of that side out exactly if the step lets go of something |
| PauseLimits.PausedWithWriterOut | engineio/payload/payload.go:162-180 | a run in which `Pause` returns while a writer is out |
| UpgradeLedger.Session.Upgrading | engineio/session/session.go:291-471 | for every outcome of every operation: installed exactly if probe, pause and confirmation succeed; connection and name change together; the one connection not kept is closed once; the old one is resumed last if paused and kept; every opened reader and writer is closed once |
| UpgradeLedger.Session.Probe | engineio/session/session.go:293-400 | succeeds exactly if a PING was read and echoed as a PONG of the same frame type and data without an error; closes all it opened |
| UpgradeLedger.Session.Confirm | engineio/session/session.go:426-458 | succeeds exactly if an UPGRADE packet was read and closed |
| Dispatch.Session.NextReader | engineio/session/session.go:83-157 | reads over pings it can echo and unknown packets; returns the first message, end of file at CLOSE, or an error; what was echoed, closed and left open on each way |
| Dispatch.CallsFilter | engineio/session/session.go:83-157 | successive calls return exactly the MESSAGE packets before the session ends, in order, for every stream |
| Dispatch.CallsWrite | engineio/session/session.go:95-131 | what successive calls write is what the packets they consume write, in order |
| Dispatch.WrittenArePongs | engineio/session/session.go:95-115 | while echoes succeed that is one PONG per PING with its frame type and data |
| Dispatch.ErrorFreeDispatch | engineio/session/session.go:83-157 | over a stream whose echoes succeed: exactly the messages before the first CLOSE, and one PONG per PING before it |
| Broadcast.ChangesMembers | broadcast.go:38-83 | the membership of every room after each change; no empty room is kept |
| Broadcast.SameMembers | broadcast.go:49-75 | since no empty room is kept, membership determines the map |
| Broadcast.Adapter.Join | broadcast.go:38-47 | adds the connection to the room |
| Broadcast.Adapter.Leave | broadcast.go:50-61 | takes it out, and the room away once empty |
| Broadcast.Adapter.LeaveAll | broadcast.go:64-75 | takes it out of every room and drops the emptied ones |
| Broadcast.Adapter.Clear | broadcast.go:78-83 | the room has nobody any more, and every other room is as it was |
| Broadcast.Adapter.Send | broadcast.go:86-93 | emits once to each connection in the room |
| Broadcast.Adapter.SendAll | broadcast.go:96-105 | emits once for each connection in each room |
| Broadcast.Adapter.Len | broadcast.go:123-128 | the number of connections in the room |
| Broadcast.Adapter.AllRooms | broadcast.go:145-155 | exactly the rooms somebody is in |
| Broadcast.Adapter.RoomsOf | broadcast.go:157-167 | exactly the rooms the connection is in |
| RedisNode.Server.Send | redis_broadcast.go:210-222 | emits to the local members and publishes the event |
| RedisNode.Server.SendAll | redis_broadcast.go:225-235 | emits for all local rooms and publishes the event for the room "" |
| RedisNode.Server.OnMessage | redis_broadcast.go:300-338 | emits to the room, for "" to all rooms, and for its own echo to nobody |
| RedisNode.Server.OnResponse | redis_broadcast.go:403-450 | counts an answer to a registered request and fires at the last one; ignores others |
| RedisNode.Server.Dispatch | redis_broadcast.go:539-564 | one received message changes the server as the handling function says |
| ClusterProof.NextKeepsEvents | redis_broadcast.go:210-235 | every step keeps: a sent event waits once at each other server that has not dealt with it, and every server emitted once to those it reached |
| ClusterProof.NextKeepsAsks | redis_broadcast.go:355-450 | every step keeps: a published request waits once at each server that has not answered, an answer waits once until counted, and the tallies are those of the answers counted |
| ClusterTheorems.EventIsDealtWith | redis_broadcast.go:300-338 | once drained, each server has dealt with an event at one moment since it was sent, emitting once to each target it had then |
| ClusterTheorems.SendRefinesMemory | redis_broadcast.go:210-235 | with membership unchanged a drained send emitted once to each connection the one adapter would emit to, and to no other: exactly if it was `SendAll`, or the room has a name, or the other servers have no named rooms |
| ClusterTheorems.UnnamedRoomReachesAll | redis_broadcast.go:331-335 | a run in which a send to "" reaches a connection in another room |
| ClusterTheorems.DoneOnceAllAnswered | redis_broadcast.go:425-427 | a request fires at most once, and has fired exactly if every server's answer is counted |
| ClusterTheorems.NoAnswerMissed | redis_broadcast.go:274-280 | since registration precedes publishing, a request with no message under way has fired |
| ClusterTheorems.GatherIsExact | redis_broadcast.go:253-284 | what `Len` or `AllRooms` returns is put together from one answer per server, each true at a moment during the call |
| ClusterTheorems.AskRefinesMemory | redis_broadcast.go:131-158 | with membership unchanged `Len` is the size of the room and `AllRooms` the rooms of the one adapter |
| ClusterTheorems.ClearRefinesMemory | redis_broadcast.go:201-207 | unless somebody joins meanwhile, a cleared room is gone everywhere once the request is published and handled |
| PacketHeader.WritePacket | parser/encoder.go:72-137 | type (of its own with attachments), count and '-', namespace and ',', id, arguments |
| PacketHeader.ReadHeaderFrom | parser/decoder.go:209-296 | reads a header with one byte of look-ahead, puts back what it was not looking for, and leaves the reader at the arguments |
| PacketHeader.ReadStringFrom | parser/decoder.go:185-207 | the bytes up to the separator, which is consumed, or to the end |
| PacketHeader.ReadIsPlain | parser/decoder.go:251-277 | whatever is read, the namespace is empty or starts with '/' and has no ',' and no '?' |
| PacketHeader.ReadBack | parser/decoder.go:209-296 | what every header with a plain namespace is read back as, over all combinations of count, namespace, id and arguments |
| PacketHeader.HeaderRoundTrip | parser/encoder.go:72-137 | type, namespace, id, need for an ack and attachment count come back and the arguments are left, exactly if the header is faithful |
| PacketHeader.IdIsSwallowed | parser/encoder.go:107-122 | an ack id 0 behind a namespace with no arguments does not come back |
| EventText.ReadEventFrom | parser/decoder.go:298-329 | cuts the text of the name at the first ',' or ']', leaving a ']' |
| EventText.EventSplits | parser/decoder.go:104-108 | the name is the first element and the arguments are decoded from the array of the others, one-element arrays included, exactly if that element has neither ',' nor ']' |
| EventText.EventPacketRoundTrip | parser/decoder.go:67-108 | a whole event packet comes back exactly if its header is faithful and its name unbroken |
| EventText.CommaBreaksName | parser/decoder.go:317-319 | the event name "a,b" is cut |
| Attachments.Attach | parser/encoder.go:155-204 | numbers the buffers from an index on in the order of the walk and returns their data in that order; fails exactly if one cannot be addressed |
| Attachments.Detach | parser/decoder.go:345-384 | replaces each placeholder by the data of its number and leaves other buffers alone; no index is out of range exactly if every placeholder's number is one of the buffers |
| Attachments.ReadBuffers | parser/decoder.go:140-151 | reads the announced number of binary frames in order, or fails at the first that is missing or not binary |
| Attachments.NumbersFind | parser/encoder.go:168-171 | a number leads to the place in the walk where it was given, for shared buffers too |
| Attachments.NumbersInOrder | parser/encoder.go:168-171 | without sharing, the numbers from the index on are given each once, in order |
| Attachments.AttachDetachRoundTrip | parser/decoder.go:352-360 | the placeholder of each attached buffer is in range of the data sent and is restored to its data |
| Attachments.MirrorIsRestored | parser/decoder.go:345-384 | restoring the placeholders of a decoded tree puts the data of the attached buffers back in every place, by index or by key |
| Attachments.ReceiveArgs | parser/decoder.go:121-158 | the attachment round trip: reading the binary frames and detaching the decoded tree succeeds, and every buffer in it has the data of the buffer in the same place of the tree that was attached, whatever the orders in which the two walks meet the keys of a map |
| Acks.NextKeeps | connection_handlers.go:12-51 | every step keeps: a callback is registered from the issue of its id until its deletion with the instance that emitted it |
| Acks.FiresOnceForItsOwn | connection_handlers.go:12-51 | in every run below 2^64 emits no id fires twice, and each firing is of the callback issued that id, in its instance's namespace |
| Acks.FiresExactlyWhen | connection_handlers.go:12-51 | a callback fires exactly when an ack with its id arrives in its namespace while its instance is the current one and its callback is still there, and decodes |
| Acks.StaleAckIsHarmless | connection_handlers.go:103-138 | an ack for an id of another instance fires nothing and touches no callback, neither when it arrives nor when it is done with |
| Acks.ReplyFindsItsCallback | namespace_conn.go:68-90 | ids are registered before they are written; an ack for a written packet that decodes fires its callback exactly if the namespace still has the instance, no ack has found the callback before, and none with its id was being served for the instance when the id was issued |
| Acks.LostExactly | connection_handlers.go:12-51 | in every run: a callback is deleted, or about to be, without an ack having found it exactly if an ack that guesses its id was being served for its instance when the id was issued |
| Acks.GuessedAckLosesCallback | connection_handlers.go:19 | the run in which the deferred delete of such an ack removes the callback, and the first ack for the written packet fires nothing |
| AckObjects.Connection.Emit | namespace_conn.go:59-91 | takes the next id of the connection, stores the callback in the namespace instance, then writes under the namespace's name |
| AckObjects.Connection.HandleAck | connection_handlers.go:12-51 | looks the callback up in the current instance, calls it if the arguments decode, and deletes it |
| AckObjects.Connection.HandleConnect | connection_handlers.go:89-121 | an unknown namespace ends the reading; a known one gets a new instance unless it has one |
| AckObjects.Connection.HandleDisconnect | connection_handlers.go:123-138 | the namespace's instance is dropped |

## Left out

- PayloadDevices.Encoder.Write: the streaming of the base64 writer and of its reader is not modelled; the frame is encoded as a whole when it is closed, and a wrapped frame is read to its end before it is decoded.
- PayloadDevices.Encoder.WriteB64Header: `utf8.RuneCount` is modelled for ASCII only, which base64 text is.
- PayloadCodec.PayloadRoundTrip: `DecodePayload` is what a reader gets as long as no budget surges, which encodings of sendable packets up to 2^61 bytes never do (`PayloadCodec.SendableIsCalm`). Of a frame whose budget surges a reader gets what its chunk sizes make of it; there `PayloadDevices.Decoder.Receive` states the answer to the feeder only.
- HandoffTheorems.OneWriterAtATime: stated unless a flush has given up while its writer was out, as `WireIsSuccessOrder`, `FlushWroteOneThing` and `OldWireIsResponses` are. It fails after that (engineio/payload/payload.go:162-180); `HandoffLimits` has the run, and the exact condition for the first flush that does so.
- HandoffTheorems.PauseIsABarrier: fails once a poll has let go of something that stays out; `PauseLimits` has the run and the exact condition.
- HandoffTheorems.PauseStopsHandOvers: one upgrade is in flight at a time; two simultaneous upgrades are not coordinated by the source.
- HandoffTheorems.WireIsSuccessOrder: the frame lock inside the new connection is not modelled, so the order of packets on the new connection is the order of their writes, not of their hand-overs.
- Handoff: reading calls follow one another, as engineio/payload/payload.go:182-183 demands and the one reading loop of a connection does; calls that race for the decoder are not modelled. Payload errors are one flag, `stored`, and deadlines are passed or not passed.
- Handoff: no liveness is claimed, in particular not after `Close`, which the second selects do not watch. A call with a stale snapshot of the replaced connection may end with an error.
- Dispatch.Session.NextReader: the outcomes of closing readers, writers and the session are only logged by the source and are left out.
- UpgradeLedger.Session.Upgrading: runs alone; the interleaving with readers and writers is in `Handoff`.
- RedisNode.Server.Dispatch: JSON texts, malformed messages and failing Redis connections are not modelled; the channel names are the kinds of messages.
- ClusterTheorems.GatherIsExact: the set of subscribers is fixed during the run and the unsynchronised `requests` map is changed in atomic steps; the lock nesting of `Rooms(nil)` is not modelled.
- ClusterTheorems.SendRefinesMemory: emitting to the local members and publishing are one step, as the source does both under one read lock; so are reading the rooms for an answer and publishing it.
- PacketHeader.WritePacket: write errors and the flushing of a buffered writer are not modelled.
- EventText.EventSplits: is about the text of the name; decoding that text as a JSON string is `encoding/json`'s part.
- Attachments.Attach: struct fields, slices and maps are all parts, the keys of a map are strings. The JSON text of a placeholder and of a plain buffer (parser/buffer.go) is not modelled, only what it carries.
- Acks.FiresOnceForItsOwn: emits take their ids one at a time and number fewer than 2^64; the source increments the counter without a lock.
- HTTP, JSONP, CORS, dialing, the websocket wrapper, cookies, session ids and option defaults: plumbing around the modelled core.
- Reflection, the calling of handlers and JSON itself: the model has abstract texts and argument trees.
- `conn.Close` and disconnect handlers under concurrency: the source promises nothing there beyond running the close once.
- Contexts, `ForEach`, logging and error types: simple accessors that would only add easy members.
