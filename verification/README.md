# A verified model of jdwpy

jdwpy is an asyncio client, codec and logging proxy for the Java Debug Wire Protocol (JDWP). This
project models its three connected parts in Dafny and proves what they are for.

**The request/reply multiplexer** (`Multiplexer.dfy`, `SimpleConnection.dfy`, `AsyncLoop.dfy`). Many tasks
send commands while one task receives packets; they share the table of pending replies, one future per
call, and the closed/error flags. The model is a transition system whose steps are the code between two
suspension points, so a run is any interleaving of requesters, reader, consumers, cancellations, failures
and `close()`. An id allocator sits below it and a background read loop with a FIFO queue above it.
`PacketConnection.dfy`, `SimpleConnection.dfy` and `LoopConnection.dfy` hold the classes themselves: each
method is the code of one step on the fields it updates in place, and is proved to be that step of the
transition system. `CallOutcomes.dfy` and `LoopOutcomes.dfy` prove what each event makes of a waiting call,
of a command on its way to a consumer, and of `close()`.

**The proxy session** (`ProxySession.dfy`, `Proxy.dfy`). Two forwarding loops share the tracked ID sizes,
two correlation tables and the close event. The transition system runs at the level of bytes.
`ProxyTracking.dfy` defines on the history of packets alone what the sizes and tables should be and proves
that they are, whatever the VM sends, as long as the debugger heeds a guard; `ProxyConditions.dfy` proves
that the guards are exact. `ProxyOutcomes.dfy` proves how a session ends and that its log is
complete. `Hexdump.dfy` is the dump that the proxy logs.

**The wire codec** (`Bytes.dfy` to `Commands.dfy`, `Packet.dfy`). A cursor reader and an append-only writer
are parameterised by five ID sizes of four or eight bytes each. `Wire.dfy` is the pure codec. Its notion of
correctness is *self-delimiting*: wherever the encoding of a value stands in a buffer, whatever surrounds
it, the decoder started there returns the value and stops right behind it. `Lists.dfy` shows that counted
lists inherit this, and each union of events, modifiers, values and commands is shown to inherit it from its
parts. Every stateful serializer is proved to append exactly the pure encoding and to raise on exactly the
values that do not fit; every deserializer is proved to agree with the pure decoder on every buffer and every
offset, errors included. `Layout.dfy` gives the fields of every structure in their wire order, with the
protocol's numbers, as tables of its own, and proves that the encoders write what the tables say;
`Readable.dfy` proves that whatever can be read can be written, so that no encoder is narrower than the wire.

## How to read it

- Histories (`received`, `answeredBy`, `taken`, `delivered`, `events`, `log`) are ghost records next to the
  state of the source. They let a theorem say which packet answered which call, or which spec was in force.
- A reply that passes the proxy answers the oldest unanswered command with its id (`ProxyTracking.Unanswered`,
  `ProxyTracking.OwnCommand`); a reply without such a command answers none.
- `Fits…` predicates are what the writer accepts. They are preconditions of round trips only; the methods
  handle every argument and say when they fail.
- Exceptions are values: `Result` and `Outcome` in `Results.dfy`.
- Reading follows Python: indices and `struct.unpack_from` count a negative offset from the end, and slices are
  clamped (`Bytes.FieldStart`, `Bytes.Slice`), so malformed payloads are covered by the deserializers too.

## Findings

- An id may be registered again as soon as it has left the table, but the earlier call may not have run its
  `finally` yet, which then removes the later call's entry. The later call waits for ever: no reply, failure or
  `close()` reaches it. `Multiplexer.ReuseCondition` gives the exact condition, and the id allocator meets it.
- `ArrayReference.SetValues` does not carry the element tag. As the reader never has an `array_element_tag`,
  the command survives the wire if and only if its tag and the tags of its values are INT.
- A region with a primitive tag and an element of another tag is written without complaint and read back as
  something else (`ArrayReference.RegionDomain`).
- `write_byte` masks its argument, so a byte item survives if and only if it is in 0..255; every other item the
  writer accepts survives.
- An event whose class status is -2^31 on the wire is read as 2^31, which cannot be written again; it is the only
  such value (`Readable.EventFitsAgain`, `Readable.WideStatusIsRead`).
- A command that does not decode ends the read loop without marking the packet connection, so calls in flight
  go on waiting until `close()`. `AsyncLoop.EndOfReadingCondition` says exactly which ends of the read loop leave
  nobody waiting, and `AsyncLoop.UnknownCommandDeafens` is the shortest run that leaves a call waiting.
- A read task cancelled before its first step never shuts the queue down, so a consumer waits for ever, even
  after `close()` (`AsyncLoop.EarlyCloseDooms` is the run). `AsyncLoop.StopCondition` gives the exact condition.
- When a debugger reuses an id that the proxy still has in its table, or whose reply is still being sent, a
  successful reply is formatted as the answer to another command (`ProxyConditions.ReusedIdIsMisread`); when an
  IDSizes command reuses the id of an unanswered command, the proxy misses the sizes. Both conditions are exact
  (`ProxyConditions.CorrelationCondition`, `ProxyConditions.SizesCondition`).
- When a VM replies twice to one IDSizes command, say with an error and then with sizes, the proxy ignores the
  second reply (`ProxyConditions.SecondAnswerCondition` says exactly when that leaves it with other sizes than
  the VM announced).

## Model

| member | source | states |
|---|---|---|
| Multiplexer.StepKeepsInv | src/jdwpy/connection.py:160-210 | Every step of every task (register, send done or failed, cancel, resume, arrival, receive failure, close) keeps the whole invariant of the pending table, as long as no call registers the id of a call that has not returned |
| Multiplexer.RunKeepsInv | src/jdwpy/connection.py:160-210 | The same over every interleaving; along it done futures never change, finished calls stay as they ended and the history only grows |
| Multiplexer.StepExtends | src/jdwpy/connection.py:171-188 | No step completes a future a second time, whichever of reply, error, cancellation and close comes first |
| Multiplexer.FinallyPopsOwnEntry | src/jdwpy/connection.py:198-202 | The pop in the `finally` leaves every other call's entry in the table |
| Multiplexer.ReplyReachesItsRequester | src/jdwpy/connection.py:169-172 | A reply with a waiting call's id resolves that call's future, no other future, and takes its entry out |
| Multiplexer.OtherRepliesAreDropped | src/jdwpy/connection.py:173-177 | A reply that no call waits for completes no future |
| Multiplexer.ReplyCorrelation | src/jdwpy/connection.py:167-202 | Over every run, a call returns a packet only if that is the first reply with its id received after it registered, and the packet is no other call's answer |
| Multiplexer.BrokenForever | src/jdwpy/connection.py:126-131 | Once the connection is closed or failed, at every later point nothing is pending, no unfinished call's future is undone, and no call is registered any more |
| Multiplexer.OrphanForever | src/jdwpy/connection.py:191-202 | A waiting call without a table entry waits through any run of replies, failures and close(); only its own cancellation ends it |
| Multiplexer.ReuseCondition | src/jdwpy/connection.py:194-202 | Registering an id that the duplicate check admits is safe against the next step if and only if no unfinished call carries that id |
| Multiplexer.ReuseStrands | src/jdwpy/connection.py:194-202 | For every state in which an unfinished call carries the registered id, the step that strands the new call |
| Multiplexer.ReusedIdStrandsACall | src/jdwpy/connection.py:191-202 | A run of five steps, without any failure, after which the second call with id 7 is an orphan |
| CallOutcomes.AdmittedCallWaits | src/jdwpy/connection.py:193-199 | On a working connection a call with a free id is registered, waits, and is the entry at its id |
| CallOutcomes.RefusedCallChangesNothing | src/jdwpy/connection.py:193-195 | A call that is refused leaves table and futures alone |
| CallOutcomes.SentCallAwaits | src/jdwpy/connection.py:199-200 | A completed send leaves the call waiting for its reply |
| CallOutcomes.FailedSendEnds | src/jdwpy/connection.py:198-202 | A send that raises ends its call without an entry and completes no future |
| CallOutcomes.ReplyEnds | src/jdwpy/connection.py:169-202 | After a reply with its id a waiting call's own next step returns that reply |
| CallOutcomes.CommandsPassBy | src/jdwpy/connection.py:178-179 | A command packet concerns no call |
| CallOutcomes.FailureEnds | src/jdwpy/connection.py:180-189 | After a failed receive the own next step of every waiting call raises that failure; after a cancelled receive it raises the cancellation |
| CallOutcomes.CloseEnds | src/jdwpy/connection.py:204-208 | After close() the own next step of every waiting call raises the cancellation |
| CallOutcomes.CancellationEnds | src/jdwpy/connection.py:200-202 | A call awaiting its future can be cancelled at any time, before or after the future is done; its own next step then raises the cancellation and leaves no entry |
| CallOutcomes.OutcomeStays | src/jdwpy/connection.py:167-210 | Once a call's outcome is fixed, no step of any other party changes it |
| CallOutcomes.FailureIsRecorded | src/jdwpy/connection.py:117-131 | The first error is kept, only close() closes, and after either no call is admitted |
| SimpleConnection.ClientStepKeepsInv | src/jdwpy/connection.py:271-275 | With ids from the one counter every step of every task keeps the invariant, without any assumption on ids |
| SimpleConnection.ClientRunKeepsInv | src/jdwpy/connection.py:271-316 | The same over every interleaving of send_command calls and connection steps |
| SimpleConnection.NoStrandedRequester | src/jdwpy/connection.py:191-202 | After every interleaving each call with an undone future is the entry at its id, each entry belongs to exactly one call, and the next id is free, so the duplicate branch is never taken |
| SimpleConnection.ClientSpec | src/jdwpy/connection.py:300-343 | After every interleaving the client's spec is the initial one until some call that asked for the sizes returns with supported ones, and then that of the last such call to return; the replies taken up are exactly those that calls returned |
| SimpleConnection.Bootstrap | src/jdwpy/connection.py:300-343 | From every reachable state of a working client, sending IDSizes and receiving a VM's own spec brings the client to that spec |
| SimpleConnection.IdsFromOne | src/jdwpy/connection.py:262-275 | Over every run the next id is one more than the number of send_command calls, and registered ids rise in order of registration |
| AsyncLoop.StepKeepsLoopInv | src/jdwpy/connection.py:372-421 | Every step of the read task, of senders, consumers and closers keeps the invariant of the whole client |
| AsyncLoop.LoopRunKeepsInv | src/jdwpy/connection.py:372-421 | The same over every interleaving |
| AsyncLoop.FifoConservation | src/jdwpy/connection.py:372-398 | Commands delivered, then queued, then in hand, then rejected by the decoder, are exactly the command packets received, in order |
| AsyncLoop.PacketFates | src/jdwpy/connection.py:166-179 | A received packet is a command, or the reply that resolved exactly one future, or a reply that resolved none |
| AsyncLoop.DrainThenStop | src/jdwpy/connection.py:382-398 | Once the read loop's body has ended, delivered and queued commands stay the same sequence in every run, and a consumer that is told to stop has been given all of it |
| AsyncLoop.DrainAll | src/jdwpy/connection.py:237-241 | From there, iteration yields every queued command in order and then stops |
| AsyncLoop.DoomedForever | src/jdwpy/connection.py:372-383 | After a cancellation before the read task's first step no run ever tells a consumer to stop |
| AsyncLoop.StopCondition | src/jdwpy/connection.py:372-383 | In every reachable state, some run tells a consumer to stop if and only if the read task was not cancelled before its first step |
| AsyncLoop.EndOfReadingCondition | src/jdwpy/connection.py:372-383 | A step that ends the read task leaves nobody waiting if and only if nobody waited before, or the receiver raised, or the cancellation came while receiving |
| AsyncLoop.UnknownCommandDeafens | src/jdwpy/connection.py:286-291 | A run of a new client in which an unregistered command ends the read task while a call waits on a connection that is neither closed nor failed |
| AsyncLoop.EarlyCloseDooms | src/jdwpy/connection.py:412-421 | A run in which close() returns before the read task has run, after which no run ever tells a consumer to stop |
| AsyncLoop.NobodyReadsAnyMore | src/jdwpy/connection.py:372-383 | Once the read task is over, a waiting call keeps waiting through every run without close() and without its own cancellation |
| AsyncLoop.ClosedForever | src/jdwpy/connection.py:412-421 | After close() has returned, in every run nobody waits, no call is registered and no id is spent |
| LoopOutcomes.ArrivalVerdict | src/jdwpy/connection.py:283-292 | A command is taken if its registered class decodes it under the client's spec, and ends the loop if the code is unknown or the payload does not decode |
| LoopOutcomes.CommandIsDelivered | src/jdwpy/connection.py:283-292 | Every modelled command that survives the wire is taken, queued and delivered, behind what was queued before |
| LoopOutcomes.OnlyUndecodableRejected | src/jdwpy/connection.py:286-291 | Over every run the loop gave up on a command only if registry or decoder reject it under the spec of that moment |
| LoopOutcomes.WhenReadingEnds | src/jdwpy/connection.py:372-383 | The exact steps that end the read task: a failed receive, a cancellation, a rejected command, or the next turn on a closed or failed connection |
| LoopOutcomes.EndIsNoticed | src/jdwpy/connection.py:377-383 | When the loop's body ends the queue is shut down with everything in it, and the loop counts as failed unless it was cancelled |
| LoopOutcomes.ReceiverMayFail | src/jdwpy/connection.py:379-383 | A failed receive ends the loop and leaves nobody waiting |
| LoopOutcomes.SendCondition | src/jdwpy/connection.py:406-410 | A send starts the loop; it touches the client if and only if the loop is neither closed nor failed |
| LoopOutcomes.CloseBeginning | src/jdwpy/connection.py:412-421 | close() either asks for the end of the read task or, if there is none to wait for, closes the connection and releases everybody |
| LoopOutcomes.AskedTaskCanEnd | src/jdwpy/connection.py:415-420 | The read task whose end was asked for can always end |
| LoopOutcomes.CloseResuming | src/jdwpy/connection.py:418-421 | After the wait close() closes the connection, empties the table and releases everybody |
| PacketConnection.ConnectionState.MarkError | src/jdwpy/connection.py:121-124 | The first error is kept |
| PacketConnection.ConnectionState.Check | src/jdwpy/connection.py:126-131 | Raises if and only if closed or errored |
| PacketConnection.JdwpPacketConnection.ClearPendingReplies | src/jdwpy/connection.py:148-152 | Empties the table and returns each pending undone future, and nothing else, once |
| PacketConnection.JdwpPacketConnection.SettlePending | src/jdwpy/connection.py:180-189 | The loop over those futures gives each the outcome and never touches a done one |
| PacketConnection.JdwpPacketConnection.HandlePacket | src/jdwpy/connection.py:168-179 | One turn of the receive loop is the arrival step; a command ends the loop |
| PacketConnection.JdwpPacketConnection.HandleReceiveError | src/jdwpy/connection.py:180-189 | The except clauses are the receive-failure step: cancelled futures for a cancellation, failed ones otherwise |
| PacketConnection.JdwpPacketConnection.BeginSend | src/jdwpy/connection.py:193-199 | The code before the send is the register step; it raises if and only if the state is broken or the id is in the table |
| PacketConnection.JdwpPacketConnection.AfterSend | src/jdwpy/connection.py:199-202 | After the send the call suspends if its future is undone, and otherwise returns or raises what the future holds, after the pop |
| PacketConnection.JdwpPacketConnection.AfterSendRaised | src/jdwpy/connection.py:198-202 | A failing send leaves through the `finally` |
| PacketConnection.JdwpPacketConnection.AfterFuture | src/jdwpy/connection.py:200-202 | The resumed call ends as its future says, or as cancelled if it was cancelled in between |
| PacketConnection.JdwpPacketConnection.CancelAwaiting | src/jdwpy/connection.py:200 | Cancelling a waiting call cancels its future only if that is undone; the entry stays until the `finally` |
| PacketConnection.JdwpPacketConnection.BeginClose | src/jdwpy/connection.py:204-208 | close() marks the state and cancels every pending undone future |
| SimpleConnection.SimpleJdwpConnection.AllocatePacketId | src/jdwpy/connection.py:271-275 | Returns the counter and advances it by one |
| SimpleConnection.SimpleJdwpConnection.BeginSendCommand | src/jdwpy/connection.py:300-316 | The packet under construction carries the next id, flags 0 and the command's codes; an id is spent even when to_bytes raises or no response is expected |
| SimpleConnection.SimpleJdwpConnection.FinishSendCommand | src/jdwpy/connection.py:318-343 | An error code raises; an IDSizes response replaces the spec if and only if it decodes to supported sizes; nothing else changes the spec |
| SimpleConnection.SimpleJdwpConnection.AfterSend | src/jdwpy/connection.py:316-343 | A call whose send has completed suspends, raises, or takes its reply up in the same step, as the client's step says |
| SimpleConnection.SimpleJdwpConnection.AfterFuture | src/jdwpy/connection.py:316-343 | A call whose future is done raises or takes its reply up in the same step, as the client's step says |
| LoopConnection.JdwpConnectionWithAsyncLoop.Start | src/jdwpy/connection.py:367-370 | Creates the read task at most once |
| LoopConnection.JdwpConnectionWithAsyncLoop.BeginReadLoop | src/jdwpy/connection.py:372-375 | The read task's first step; when cancelled before it, the body is not entered |
| LoopConnection.JdwpConnectionWithAsyncLoop.OnPacket | src/jdwpy/connection.py:283-292 | A reply goes to the table; a command is looked up and decoded under the client's spec, or ends the loop |
| LoopConnection.JdwpConnectionWithAsyncLoop.PutCommand | src/jdwpy/connection.py:375-376 | The command joins the end of the queue and the next turn checks the connection first |
| LoopConnection.JdwpConnectionWithAsyncLoop.OnReceiveError | src/jdwpy/connection.py:379-383 | A receive failure fails the pending calls, marks the error and shuts the queue down |
| LoopConnection.JdwpConnectionWithAsyncLoop.OnCancelled | src/jdwpy/connection.py:377-383 | A cancellation inside the body shuts the queue down without an error of the loop |
| LoopConnection.JdwpConnectionWithAsyncLoop.ReceiveCommand | src/jdwpy/connection.py:391-398 | Takes the oldest command; on an empty queue raises if it is shut down and suspends otherwise |
| LoopConnection.JdwpConnectionWithAsyncLoop.BeginSendCommand | src/jdwpy/connection.py:406-410 | Starts the loop, then raises when closed or errored, and otherwise sends what the client sends, under the next id |
| LoopConnection.JdwpConnectionWithAsyncLoop.BeginClose | src/jdwpy/connection.py:412-421 | close() waits if and only if the read task is not done, having asked for its cancellation |
| LoopConnection.JdwpConnectionWithAsyncLoop.ResumeClose | src/jdwpy/connection.py:418-421 | After the wait the packet connection is closed |
| ProxySession.StepKeepsTransparent | src/jdwpy/proxy.py:122-170 | Every step of either loop keeps the bytes written to each peer equal to the packets taken from the other, and idsizes_cmd_ids equal to the ids asked for and not replied to |
| ProxySession.ByteTransparency | src/jdwpy/proxy.py:122-170 | At every point of every run, with any peers, each was sent byte for byte the packets taken from the other; a packet is withheld if and only if it is a successful reply to an IDSizes command sent with its id and not replied to, and names no supported spec; it is then the last and the session is over |
| ProxySession.FrameCanBeSent | src/jdwpy/packet.py:57-98 | Forwarding cannot raise in to_bytes: whatever parsed can be encoded |
| ProxyOutcomes.FailureClosesSession | src/jdwpy/proxy.py:122-140 | A loop that raises is over and closes the session at every later point; it takes no further frame and the other loop at most one |
| ProxyOutcomes.ClosingSession | src/jdwpy/proxy.py:122-140 | Once the close event is set it stays set, and each loop takes at most the one frame it may be waiting for |
| ProxyOutcomes.NextTurnCondition | src/jdwpy/proxy.py:122-140 | After a completed send a loop goes on if and only if the close event is not set |
| ProxyOutcomes.CloseCondition | src/jdwpy/proxy.py:122-186 | Over every run the close event is set if and only if a loop raised or an unusable IDSizes reply was withheld |
| ProxyOutcomes.LogIsComplete | src/jdwpy/proxy.py:152-170 | After every run the log holds the packets taken from the VM, each once and in order, but for at most the last |
| ProxyTracking.StepKeepsTracked | src/jdwpy/proxy.py:142-170 | Every step keeps the sizes (or the correlation table) equal to what the history says, with any VM, if a debugger packet heeds the guard |
| ProxyTracking.RunKeepsTracked | src/jdwpy/proxy.py:122-170 | The same over every interleaving of the two loops |
| ProxyTracking.SpecTracking | src/jdwpy/proxy.py:152-159 | When no IDSizes command takes the id of an unanswered command: spec is that of the last successful answer to an IDSizes command, idsizes_cmd_ids are the unanswered IDSizes commands, and each packet was logged under the spec in force for it |
| ProxyTracking.CorrelationTracking | src/jdwpy/proxy.py:142-170 | When no command takes an id that is in the table or whose reply is being sent: outstanding_commands is exactly the commands whose reply is not fully handled, and each logged reply was looked up as the command it answers, or as none |
| ProxyTracking.HonestIsGuarded | src/jdwpy/proxy.py:142-170 | A debugger that uses no id twice, with a VM that replies only to ids it was sent, heeds both guards in every run |
| ProxyConditions.SizesCondition | src/jdwpy/proxy.py:144-159 | After a debugger packet the spec stays right in all guarded continuations if and only if that packet heeded the guard for the sizes |
| ProxyConditions.CorrelationCondition | src/jdwpy/proxy.py:144-170 | After a debugger packet no successful reply with a payload is formatted as the answer to another command, in any guarded continuation, if and only if that packet heeded the guard for the table |
| ProxyConditions.SecondAnswerCondition | src/jdwpy/proxy.py:154-159 | A VM packet leaves the session with other sizes than the VM announced last if and only if it announces new sizes in reply to an IDSizes command answered before |
| ProxyConditions.SecondAnswerIsMissed | src/jdwpy/proxy.py:154-159 | The shortest such run: an error reply first, the sizes later, and the old spec stays |
| ProxyConditions.ReusedIdIsMisread | src/jdwpy/proxy.py:144-170 | The shortest misreading, for successful replies with a payload: the first reply is looked up as the second of two commands with one id, and the second command's own reply is looked up as none |
| Proxy.JdwpProxySession.HandleDebuggerPacket | src/jdwpy/proxy.py:142-149 | Table updates and the write of the packet are the session's step |
| Proxy.JdwpProxySession.HandleVmPacket | src/jdwpy/proxy.py:152-167 | Interception of IDSizes replies and the write of the packet are the session's step, the raising path included |
| Proxy.JdwpProxySession.DecodeSpec | src/jdwpy/proxy.py:158-159 | The stateful decoding of a reply yields the spec that the pure definition names, or its error |
| Proxy.JdwpProxySession.AfterVmSend | src/jdwpy/proxy.py:168-170 | The packet is logged under the table and spec of that moment, then the entry goes |
| Proxy.JdwpProxySession.HandleVmException | src/jdwpy/proxy.py:180-186 | The close event is set and the loop is over |
| Proxy.JdwpProxySession.AfterDebuggerSend | src/jdwpy/proxy.py:124-126 | The loop goes on if and only if the close event is not set |
| Hexdump.FieldLayout | src/jdwpy/proxy.py:42-46 | The hex field is 49 wide, byte j stands at column 3j, two further from the ninth on, and a column without a byte is blank |
| Hexdump.OffsetReadsBack | src/jdwpy/proxy.py:48 | The offset column has at least four digits and reads back as the offset |
| Hexdump.LineLayout | src/jdwpy/proxy.py:41-48 | Each line's hex columns read back as its chunk, and a line contains no newline |
| Hexdump.LineText | src/jdwpy/proxy.py:41-48 | A line starts with the prefix and the offset as a number, and ends with each byte between bars, as a character if printable and as a dot if not |
| Hexdump.LinesCoverData | src/jdwpy/proxy.py:40-48 | Line k is about the data from 16k on, and there is a line for every started group of 16 bytes |
| Hexdump.DumpIsLossless | src/jdwpy/proxy.py:37-49 | Splitting a dump into lines and reading the hex columns recovers the data, under any one-line prefix |
| Hexdump.FormatHexdump | src/jdwpy/proxy.py:37-49 | The loop yields one line per started group of 16 bytes, and the text reads back as the data |
| Packet.ParseOfEncode | src/jdwpy/packet.py:57-98 | A packet in range comes back from its own bytes, whatever follows them, unknown error codes included |
| Packet.EncodeOfParse | src/jdwpy/packet.py:57-123 | Whatever a frame parses to is in range and encodes to that very frame |
| Packet.ParseOfEncodeAll | src/jdwpy/packet.py:57-70 | Any sequence of packets in range, concatenated, parses back to exactly that sequence |
| Packet.EncodeOfParseAll | src/jdwpy/packet.py:57-70 | Any byte stream is its frames re-encoded and a rest that does not parse, with at least 11 bytes a frame |
| Packet.FromBytes | src/jdwpy/packet.py:67-70 | Whatever the header, the class chosen agrees with bit 0x80 of the flags, so a parsed packet always passes the constructor's check |
| Layout.HeaderLayout | src/jdwpy/packet.py:82-113 | Length with header, id, flags, then command set and command or the error code, all big-endian, then the payload |
| Layout.ReplyBit | src/jdwpy/packet.py:20-34 | A packet is a reply exactly when the top bit of its flags byte is set |
| Packet.StreamReader.Deserialize | src/jdwpy/packet.py:56-70 | Reading from the stream agrees with the pure parser on every stream and consumes exactly the frame |
| Commands.PayloadDecodes | src/jdwpy/commands/base.py:56-66 | The registered class decodes a payload to the command it was written from if and only if that is not a SetValues of other tags than INT |
| Commands.EndToEnd | src/jdwpy/connection.py:271-308 | Command, payload, packet, frame, packet, class lookup, decode: the identity for the first 2^32 - 1 ids under one spec, under the same exact condition |
| Commands.SerializeCommand | src/jdwpy/commands/base.py:56-60 | Every modelled command appends its encoding, and raises if and only if a field is out of range |
| Commands.ToBytes | src/jdwpy/commands/base.py:56-60 | to_bytes returns the payload, which decodes back under the exact condition |
| Commands.FromBytes | src/jdwpy/commands/registry.py:23-25 | Lookup and from_bytes agree with the pure decoder on every payload; unregistered codes are rejected, and registered codes outside the nine modelled classes are reported as outside the model |
| Commands.LookupFindsTheClass | src/jdwpy/commands/registry.py:14-25 | Each modelled command is registered under its own codes, and a lookup with them yields only commands with them |
| Commands.LookupAgrees | src/jdwpy/commands/registry.py:23-25 | Whatever the payload, a command decoded under a set and a command number has these codes |
| Layout.CommandLayouts | src/jdwpy/commands/registry.py:14-25 | The numbers of the modelled commands and the fields of their payloads in order |
| Layout.OnlyIdSizesAsks | src/jdwpy/proxy.py:144-147 | Client and proxy take just the IDSizes command for a question for the sizes |
| Readable.CommandFitsAgain | src/jdwpy/commands/base.py:56-66 | Every command decoded from a payload below 2^31 bytes can be encoded, if and only if it holds no class status of 2^31 |
| Event.EventDelimits | src/jdwpy/commands/event.py:497-511 | For all 18 event kinds and every spec: decoding where an event's encoding stands returns it and stops behind it |
| Event.EventDispatchAgrees | src/jdwpy/commands/event.py:475-504 | What the table decodes under a kind has that kind and request id; kinds without a class are rejected |
| Layout.EventLayout | src/jdwpy/commands/event.py:45-513 | The kind number, the request id and the fields of all 18 events in order |
| Layout.CompositeLayout | src/jdwpy/commands/event.py:530-534 | Policy, number of events, and the events |
| Layout.InOrder | src/jdwpy/commands/event.py:533-534 | A list is encoded first element first |
| Readable.EventFitsAgain | src/jdwpy/commands/event.py:497-511 | An event that can be read can be written, if and only if it is no ClassPrepare with status 2^31 |
| Readable.CompositeFitsAgain | src/jdwpy/commands/event.py:530-543 | The same for whole composites |
| Readable.WideStatusIsRead | src/jdwpy/commands/event.py:351-368 | The wire number -2^31 is read as the class status 2^31 |
| Event.EventBodyDelimits | src/jdwpy/commands/event.py:45-472 | The same for the fields of each event class |
| Event.CompositeDelimits | src/jdwpy/commands/event.py:530-543 | The same for any list of events with its suspend policy |
| Event.CompositeRoundTrip | src/jdwpy/commands/event.py:530-543 | decode(encode(c) ++ tail) is c and leaves exactly tail |
| Event.CompositePrefixFree | src/jdwpy/commands/event.py:530-543 | Two encodings under one spec followed by anything are equal only if the commands and what follows are |
| Event.SerializeEvent | src/jdwpy/commands/event.py:507-511 | Appends the kind, the request id and the fields; raises if and only if one is out of range |
| Event.DeserializeEvent | src/jdwpy/commands/event.py:497-504 | Agrees with the pure decoder on every buffer and offset, unknown kinds included |
| Event.SerializeComposite | src/jdwpy/commands/event.py:530-534 | The loop appends exactly the encoding of the command |
| Event.DeserializeComposite | src/jdwpy/commands/event.py:536-543 | The loop agrees with the pure decoder, negative counts and failing elements included |
| EventRequest.ModifierDelimits | src/jdwpy/commands/event_request.py:252-264 | The self-delimiting round trip for all 12 modifier kinds |
| EventRequest.DispatchAgrees | src/jdwpy/commands/event_request.py:236-258 | What the table decodes under a kind byte has that very MOD_KIND |
| Layout.ModifierLayout | src/jdwpy/commands/event_request.py:37-264 | The kind number and the fields of all 12 modifiers in order |
| Layout.SetLayout | src/jdwpy/commands/event_request.py:309-314 | Event kind, policy, number of modifiers, and the modifiers |
| Readable.SetFitsAgain | src/jdwpy/commands/event_request.py:309-328 | A Set request that can be read can be written |
| EventRequest.SetDelimits | src/jdwpy/commands/event_request.py:309-328 | The self-delimiting round trip for a Set request with any list of modifiers |
| EventRequest.SetPrefixFree | src/jdwpy/commands/event_request.py:309-328 | Set encodings under one spec are prefix-free |
| EventRequest.SerializeModifier | src/jdwpy/commands/event_request.py:261-264 | Appends kind and fields; raises if and only if a field is out of range |
| EventRequest.DeserializeModifier | src/jdwpy/commands/event_request.py:252-258 | Agrees with the pure decoder, unknown kinds included |
| EventRequest.SerializeSet | src/jdwpy/commands/event_request.py:309-314 | The loop appends exactly the encoding of the request |
| EventRequest.DeserializeSet | src/jdwpy/commands/event_request.py:316-328 | The loop agrees with the pure decoder |
| ArrayReference.RegionDomain | src/jdwpy/commands/array_reference.py:19-36 | Decoding gives an accepted region back if and only if its tag is an object tag or every element carries it |
| ArrayReference.DecodedRegionIsHomogeneous | src/jdwpy/commands/array_reference.py:27-36 | Whatever was on the wire, a decoded region is of that kind |
| ArrayReference.SetValuesDomain | src/jdwpy/commands/array_reference.py:166-189 | For any reader tag, the command comes back if and only if that tag (INT when the reader has none) is its own and every value carries it |
| ArrayReference.DecodedTags | src/jdwpy/commands/array_reference.py:178-189 | A decoded SetValues and all its values carry the reader's tag |
| Layout.RegionLayout | src/jdwpy/commands/array_reference.py:19-25 | Tag, number of elements, and the elements, each with its own tag only under an object tag |
| Layout.SetValuesLayout | src/jdwpy/commands/array_reference.py:166-171 | Array, first index, number of values, and the raw values |
| Readable.RegionFitsAgain | src/jdwpy/commands/array_reference.py:19-36 | A region that can be read can be written |
| Readable.SetValuesFitsAgain | src/jdwpy/commands/array_reference.py:166-189 | A SetValues that can be read can be written |
| ArrayReference.SerializeRegion | src/jdwpy/commands/array_reference.py:19-25 | The loop appends the region; element tags only under an object tag |
| ArrayReference.DeserializeRegion | src/jdwpy/commands/array_reference.py:27-36 | The loop agrees with the pure decoder |
| ArrayReference.SerializeSetValues | src/jdwpy/commands/array_reference.py:166-171 | The loop appends the raw values under the command's tag |
| ArrayReference.DeserializeSetValues | src/jdwpy/commands/array_reference.py:173-189 | The loop agrees with the pure decoder for a reader with or without a tag |
| Vm.SpecRoundTrip | src/jdwpy/spec.py:92-101 | A VM announcing any supported spec is understood to have exactly that spec |
| Vm.SpecFromResponse | src/jdwpy/spec.py:92-101 | A response yields a spec if and only if all its sizes are 4 or 8, and then the spec with just these sizes |
| Layout.IdSizesLayout | src/jdwpy/commands/vm.py:314-319 | Field, method, object, reference type and frame size, in this order |
| Layout.RedefineLayout | src/jdwpy/commands/vm.py:833-837 | The class id, the number of bytes, and the bytes |
| Vm.RedefineClassesDelimits | src/jdwpy/commands/vm.py:888-900 | A counted list of counted byte blocks comes back with each block's own bytes |
| Vm.DeserializeIdSizes | src/jdwpy/commands/vm.py:304-312 | Agrees with the pure decoder |
| Vm.SerializeIdSizes | src/jdwpy/commands/vm.py:314-319 | Appends the five sizes |
| Vm.SerializeRedefineClasses | src/jdwpy/commands/vm.py:888-891 | The nested loops append exactly the encoding |
| Vm.DeserializeRedefineClasses | src/jdwpy/commands/vm.py:893-900 | The nested loops agree with the pure decoder |
| Spec.CreateSpec | src/jdwpy/spec.py:57-90 | A spec exists if and only if all five sizes are 4 or 8, and then has them |
| Spec.DefaultIsEight | src/jdwpy/spec.py:75-83 | The default spec has eight bytes everywhere |
| Constants.CodesAreExact | src/jdwpy/constants.py:7-152 | A byte names a constant only if it is its code; every other byte is rejected |
| Constants.TagsAreLetters | src/jdwpy/constants.py:10-25 | The tags are the signature letters |
| Constants.KindsAreNumbered | src/jdwpy/constants.py:112-152 | The event kinds, suspend policies and type tags have the protocol's numbers |
| Constants.ClassStatusOf | src/jdwpy/constants.py:155-161 | A non-negative status is itself; a negative one is taken modulo 16 or modulo the next power of two |
| Bytes.FormatRanges | src/jdwpy/io.py:218-226 | The exact ranges of the signed and unsigned formats of 1, 2, 4 and 8 bytes |
| Bytes.BigEndianDigits | src/jdwpy/io.py:218-226 | Byte i of n is the digit of weight 256^(n - 1 - i), also of negative numbers |
| Bytes.BigEndianOfSigned | src/jdwpy/io.py:54-64 | Every signed field that can be read can be written and gives the same bytes |
| Bytes.FieldStart | src/jdwpy/io.py:54-76 | A field is found if and only if it lies in the buffer, a negative offset counting from the end |
| Utf8.Utf8Condition | src/jdwpy/io.py:66-71 | Bytes pass for a string if and only if they encode some sequence of Unicode scalar values |
| Layout.StructureLayouts | src/jdwpy/io.py:305-323 | The fields of locations, tagged objects and values in order, and of strings |
| Layout.PayloadLayout | src/jdwpy/io.py:325-349 | A raw value is one big-endian number of its tag's width, a boolean 1 or 0, void nothing |
| Readable.ValueFitsAgain | src/jdwpy/io.py:149-191 | A value that can be read can be written |
| Readable.StringFitsAgain | src/jdwpy/io.py:66-71 | A string that can be read can be written if and only if it is shorter than 2^31 bytes |
| Readable.CutShortString | src/jdwpy/io.py:66-71 | A string whose length field promises more than there is becomes what is left, and the cursor moves by the full length |
| Readable.BooleanOfByte | src/jdwpy/io.py:50-52 | Every byte but zero is true |
| Cursor.ItemDelimits | src/jdwpy/io.py:39-191 | Each of the writer's operations is undone by the matching read, which moves by the item's width for the spec |
| Cursor.ItemWidthIsExact | src/jdwpy/io.py:204-349 | The encoding of an item has the width that the protocol's tables give for the spec |
| Cursor.ItemsDelimit | src/jdwpy/io.py:39-349 | Any sequence of typed items is read back type by type, wherever it stands, moving by the sum of the widths |
| Cursor.ItemsRoundTrip | src/jdwpy/io.py:39-349 | The items come back as written if and only if every byte item is in 0..255 |
| Cursor.WriteItems | src/jdwpy/io.py:204-349 | A sequence of writes raises if and only if some item is out of range, and otherwise appends all encodings |
| Cursor.ReadFields | src/jdwpy/io.py:39-191 | A sequence of reads agrees with the pure decoder, up to the first that raises |
| Cursor.WriteThenRead | src/jdwpy/io.py:39-349 | A writer's bytes in a fresh reader are read back with nothing remaining |
| Io.JdwpReader.ReadString | src/jdwpy/io.py:66-71 | Agrees with the pure decoder for every length, negative and too long ones included |
| Io.JdwpReader.ReadLocation | src/jdwpy/io.py:134-141 | Agrees with the pure decoder, field by field, errors included |
| Io.JdwpReader.ReadUntaggedValue | src/jdwpy/io.py:158-191 | Agrees with the pure decoder under each of the 16 tags |
| Io.JdwpReader.ReadValue | src/jdwpy/io.py:149-156 | Agrees with the pure decoder, unknown tags included |
| Io.JdwpWriter.WriteString | src/jdwpy/io.py:228-233 | Appends length and bytes; raises if and only if they encode no text or the length does not fit |
| Io.JdwpWriter.WriteLocation | src/jdwpy/io.py:305-311 | Appends the structure; raises if and only if a field is out of range |
| Io.JdwpWriter.WriteUntaggedValue | src/jdwpy/io.py:325-349 | Appends the raw value under each of the 16 tags; raises if and only if it does not fit the tag |
| Wire.ValueDelimits | src/jdwpy/io.py:149-191 | A tagged value of any of the 16 tags is self-delimiting |
| Wire.LocationDelimits | src/jdwpy/io.py:134-141 | A location is self-delimiting for any two ID sizes |
| Wire.StringDelimits | src/jdwpy/io.py:66-71 | A string of up to 2^31 - 1 bytes is self-delimiting |
| Lists.CountedDelimits | src/jdwpy/commands/event.py:530-543 | A counted list of self-delimiting elements is self-delimiting |
| Lists.PrefixFree | src/jdwpy/commands/event.py:530-543 | Encodings of a self-delimiting codec are prefix-free |
| Lists.ReadManyStuck | src/jdwpy/commands/event.py:540-542 | The loop over elements raises what its first failing element raises |

## Left out

- Sockets, the handshake, `drain` and the closing of streams; sender and receiver are sources of steps. argparse, log text and error names are not modelled either.
- The payloads of the other command modules: flat field lists and counted lists, which the generic lemmas already cover. The registry knows their codes.
- Commands.FromBytes: what a registered class outside the nine modelled ones makes of a payload is left open, where the source decodes it.
- ALLOWED_ERRORS only selects a log line. A reply's JdwpException is modelled by its error code alone.
- UTF-8 text: a `str` is modelled as its encoded bytes; a `str` with surrogates, which does not encode, as bytes that are not UTF-8.
- IEEE floats are opaque patterns of 4 or 8 bytes; conversion from and to Python floats is not modelled.
- Io.JdwpWriter.WriteUntaggedValue: a payload of another kind than the tag asks for is rejected. Python would also accept a bool for an integer, an int for a float, any truthy object for a boolean and any object for void, and these come back as the kind the tag names.
- The aliases of the ID reads and writes (thread, string, class and others) share the method of the ID they delegate to; interface IDs have the object ID's width, as in the code, where the protocol's tables make them reference types.
- Packet ids are natural numbers; a negative id, which to_bytes rejects, is not modelled.
- AsyncLoop.FifoConservation: the put into the unbounded queue is a step of its own, so the model has more interleavings than asyncio, which does not suspend there.
- LoopConnection.JdwpConnectionWithAsyncLoop.OnPacket: for registered commands outside the nine modelled ones, whether the payload decodes is a parameter of the step.
- LoopConnection.JdwpConnectionWithAsyncLoop.OnReceiveError: exceptions outside Exception other than cancellation (KeyboardInterrupt, SystemExit) end the program's loop in another way and are not modelled.
- SimpleConnection.SimpleJdwpConnection.FinishSendCommand: for other response classes than IDSizesResponse, what the decoder makes of the payload is a parameter. When the spec changes relative to the arrival of events is not claimed, as the code does not order the two.
- PacketConnection.JdwpPacketConnection.CancelAwaiting: a sender or receiver that swallows a cancellation is not modelled.
- ProxyTracking.CorrelationTracking: an on_packet_log callback that raises ends its loop like a failed send; formatting beyond the table lookup and the spec in force is not modelled. `run` only cancels the two loops once the close event is set, which the cancellation steps cover at any time.
