# A verified model of the scope target

The scope target samples memory locations of a running system, keeps the newest samples in
double-buffered windows, decides with a trigger which window is worth sending, queues the
message, packs it with Protocol Buffers, frames it and hands the bytes to a driver. This
project models that chain and proves what holds of it on every input, every run and every
interleaving. `dafny verify dfyconfig.toml` checks all of it.

| Files | What they hold |
|---|---|
| `Bytes`, `FrameSpec`, `FrameProofs` | the frame format, the receiver as a fold of a one-byte step, an independent parser of whole strings, and their agreement |
| `Leftovers`, `Streams` | what a frame meets when payload of an earlier one is still in the input buffer; a parser of whole streams on any leftovers, and the receiver's agreement with it |
| `Framing`, `Transmission` | the transmitter and receiver object as it is, and transmissions from end to end |
| `SendLine` | the line of messages to the transmitter over whole runs |
| `CaptureSpec`, `CaptureProofs`, `TriggerProofs` | one capture cycle on values; invariants of all runs; when a trigger fires and where its sample ends up |
| `Fields` | every field of the capture, event by event, said of the fields alone and proved to be exactly what `CaptureSpec` does |
| `Windows`, `Recapture` | what each channel collects over whole runs; from one captured window to the next |
| `StaleStamps` | the run in which a late message empties the stamps that are being collected |
| `Channel`, `Timestamper`, `Trigger`, `Scope`, `CommandPackData` | the objects of the capture cycle, each method proved to do to the fields what `CaptureSpec` says |
| `Threads` | the two threads and their two locks as interleaved steps |
| `ControlSpec`, `Controller`, `Pipeline` | the acknowledge gate over all runs, the mailboxes, and one pass through all stages |
| `Delivery` | the chain as a whole: captured window, message, frame, chunks, decoder |
| `Vectors` | the byte strings that the repository gives for certain inputs |
| `Wire`, `ScData`, `ScAnnounce`, `BufferSize`, `Packer` | the Protocol Buffers wire format after the sections "Base 128 Varints", "Message Structure" and "Length-Delimited Records" of its Encoding document; the two messages with decoders written from that document; the size of the output buffer; the packer object |

Two forms appear side by side. What changes fields step by step is a class or a method with
loops; its `ensures` gives the whole new state as a function of the old one. What is then
promised about runs is proved of that function, as lemmas.

## What turned out to hold only under a condition

Each of these is a theorem with both directions, or a concrete family of inputs.

- A frame is understood if and only if its payload fits the input buffer; a longer one swallows
  everything that follows it, because the receiver waits in DATA for bytes that cannot be stored.
- A frame that arrives on payload left over from an earlier one, in the same call or a later one, is
  understood if and only if it fits and nothing is left over, but for an accident that is spelled out
  (`Leftovers.Echoes`): the leftovers begin its payload, the payload repeats them, and sum and
  closing flag turn up inside it where the receiver looks for them. In particular it never is when the
  leftovers are not the beginning of its own payload.
- With a header after a complete frame in the same call the receiver is stuck, and the call never
  returns, if and only if it declares less than is buffered. Declaring as much can destroy the first
  frame: the call answers true and nothing waits. When that happens is read off the bytes by a parser of
  whole streams, which the receiver is proved to follow on any leftovers and any string.
- A message that waits for the transmitter is replaced by the next one that is popped. Over a run every
  popped message is framed, in order, if and only if no pass pops one while another waits; with an open
  gate and a driver that does not read, three messages without payload are enough to lose the second.
- Writing to the output buffer while a frame is under way is harmless if and only if the payload
  is already out. `isReady` asks for an empty output buffer, which a frame without payload offers
  from its first byte on.
- `FramedIO_resetTx` keeps the header buffer. After a reset in the middle of a header the next
  header is cut off, and the next frame, of a type other than 0x5B and with a payload below 0x5B00 bytes, is right
  if and only if nothing, or the very same header, was left. The reset also leaves the ready flag set, so the
  first run of a new transmitter sends an empty frame of type SE_NONE.
- The sample that fired the trigger is in the window for every fill level if and only if the window holds
  four samples; where there is no room for it, all of the window was polled after the trigger. The pair
  that fires a trigger is in the window, so that no crossing is invented, under the same condition: with
  less, the very first sample fires against a value that no sample ever had.
- An SC_DATA message that is packed when no channel is full reads the stream of stamps the packer was handed
  before. A pack keeps the samples of running channels in lockstep with the stamps if and only if it does
  not read the stream that is being collected that way. It can only come to that when a clear or a start
  discards a waiting window while the packer holds the other stream, and it is exactly then that this
  safety is lost. In CLEANUP such a read silences the scope until a start, under the same condition as a
  clear; in continuous mode two lost stamps of a window of three or more are enough for that.
- Starting a channel also starts every stopped channel that ran when the states were last saved.
- A clear in CLEANUP silences the scope until a channel is started, whatever else follows, if and only if
  windows are longer than one sample or all channels are already stopped.
- What is decoded is the message as it was when its window was announced if and only if the window fits
  and the increment and, of a trigger, channel and mode are not reconfigured before it is packed.
- A clear in FILLUP does not take the window back: it is announced after as many polls as it has samples and one more, not marked as triggered.
- A waiting window goes out if and only if it is full and what is in its way is something the packer
  takes away; a partly filled swap buffer of another active channel is not.
- With two threads a command is put off if and only if the scope thread is in its run, and may then be
  overwritten by the next one; in the single-threaded pass no command is.
- Stored time stamps are an increment apart for sure if and only if `last + increment` stays below 2^32.
- `messageCanUnlockAckLock` names SE_NAK, but a NAK is answered before it is asked: a NAK never unlocks.
- `getWidthOfVarint` is right if and only if the number is below 16 or from 128 to 255, and the length
  written before a channel is right if and only if two such errors do not occur or cancel out.
- The `isReady` of the packer itself is always true, since the count it looks at is reset after every message.
- The names CHANNEL_OLD_DATA and CHANNEL_CURRENT_DATA are exchanged in `checkCurrentData`; the model
  follows the values, not the names.

## Model

| member | source | states |
|---|---|---|
| `FrameSpec.FeedSplit` | src/Communication/Interfaces/FramedIO.c:510-522 | splitting a byte stream at any point changes neither the receiver's state nor whether a frame completes |
| `FrameSpec.CleanFeed` | src/Communication/Interfaces/FramedIO.c:482-491 | until a frame completes, a receiver that hunts for a start flag is in exactly the fresh state, so every rejected frame leaves nothing behind, and it never sticks |
| `FrameProofs.ReceiverRefinesParser` | src/Communication/Interfaces/FramedIO.c:132-251 | on every byte string the receiver completes exactly where the parser of whole strings finds its first good frame, with that type and payload and nothing else in its state |
| `FrameProofs.FrameUnderstoodIffItFits` | src/Communication/Interfaces/FramedIO.c:184-205 | the parser finds a frame, with its type, payload and end, if and only if the payload fits the input buffer |
| `FrameProofs.FrameAccepted` | src/Communication/Interfaces/FramedIO.c:233-251 | a frame that fits is accepted by a fresh receiver with its last byte and not before |
| `FrameProofs.FeedOversize` | src/Communication/Interfaces/FramedIO.c:184-205 | after a header that declares more than the input buffer holds no further byte ever completes a frame |
| `FrameProofs.ResynchronisesAfterGarbage` | src/Communication/Interfaces/FramedIO.c:207-251 | a good frame after any garbage that ends in the hunt for a start flag is accepted, at its last byte |
| `FrameProofs.FrameRoundTrip` | src/Communication/Interfaces/FramedIO.c:501-525 | however a frame that fits is cut into calls, type and payload come out, every call returns, and exactly the call holding the closing flag answers true |
| `FrameProofs.SecondFrameSticksIffShorter` | src/Communication/Interfaces/FramedIO.c:512-522 | a header after a complete frame in the same call leaves the receiver stuck if and only if it declares less than the payload still buffered (whether the second frame is understood is `Leftovers.SecondFrameUnderstoodIff`) |
| `FrameProofs.StuckForever` | src/Communication/Interfaces/FramedIO.c:184-205 | a stuck receiver is not changed by any byte (that no pass takes one is `Framing.FramedIO.Pass`) |
| `Leftovers.FrameOnLeftoversIff` | src/Communication/Interfaces/FramedIO.c:184-231 | a frame that arrives with payload left over in the buffer is understood if and only if it fits and nothing is left over, or it echoes the leftovers |
| `Leftovers.HarmlessIffEmpty` | src/Communication/Interfaces/FramedIO.c:184-205 | every frame that fits is understood on given leftovers if and only if there are none |
| `Leftovers.SomethingEchoes` | src/Communication/Interfaces/FramedIO.c:207-251 | the accident happens: a payload of two zeros and a closing flag on itself |
| `Leftovers.SecondFrameUnderstoodIff` | src/Communication/Interfaces/FramedIO.c:253-265 | of two frames in one call, or in two with the type collected in between, the second is understood under exactly that condition |
| `Leftovers.SecondFrameDestroysFirst` | src/Communication/Interfaces/FramedIO.c:223-228 | a second frame of the same length whose bytes do not pass for a zero sum, with no start flag after them, makes the call answer true and leave a fresh receiver |
| `Streams.ReceiverRefinesStreamParser` | src/Communication/Interfaces/FramedIO.c:501-525 | for every byte string on any leftovers, the receiver completes exactly if the parser of whole frames accepts one, has one waiting exactly if the parser does, is between frames exactly if the parser is, and is then in the parser's state |
| `Streams.AnswerLeavesNothingIff` | src/Communication/Interfaces/FramedIO.c:501-525 | a call answers true and leaves no frame to collect if and only if, in its bytes after those since the receiver was last between frames, the parser accepts a frame and none waits at the end |
| `Leftovers.NeverAgain` | src/Communication/Interfaces/FramedIO.c:482-491 | what does not begin with the buffered bytes is not received within six bytes more than its length, with or without a reset |
| `Framing.FramedIO.constructor` | src/Communication/Interfaces/FramedIO.c:356-394 | a new object has a fresh receiver and an idle transmitter that is marked ready |
| `Framing.FramedIO.ResetRx` | src/Communication/Interfaces/FramedIO.c:482-491 | the receiver is fresh, the transmitter untouched |
| `Framing.FramedIO.CheckStartFlag` | src/Communication/Interfaces/FramedIO.c:132-143 | consumes what the byte-wise receiver consumes up to the start flag, at least one byte while it hunts for one |
| `Framing.FramedIO.CheckType` | src/Communication/Interfaces/FramedIO.c:145-158 | the same for the type byte |
| `Framing.FramedIO.CheckLength` | src/Communication/Interfaces/FramedIO.c:160-182 | the same for the length bytes, modulo 2^32 |
| `Framing.FramedIO.CheckData` | src/Communication/Interfaces/FramedIO.c:184-205 | the same for the payload, with its 16-bit sum and a buffer that refuses what does not fit; moves on without reading when nothing is missing, and neither reads nor moves on when more is buffered than declared |
| `Framing.FramedIO.CheckChecksum` | src/Communication/Interfaces/FramedIO.c:207-231 | the same for the sum, with a reset when it differs |
| `Framing.FramedIO.CheckEndFlag` | src/Communication/Interfaces/FramedIO.c:233-251 | the same for the closing flag; true exactly when a frame completes |
| `Framing.FramedIO.Pass` | src/Communication/Interfaces/FramedIO.c:514-521 | one pass of the six checks is the fold over the bytes it took; it takes at least one unless the receiver is stuck, and then it takes none and changes nothing, so the loop goes on for ever |
| `Framing.FramedIO.PutRxData` | src/Communication/Interfaces/FramedIO.c:501-525 | terminates unless a byte is left when the receiver is stuck, and is then the fold of the byte-wise receiver over the whole call; true exactly if a frame completes; reads nothing while a frame waits |
| `Framing.FramedIO.RunRx` | src/Communication/Interfaces/FramedIO.c:253-265 | a complete frame's type is handed over once and the receiver is free again |
| `Framing.FramedIO.ResetTx` | src/Communication/Interfaces/FramedIO.c:493-499 | the transmitter is idle with an empty output and the ready flag set, the header and tail buffers are as before |
| `Framing.FramedIO.Update` | src/Communication/Interfaces/FramedIO.c:302-306 | the last packed message's type is ready for framing, nothing else changes; a message that waited is counted as lost |
| `Framing.FramedIO.RunTx` | src/Communication/Interfaces/FramedIO.c:267-300 | starts only when idle and ready; from then on exactly the frame around type and output is owed, or, with a header left over, the one that this header pushes out of its six bytes |
| `Framing.FramedIO.WriteTail` | src/Communication/Interfaces/FramedIO.c:440-451 | the tail is the big-endian payload sum and the closing flag, and the running sum starts again at zero |
| `Framing.FramedIO.GetTxData` | src/Communication/Interfaces/FramedIO.c:404-468 | fills the caller's buffer from its start with the next bytes owed, as many as fit and as there are, leaves the rest of the buffer alone and owes exactly the remaining bytes; the transmitter is free again exactly when none remain, and its mailbox is untouched |
| `Framing.FramedIO.AmountOfTxDataPending` | src/Communication/Interfaces/FramedIO.c:470-480 | the number of bytes still owed, zero exactly in state NONE |
| `Framing.StateNoneIffNothingPending` | src/Communication/Interfaces/FramedIO.c:459-480 | state NONE and nothing owed are the same |
| `Framing.BodyRead` | src/Communication/Interfaces/FramedIO.c:428-452 | reading any part of the payload leaves the rest of it and a tail with the sum over both parts |
| `Transmission.ReadsConserveTheFrame` | src/Communication/Interfaces/FramedIO.c:404-480 | over any sizes of reads the bytes read and the bytes owed make up the frame, and the count owed falls by the sizes asked for down to zero |
| `Transmission.EndToEnd` | src/Communication/Interfaces/FramedIO.c:404-525 | a frame read in any sizes and delivered in any chunks is the same type and payload at a fresh receiver |
| `Transmission.LateWriteIsHarmlessIffPayloadIsOut` | src/Communication/Interfaces/FramedIO.c:428-440 | bytes written to the output while a frame is under way leave it unchanged if and only if the payload is out |
| `Transmission.ResetSparesTheNextFrameIff` | src/Communication/Interfaces/FramedIO.c:493-499 | with k bytes of a header unread at a reset, the next frame is sent right if and only if these are the first k of its header and the rest of it repeats it; for types other than 0x5B and payloads below 0x5B00 bytes that is if k is 0 or the whole header is left and the same |
| `ChannelUnit.Channel.constructor` | src/Core/Channel.c:139-152 | a channel starts without an address and with empty buffers |
| `ChannelUnit.Channel.SetPollAddress` | src/Core/Channel.c:174-180 | an address turns INIT into STOPPED and changes no other state |
| `ChannelUnit.Channel.SetStateRunning` | src/Core/Channel.c:186-193 | only a stopped channel starts |
| `ChannelUnit.Channel.SetStateStopped` | src/Core/Channel.c:195-202 | only a running channel stops |
| `ChannelUnit.Channel.AddTriggerData` | src/Core/Channel.c:118-126 | the trigger stream holds the last sample and the new one |
| `ChannelUnit.Channel.Poll` | src/Core/Channel.c:208-222 | a running channel keeps the newest samples and the last pair; any other is untouched |
| `ChannelUnit.Channel.Clear` | src/Core/Channel.c:224-228 | both buffers and the trigger stream are empty |
| `ChannelUnit.Channel.SwapIsPending` | src/Core/Channel.c:238-244 | true exactly with a full window and an empty swap buffer |
| `ChannelUnit.Channel.SwapBuffers` | src/Core/Channel.c:246-251 | the window becomes the swap buffer and a new one is empty |
| `TimestamperUnit.Timestamper.UpdateElapsedTime` | src/Core/Timestamper.c:100-106 | due exactly if the clock has reached last plus increment in 32 bits |
| `TimestamperUnit.Timestamper.Stamp` | src/Core/Timestamper.c:108-118 | the time is always remembered and stored only while running |
| `TimestamperUnit.Timestamper.Clear` | src/Core/Timestamper.c:120-125 | both streams are empty |
| `TimestamperUnit.Timestamper.SwapIsPending` | src/Core/Timestamper.c:147-156 | true exactly with a full stream and an empty swap stream |
| `TimestamperUnit.Timestamper.SwapBuffers` | src/Core/Timestamper.c:158-164 | the stream becomes the swap stream and a new one is empty; the packer's pointer stays with its stream, which is now the other one |
| `TriggerUnit.Trigger.constructor` | src/Core/Trigger.c:373-420 | a new trigger is idle, in continuous mode, on channel 0, with nothing saved |
| `TriggerUnit.Trigger.StopChannelsAndTimestamp` | src/Core/Trigger.c:163-168 | every running channel and the stamps are stopped, nothing else changes |
| `TriggerUnit.Trigger.ResetBuffers` | src/Core/Trigger.c:170-175 | every buffer is empty, nothing else changes |
| `TriggerUnit.Trigger.SafeChannelStates` | src/Core/Trigger.c:177-182 | what runs is remembered for every channel, and the stamps run |
| `TriggerUnit.Trigger.RestoreChannelStates` | src/Core/Trigger.c:184-191 | every stopped channel that was remembered runs again, and the stamps run |
| `TriggerUnit.Trigger.SwapBuffers` | src/Core/Trigger.c:142-161 | all or nothing: either the active channel and the stamps are ready and every buffer and the trigger's time change hands, or nothing changes |
| `TriggerUnit.Trigger.CheckCurrentData` | src/Core/Trigger.c:301-324 | true exactly for a pair in the configured direction with the level on or between its values |
| `TriggerUnit.Trigger.DetectNormal` | src/Core/Trigger.c:207-231 | the detecting step of normal and one-shot mode on all fields |
| `TriggerUnit.Trigger.FillUpTillChannelFull` | src/Core/Trigger.c:233-243 | the filling step of continuous mode on all fields |
| `TriggerUnit.Trigger.FillUpIfTriggered` | src/Core/Trigger.c:245-259 | the filling step of the other modes, with its 32-bit count |
| `TriggerUnit.Trigger.StopInto` | src/Core/Trigger.c:273-299 | everything stops; a window that can go out does and ends the phase, otherwise the phase stays |
| `TriggerUnit.Trigger.Run` | src/Core/Trigger.c:444-460 | one step of the five-phase machine, with the announcement exactly as the machine has it (what that does to every field is `Fields.NextIff`) |
| `TriggerUnit.Trigger.Activate` | src/Core/Trigger.c:470-475 | remembered channels run, all buffers are empty, detection starts |
| `TriggerUnit.Trigger.Deactivate` | src/Core/Trigger.c:477-482 | what ran is remembered, everything is stopped, the trigger is idle |
| `TriggerUnit.Trigger.Configure` | src/Core/Trigger.c:337-360 | an unknown channel is refused and changes nothing; otherwise level, edge, mode and channel are set |
| `ScopeUnit.ScopeObject.constructor` | src/Core/Scope.c:240-286 | a new scope is the initial state of all runs |
| `ScopeUnit.ScopeObject.Poll` | src/Core/Scope.c:317-343 | nothing unless ready; nothing but the run flag unless due; otherwise stamp, all channels and the trigger, in that order; announces exactly what the machine announces (field by field: `Fields.NextIff`) |
| `ScopeUnit.ScopeObject.AllChannelsAreStopped` | src/Core/Scope.c:226-236 | true exactly if no channel runs |
| `ScopeUnit.ScopeObject.SetChannelRunning` | src/Core/Scope.c:374-388 | an unknown channel changes nothing; if then any channel runs the trigger is activated and the scope is ready |
| `ScopeUnit.ScopeObject.SetChannelStopped` | src/Core/Scope.c:390-405 | an unknown channel changes nothing; if then none runs the trigger is deactivated and the scope is not ready |
| `ScopeUnit.ScopeObject.Clear` | src/Core/Scope.c:407-413 | every buffer and the trigger's result are empty, the phase stays |
| `CommandPackDataUnit.Run` | src/Control/PackCommands/Command/CommandPackData.c:62-97 | if any channel is full, exactly the full swap buffers, the stamps and the trigger result are handed over, with the active channel, mode and increment as configured now, and the packer's pointer is set to the waiting stamps; if none is, the packer is handed nothing and keeps the pointer it had |
| `CommandPackDataUnit.PackMessage` | src/Serialisation/Protobuf/NanopbPacker.c:261-286 | packing an SC_DATA message empties the full buffers and the stamps handed over with them, or, if nothing was full, the stream of stamps that the packer still points to, and nothing else |
| `Fields.NextIff` | src/Core/Scope.c:317-413 | in every valid state and for every event the next state is the one state of which all this holds, field by field: a channel gets its address, starts and stops by exactly the listed events; a due poll gives each running channel its own sample; buffers are emptied and handed over by exactly these events; the last stamp moves with every due poll, stored or not; the phases follow one another as listed, on an edge only with level and direction written out; results, memory, count and flags likewise; and nothing else changes |
| `Fields.OutputIff` | src/Core/Trigger.c:273-299 | a window is announced if and only if a due poll in CLEANUP finds window and stamps full and what is in their way gone; what is announced and what is packed shows every full swap buffer, the stamps and what the trigger found; a pack without a full buffer reads the stamps the packer holds |
| `Fields.Beginning` | src/Core/Scope.c:240-286 | every run starts with nothing addressed, stored, found or remembered, idle and in continuous mode |
| `CaptureProofs.EveryEventKeepsInv` | src/Core/Scope.c:317-413 | every address, start, stop, clear, configuration, poll and pack keeps: no more stamps than samples of a running channel; idle or paused means all stopped; paused means all windows empty; some swap buffer is full if and only if the swap stream has stamps |
| `CaptureProofs.EventKeepsLockstepIff` | src/Core/Scope.c:317-413 | from a state in which every running channel has as many samples as there are stamps, an event leads to another one if and only if it is not a pack that empties the stamps being collected while a channel runs |
| `CaptureProofs.PackKeepsLockstepIff` | src/Control/PackCommands/Command/CommandPackData.c:76-78 | a pack keeps that if and only if some buffer is full, the packer's stream is none, the waiting one or empty, or no channel runs |
| `CaptureProofs.EventKeepsSafeIff` | src/Core/Scope.c:374-413 | while the packer holds the collected stream only if a full window waits, an event ends that if and only if it is a clear or a start that discards the buffers while the packer holds that stream |
| `CaptureProofs.LockstepOverRuns` | src/Core/Scope.c:317-413 | every run without such an event keeps lockstep throughout, however often the packer runs |
| `StaleStamps.LateMessageBreaksLockstep` | src/Core/Timestamper.c:158-164 | for every capacity and number of channels: two windows announced in continuous mode, the first packed, a clear, two polls and a pack, and the stamps are fewer than the samples |
| `StaleStamps.LateMessageSilences` | src/Core/Trigger.c:233-285 | for windows of three or more, such a pack after the second sample leaves a state from which no polls and packs announce anything |
| `StaleStamps.TwoShortForEver` | src/Core/Trigger.c:273-285 | so does any other loss of two stamps before the window is full, and any in CLEANUP that one more poll cannot make up |
| `CaptureProofs.StaleReadSilencesIff` | src/Core/Trigger.c:142-161 | after a pack that empties the stamps in CLEANUP no run without a start announces anything if and only if windows are longer than one sample or all channels are stopped |
| `CaptureProofs.ExactlyOnceDelivery` | src/Core/Trigger.c:142-161 | without clear and start, the windows announced are the windows the packer takes, in order and unchanged, plus the one that waits |
| `CaptureProofs.WaitingWindowIsFrozen` | src/Core/Trigger.c:273-299 | between the stop and the swap no event but a clear or start changes the samples of a window, and nothing but these and a stale read its stamps, and what is announced is that window |
| `CaptureProofs.WaitingWindowGoesOutIff` | src/Core/Trigger.c:142-161 | after the packer has run, a waiting window is announced at the next due poll if and only if window and stamps are full, every buffer in the way is one the packer takes, and the packer did not read the waiting stamps |
| `CaptureProofs.IdleIsLeftOnlyByAStart` | src/Core/Scope.c:374-388 | an event leaves IDLE if and only if it starts a known, stopped channel |
| `CaptureProofs.OneShotSendsAtMostOnce` | src/Core/Trigger.c:287-299 | whatever polls, clears, stops and one-shot reconfigurations follow, at most one window is announced, and IDLE follows it |
| `CaptureProofs.ClearWedgesCleanUpIff` | src/Core/Scope.c:407-413 | a clear in CLEANUP leaves windows that the poll still to come cannot fill if and only if they are longer than one sample or all channels are stopped |
| `CaptureProofs.SilentUntilAStart` | src/Core/Trigger.c:273-299 | from such windows, or from IDLE, no run without a start announces anything, whatever stops, clears, polls, packs and configurations it has |
| `CaptureProofs.ClearSilencesIff` | src/Core/Scope.c:407-413 | after a clear in CLEANUP no run without a start announces anything if and only if windows are longer than one sample or all channels are stopped |
| `CaptureProofs.StartRevivesSavedChannels` | src/Core/Trigger.c:184-191 | after a start another channel runs if and only if it ran before or was remembered as running and anything runs at all |
| `CaptureProofs.StopWhileWaitingForgetsAll` | src/Core/Scope.c:390-405 | a stop while all channels are stopped for their window makes the trigger idle and forgets all of them |
| `CaptureProofs.StoredStampsStaySpaced` | src/Core/Timestamper.c:100-118 | over any run with a fixed increment and a clock clear of the wrap, the stamps in both streams are ordered and at least an increment apart |
| `CaptureProofs.GapIsSureIffNoWrap` | src/Core/Timestamper.c:100-106 | a due poll is an increment later for every clock value if and only if the 32-bit sum does not wrap |
| `TriggerProofs.WindowHoldsTheNewestSamples` | src/Core/Channel.c:208-222 | after any samples the window is the newest of them, in order, up to its capacity |
| `Windows.TickCollects` | src/Core/Scope.c:333-335 | at a due poll every running channel, active or not, takes the sample with its own number for its oldest, any other keeps its window, and at an announcement every channel hands its window over |
| `Windows.WindowOverTurns` | src/Core/Channel.c:208-222 | over any polls, however the packer runs, the window of every channel that runs throughout, or at an announcement its swap buffer, is the newest of what it had and the samples with its number |
| `Windows.PollCollects` | src/Core/Scope.c:317-343 | one poll of the scope does this if it is due, and leaves every window alone if not |
| `Windows.WindowOverEvents` | src/Core/Scope.c:317-413 | the same over every run of events of which none discards windows, with the samples of the polls that are due |
| `Windows.AnnouncedWindow` | src/Core/Trigger.c:142-161 | an announcement is of every full swap buffer, the stamps, and what the trigger had found |
| `TriggerProofs.FiresIff` | src/Core/Trigger.c:207-231 | a trigger fires at a tick if and only if the window with the new sample is half full and the last two samples cross the level; the time reported is that of the tick |
| `TriggerProofs.FiringPairIsInTheWindow` | src/Core/Trigger.c:301-335 | with room for four samples the pair that fired is the newest two of the window |
| `TriggerProofs.NoCrossingIsInventedIff` | src/Core/Trigger.c:301-335 | that holds of every firing tick of every state of the invariant if and only if the capacity is at least four |
| `TriggerProofs.FirstSampleFires` | src/Core/Channel.c:224-228 | with a capacity of one to three, a first sample of 2 on a rising edge at level 1 fires in a window of one sample |
| `TriggerProofs.NoCrossingIsMissed` | src/Core/Trigger.c:207-231 | from a half full window, samples that pass the level in the configured direction have fired the trigger at or before the last of them |
| `Recapture.PausedPoll` | src/Core/Trigger.c:193-196 | in every state of the invariant in PAUSED the next due poll leads to DETECTING if and only if the mode is normal or continuous; then exactly the stopped channels that were remembered run, the stamps run, windows are empty and nothing is left of the last trigger |
| `Recapture.CaptureRemembers` | src/Core/Trigger.c:177-182 | from the trigger to the announcement, however the packer runs: what is remembered from CLEANUP on is, for every channel, whether it ran, and PAUSED is reached exactly by the announcement |
| `Recapture.SameChannelsRunAgain` | src/Core/Trigger.c:184-196 | after the announcement and one more due poll every channel is in the state it had when the trigger fired, with an empty window |
| `Recapture.FiresFromEmpty` | src/Core/Trigger.c:207-231 | from an empty window, polls that fill half of it and then pass the level in the configured direction fire the trigger at or before the last of them |
| `Recapture.FiredIsAnnounced` | src/Core/Trigger.c:245-285 | once fired, a window is announced at the latest by the first poll after the fill-up at which the packer is in time |
| `Recapture.NormalModeCapturesAgain` | src/Core/Trigger.c:396-401 | in normal mode, after an announcement and the poll that ends the pause, samples that fill half a window and pass the level fire again, into the state from which `Recapture.FiredIsAnnounced` has a further window announced |
| `Recapture.ClearInFillUp` | src/Core/Scope.c:407-413 | after a clear in FILLUP, unless the packer holds the collected stream, the next window announced is that of the polls after the next one, as many as a window has, not marked as triggered, and at the last of them or as soon as the packer is in time |
| `TriggerProofs.FillUpRun` | src/Core/Trigger.c:245-259 | after a trigger in lockstep and safe, nothing is announced for max(cap - u, cap / 2) polls, however the packer runs, and the window then holds the newest samples |
| `TriggerProofs.WindowAfterTrigger` | src/Core/Trigger.c:273-299 | from such a state, the window up to the poll after the fill-up is announced at the first poll at which the one before it is out of the way, unchanged however long that takes |
| `TriggerProofs.FiringTick` | src/Core/Trigger.c:229-230 | every tick that fires leads to the state the placement starts from |
| `TriggerProofs.TriggerPlacement` | src/Core/Trigger.c:245-285 | from a trigger in lockstep and safe, however the packer runs, the next window announced after a trigger has the sample that fired at entry cap - 2 - F, F = max(cap - u, cap / 2, 1), or if there is no such entry consists of samples polled after it up to the poll after the fill-up; the reported time is that of the trigger and, with stamps that overwrite the oldest, the stamp at that entry; it is announced exactly when F polls have passed and the packer is in time |
| `TriggerProofs.PlacementNeedsRoomForFour` | src/Core/Trigger.c:253-255 | the entry of `TriggerProofs.TriggerPlacement` exists for every fill level at which a trigger can fire if and only if the capacity is at least four |
| `TriggerProofs.CruisingTick` | src/Core/Trigger.c:193-243 | each due poll of continuous capture lowers the polls to go by one and announces exactly at the last |
| `TriggerProofs.ContinuousCadence` | src/Core/Trigger.c:444-460 | in lockstep and safe, however the packer runs, as long as it is in time, announcements come exactly every max(cap, 2) + 2 due polls after the first, never marked as triggered |
| `TriggerProofs.ActivationCountdown` | src/Core/Scope.c:374-388 | after an activation in continuous mode that does not find the packer with the collected stream, the first comes at due poll max(cap, 2) + 1 |
| `Threads.LocksAlwaysMatch` | src/Builders/ScopeThreadRunner.c:37-91 | in every interleaving a lock is held by exactly the thread between its attempt and its release |
| `Threads.NoRace` | src/Builders/ScopeThreadRunner.c:53-90 | no interleaving brings the threads into conflicting stages at the same time |
| `Threads.StagesAreUndisturbed` | src/Builders/ScopeThreadRunner.c:53-90 | nor does any next step |
| `Threads.NobodyWaits` | src/Builders/ScopeThreadRunner.c:44-60 | every step of a thread brings it closer to its end, and no step of the other takes it back |
| `Threads.EveryRunEnds` | src/Builders/ScopeThreadRunner.c:59-91 | from every reachable state a thread gets out by its own steps alone, holding no lock then |
| `Threads.ScopeRunBegins` | src/Builders/ScopeThreadRunner.c:44-46 | from every reachable state a run of the scope thread begins if and only if the stack thread does not have the config lock |
| `Threads.ScopePollsIff` | src/Builders/ScopeThreadRunner.c:49-57 | from every reachable state, whatever the stack thread does in between, a run polls if and only if the scope is active when the flags are read and the stack thread is not between its data lock and its release when that lock is tried |
| `Threads.ScopeReleases` | src/Builders/ScopeThreadRunner.c:55-60 | after polling both locks are given back, the data lock first |
| `Threads.StackReceivesFirst` | src/Builders/ScopeThreadRunner.c:71-72 | a run of the stack thread receives and unpacks first, whatever the scope thread does, and what it unpacks is pending when it looks |
| `Threads.StackParsesIff` | src/Builders/ScopeThreadRunner.c:75-81 | it parses if and only if a command is pending at the test and the scope thread is out of its run when the lock is tried; the command is then no longer pending, and is otherwise left |
| `Threads.StackPacksIff` | src/Builders/ScopeThreadRunner.c:85-90 | it packs and sends if and only if the scope thread is not polling when the data lock is tried |
| `Threads.StackFinishes` | src/Builders/ScopeThreadRunner.c:79-89 | after parsing it goes on to the data lock; aggregating, packing, sending, the release and the end follow one another |
| `Threads.CommandIsPutOffIff` | src/Builders/ScopeThreadRunner.c:75-81 | a pending command stays pending for another run if and only if the scope thread is in its own |
| `Threads.CommandMayBeOverwritten` | src/Builders/ScopeThreadRunner.c:71-81 | whatever the two commands are, in some interleaving the second is unpacked over the first, which is then nowhere |
| `Threads.ThreadsOverlap` | src/Builders/ScopeThreadRunner.c:85-86 | the threads really run side by side: flags are read while a message is put together |
| `ControllerUnit.Controller.constructor` | src/Control/Controller.c:249 | a new controller is locked, with nothing pending or queued |
| `ControllerUnit.Controller.CommandUpdate` | src/Control/Controller.c:190-193 | a command replaces the pending one, which is lost if it was not processed |
| `ControllerUnit.Controller.CommandPackPushEvent` | src/Control/Controller.c:146-183 | only the known events are queued, and a log only if none is queued |
| `ControllerUnit.Controller.RunRx` | src/Control/Controller.c:79-104 | a pending command is processed once; a NAK is only echoed; the gate is lifted exactly by the unlocking messages |
| `ControllerUnit.Controller.RunTx` | src/Control/Controller.c:106-144 | something is popped exactly if the packer is ready, the gate open and the queue with a due log not empty, and the gate closes exactly for SC_DATA, SC_LOG and SC_STREAM (`ControlSpec.WhatATxDoes`) |
| `ControlSpec.NothingBeforeTheFirstUnlock` | src/Control/Controller.c:113-115 | in every run something unlocked before anything was popped |
| `ControlSpec.StopAndWait` | src/Control/Controller.c:106-144 | in every run, between a message popped that is SC_DATA, SC_LOG or SC_STREAM and the next message popped, an ACK or a host command was processed; a NAK does not do |
| `ControlSpec.NoWaitAfterTheOthers` | src/Control/Controller.c:139 | in every run, after a NAK, ACK, announcement or detection was popped and as long as nothing else is, a message is popped exactly when the packer is ready and something is queued, without an acknowledge |
| `ControlSpec.StopAndWaitOverPasses` | src/Control/Controller.c:79-144 | over any sequence of passes through all stages, of which `Pipeline.RunScope` is one, a pass that pops after one that popped SC_DATA, SC_LOG or SC_STREAM, or one since, received an ACK or a host command |
| `ControlSpec.NoPassPopsBeforeTheFirstUnlock` | src/Control/Controller.c:113-115 | nor does any pass pop before the first of these was received |
| `ControlSpec.WhatATxDoes` | src/Control/Controller.c:106-144 | something is popped if and only if the packer is ready, the gate open and the queue, with a due log, not empty; the gate is then closed exactly if it is data, a log or a stream |
| `ControlSpec.WhatAnRxDoes` | src/Control/Controller.c:79-104 | the gate is open afterwards if and only if it was, or the command is an ACK or one from the host; a NAK is echoed |
| `ControlSpec.WhatIsQueued` | src/Control/Controller.c:146-183 | exactly NAK, ACK, data, announcement, detection and stream events are added, and a log if none is queued |
| `ControlSpec.WhatResponsesAdd` | src/Control/Controller.c:146-183 | of a list of events every one but a log is added as often as it is in it, and of logs at most one |
| `ControlSpec.WhatAPassQueues` | src/Builders/ScopeRunner.c:36-45 | of each kind but logs, what a pass pops and leaves in the queue is what it found, the echo of a NAK or the events of any other command, and one data message if the scope announced a window |
| `ControlSpec.LockedUntilUnlocked` | src/Control/Controller.c:92-94 | a locked gate stays locked and pops nothing until then |
| `ControlSpec.AtMostOneLogQueued` | src/Control/Controller.c:172-179 | the queue never holds two logs, whatever is pushed |
| `Pipeline.Serializer.RunRx` | src/Serialisation/Serializer.c:134-158 | a received message reaches the controller once, as itself or as a NAK if it cannot be decoded |
| `Pipeline.Serializer.RunTx` | src/Serialisation/Serializer.c:160-172 | a pending message is packed into an empty output once and its type goes to the transmitter |
| `Pipeline.Serializer.IsReady` | src/Serialisation/Serializer.c:195-198 | ready exactly with an empty mailbox and an empty output |
| `Pipeline.Serializer.UpdateUnpacker` | src/Serialisation/Serializer.c:174-177 | the type is left for the unpacker, and counted as a loss if one was there |
| `Pipeline.Serializer.UpdatePacker` | src/Serialisation/Serializer.c:179-182 | the same for the packer |
| `Pipeline.SendStages` | src/Builders/ScopeRunner.c:42-44 | a message is popped exactly as the gate says, which is offered an empty output as the packer's readiness; what is popped is packed and framed or left in the transmitter's mailbox |
| `Pipeline.ThreeSendsLoseOne` | src/Serialisation/Serializer.c:195-198 | with an open gate, an idle transmitter and NAK, ACK and DETECT queued, three passes of the sending stages without a read empty the queue and lose one message, whichever is popped second |
| `Pipeline.RunScope` | src/Builders/ScopeRunner.c:36-45 | one pass is one pass of the gate, with what it received, popped and left in the queue; it ends with the mailboxes of unpacker, packer and controller empty as they were and overwrites none of these; the transmitter's mailbox is overwritten if and only if a message is popped while one waits in it; a frame complete before the pass is handled in it; a message popped with the transmitter idle is owed, framed around its payload, at its end; a frame under way is unharmed if and only if no payload is packed or its own is already out |
| `Pipeline.WhatIsHeard` | src/Serialisation/Serializer.c:134-158 | of a complete frame the controller hears its type, or a NAK if it is one of the five decoded types and does not decode, and nothing of SE_NONE |
| `Pipeline.WhatIsSent` | src/Serialisation/Serializer.c:160-172 | of a message popped with the transmitter idle its frame is owed, around the payload if it is data, an announcement or a log, and around nothing otherwise |
| `SendLine.AllFramedIff` | src/Communication/Interfaces/FramedIO.c:267-306 | over every run of passes and reads, the messages popped are the messages framed, in order, and the one that waits, if and only if no pass pops a message while another waits |
| `SendLine.MessagesAreAccountedFor` | src/Communication/Interfaces/FramedIO.c:267-306 | over every run as many messages are popped as are framed, lost and waiting |
| `SendLine.ThreePassesLoseTheSecond` | src/Communication/Interfaces/FramedIO.c:302-306 | three messages popped with no read in between: the first is framed, the second lost, the third waits (that three can be popped is `Pipeline.ThreeSendsLoseOne`) |
| `Wire.VarintReadsBack` | src/Serialisation/Protobuf/NanopbPacker.c:192-193 | a varint is read back with whatever follows it |
| `Wire.WidthCountsSevenBitGroups` | src/Serialisation/Protobuf/NanopbPacker.c:176-183 | a varint takes at most k bytes if and only if the number is below 128^k |
| `Wire.WordsRoundTrip` | src/Serialisation/Protobuf/NanopbPacker.c:195-200 | packed 32-bit values are read back |
| `Wire.FieldReadsBack` | src/Serialisation/Protobuf/NanopbPacker.c:284 | a field of any kind is read back with whatever follows it |
| `Wire.CutFieldIsNone` | src/Serialisation/Protobuf/NanopbPacker.c:284 | no field cut short is read as anything |
| `ScData.AssumedWidthIsRightIff` | src/Serialisation/Protobuf/NanopbPacker.c:176-183 | getWidthOfVarint is the width of the varint if and only if the number is below 16 or from 128 to 255 |
| `ScData.LengthIsRightIff` | src/Serialisation/Protobuf/NanopbPacker.c:237-252 | the length written before a channel is the number of bytes after it if and only if sample count and id are in the stated ranges |
| `ScData.RoundTrip` | src/Serialisation/Protobuf/NanopbPacker.c:225-286 | with counts and ids in these ranges a standard decoder recovers channels, samples, ids, stamps, increment and trigger of every message |
| `ScData.RoundTripIff` | src/Serialisation/Protobuf/NanopbPacker.c:225-286 | and with at least one stamp in the message it does so only then, and otherwise does not even get the channels |
| `ScData.WrongChannelIsLost` | src/Serialisation/Protobuf/NanopbPacker.c:251-252 | after a wrong length the message is refused or its channel is another one, whatever follows |
| `ScAnnounce.AnnouncementRoundTrip` | src/Serialisation/Protobuf/NanopbPacker.c:288-335 | a standard decoder recovers every announcement |
| `BufferSize.DataFits` | src/Serialisation/Protobuf/NanopbPacker.c:420-432 | the size computed for at least one channel and fewer than 500000 samples holds every data message of no more channels and samples than that, with ids below 2^21 and any stamps, increment and trigger |
| `BufferSize.LongestMessageFitsIff` | src/Serialisation/Protobuf/NanopbPacker.c:420-432 | the longest message of n channels is 3n - 2 bytes shorter than the budget for n channels, and so fits if and only if n is not 0 |
| `BufferSize.NoRoomWithoutChannels` | src/Serialisation/Protobuf/NanopbPacker.c:427-432 | without channels it does not: increment, trigger and stamps together exceed their budgets by two bytes |
| `BufferSize.AnnouncementFits` | src/Serialisation/Protobuf/NanopbPacker.c:434-437 | the computed size holds every announcement of no more addresses than that, with ids below 2^21, names up to 29 characters, fewer than 2^28 channels and a version of up to three characters |
| `BufferSize.AddressBudgetIsTight` | src/Serialisation/Protobuf/NanopbPacker.c:435 | the longest addresses fit their 45 bytes if and only if the id is below 2^21, and fill them from 2^14 on |
| `BufferSize.MetaBudgetIsTight` | src/Serialisation/Protobuf/NanopbPacker.c:434 | the rest fits its 15 bytes if and only if there are fewer than 2^28 channels |
| `BufferSize.AnnouncementFillsBudget` | src/Serialisation/Protobuf/NanopbPacker.c:434-435 | any number of such addresses uses up the announcement's budget to the last byte |
| `PackerUnit.GetWidthOfVarint` | src/Serialisation/Protobuf/NanopbPacker.c:176-183 | the loop reports 1, 2 or 3 below 2^4, 2^8, 2^12 and 1 from there on |
| `PackerUnit.Packer.constructor` | src/Serialisation/Protobuf/NanopbPacker.c:374-412 | a new packer is empty and bounded by the output's capacity |
| `PackerUnit.Packer.AddChannel` | src/Serialisation/Protobuf/NanopbPacker.c:107-116 | a channel beyond the maximum is dropped, any other is added at the end |
| `PackerUnit.Packer.AddAddressAnnouncement` | src/Serialisation/Protobuf/NanopbPacker.c:138-150 | the same for addresses |
| `PackerUnit.Packer.IsReady` | src/Serialisation/Protobuf/NanopbPacker.c:165-168 | always true |
| `PackerUnit.Packer.WriteWords` | src/Serialisation/Protobuf/NanopbPacker.c:185-223 | writes the packed field of the stream's values and empties the stream, or stops where the output is full with a part of that field from its start |
| `PackerUnit.Packer.WriteChannel` | src/Serialisation/Protobuf/NanopbPacker.c:230-256 | the same for one channel behind its computed length |
| `PackerUnit.Packer.WriteChannels` | src/Serialisation/Protobuf/NanopbPacker.c:225-259 | the same for all channels in order |
| `PackerUnit.Packer.PackScData` | src/Serialisation/Protobuf/NanopbPacker.c:261-286 | the same for the whole message of what was added |
| `PackerUnit.Packer.WriteAddress` | src/Serialisation/Protobuf/NanopbPacker.c:293-317 | the same for one address, whose trial encoding always fits |
| `PackerUnit.Packer.PackScAnnounce` | src/Serialisation/Protobuf/NanopbPacker.c:323-335 | the same for the announcement |
| `PackerUnit.Packer.Pack` | src/Serialisation/Protobuf/NanopbPacker.c:352-369 | nothing happens while the output holds bytes; otherwise the output is the message if it fits and a part of it from its start if not, the buffers of a whole message are empty, and the packer starts over |
| `Delivery.WindowDecodesIff` | src/Control/PackCommands/Command/CommandPackData.c:62-97 | in every state that satisfies the invariant of the capture with something to pack, a standard decoder recovers the packed message if and only if window size and the numbers of the full channels are in range |
| `Delivery.SameWindowSameMessageIff` | src/Control/PackCommands/Command/CommandPackData.c:80-96 | of an unchanged window the message is unchanged if and only if the increment and, of a trigger, channel and mode are |
| `Delivery.WindowIsKept` | src/Core/Trigger.c:142-161 | from its announcement to its packing a window is the one that waits, through every run without clear, start and pack |
| `Delivery.WindowArrivesIff` | src/Builders/ScopeRunner.c:36-45 | announced, packed any such run later into an output of the computed size, framed, read in any sizes and delivered in any chunks, a window is decoded to samples, numbers, stamps, increment and trigger as they were at the announcement if and only if window size and numbers are in range and increment and, of a trigger, channel and mode are still configured as then |
| `Delivery.DecodedWindowReports` | src/Control/PackCommands/Command/CommandPackData.c:80-96 | what is decoded then has one channel for every channel whose swap buffer was full at the announcement and for no other, under its number and in ascending order, with the bits of its samples in theirs; the stamps and the increment; a trigger if and only if it was hit, and then the active channel, the time it fired, and 0, 1 or 2 for normal, continuous and one-shot |
| `Delivery.ReportedTriggerIsInPlace` | src/Serialisation/Protobuf/NanopbPacker.c:261-286 | of a window announced after a trigger, with stamps that overwrite the oldest and room for four samples, such a report gives as time of the trigger the stamp at entry cap - 2 - F, and at that entry of the trigger's channel the sample that fired |
| `PackerUnit.PackedDataArrives` | src/Serialisation/Protobuf/NanopbPacker.c:261-286 | in an output of the computed size a packed data message is recovered by a standard decoder whenever counts and ids are in range and, with stamps, only then |
| `PackerUnit.WhatWasAddedArrives` | src/Serialisation/Protobuf/NanopbPacker.c:107-136 | with counts and ids in range a decoder gets the channels in the order in which they were added, each with its number and samples, the stamps, the increment, and channel, time and mode of the trigger if it was hit |
| `PackerUnit.PackedAnnouncementArrives` | src/Serialisation/Protobuf/NanopbPacker.c:323-335 | in an output of the computed size every packed announcement is recovered |
| `Vectors.MessageNumbers` | include/Scope/Scope/Core/ScopeTypes.h:78-100 | the numbers of the message types |
| `Vectors.FramedAnnouncement` | test/Communication/FramedIO-test.cpp:376-389 | the frame of type 51 around 0, 1, 2, 3, 4, 5, byte by byte |
| `Vectors.FramedDetection` | test/Communication/FramedIO-test.cpp:392-402 | the frame of type 52 without payload, byte by byte |
| `Vectors.PackedData` | test/Serialisation/Protobuf/NanopbPacker-test.cpp:47-108 | the data message of two channels, six stamps, an increment and a one-shot trigger, byte by byte |
| `Vectors.PackedAnnouncement` | test/Serialisation/Protobuf/NanopbPacker-test.cpp:130-177 | the announcement of three addresses, byte by byte |
| `Vectors.PackedLog` | test/Serialisation/Protobuf/NanopbPacker-test.cpp:113-128 | a log message, byte by byte |

## Left out

- The ring buffers, streams, mutexes and the queue come from a library that is not part of this model: buffers are bounded sequences that refuse what does not fit, a lock attempt takes a free lock or fails at once, the queue is a multiset from which any element may be popped. Its capacity, and so the loss of an event pushed when it is full, and the ageing of its priorities are not modelled.
- What a timestamp stream does when it is written while full is a parameter of the model (overwrite the oldest or refuse the newest). What `TriggerProofs` says about stored stamps in a window is under the first of the two alone; everything else holds for both.
- Samples are real numbers in the capture cycle, with no NaN, and their 32 bits in the packer; the casts of `castDataToFloat` are not modelled, and the step from the one to the other is any function.
- The encoder behind the packer is written from the standard, not from nanopb; in how many pieces it writes a field is left open, and only what a refused write leaves behind depends on it.
- `Pipeline.RunScope` takes the packed payload, the answers of a command and whether a message can be decoded as parameters: the parsers, commands, dispatchers and NanopbUnpacker are not modelled.
- PackerUnit.Packer.constructor: the timestamp pointer is null in the model until one is added; in the source it is not initialised, and a data message packed before any window reads through it.
- A data message packed with no channel full also carries the trigger of the message before; `CaptureSpec.Stale` has only its stamps.
- The two streams of stamps are told apart by a tag (`CaptureSpec.Held`) that is exchanged when they are, not as objects; that the packer's pointer is to no other stream is not derived.
- The trigger mode before the first configuration is continuous in the model; in the source the strategy is, and the mode field is not initialised.
- Swap buffers are shared by reference between scope and packer in the source; in the capture model the packer's reading is one event of its own, and `PackerUnit` has its own buffers. What `CommandPackDataUnit.Run` hands over and what `PackerUnit` packs are joined by `Delivery.MessageOf`, a value, of which `Delivery.Reports` says what it holds.
- Sizes are unbounded numbers: `NanopbPacker_calculateBufferSize` can exceed a 32-bit size_t, which `BufferSize.DataFits` does not show.
- The left shift of a length byte of 0x80 or more into the sign bit is taken as the unsigned result it has in practice.
- ChannelUnit.Channel.SetPollAddress: the address and the data type that are stored are not in the model, because a polled sample is an input of `Poll`.
- Pipeline.Serializer.RunRx: whether the payload decodes is a parameter, and what the unpacker takes out of the input buffer is not modelled; `Leftovers` says what either choice means for the next frame.
- CommandPackDataUnit.PackMessage: the packer's reading is one step and not value by value; `PackerUnit.Packer.WriteWords` has the loop.
- ControllerUnit.Controller.CommandPackPushEvent: a push is never refused, because the fixed size of the queue is inside the library.
- A decoder refuses varints longer than ten bytes and the deprecated groups differently from `Wire`, which reads the former and refuses the latter.
- SendLine.AllFramedIff: passes are not held back by the packer's own condition for a pop, an empty output, so it speaks of more runs than there are.
- A runner without mutexes returns at once; `Threads` has both locks.
- Which resources a stage touches in `Threads` is read off the stages, not derived from the classes.
- `DataFits` and `AnnouncementFits` keep the ranges the budget was made for; beyond them only the tightness lemmas speak.
- Messages of type SC_LOG are packed (`PackerUnit.Packer.Pack`), but no decoder or size bound is given: a log does not enter the size computation.
- CommandPackLog, AnnounceStorage, ScopeBuilder, ScopeFramedStack, object destruction and the transmit callback only forward, copy or allocate.
