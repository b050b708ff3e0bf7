# midibridge-client: a verified model

midibridge-client receives MIDI messages from a WebSocket server, offers each of them to local consumer programs over
a TCP broadcast channel, and writes it to a virtual MIDI port. This project models the four parts of it that are hardest
to get right and proves, for all inputs, all runs and all interleavings, what they promise.

- **Broadcast server** (`IpcModel`, `IpcInvariant`, `IpcTheorems`, `IpcWitnesses`, `IpcGoroutines`, `IpcWriting`,
  `IpcServer`). Every atomic action of the accept, publish, write, read and close goroutines is one event of a state
  machine. Publish holds the read lock, so dequeues, socket writes and closes happen between its offers, while
  registration, removal and the swap in Close cannot. An event out of turn changes nothing, so every sequence of events
  is a run. The classes of `IpcServer` hold the fields of the source and can execute every event of the machine
  (`Perform`). Publish and Close are loops over these actions in which any number of events of the other goroutines may
  happen before each round (`Interfere`); writeLoop runs against a script of what the others, the peer and the socket do.
  Every such execution is shown to be a run of the machine.
- **Frames and consumers** (`Frames`, `Decoder`, `Consumers`, `EndToEnd`). The codec, the incremental decoder of the
  Node and TypeScript examples and the short-read loops of the C++, Python, C# and Java examples. `EndToEnd` composes them
  with the broadcast server, `Pipeline` with the session as well.
- **Session and reconnect loop** (`SessionModel`, `SessionTheorems`, `SessionTraces`, `WSClientLoop`, `Backoff`).
  connectLoop and readPump as a state machine with Disconnect, the main loop and the watchdog timers interleaved, and as
  the loops of the source over a scripted environment; every execution of the loops is shown to be a run of the machine.
  `SessionTraces` says the same by events alone: which step may follow what has happened, and what each field holds.
- **Grammar, note table and port** (`MidiGrammar`, `NoteTable`, `PortHealing`, `PortTraces`, `MidiOut`, `MainLoop`). The
  message validator against the grammar of the MIDI 1.0 Detailed Specification, the table of held notes against the log
  of written messages, the rebuilding of a failed port, again with a second account by events alone, and the MIDI loop
  that ties them to the broadcast server.

Histories (what was published, taken, dropped, handled, and so on) are fields of the state machines and ghost fields of
the classes.

## Where the code and its documentation disagree

- `docs/PROTOCOL.md` says a slot is released as soon as a consumer disconnects. In the code it is released when the write
  goroutine runs removeConn, which waits for a publish in progress and for the current socket write: `NoSlotLeaks`,
  `RefusedOnlyWhenFull` and `SlotIsHeldUntilDeregistered` state what the code does, and `ClosedConnectionHoldsASlot`
  gives a run in which a disconnected consumer keeps a ninth one out.
- `src/midiout.go` logs that a failed rebuild "will retry after further write failures". After a failed round there is no
  port, and Write returns before it counts failures, so no retry ever starts: `FailedRebuildIsFinal`, with a run that
  gets there in `RebuildCanFail`. `RebuildStartsAgain` has the exact condition for another rebuild ever to start: there
  is a port, or a rebuild that has not given up.
- The drop counter wraps at 64 bits. `WarningsAreSpaced` says for exactly which totals the slow-consumer warnings are
  spaced as documented, and `EveryTotalIsReached` that every total is reached by some run.
- The C# example reads the length in the byte order of its host. `CSharpReadFrame` says what it sees on either kind of
  host, and `HostOrderMatters` when that is the length that was sent.

## Model

| member | source | states |
|---|---|---|
| Frames.Uint32OfPut | src/ipc.go:435 | reading back a little-endian length word gives the number PutUint32 wrote |
| Frames.PutOfUint32 | src/ipc.go:462 | every four bytes are the little-endian encoding of the number read from them |
| Frames.ReadIsCanonical | src/ipc.go:429-475 | readFrame succeeds with a frame and a rest if and only if the bytes are that frame encoded, then the rest |
| Frames.ReadOfPartial | src/ipc.go:457-475 | a frame cut short is an end of stream, never a frame and never an invalid length |
| Frames.StreamRoundTrip | src/ipc.go:429-475 | repeated readFrame over any list of encoded frames returns that list and consumes everything |
| Frames.DecodeOfEncodeAll | src/ipc.go:429-475 | the same when arbitrary bytes follow: the frames come first, decoding goes on behind them |
| Frames.StreamIsCanonical | src/ipc.go:457-475 | on arbitrary bytes, re-encoding the decoded frames gives exactly the bytes consumed, and the rest starts with no complete frame |
| Frames.DecodeAppend | src/ipc.go:457-475 | decoding a longer stream continues from the residue of the shorter one |
| Frames.DecodeOfPrefix | src/ipc.go:457-475 | a prefix of a frame stream decodes to a prefix of the frames and a beginning of the next, never to an invalid length |
| Frames.EncodeFrame | src/ipc.go:429-439 | fails exactly above 1 MiB, otherwise fills a fresh buffer with the length, the kind and the body |
| Consumers.ReadFull | src/ipc.go:459-473 | returns the next n bytes, or all there are before the end of the stream |
| Consumers.ReadFrame | src/ipc.go:457-475 | for every schedule of short reads, the outcome readFrame has on the whole stream, errors included, and the stream left behind the frame |
| Consumers.OrDisjoint | docs/examples/cpp/main.cpp:167-170 | or-ing a shifted value onto a smaller one is addition |
| Consumers.ShiftOrIsUint32 | docs/examples/cpp/main.cpp:167-170 | shift-or assembly of four bytes is the little-endian number |
| Consumers.AssembleLength | docs/examples/cpp/main.cpp:167-170 | the length assembled from the header is the one PutUint32 wrote |
| Consumers.AssembleMasked | docs/examples/java/MidiBridgeClient.java:58-61 | the same with Java's sign-extended bytes, each masked before it is shifted |
| Consumers.HostOrderMatters | docs/examples/csharp/Program.cs:54-57 | BitConverter.ToUInt32 gives the little-endian number exactly on a little-endian host or for a palindromic word |
| Consumers.RecvAll | docs/examples/cpp/main.cpp:64-76 | for every schedule of short reads, exactly the next n bytes, or failure exactly when fewer are left |
| Consumers.RecvExact | docs/examples/python/client.py:34-54 | the same for the growing buffer |
| Consumers.ReadExactly | docs/examples/csharp/Program.cs:107-116 | the same into a slice of a buffer, leaving what precedes it alone |
| Consumers.ReadFully | docs/examples/java/MidiBridgeClient.java:114-124 | the same with -1 as the end of stream |
| Consumers.PythonReadFrame | docs/examples/python/client.py:57-75 | agrees with readFrame on every stream, and leaves the stream where it does |
| Consumers.CppReadFrame | docs/examples/cpp/main.cpp:154-184 | agrees with readFrame on every stream, and leaves the stream where it does |
| Consumers.CSharpReadFrame | docs/examples/csharp/Program.cs:49-62 | agrees with readFrame on every stream as the host sees it: unchanged on a little-endian host, with the length word reversed on a big-endian one |
| Consumers.JavaReadFrame | docs/examples/java/MidiBridgeClient.java:51-72 | agrees with readFrame on every stream with one header buffer reused |
| Consumers.ConsumeAll | docs/examples/java/MidiBridgeClient.java:51-72 | the main loop of each of the four examples, with one header buffer for all rounds, hands on exactly the frames of the stream and reports an invalid length exactly when the stream holds one; for C# on a big-endian host, those of the stream as it sees it |
| Decoder.BufferingDecoder.OnData | docs/examples/nodejs/client.js:44-88 | one data event appends the frames completed by the chunk, keeps the residue and destroys the socket on an invalid length |
| Decoder.DispatchIsRead | docs/examples/typescript/client.ts:93-109 | one round of the decoder's loop cuts off the frame readFrame would read |
| Decoder.ChunkingInvariance | docs/examples/nodejs/client.js:38-88 | for every stream and every cut into chunks, the same frames, verdict and residue as one-shot decoding; the residue never holds a complete frame |
| Decoder.ChunkingIsInvisible | docs/examples/typescript/client.ts:75-129 | two cuts of the same bytes cannot be told apart behind the decoder |
| MidiGrammar.AcceptedIsGrammar | src/wsclient.go:346-388 | the accepted byte strings are exactly the renderings of well-formed MIDI 1.0 messages of at most 64 KiB |
| MidiGrammar.AcceptedByStatus | src/wsclient.go:346-388 | in numbers: which status bytes start a message, and how many data bytes follow |
| MidiGrammar.ValidDataBytes | src/wsclient.go:392-399 | true exactly when no byte has its top bit set |
| MidiGrammar.ValidMidiMessage | src/wsclient.go:357-388 | the branches of the source accept exactly the grammar |
| MidiGrammar.PrefixFree | src/wsclient.go:357-388 | no accepted message is a proper prefix of another |
| MidiGrammar.UniqueSplit | src/wsclient.go:357-388 | two lists of accepted messages with the same bytes are the same list, variable-length SysEx included |
| MidiGrammar.NotAConcatenation | src/wsclient.go:346-348 | no accepted message is two or more accepted messages run together |
| MidiGrammar.MidiFits | src/wsclient.go:354-360 | every accepted message is non-empty and within the frame cap |
| IpcInvariant.ConnStepOk | src/ipc.go:84-111 | every step of a connection keeps its queue, drop, socket and close invariants |
| IpcInvariant.OfferNextInv | src/ipc.go:383-391 | one offer of Publish keeps the invariant of the whole server, counters included |
| IpcInvariant.DeregisterInv | src/ipc.go:97-100 | removing a connection on writer exit keeps the invariant of the whole server |
| IpcInvariant.CloseSwapInv | src/ipc.go:402-409 | swapping the map out keeps the invariant: every connection ever registered is closed or about to be |
| IpcInvariant.WarningsNext | src/ipc.go:387 | the exact number of warnings follows the wrapped counter from one drop to the next |
| IpcInvariant.RunInv | src/ipc.go:84-425 | the invariant holds after every finite interleaving |
| IpcTheorems.NoSlotLeaks | src/ipc.go:94-101 | at most 8 active connections; while the server is open they are exactly those whose writer has not deregistered |
| IpcTheorems.RefusedOnlyWhenFull | src/ipc.go:320-346 | a consumer is refused exactly when the server is closed or 8 writers are alive; otherwise it is registered with hello queued first |
| IpcTheorems.SlotIsHeldUntilDeregistered | src/ipc.go:96-101 | a connection keeps its slot until its own removeConn or the shutdown, through any other events |
| IpcWitnesses.ClosedConnectionHoldsASlot | src/ipc.go:328-334 | a run in which a closed connection holds the eighth slot and a ninth consumer is refused |
| IpcTheorems.Conservation | src/ipc.go:383-391 | per connection offered = accepted + dropped and 1 + accepted = taken + queued; dropped is the total modulo 2^64 and the warnings are exactly counted |
| IpcTheorems.SpacingIsExact | src/ipc.go:387 | the warnings logged for n drops number ceil(n / 500) exactly for n below 2^64 and for those n below 2^65 whose remainder modulo 2^64, less one, is at least 384 modulo 500 |
| IpcTheorems.WarningsAreSpaced | src/ipc.go:387-389 | in every run, dropped is the total exactly below the wrap, and the warnings are spaced exactly for those totals |
| IpcWitnesses.EveryTotalIsReached | src/ipc.go:383-390 | every number of drops is reached by some run |
| IpcTheorems.DropNewest | src/ipc.go:383-391 | an offer is dropped exactly when the backlog is 2048; queued frames and other connections are untouched |
| IpcTheorems.FirstOffersAreKept | src/ipc.go:336-344 | the first 2047 messages offered to any connection are never dropped |
| IpcTheorems.StalledConsumer | src/ipc.go:336-344 | a consumer that never reads keeps exactly the first 2047 and loses all others |
| IpcTheorems.KeepingUpLosesNothing | src/ipc.go:383-391 | a consumer with room at each offer of a run loses nothing in it, whatever the others do |
| IpcTheorems.StreamOfConnection | src/ipc.go:96-111 | the socket bytes are a prefix of hello and the accepted frames, which are an in-order selection of what was published while the connection was registered, complete if there were no drops |
| IpcTheorems.LeftIsLeft | src/ipc.go:94-95 | a connection that has left the map is offered nothing, accepts nothing and counts no drop in any continuation |
| IpcTheorems.GoneIsFinal | src/ipc.go:97-100 | a connection whose writer has deregistered never changes again |
| IpcTheorems.RunIsLocal | src/ipc.go:363-393 | a run of the server, seen from one connection, is a run of that connection alone |
| IpcTheorems.NewcomersAreAlike | src/ipc.go:335-345 | a newly registered connection looks the same whatever the server has done before |
| IpcTheorems.Isolation | src/ipc.go:363-393 | connections that start alike, as two newcomers do, in two runs that agree on the Publish calls and on their own events, end identical: queue, accepted messages, bytes and drops, whatever other consumers did |
| IpcTheorems.ShutdownIsFinal | src/ipc.go:397-425 | once Close has returned, every connection ever registered had done closed exactly once, none is active, and no queue or counter grows in any continuation |
| IpcTheorems.ClosedOnceForGood | src/ipc.go:84-89 | once a connection is closed, it stays closed and done has been closed once in every continuation, whoever calls close later |
| IpcTheorems.ClosedForAReason | src/ipc.go:96-124 | in every run, a connection is closed exactly if its peer, Close or its own writer has closed it, and a writer leaves only after the peer or Close has, or after a failed write |
| IpcServer.IpcConn.Close | src/ipc.go:84-89 | the machine's idempotent close |
| IpcServer.IpcConn.Offer | src/ipc.go:384-391 | the machine's non-blocking offer, and whether it dropped |
| IpcServer.IPCServer.AddConn | src/ipc.go:320-353 | the machine's registration, its result, and a fresh connection entered last |
| IpcServer.IPCServer.RemoveConn | src/ipc.go:132-136 | the machine's deregistration |
| IpcServer.IPCServer.BeginPublish | src/ipc.go:363-381 | the machine's start of a fan-out, and each reason not to start one |
| IpcServer.IPCServer.OfferNext | src/ipc.go:383-391 | the machine's offer to one consumer of the map, in any order |
| IpcServer.IPCServer.Publish | src/ipc.go:363-393 | with the other goroutines at work before each round, the whole call is a run of the machine with one begin of Publish; each connection active at its start is offered the message once and no other connection anything, in any map order |
| IpcServer.IPCServer.PeerGone | src/ipc.go:118-124 | the machine's close by the read goroutine |
| IpcServer.IPCServer.Act | src/ipc.go:84-108 | the machine's steps of one connection: receive, partial write, write error, done, close |
| IpcServer.IPCServer.Perform | src/ipc.go:84-425 | the objects execute every event of the machine, and an event out of turn changes nothing |
| IpcServer.IPCServer.WriteLoop | src/ipc.go:96-111 | under every script of the other goroutines, the peer and the socket, its loop plays exactly that script: its frames go out as far as the socket takes them, it fails only with the socket, sees done only when closed, and is left by its peer only when it has nothing to send; then it runs its deferred function, with others at work, and the connection is out of the map |
| IpcWriting.PlaysIsRun | src/ipc.go:96-111 | what the loop plays with its environment is a run of the machine |
| IpcWriting.WriterServes | src/ipc.go:102-108 | whenever the loop stops although nobody closed the connection and the socket did not fail, either everything accepted has gone out, hello first, or the socket has done all it was willing to |
| IpcWriting.FramesGoOut | src/ipc.go:105-106 | with at least m frames queued, nobody closing and a socket that takes m whole frames, exactly the first m queued frames go out |
| IpcGoroutines.FanOutProgress | src/ipc.go:383-391 | at any point of a fan-out, whatever else has happened, exactly the connections reached have been offered the message, once |
| IpcServer.IPCServer.Close | src/ipc.go:397-425 | with the other goroutines at work before each round, the whole call is a run of the machine that ends with every connection closed that was active and none in the map; a second call does nothing |
| EndToEnd.ConsumerSeesTheStream | docs/examples/nodejs/client.js:44-88 | in every interleaving and under every chunking, a consumer has decoded a prefix of hello and the accepted messages, and its decoder is open |
| EndToEnd.ConsumerSeesPublishedMessages | src/ipc.go:96-111 | the first frame is hello, the following bodies are an in-order selection of what was published while the consumer was registered, and valid if everything published is |
| EndToEnd.CaughtUpConsumerMissesNothing | src/ipc.go:363-393 | a consumer without drops that has received everything written has seen every message published while it was registered |
| Pipeline.PublishedHaveArrived | src/main.go:121-129 | everything published is valid MIDI and an in-order selection of the midi messages that have arrived |
| Pipeline.ConsumerSeesArrivedMidi | src/main.go:121-129 | end to end, from the messages that have arrived from the WebSocket server, unchanged, to the frames of a consumer program |
| MainLoop.MidiLoop | src/main.go:119-182 | Publish is called with the data of each event, in order, with the other goroutines at work in between, and table and port are led through the same events |
| SessionTheorems.RunInv | src/wsclient.go:143-322 | the invariants of the reconnect machine hold in every run |
| SessionTheorems.WhyItEnds | src/wsclient.go:143-246 | connectLoop returns only after Disconnect or auth_fail, with reconnect disabled, or when the retries since the last auth_ok have used up MaxAttempts |
| SessionTraces.OrderOfSteps | src/wsclient.go:143-322 | in every run exactly those steps of connectLoop and readPump are possible that the order of the code allows after what has happened |
| SessionTraces.RetriesAreCounted | src/wsclient.go:409-416 | reconnectCount is the number of retries since the last auth_ok |
| SessionTraces.MidiArrives | src/wsclient.go:428-443 | what is handled are the valid midi messages that arrived, unchanged and in order; the channel takes an event unless it holds 256 and gives them out first in, first out |
| SessionTraces.LinkIsTold | src/wsclient.go:326-344 | which timers run, which connection is current and which have been closed, as functions of what has happened |
| SessionTheorems.BoundedAttempts | src/wsclient.go:152-158 | with MaxAttempts = M > 0 and A auth_ok messages, at most M + A * (M - 1) attempts are ever started |
| SessionTraces.AttemptsAreBounded | src/wsclient.go:152-158 | the same, and the bound of one attempt with reconnect disabled, counted on the events of a run |
| SessionTheorems.LoopTerminates | src/wsclient.go:143-246 | the number of steps of connectLoop and readPump is bounded by M, A and the number of messages |
| SessionTheorems.SingleAttempt | src/wsclient.go:237-239 | with reconnect disabled at most one attempt is started |
| SessionTheorems.StopIsPrompt | src/wsclient.go:130-150 | after Disconnect at most one more attempt starts, only if the stop check had just been passed, and few steps remain |
| SessionTheorems.FewStepsRemain | src/wsclient.go:226-246 | the steps left after Disconnect are at most 266 from any reachable state |
| SessionTheorems.StoppedLoopIsNotBlocked | src/wsclient.go:138-140 | a stopped loop that sits in ReadMessage has had its connection closed, and elsewhere can go on by itself |
| SessionTheorems.AuthFailIsFinal | src/wsclient.go:418-426 | after auth_fail no further attempt starts |
| SessionTheorems.SessionsDoNotMix | src/wsclient.go:229-231 | MidiChan is empty when a connection is installed and holds events of one session only |
| SessionTheorems.MidiIsAccountedFor | src/wsclient.go:428-443 | valid handled = received + drained + lost to a full channel + queued; the received are an in-order selection and all valid |
| SessionTheorems.WatchdogTarget | src/wsclient.go:326-334 | a timer that fires closes its own connection, which has no authentication result, and no other |
| SessionTheorems.SettledIsSafe | src/wsclient.go:337-344 | once auth_ok, auth_fail or kicked was handled on a connection, no watchdog closes it in any continuation |
| SessionTheorems.EverybodyIsWatched | src/wsclient.go:206-207 | once armed, a connection's watchdog is running or has fired, unless a result was handled on it |
| SessionTheorems.EndedSessionsAreClosed | src/wsclient.go:510-517 | every connection but the current one has been closed |
| WSClientLoop.WSClient.Disconnect | src/wsclient.go:130-141 | stopChan is closed and so is the current connection, which stays in its field |
| WSClientLoop.WSClient.ArmAuthWatchdog | src/wsclient.go:326-334 | the machine's start of a timer for the new connection |
| WSClientLoop.WSClient.StopAuthWatchdog | src/wsclient.go:337-344 | the machine's stopping of the current timer |
| WSClientLoop.WSClient.CloseConn | src/wsclient.go:510-517 | the machine's closing of the current connection |
| WSClientLoop.WSClient.HandleMidi | src/wsclient.go:428-443 | discards what is not MIDI, queues the rest, loses it when the channel is full |
| WSClientLoop.WSClient.Dispatch | src/wsclient.go:408-466 | the machine's handling of each kind of message, and the reason returned |
| WSClientLoop.WSClient.HandleMessage | src/wsclient.go:401-467 | the message just read is handled as the machine handles it, and used up |
| WSClientLoop.WSClient.ReadPump | src/wsclient.go:264-322 | for every script it ends, with the reason matching the machine's place |
| WSClientLoop.WSClient.DrainMidiChan | src/wsclient.go:249-262 | leaves the channel empty although others receive from it meanwhile |
| WSClientLoop.WSClient.ReconnectWait | src/wsclient.go:469-484 | counts the retry and goes round again only if not stopped |
| WSClientLoop.WSClient.ConnectLoop | src/wsclient.go:143-246 | under every script of its environment it returns; its execution is a run of the machine driven by exactly what the script says, in that order; the channel is empty and the attempt bounds hold |
| Backoff.DelayIsExact | src/wsclient.go:489-499 | every wait is max(interval, 250) times 1.5 for each earlier attempt, at most 30 s, cut to milliseconds, plus the jitter |
| Backoff.DelayBounds | src/wsclient.go:489-499 | every wait is at least min(max(interval, 250), 30000) and at most 30999 ms |
| Backoff.DelaysGrow | src/wsclient.go:494 | the delay before jitter never decreases |
| Backoff.SaturatedFromThirteen | src/wsclient.go:494-497 | from attempt 13 on it is 30 s for every interval, and for the smallest interval not before |
| Backoff.WaitsAreGeometric | src/wsclient.go:489-499 | while unsaturated, n waits last 2 * I * (1.5^n - 1) ms, less n for truncation, plus at most 999 n for jitter |
| NoteTable.TrackIsByMessage | src/main.go:136-148 | a Note On with non-zero velocity enters its key, a Note Off or a Note On with velocity zero removes it, no other message touches the table |
| NoteTable.SoundingByGrammar | src/main.go:136-148 | after a log of valid messages a key sounds exactly when the last Note On or Note Off for it is a Note On with non-zero velocity |
| NoteTable.PassesByGrammar | src/midiout.go:173-182 | Write lets through every valid message but the control changes 120 and 123 |
| NoteTable.ApplyKeeps | src/midiout.go:55-81 | an event or AllNotesOff, in any map order, keeps table and port in agreement, and AllNotesOff empties the table |
| NoteTable.TableAgreesWithPort | src/main.go:136-148 | notesHeld is what the program last asked to sound, and what sounds at the port as long as the port takes every message |
| NoteTable.UndeliveredBreaksAgreement | src/midiout.go:161-168 | one refused Note On can break the agreement with the port |
| NoteTable.WhenRefusalMatters | src/main.go:136-176 | a refused event breaks it exactly when it is a note message that changes the table |
| NoteTable.OffMessageIsNoteOff | src/midiout.go:73-80 | AllNotesOff sends each key its Note Off with velocity zero on its own channel |
| NoteTable.WhatSilenceLeaves | src/midiout.go:67-81 | AllNotesOff leaves sounding exactly the keys that sounded, less those whose Note Off was taken; agreement is kept exactly if all were |
| NoteTable.CoverIsKept | src/midiout.go:67-81 | what sounds stays among what is held exactly unless a release of a sounding key is refused |
| NoteTable.SilenceIsComplete | src/midiout.go:67-81 | after AllNotesOff, in any map order, nothing sounds, and the last note message written for every key is a Note Off, provided no release was refused; Note Ons may have been |
| NoteTable.SoundsExactlyWhen | src/midiout.go:161-192 | over any run, exactly the keys sound for which the port took a Note On and no note message since |
| NoteTable.StuckMeansRefusedRelease | src/midiout.go:67-81 | a key that sounds without being held, as after AllNotesOff, had a later release refused |
| NoteTable.TableIsBounded | src/midiout.go:173-176 | at most 2048 held notes, and Write's checks never swallow a message of AllNotesOff |
| PortHealing.HealingIsOrderly | src/midiout.go:194-271 | at most one rebuild in flight, rebuilds more than 5 s apart, no live driver handle overwritten or forgotten |
| PortHealing.FailedRebuildIsFinal | src/midiout.go:164-168 | from the third failed attempt of a rebuild on, in every interleaving, there is no port and no rebuild ever starts |
| PortHealing.RebuildStartsAgain | src/midiout.go:194-204 | from any state that keeps the invariant, some continuation starts a rebuild if and only if there is a port or a rebuild that has not given up |
| PortHealing.RebuildCanFail | src/midiout.go:254-271 | five failed writes and three failed attempts lead there |
| PortTraces.CountersAreTold | src/midiout.go:184-204 | the failure counter holds the failed writes since the last success or successful rebuild, rebuilds start exactly when five are reached, none is in flight and the last one is more than 5 s ago, and there is a port exactly when it was opened last |
| PortTraces.RebuildNeedsFiveFailures | src/midiout.go:194-204 | whenever a rebuild starts, the last five writes that reached the driver all failed |
| PortTraces.OrderOfRebuilding | src/midiout.go:226-271 | in every run exactly those events are possible: writes reach the driver while the port is open, a rebuild closes the old port, tries until it succeeds or has failed three times, and ends |
| MidiOut.MidiOutput.CountFailure | src/midiout.go:194-204 | the machine's failure path, with the three conditions for a rebuild |
| MidiOut.MidiOutput.Write | src/midiout.go:161-215 | both machines' write: what reaches the port, what is swallowed, when an error is returned |
| MidiOut.MidiOutput.AllNotesOff | src/midiout.go:67-81 | empties the table, visits each held key exactly once in some order and asks for its Note Off on its own channel; which of them are taken is up to the driver alone |
| MidiOut.MidiOutput.HandleEvent | src/main.go:136-176 | one event's bookkeeping by the message it spells and its write, nothing at all when the port is not ready |
| MidiOut.MidiOutput.CloseLocked | src/midiout.go:279-291 | the machine's closing of port and driver |
| MidiOut.MidiOutput.Init | src/midiout.go:83-159 | the machine's Init: what each way to fail leaves in driver and port |
| MidiOut.MidiOutput.TryOnce | src/midiout.go:256-261 | one round is one step of the machine; a failed round leaves neither driver nor port |
| MidiOut.MidiOutput.ReinitAttempts | src/midiout.go:254-271 | with writers, the clock and Close at work between the rounds, tries in order until one of at most three rounds succeeds, leaving a live driver and port; after three failures there is neither |
| MidiOut.MidiOutput.ReinitAsync | src/midiout.go:226-240 | with writers, the clock and Close at work whenever the lock is free, the whole rebuild is part of a run of the machine and ends; there is a port and a live driver exactly when a round succeeded and nobody has closed the output since |

## Left out

- Sockets, TLS, the WebSocket library, JSON, RtMidi and the logger: they appear as outcomes (success, failure, a partial
  write) and as messages already decoded. A socket error is a stream that ends where the error occurred. C#'s example also
  parses control frames as JSON and stops on malformed ones, which is not part of this model.
- StatusChan and what main does with its events. The channel is lossy, so no claim is made that a disconnect always
  silences the port.
- The periodic ping and the read deadline: they only make ReadMessage return an error, which the model allows at any time.
- Configuration, translation, address parsing, command-line flags and the hex and verbose printers.
- The pacing of port writes in the MIDI loop.
- Interleavings of AllNotesOff with the middle of one event of the MIDI loop. Between HoldNote and Write they would break
  the agreement of table and port, so NoteTable handles one event as one step.
- The public Reinit of src/midiout.go, which nothing calls and which is not guarded against a background rebuild.
- Float64 rounding of the backoff: Backoff computes over the reals and truncates to milliseconds.
- A timer that is about to fire while it is being stopped: SessionModel.FireWatchdog is one step.
- IpcServer.IPCServer.WriteLoop runs over finite scripts after which the peer goes or the socket fails, so that executions
  that would go on for ever appear through their finite beginnings.
- MainLoop.MidiLoop has a broadcast server; without one main calls Publish on nil, which returns at once.
- IpcServer.IPCServer.Close leaves out a second caller that waits in closeOnce while the first is still at work.
- WSClientLoop.WSClient.ConnectLoop runs over a finite script after which the process shuts down, so that executions
  that would go on for ever appear through their finite beginnings.
- The Go and Rust examples, which leave exact reads to their libraries.
