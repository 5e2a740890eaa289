# Verified model of the Metis-II gateway

A Dafny 4.11 model of the gateway that reads wireless M-Bus telegrams from a Metis-II radio
module over a serial line and publishes them to an MQTT broker. It follows the C++ program;
the C# program it was ported from has the same protocol engine
(`Features/MetisProtocol/MetisProtocolService.cs`, `Features/Telegrams/WMBusTelegramParserService.cs`). `dafny verify dfyconfig.toml`
checks everything.

## What is modelled

| file | part of the system |
|---|---|
| `Framing.dfy`, `ReceiveBuffer.dfy`, `Codec.dfy` | frames `FF command length payload xor`: what a byte stream means, the deframer that edits its buffer in place, the builder |
| `Corruption.dfy`, `Resynchronisation.dfy` | frames damaged on the line, and recovery after garbage |
| `Hex.dfy`, `Telegram.dfy` | hexadecimal and BCD text, and the data indication (telegram, signal strength, logged fields) |
| `Link.dfy` | the outside world: reads, clock, the system's answer to opening the device and blocking calls are arbitrary functions; a `World` holds the buffer, the time and one record of everything that happens: opens, closes, writes, the bytes of each read, frames taken out, the probe's verdict, messages sent on |
| `Protocol.dfy`, `Commands.dfy`, `SerialPort.dfy` | waiting, draining, retries and sessions, as functions on worlds with their theorems, and as loops over a port object and a shared buffer that compute exactly those functions |
| `Activation.dfy` | the set-up sequence over two connections |
| `Listener.dfy` | sessions with probe, receive loop and timed reconnect, handing their messages to the broker client |
| `Schedule.dfy` | when the listener does what: retry times, time stamps, and the exact course of a probe and of a session |
| `Mqtt.dfy` | the broker client as a machine whose steps disconnect callbacks may separate, also between reading the clock and storing a retry time, and the object that follows it |
| `Witnesses.dfy` | runs in which the exceptions that the theorems allow do happen |

Each function on worlds is the specification of the method that loops; the lemmas state what it
means, and for waits, requests, retries, the activation, the probe and the session one lemma each
(`WaitExactly` and those built on it, up to `ActivationExactly` and `RunExactly`) tells the whole course in bytes and milliseconds without
naming these functions. An exception is a `None` or error result. A read returns an error or any bytes that fit
its buffer. The clock is the sum of the sleeps and of arbitrary call durations; reads
take time in the long run, which is what ends the polling loops. The stop signal arrives after any
number of checks of the running flag, so every finite part of an endless run is covered.

## What the proofs found

Where a property one would expect is false of the code, the exact condition under which it holds is
proved, with a witness where that helps.

- A built frame comes back from the deframer if and only if its payload has at most 255 bytes; the length byte wraps (`BuiltFrameComesBack`).
- Damage that spares the start and length bytes removes exactly its own frame if and only if the flipped bits do not cancel in the checksum (`DamageIsContained`). Damage anywhere in a frame costs none of the frames before it and at most 65 after it, if those are ones whose torn parts decode to nothing (`DamageAnywhere`).
- A line of built frames recovers from every garbage, with at most one spurious frame, if and only if each of at most 258 places where a candidate that began in garbage can end leaves a rest that decodes to a suffix of what was sent (`RecoversFromEverything`). Lines whose torn frames decode to nothing meet this and lose at most 65 frames, which can happen (`Resynchronises`, `SixtyFiveLost`); start bytes inside frames may be harmless (`SturdyNotClean`) or hide every frame for ever (`NeverBackInSync`).
- A response may have been in the buffer before its command was written; this happens if and only if the buffer then held a matching frame (`StaleResponse`); in an activation two settings can be confirmed that way although no frame arrives once they are sent (`ConfirmedByOldResponses`).
- The probe for the signal strength option drops its buffer; no frame of the connection is lost by that, whatever comes later, if and only if that buffer decodes to nothing (`ProbeHandover`). A run in which a data indication comes in the same read as the answer never delivers it (`IndicationLost`).
- A telegram is reported with its strength if and only if the option is known to be on and it has at least eleven bytes; with ten, the strength byte is published as its last byte (`ReadingComesThrough`).
- Activation leaves the port open if and only if, on a port that opened, one of the settings or the mode is refused or unanswered in all five of its attempts (`ActivationPort`); a port that opens and stays silent is one (`SilentPortStaysOpen`).
- Opening the port itself leaves a descriptor behind when the baud rate is not supported, because the device is opened before the rate is looked up. The activation ends with a descriptor open if and only if its port is left open or its first open does that (`ActivationPort`); the listener leaves none, however long it runs, if and only if the rate is supported or the system never gives access to the device's settings (`NothingLeftBehind`), and otherwise one for each such attempt (`ListenerDescriptors`).
- The broker client publishes while it counts as connected if and only if no callback falls between its check and the publish (`PublishedWhileConnected`, `PublishedWhileDown`).
- After a disconnect callback no connect is decided on for 30 seconds, whatever comes, if and only if the callback does not fall between reading the clock and storing the retry time after a failed connect or publish, where the older time overwrites its own (`CallbackSilenceExactly`). A connect already decided on still happens, before its retry time if and only if such a callback came within the last 30 seconds (`ConnectsEarly`).

The repository's README lists reading the signal strength option before connecting to the broker.
Both programs connect to the broker first; the model has the code's order inside each part and does
not join the two.

## Model

| member | source | states |
|---|---|---|
| Framing.UniqueSegmentation | CPlusPlus/src/metis_protocol.cpp:26-55 | any split of a byte string into noise, rejected candidates, accepted frames and a pending tail is the one the deframer finds |
| Framing.ParseFlattens | CPlusPlus/src/metis_protocol.cpp:26-55 | such a split exists for every byte string and its pieces concatenate back to it |
| Framing.DecodeAppend | CPlusPlus/src/main.cpp:139-168 | decoding may stop anywhere and resume from the pending tail |
| Framing.ChunkingInvariance | CPlusPlus/src/main.cpp:139-168 | appending and draining read by read, empty reads included, gives the frames and tail of the whole stream |
| Framing.NextMeaning | CPlusPlus/src/metis_protocol.cpp:26-55 | one extraction takes exactly the first frame of the stream; a refusal means there is none and the buffer is the pending tail |
| Framing.NextConsumes | CPlusPlus/src/metis_protocol.cpp:26-55 | one extraction removes noise and rejected candidates, then the frame's own bytes, and nothing else |
| Framing.FramesBoundedByBytes | CPlusPlus/src/metis_protocol.cpp:33-52 | four times the number of frames never exceeds the bytes consumed |
| Framing.PendingIsShort | CPlusPlus/src/metis_protocol.cpp:33-37 | what stays in the buffer is empty or starts with FF and has at most 258 bytes |
| ReceiveBuffers.ReceiveBuffer.TryExtractFrame | CPlusPlus/src/metis_protocol.cpp:26-55 | the in-place loop returns the frame and leaves the bytes that the specification says |
| Codec.BuildFrame | CPlusPlus/src/metis_protocol.cpp:11-24 | the array-filling builder produces the encoding, for payloads of any length |
| Codec.BuiltFrameComesBack | CPlusPlus/src/metis_protocol.cpp:11-55 | print then parse is the identity exactly when the length byte does not wrap |
| Codec.AcceptedIsCanonical | CPlusPlus/src/metis_protocol.cpp:39-52 | an accepted run of bytes is the encoding of its own command and payload |
| Codec.ParseThenPrint | CPlusPlus/src/metis_protocol.cpp:39-52 | every frame taken from any stream re-encodes to the bytes it came from |
| Codec.WireDecodes | CPlusPlus/src/metis_protocol.cpp:11-55 | built frames among quiet noise are decoded first, in order, whatever follows them |
| Codec.StreamRoundTrip | CPlusPlus/src/metis_protocol.cpp:11-55 | a stream of built frames with noise in between decodes to exactly these frames with nothing left |
| Corruption.DamageIsContained | CPlusPlus/src/metis_protocol.cpp:35-47 | a frame damaged outside its start and length bytes disappears alone exactly when the flipped bits do not cancel |
| Corruption.DamageAnywhere | CPlusPlus/src/metis_protocol.cpp:26-55 | whatever happens to the bytes of one frame, start and length included, all frames before it come through, at most 65 sturdy frames after it are lost, and in between comes at most one frame for four of its bytes and one more |
| Corruption.DamagedLineDecodes | CPlusPlus/src/metis_protocol.cpp:35-52 | what the damaged line decodes to in either case |
| Corruption.BurstChangesXor | CPlusPlus/src/metis_protocol.cpp:42-47 | a burst of at most eight consecutive bits, crossing a byte boundary or not, changes the checksum |
| Corruption.BurstIsContained | CPlusPlus/src/metis_protocol.cpp:35-47 | such a burst costs exactly the frame it hits |
| Resynchronisation.SuffixDecodes | CPlusPlus/src/metis_protocol.cpp:26-55 | cutting n bytes off a line whose torn frames decode to nothing loses only the frames touched |
| Resynchronisation.RecoversFromEverything | CPlusPlus/src/metis_protocol.cpp:26-55 | a line of built frames recovers from every garbage exactly when each cut that a pending candidate can make leaves a rest that decodes to a suffix of what was sent |
| Resynchronisation.Resynchronises | CPlusPlus/src/metis_protocol.cpp:26-55 | after any garbage a sturdy line yields the garbage's frames, at most one spurious frame that starts in the garbage, and a suffix that misses at most 65 frames |
| Resynchronisation.CleanIsSturdy | CPlusPlus/src/metis_protocol.cpp:28-37 | lines without start bytes inside frames are sturdy: no torn frame leaves a trace |
| Resynchronisation.SturdyNotClean | CPlusPlus/src/metis_protocol.cpp:28-47 | lines of any length that are sturdy although every frame has a start byte inside |
| Resynchronisation.SixtyFiveLost | CPlusPlus/src/metis_protocol.cpp:33-52 | one stray start byte can cost 65 frames and add one never sent |
| Resynchronisation.NeverBackInSync | CPlusPlus/src/metis_protocol.cpp:33-52 | with start bytes inside frames, four bytes of garbage can hide all of any number of frames |
| Hex.PrintHex | CPlusPlus/src/hex.h:7-16 | the loop prints the specified text |
| Hex.HexReadsBack | CPlusPlus/src/hex.h:7-16 | two characters a byte, inverted by a hex reader |
| Hex.HexDigits | CPlusPlus/src/hex.h:7-16 | the two characters of each byte are the upper-case digits to base sixteen of its value, high digit first |
| Hex.HexIsCanonical | CPlusPlus/src/hex.h:7-16 | the reader accepts only what the printer writes |
| Hex.DecodeBcd | CPlusPlus/src/wmbus_parser.cpp:33-44 | the reverse loop with its early exit computes the specified text |
| Hex.BcdAcceptsDigits | CPlusPlus/src/wmbus_parser.cpp:37-39 | a text comes out exactly when every byte's quotient and remainder by sixteen are at most nine |
| Hex.BcdTextMeaning | CPlusPlus/src/wmbus_parser.cpp:33-44 | the digits name the little-endian number of the bytes and pack back to them |
| Telegrams.ParseAndPrint | CPlusPlus/src/wmbus_parser.cpp:46-108 | which payloads are refused, what is published, and every logged field, with all slices in bounds |
| Telegrams.DbmRange | CPlusPlus/src/wmbus_parser.cpp:61-65 | a strength byte below 128 stands for itself, any other for itself less 256; half of that, cut toward zero, less 74 is the strength, from -138 to -11 dBm |
| Telegrams.ReadingComesThrough | CPlusPlus/src/wmbus_parser.cpp:52-69 | a telegram with a strength byte is reported as such exactly when the option is known and it has eleven bytes |
| Telegrams.PublishedReadsBack | CPlusPlus/src/wmbus_parser.cpp:49-107 | the published text reads back to the whole indication exactly when that is not taken for one with a strength byte, and else to all but the last byte, which gives the strength; identifier, topic and time stamp are those given |
| Telegrams.FieldsSpellTelegram | CPlusPlus/src/wmbus_parser.cpp:71-99 | the logged fields spell the telegram without gap or overlap whenever the id is decimal, the manufacturer code is its third and fourth byte in little-endian order, and the raw text is the telegram |
| Protocol.TakenMeaning | CPlusPlus/src/metis_protocol.cpp:78-85 | the inner loop logs frames up to and including the first match and leaves what follows, or logs them all |
| Protocol.WaitMeaning | CPlusPlus/src/metis_protocol.cpp:62-111 | both polling loops lose, repeat and reorder nothing and end at the first match |
| Protocol.WaitFindsFirst | CPlusPlus/src/metis_protocol.cpp:62-89 | a wait succeeds exactly when something was read and a matching frame is in the old buffer and the bytes read; it returns the first, and the buffer holds what follows |
| Protocol.WaitExactly | CPlusPlus/src/metis_protocol.cpp:62-111 | a wait reads 512 bytes at a time, sleeps 25 ms for each read that brings nothing, and ends at the first clock check past the deadline or after the first read with which the wanted frame is there; this fixes its bytes, reads, time, frames and buffer |
| Protocol.WaitStopsAtTheHit | CPlusPlus/src/metis_protocol.cpp:68-86 | the wait ends with the read that made the match possible |
| Protocol.StaleResponse | CPlusPlus/src/metis_protocol.cpp:142-149 | the response was in the buffer before the command exactly when the buffer held a matching frame |
| Protocol.WaitEndsInTime | CPlusPlus/src/metis_protocol.cpp:68-88 | a wait that fails has reached its deadline, and time never runs back |
| Protocol.WaitTime | CPlusPlus/src/metis_protocol.cpp:62-111 | with reads of at most d ms a loop overruns its deadline by less than d + 25 ms |
| Protocol.WaitRoom | CPlusPlus/src/metis_protocol.cpp:62-111 | only a wait that ends with a frame can leave more than it found, or than a pending tail, and then by at most one read |
| Protocol.WaitPeak | CPlusPlus/src/metis_protocol.cpp:76-79 | a wait that starts with a pending tail holds at most that tail and one read |
| Commands.AttemptMeaning | CPlusPlus/src/metis_protocol.cpp:121-136 | one attempt writes the command once and is judged by the first response heard |
| Commands.RetryMeaning | CPlusPlus/src/metis_protocol.cpp:113-140 | retrying succeeds exactly when an allowed attempt is answered with no or a zero status byte; it is a chain of attempts, each a write and a wait, with 250 ms of draining and 120 ms of sleep after each failure, so that nothing late can answer the next, and 80 ms after success; the last failure is reported |
| Commands.GetMeaning | CPlusPlus/src/metis_protocol.cpp:142-149 | a request is one write and one wait of exactly its timeout |
| Commands.PauseExactly | CPlusPlus/src/metis_protocol.cpp:151-158 | a pause is one write and then reading, not sleeping, until its time is over |
| Commands.RetryTime | CPlusPlus/src/metis_protocol.cpp:113-140 | retries end within attempts times (write + timeout + 250 + 120 + two polls) plus 80 ms |
| Commands.PauseTime | CPlusPlus/src/metis_protocol.cpp:151-158 | a pause drains for its whole duration and, with prompt calls, at most one poll longer |
| Commands.SessionConserves | CPlusPlus/src/metis_protocol.cpp:62-158 | over any sequence of commands sharing a buffer, frames handed out or logged, then those still buffered, are what the old buffer and all bytes read decode to, and no frame is heard before its bytes were read |
| Commands.SessionMemory | CPlusPlus/src/metis_protocol.cpp:62-158 | over any such sequence the buffer holds at most what it held before, or a pending tail, and 512 bytes for each response, and 512 more while polling |
| SerialPorts.TakeFrames | CPlusPlus/src/metis_protocol.cpp:78-85 | the loop hands out, logs and leaves exactly what `TakeUntil` says of the old buffer |
| SerialPorts.WaitForFrame | CPlusPlus/src/metis_protocol.cpp:62-89 | the polling loop ends, with the frame or timeout and the whole world that `Wait` gives |
| SerialPorts.DrainDuringPause | CPlusPlus/src/metis_protocol.cpp:91-111 | the draining loop ends in the world of a wait that matches nothing |
| SerialPorts.SendCommandAndWait | CPlusPlus/src/metis_protocol.cpp:113-140 | the retry loop gives the result, last error and world of `SendAndWait`, buffer and record included |
| SerialPorts.SendCommandAndGet | CPlusPlus/src/metis_protocol.cpp:142-149 | the response or timeout and the world of `SendAndGet`, unread frames left for the next call |
| SerialPorts.SendCommandAndPause | CPlusPlus/src/metis_protocol.cpp:151-158 | the world of `SendAndPause`, everything heard logged |
| Activation.OneSegment | CPlusPlus/src/metis_protocol.cpp:113-140 | a confirmed command's record begins with the command, transmits nothing else and that at most five times, ends in its own acknowledgement when it succeeds, and hears only what the buffer and the bytes read until then decode to |
| Activation.ConfigureMeaning | CPlusPlus/src/main.cpp:38-43 | the record of confirmed commands is cut into consecutive segments, one a command, each ending in its own acknowledgement but a failed last one, which was sent five times; all that is heard comes from the buffer and the bytes read |
| Activation.ConfigureFails | CPlusPlus/src/main.cpp:38-43 | the sequence fails exactly when some command is refused or unanswered in all five attempts made in the world it starts in |
| Activation.ActivationTrace | CPlusPlus/src/main.cpp:31-55 | every run's record is an open, the three settings' segments, the reset, a close, an open, the mode's segment and a close, or stops on the way; every segment that another block follows, and the mode's of a completed run, ends in its own acknowledgement; at every moment the frames heard on a connection are the first that the bytes read on it decode to |
| Activation.CommandBytes | CPlusPlus/src/main.cpp:38-53 | the five requests, byte for byte, checksums included |
| Activation.ActivationExactly | CPlusPlus/src/main.cpp:31-55 | every run is this course: open; the three settings, each tried up to five times for 1500 ms and answered by 0x89; the reset and 1200 ms of draining; close; open; the mode, answered by 0x84; close; it stops at the first failure |
| Activation.StepsAcknowledged | CPlusPlus/src/main.cpp:38-45 | the second and third setting and the reset are first sent right after the acknowledgement of the command before, which was the last thing sent |
| Activation.ActivationPort | CPlusPlus/src/main.cpp:34-54 | the port is never opened twice or used while closed, and is left open exactly when on a port that opened a setting, or else the mode, is refused or unanswered in all its five attempts; one descriptor stays open exactly then or when the first open fails without closing it |
| Link.DescriptorsInOrder | CPlusPlus/src/serial_port.cpp:26-65 | on a port used in order the open descriptors are the port in use and those that failing opens left behind |
| Link.SerialOpenMeaning | CPlusPlus/src/serial_port.cpp:11-65 | the port is usable exactly when all system calls work and the rate is one of eight, and leaks exactly when an accessible device gets another rate |
| Activation.ActivationTime | CPlusPlus/src/main.cpp:31-55 | with prompt calls the whole of it ends within four confirmed commands' time, the pause and four opens and closes, whatever the device does |
| Activation.ActivateDevice | CPlusPlus/src/main.cpp:31-55 | the sequence of calls on two connections computes the specified activation |
| Listener.DueExactly | CPlusPlus/src/main.cpp:156-161 | a frame asks for nothing unless it is a 0x03 of eleven bytes or more, and then for one message that reads back to its payload, without the last byte exactly when that gives the strength |
| Listener.SessionDelivers | CPlusPlus/src/main.cpp:135-168 | a session delivers exactly what is due for the frames its bytes decode to, in order |
| Listener.SplitsDoNotMatter | CPlusPlus/src/main.cpp:139-168 | the same bytes give the same deliveries and tail, however split and timed |
| Listener.TelegramsReachServer | CPlusPlus/src/main.cpp:93-172 | when the probe's answer shows strengths on, telegrams of 11 to 254 bytes with strengths, framed among noise, are all delivered in order as text that reads back to them |
| Listener.RunDelivers | CPlusPlus/src/main.cpp:112-179 | the record of every run is a sequence of refused opens and connections; a connection runs from its open to its close, its verdict comes from the frames its own probe heard, and it delivers exactly what the bytes read between verdict and close decode to: each frame is heard and delivered after the read that completes it and before the next |
| Listener.VisitsAreUnique | CPlusPlus/src/main.cpp:112-179 | a record can be cut into such connections in one way only |
| Listener.ReceiveEnds | CPlusPlus/src/main.cpp:139-149 | a session reads until the first failing read, or as long as the running flag allows, one read a round |
| Listener.ListenerTriesAgain | CPlusPlus/src/main.cpp:118-126 | once the retry time has come the port is tried within 250 ms, unless the stop signal comes first |
| Schedule.RetriesOnTime | CPlusPlus/src/main.cpp:118-177 | over every run, after a refused open or a close returns, the next open comes between 30000 and 30250 ms later, unless the program is stopped first |
| Schedule.RunExactly | CPlusPlus/src/main.cpp:112-179 | every run is a chain of these moves: 250 ms of sleep before the retry time; after it an open and, if that works, the probe, the stream with a new buffer and the close; each attempt followed by a retry time 30000 ms later; nothing else takes time or touches the port |
| Schedule.StampsAreTrue | CPlusPlus/src/main.cpp:112-168 | over every run, each message published bears the time stamp of its own moment |
| Schedule.ReceiveExactly | CPlusPlus/src/main.cpp:139-149 | a session reads 4096 bytes at a time until a read fails or the flag falls, sleeps 25 ms for each read that brings nothing, and spends no other time but that of its publishes; the peak covers every read |
| Listener.ProbeMeaning | CPlusPlus/src/main.cpp:93-110 | the probe sends one request, what it read is what it heard and left behind, and its verdict is that of the last frame heard |
| Schedule.ProbeExactly | CPlusPlus/src/main.cpp:93-110 | the probe writes FF 0A 02 45 01 B3 with an empty buffer, waits up to 1500 ms for 0x8A, not less unless answered, and says enabled exactly when the third payload byte is one |
| Listener.DroppingIsHarmless | CPlusPlus/src/main.cpp:94-101 | dropping a buffer changes no later frame exactly when it decodes to nothing |
| Listener.ProbeHandover | CPlusPlus/src/main.cpp:93-137 | a connection's frames survive the probe exactly when nothing decodable was left in its buffer |
| Listener.ListenerMemory | CPlusPlus/src/main.cpp:112-168 | over every run the buffer holds at most 4354 bytes, less than the 8192 reserved |
| Listener.ListenerDiscipline | CPlusPlus/src/main.cpp:112-179 | over every run opens are at least 30 seconds apart, the port is opened only while closed, used and closed only while open, and closed at the end |
| Listener.ListenerDescriptors | CPlusPlus/src/main.cpp:118-178 | over every run the descriptors left open are those that failing opens left behind |
| Listener.NothingLeftBehind | CPlusPlus/src/serial_port.cpp:11-65 | all runs leave none exactly when the baud rate is supported or the system never gives access to the device's settings |
| Listener.HandleFrame | CPlusPlus/src/main.cpp:156-166 | one frame is logged and, if it is a readable data indication, its message is handed to the client |
| Listener.DrainFrames | CPlusPlus/src/main.cpp:154-167 | the drain loop handles all frames in the buffer |
| Listener.ReceiveLoop | CPlusPlus/src/main.cpp:136-168 | the inner loop computes the specified session |
| Listener.TryReadRssiEnabled | CPlusPlus/src/main.cpp:93-110 | the probe with a buffer of its own |
| Listener.ListenLoop | CPlusPlus/src/main.cpp:112-179 | the nested loops with their retry time compute the specified run, and the client is offered exactly the messages on its record |
| Listener.Gateway | CPlusPlus/src/main.cpp:203-207 | the client is started once and first; from then on the messages handed to the broker are, in order, those of the run's messages for which the client was admitted |
| Listener.DeliveriesOfPayloads | CPlusPlus/src/main.cpp:156-161 | these messages are, time stamps aside, the deliveries that the other theorems speak of |
| Mqtt.ConnectSpacing | CPlusPlus/src/mqtt_client.cpp:51-94 | in every run, wherever callbacks fall, connect attempts are at least 30 seconds apart |
| Mqtt.FailureSilence | CPlusPlus/src/mqtt_client.cpp:51-94 | for 30 seconds after a failed publish nothing is published and no connect is tried |
| Mqtt.CallbackSilence | CPlusPlus/src/mqtt_client.cpp:16-83 | for 30 seconds after a disconnect callback no connect is decided on, unless the callback fell between reading the clock and storing the time after a failure |
| Mqtt.CallbackSilenceExactly | CPlusPlus/src/mqtt_client.cpp:51-94 | all continuations keep that silence exactly when the callback did not fall there; else one is given that breaks it |
| Mqtt.ConnectsEarly | CPlusPlus/src/mqtt_client.cpp:77-83 | a connect happens before the retry time exactly when a callback came after the decision and less than 30 seconds before |
| Mqtt.PublishedInOrder | CPlusPlus/src/mqtt_client.cpp:56-75 | the messages handed to publish are a subsequence, in order, of those offered |
| Mqtt.PublishedWhileConnected | CPlusPlus/src/mqtt_client.cpp:56-80 | a publish happens while connected exactly when no callback came since the check |
| Mqtt.PublishedWhileDown | CPlusPlus/src/mqtt_client.cpp:16-75 | a run in which one did |
| Mqtt.MqttClient.EnsureConnected | CPlusPlus/src/mqtt_client.cpp:77-94 | follows the machine, says yes exactly when there is a handle and either the client is connected and no callback comes first, or the retry time, moved by callbacks, has passed and the connect succeeds; it calls the library exactly in the latter case and then sets a new retry time |
| Mqtt.MqttClient.Start | CPlusPlus/src/mqtt_client.cpp:45-49 | follows the machine, publishes nothing, and with a handle leaves the client connected exactly when it was admitted |
| Mqtt.MqttClient.Send | CPlusPlus/src/mqtt_client.cpp:56-75 | follows the machine and offers one message, which is handed to publish exactly once if `Admits` held before the call, and dropped otherwise; the record holds the library's own answers; when it refuses the message the client is down with a retry time 30 seconds after a look at the clock |
| Mqtt.MqttClient.OnDisconnect | CPlusPlus/src/mqtt_client.cpp:16-24 | the callback is one step of the machine wherever it falls |
| Mqtt.MqttClient.MarkDisconnected | CPlusPlus/src/mqtt_client.cpp:51-54 | after a failed publish the client is down and its retry time is 30 seconds after the clock it reads, which is not before the call, in three steps that callbacks may separate |
| Witnesses.ConfirmedByOldResponses | CPlusPlus/src/main.cpp:34-43 | a run of the activation from an empty buffer in which the second and third setting are confirmed though no frame arrives after the first acknowledgements |
| Witnesses.StatusDecides | CPlusPlus/src/metis_protocol.cpp:123-131 | an attempt answered in time succeeds exactly when the answer has no payload or its first byte is zero, and reports that byte otherwise |
| Witnesses.IndicationLost | CPlusPlus/src/main.cpp:93-179 | a run of the listener, of any length, in which a data indication with any payload is read by the probe, heard by nobody and not delivered |
| Witnesses.SilentPortStaysOpen | CPlusPlus/src/main.cpp:34-54 | activation leaves every port open that opens and never answers |
| Witnesses.SilentRun | CPlusPlus/src/main.cpp:34-54 | there is such a port, and the record of the run on it ends with the port open |

## Left out

- The C# services as separate models: `MetisProtocolService.cs` and `WMBusTelegramParserService.cs` run the same algorithms on `List<byte>`; the C# listener, which pauses for 30 seconds instead of comparing times, and the C# broker service, which asks its library whether it is connected, are not modelled.
- Serial settings themselves (termios flags, `stty`); opening has the program's failing branches, the rest only outcomes and durations. The source ignores the result of `write`, so `Tx` records what was asked for.
- Sleeps last exactly as long as asked; lateness can be counted into the next call's duration.
- The parameter dump: a loop of single requests whose accounting `Commands.SessionConserves` covers.
- `decode_manufacturer`: a finite table; the logged field is the 16-bit code.
- JSON text, time stamp formatting, log lines and command-line parsing; a publish is a record.
- The library behind the broker client: `connected` is the client's own flag, not the broker's state.
- Data races: a callback, which clears the flag, reads the clock and stores the retry time, is one atomic step of the machine that overlaps no other; the main thread's steps are single loads, stores, clock reads and library calls.
- C++ leaves open whether `ensure_connected` loads the retry time before or after it reads the clock; the model loads it after.
- One clock for both: `Gateway` joins the listener's messages with the broker client, but a publish lasts an arbitrary time for the listener, and the client reads a clock of its own.
- Payloads and labels of error messages: an error result carries the kind of the last failure and its status byte.
