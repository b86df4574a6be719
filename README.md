# A verified model of instrumentino's core

Instrumentino is an open framework for building laboratory instruments out of an
Arduino-class controller running the Controlino firmware and a Python front end
on a PC. This project models the core of both sides and proves properties of
the model:

- **The PC stack.** It covers the Controlino packet protocol (`ControlinoProtocol`):
  headers, data blocks, string packets, the commands sent and the deframing of
  the bytes that arrive. It also covers the communication port (`Communication`),
  the simulated port (`Simulation`), the data channels and their time and data
  blocks (`Channels`, `Blocks`) and the controller that ties them together
  (`Controllers`): connect, disconnect, routing incoming blocks and updating the
  input channels. `AbsRatio` holds the sampling-rate test the channels use.
- **The firmware.** `Controlino` models `controlino.cpp`. Its helpers are the
  line assembly and tokenising (`CStrings`) and the `SerialCommand` dispatcher.
  `Controlino.Firmware` is the firmware as its authors evidently intended. Each
  place where it departs from the code as written has an as-written member and
  a lemma beside it; these are listed under "Findings".
- **The Arduino driver and its devices.** `ArduinoDriver` covers the command
  strings, the reply parsing and the `_sendData` lock. `Dac` covers the
  MAX517/MCP4922 converters and `Tecan` the syringe-pump command language.
- **The front end.** `Action` holds the sequence actions and their parameters.
  `Variables` and `InputFilters` hold the variables, their percent conversions
  and text fields. `ListWidgets` holds the list-screen widgets. `LogGraph` and
  `LogGraphSplit` hold the signal logs. `Comp` holds the components and `Cfg`
  the controller registry. `ToggleGroups`, `MultichoiceToggle` and
  `ToggleButtonMulti` hold the two toggle-button libraries.
- **Helpers.** `Wrappers`, `Seqs`, `Bytes`, `Text` and `PyNum` are shared helpers.

Objects whose fields the source updates in place are classes with `modifies`
frames. Examples are `Controllers.Controller`, `Communication.CommunicationPort`,
`Simulation.Simulator`, `Channels.DataChannelIn`, `Controlino.Firmware`, the log
panels and the registries. Pure computations are functions. Each operation is
tied to a partner, such as an inverse, a reference definition or a preserved
invariant, by a lemma or by the method's `ensures`.

Some modelling conventions:

- Bytes are integers in `0..255`.
- Python floats are exact reals.
- `int()` truncates toward zero.
- Time is a `real` number of seconds, passed in as `now`.
- Callbacks into other objects are returned as event lists, in the order the
  source makes the calls.

## Model

| member | source | states |
|---|---|---|
| AbsRatio.AbsRatio | instrumentino/libs/abs_ratio.py:4-8 | the larger argument over the smaller (r·b = a when a > b, else r·a = b); ZeroDivisionError exactly when the chosen divisor is 0 |
| AbsRatio.IsHarmony | instrumentino/libs/abs_ratio.py:11-21 | fails exactly as `abs_ratio` does; otherwise true iff the ratio is within 1e-5 of its truncation |
| AbsRatio.RatioAtLeastOne | instrumentino/libs/abs_ratio.py:4-8 | for positive arguments the ratio exists and is at least 1 |
| AbsRatio.RatioSymmetric | instrumentino/libs/abs_ratio.py:4-8 | abs_ratio(a, b) = abs_ratio(b, a), errors included |
| AbsRatio.RatioOfEqual | instrumentino/libs/abs_ratio.py:5-8 | abs_ratio(a, a) = 1 for a ≠ 0 |
| AbsRatio.IntegerRatioIsHarmony | instrumentino/libs/abs_ratio.py:11-15 | an integer ratio is a harmony |
| AbsRatio.NearIntegerRatioIsHarmony | instrumentino/libs/abs_ratio.py:11-21 | the tolerance also admits the non-integer ratio 2.000001 |
| AbsRatio.FractionalRatioIsNotHarmony | instrumentino/libs/abs_ratio.py:11-17 | 7 against 10 (ratio 10/7) is not a harmony |
| Blocks.TimestampSeries.constructor | instrumentino/channels/blocks.py:25-30 | a new timestamp list is empty |
| Blocks.TimeBlock.constructor | instrumentino/channels/blocks.py:6-17 | a new block has the given t_zero, t_end = 0 and no rate keys (a default block is inactive) |
| Blocks.TimeBlock.SeriesForKeys | instrumentino/channels/blocks.py:25-29 | a list is found for a rate exactly when the rate is a key of the block |
| Blocks.TimeBlock.Copy | instrumentino/channels/blocks.py:32-39 | a fresh block with t_zero = timestamp and the same rate keys, each mapped to its own fresh empty list; the source block's dictionary and lists are unchanged |
| Blocks.NewDataBlock | instrumentino/channels/blocks.py:60-66 | TypeError exactly without `timestamp_series`; otherwise a block that refers to the very list passed (aliasing, not a copy), empty and not ended |
| Channels.FittingWidth | instrumentino/channels/__init__.py:17-24 | 1, 2, 4 or 8 bytes for byte counts in (0,1], (1,2], (2,4], (4,8] (the smallest width that fits); KeyError exactly outside (0, 8] |
| Channels.DataBytes | instrumentino/channels/__init__.py:46-63 | ceil(data_bits/8): at least 1, and the fewest bytes r with 8(r−1) < bits ≤ 8r |
| Channels.ChannelSettings | instrumentino/channels/__init__.py:105-119 | a channel is created iff bits in 1..64, rate > 0, packet rate > 0 and the abs_ratio of the two is an integer; then data_bytes, sampling_period = 1/rate and the sample width of `get_fitting_data_point_variable`; ValueError or ZeroDivisionError otherwise |
| Channels.PacketRateExamples | instrumentino/channels/__init__.py:109-111 | 20 Hz and 5 Hz fit a 10 Hz packet rate; 7 Hz raises ValueError |
| Channels.TranslateIncomingData | instrumentino/channels/__init__.py:126-130 | same length; element i is data[i]/max_input_value·100 |
| Channels.TranslatedPercentages | instrumentino/channels/__init__.py:126-130 | every percentage scales back to its reading (p·max = 100·x) and lies in 0..100 for readings in range |
| Channels.WriteValues | instrumentino/channels/__init__.py:168-171 | one value, the truncation of percent/100·max_output_value (never rounded up); within 0..max for percentages in 0..100 |
| Channels.DecodeSamples | instrumentino/channels/__init__.py:117-119 | GreedyRange(UBIntN): fails with fewer bytes than one sample, otherwise as many samples as whole chunks fit |
| Channels.DecodedSample | instrumentino/channels/__init__.py:117-119 | sample i is the big-endian value of bytes i·w up to (i+1)·w |
| Channels.SamplesRoundTrip | instrumentino/channels/__init__.py:117-119 | decoding the big-endian encoding of samples gives the samples back |
| Channels.SampleTimes | instrumentino/channels/__init__.py:137-138 | the intended stamps, in seconds: n of them, stamp i being t_zero + packet offset + i·sampling_period |
| Channels.SampleTimesDistinct | instrumentino/channels/__init__.py:138 | with a positive period the stamps strictly increase |
| Channels.StoreRowsKeepsKeys | instrumentino/channels/__init__.py:145-146 | storing rows never removes or reorders existing rows |
| Channels.StoreRowsStores | instrumentino/channels/__init__.py:145-146 | with distinct stamps every stamp ends up in the frame holding its own value, overwriting an existing row |
| Channels.StoreRowsLeavesOthers | instrumentino/channels/__init__.py:145-146 | rows at other stamps keep their position and value |
| Channels.DataChannelIn.Create | instrumentino/channels/__init__.py:59-119 | the channel exists iff `ChannelSettings` passes, with the derived bytes, period and width and an empty frame; otherwise the same exception |
| Channels.DataChannelIn.Identifier | instrumentino/channels/__init__.py:68-72 | type_str followed by the decimal digits of the number, which read back as the number |
| Channels.DataChannelIn.StoreSamples | instrumentino/channels/__init__.py:145-146 | the frame after the loop equals `StoreRows` of the old frame |
| Channels.DataChannelIn.UpdateDataSeries | instrumentino/channels/__init__.py:132-150 | as written: TypeError for any non-empty packet, since the numeric `t_zero` meets a `timedelta`, with the frame unchanged; an empty packet stores nothing and tells the attached variable the last row's percent (IndexError on an empty frame) |
| Channels.DataChannelIn.UpdateDataSeriesIntended | instrumentino/channels/__init__.py:132-150 | as intended, with stamps in seconds: rows stored at the sample times with the translated percentages; the variable, when attached, is told the last row's percent (IndexError on an empty frame) |
| Channels.EncodeSamples | instrumentino/channels/__init__.py:117-119 | the bytes a controller sends for samples that fit the width: one big-endian chunk of `width` bytes per sample, the inverse that `SamplesRoundTrip` proves `GreedyRange` decodes |
| Channels.StoreRows | instrumentino/channels/__init__.py:145-146 | `data_frame.loc[time] = percent` over the pairs in order, each an upsert on the time index; `StoreRowsKeepsKeys`, `StoreRowsStores` and `StoreRowsLeavesOthers` state what it keeps and stores |
| Controllers.RouteStep | instrumentino/controllers/__init__.py:151-166 | one block: IndexError for an id past the channel list, construct's error for samples that do not decode, KeyError for a rate the time block lacks; otherwise a rate met for the first time gets one timestamp update and its difference is recorded, and every block gets a data update carrying its rate's recorded difference |
| Controllers.RouteKeepsInvariant | instrumentino/controllers/__init__.py:147-166 | the loop keeps: timestamp updates are for distinct recorded rates, and every data update carries its rate's recorded difference |
| Controllers.RouteOncePerRate | instrumentino/controllers/__init__.py:147-166 | over a whole packet each rate's timestamp series is updated at most once, and all data updates of one rate carry the same points difference |
| Controllers.RouteByIndex | instrumentino/controllers/__init__.py:150-154 | when routing completes there is one data update per block, and the k-th goes to channel `id` of block k with its samples decoded at that channel's width |
| Controllers.RouteStartInSeconds | instrumentino/controllers/__init__.py:137-159 | every timestamp update is given the packet's start converted to seconds |
| Controllers.UnknownIdRaises | instrumentino/controllers/__init__.py:152 | a first block whose id is past the channel list raises IndexError and nothing is routed |
| Controllers.RouteBlocks | instrumentino/controllers/__init__.py:151-166 | the loop makes exactly the calls of `Route` and ends with its exception |
| Controllers.EffectiveTimestamp | instrumentino/controllers/__init__.py:95 | a missing or zero timestamp means now; any other is kept |
| Controllers.LatestCovering | instrumentino/controllers/__init__.py:97-104 | the newest block with t_zero ≠ 0, t_zero ≤ ts and (t_end = 0 or t_end ≥ ts); no newer block qualifies; −1 when none does |
| Controllers.RegisterEvents | instrumentino/controllers/__init__.py:218-224 | one CH:READ packet per channel |
| Controllers.RegisterEventsAt | instrumentino/controlino_protocol.py:210-214 | event i is `CH:READ <identifier of channel i> <its rate>\r` |
| Controllers.Controller.constructor | instrumentino/controllers/__init__.py:69-78 | a controller starts with t_zero 0, no port, no channels and one time block that has not started |
| Controllers.Controller.GetTimeBlock | instrumentino/controllers/__init__.py:91-104 | the newest block covering the effective timestamp, scanning from newest to oldest, or None |
| Controllers.Controller.Transmit | instrumentino/controlino_protocol.py:222-226 | the packet goes out only when a port is attached; otherwise nothing happens |
| Controllers.Controller.RateSeries | instrumentino/controllers/__init__.py:110-117 | a rate already keyed keeps its list; a new rate gets a fresh empty list added last; the list found for the rate is returned |
| Controllers.Controller.AddInputChannel | instrumentino/controllers/__init__.py:106-125 | the rate (10 Hz by default) gets a list only if absent; the channel's new data block aliases that very list; the width is set and the channel is appended last, or KeyError past 8 bytes after the data block was added |
| Controllers.Controller.UpdateInputChannels | instrumentino/controllers/__init__.py:127-166 | a packet that does not parse raises; with no current time block AttributeError; otherwise exactly the calls of `Route` with the start in seconds, the channels' rates and widths and the current block's keys |
| Controllers.Controller.Disconnect | instrumentino/controllers/__init__.py:168-186 | no-op without a port; otherwise the port is disconnected and dropped, the current time block alone gets t_end = now, every block keeps its t_zero and series, and with input channels the loop raises AttributeError |
| Controllers.Controller.StartTimeBlock | instrumentino/controllers/__init__.py:209-213 | an unstarted last block takes t_zero in place; otherwise a fresh copy starting at t_zero is appended and the earlier blocks stay |
| Controllers.Controller.OpenDataBlock | instrumentino/controllers/__init__.py:219-223 | an unstarted last data block takes t_zero in place; otherwise a new block aliasing the current time block's list for the rate is appended (KeyError without that key, AttributeError without a current block) |
| Controllers.Controller.OpenTracked | instrumentino/controllers/__init__.py:218-223 | channel i's block is opened and the blocks of channels before it stay opened, also when a channel is listed twice |
| Controllers.Controller.OpenChannel | instrumentino/controllers/__init__.py:218-224 | channel i's block is opened and exactly its CH:READ is sent, or KeyError/AttributeError |
| Controllers.Controller.LastsOf | instrumentino/controllers/__init__.py:219 | each channel's newest data block, in list order |
| Controllers.Controller.OpenDataBlocks | instrumentino/controllers/__init__.py:218-226 | on success every channel's newest block is opened at t_zero and the log gains the CH:READ packets in list order; errors are KeyError or AttributeError |
| Controllers.Controller.StartClock | instrumentino/controllers/__init__.py:207-213 | t_zero = now, the blocks are the old ones plus at most one, the last starting at now, and the current block is returned |
| Controllers.Controller.StartSession | instrumentino/controllers/__init__.py:205-226 | t_zero = now and the session's time block as in `StartClock`; on success every channel's newest data block starts at now (reused or a new one aliasing the current block's list) and one CH:READ per channel goes out in order |
| Controllers.Controller.Connect | instrumentino/controllers/__init__.py:188-208 | as written: False with t_zero unchanged without a port or when it does not connect; a failed ping disconnects the port, which stays assigned; after a successful ping t_zero is now and the undefined `start_acquiring_data` raises AttributeError before any block is opened or CH:READ sent |
| Controllers.Controller.ConnectIntended | instrumentino/controllers/__init__.py:188-226 | as intended: the same failures; on success the `StartSession` state, the PING then the CH:READ packets, and True |
| Controllers.Route | instrumentino/controllers/__init__.py:147-166 | the whole routing loop over a packet's blocks, stopping at the first exception; `RouteKeepsInvariant`, `RouteOncePerRate`, `RouteByIndex` and `UnknownIdRaises` state its properties, and `RouteBlocks` is the loop proved equal to it |
| ControlinoProtocol.ParseHeader | instrumentino/controlino_protocol.py:73-77 | the type is byte 4 and the length the little-endian 16-bit value of bytes 5–6 |
| ControlinoProtocol.HeaderBytes | instrumentino/controlino_protocol.py:63-77 | seven bytes starting with the A5 A5 A5 A5 marker |
| ControlinoProtocol.HeaderRoundTrip | instrumentino/controlino_protocol.py:73-77 | parsing a built header gives the header back |
| ControlinoProtocol.BlocksBytes | instrumentino/controlino_protocol.py:90-96 | the block list's wire form has `BlocksSize` bytes (1-byte id, 2-byte length, samples per block) |
| ControlinoProtocol.DataPacketBytes | instrumentino/controlino_protocol.py:100-113 | a data packet's wire form is 13 fixed bytes plus its blocks, and that total is its `packet_length` |
| ControlinoProtocol.ParseBlocks | instrumentino/controlino_protocol.py:92-103 | n blocks parsed from the front, using no more bytes than there are |
| ControlinoProtocol.BlocksRoundTrip | instrumentino/controlino_protocol.py:90-96 | the blocks' bytes, followed by anything, parse back to the blocks and their exact size |
| ControlinoProtocol.DataPacketRoundTrip | instrumentino/controlino_protocol.py:84-113 | parsing a built data packet gives the packet back (little-endian header fields) |
| ControlinoProtocol.StringPacketBytes | instrumentino/controlino_protocol.py:120-127 | the header followed by the payload, length covering both |
| ControlinoProtocol.PingReplyMatches | instrumentino/controlino_protocol.py:206-208 | the parse fails on a header-only or wrongly typed packet; otherwise true iff the text after the header is "PONG" |
| ControlinoProtocol.PingResult | instrumentino/controlino_protocol.py:196-208 | a reply that did not arrive is False; otherwise the reply check decides |
| ControlinoProtocol.PongReplyAccepted | instrumentino/controlino_protocol.py:206-208 | the String packet carrying "PONG" passes the ping check |
| ControlinoProtocol.BuildCommandPacket | instrumentino/controlino_protocol.py:180-184 | ends in one '\r', before which stand the command and the parameters joined by single spaces |
| ControlinoProtocol.PingPacket | instrumentino/controlino_protocol.py:190 | PING alone is "PING\r" |
| ControlinoProtocol.CommandPacketSplits | instrumentino/controlino_protocol.py:180-184 | dropping the '\r' and splitting on spaces gives back the command and parameters |
| ControlinoProtocol.RegisterInputChannelPacket | instrumentino/controlino_protocol.py:210-214 | "CH:READ <identifier> <rate>\r" |
| ControlinoProtocol.DeframeStep | instrumentino/controlino_protocol.py:146-177 | one loop pass never grows the buffer |
| ControlinoProtocol.StepAtMarker | instrumentino/controlino_protocol.py:160-177 | after the trim the buffer only loses bytes at its front, and is unchanged when the pass stops |
| ControlinoProtocol.Deframe | instrumentino/controlino_protocol.py:145-177 | the whole loop never grows the buffer |
| ControlinoProtocol.DeframeStepInPlace | instrumentino/controlino_protocol.py:147-177 | the in-place deletions leave the buffer equal to `DeframeStep`'s rest, with the same dispatch |
| ControlinoProtocol.HandleIncomingBytes | instrumentino/controlino_protocol.py:133-177 | a disconnect is requested exactly when the buffer exceeds MAX_BYTES_PER_READ (parsing continues); final buffer, packets in dispatch order and the stop reason are those of `Deframe` |
| ControlinoProtocol.ShortBufferUntouched | instrumentino/controlino_protocol.py:147-149 | fewer than 7 bytes: buffer unchanged, nothing dispatched |
| ControlinoProtocol.MarkerlessBufferCleared | instrumentino/controlino_protocol.py:151-155 | 7 bytes or more without the marker: the buffer is cleared, nothing dispatched |
| ControlinoProtocol.GarbageDiscardedFirst | instrumentino/controlino_protocol.py:156-158 | the bytes before the first marker are gone after the pass; a pass that stops leaves exactly the buffer from the marker on |
| ControlinoProtocol.IncompletePacketWaits | instrumentino/controlino_protocol.py:160-164 | marker at offset 0 and fewer bytes than `packet_length`: buffer unchanged, nothing dispatched |
| ControlinoProtocol.FrameAtFrontDispatched | instrumentino/controlino_protocol.py:160-174 | a whole frame at offset 0 is removed from the front and dispatched as Data or String by its type |
| ControlinoProtocol.FramesDeframed | instrumentino/controlino_protocol.py:145-175 | a stream of whole frames is dispatched frame by frame in arrival order, leaving an empty buffer |
| ControlinoProtocol.BuiltPacketsAreFrames | instrumentino/controlino_protocol.py:100-127 | built Data and String packets are frames of their own type |
| ControlinoProtocol.StaleOffsetLosesPong | instrumentino/controlino_protocol.py:158-164 | one stray byte before a PONG reply: as written the header is read one byte into the packet and the reply is never dispatched |
| ControlinoProtocol.AtMarkerKeepsPong | instrumentino/controlino_protocol.py:156-174 | with the header read at the marker the same input dispatches the PONG reply |
| ControlinoProtocol.GarbageThenFramesDeframed | instrumentino/controlino_protocol.py:151-175 | reading at the marker, marker-free garbage before a stream of frames is dropped and the frames are dispatched in order |
| Communication.ConstructionError | instrumentino/communication/__init__.py:39-44 | construction succeeds iff the `controller` keyword is given and the subclass has `type_name`; MissingKwargsError is checked first, then AttributeError |
| Communication.CommunicationPort.constructor | instrumentino/communication/__init__.py:31-46 | a port shares the receive buffer it is given (the class-level `incoming_bytes`), with nothing scheduled or transmitted |
| Communication.CommunicationPort.Connect | instrumentino/communication/__init__.py:48-56 | returns True iff `_connect()` succeeds, and only then schedules one more `receive` poller |
| Communication.CommunicationPort.Disconnect | instrumentino/communication/__init__.py:58-62 | every scheduled `receive` is unscheduled |
| Communication.CommunicationPort.Transmit | instrumentino/communication/__init__.py:64-71 | the packet reaches the transport after the ones before it |
| Communication.CommunicationPort.Receive | instrumentino/communication/__init__.py:73-87 | None or no bytes: buffer unchanged and nothing parsed; otherwise the bytes are appended in order and the whole buffer is deframed in place, with the overload flag for more than 1000 bytes |
| Communication.SplitFrameReassembled | instrumentino/communication/__init__.py:79-87 | a frame split over two reads is kept whole after the first and dispatched alone, leaving the buffer empty, after the second |
| Simulation.PointsPerPacket | instrumentino/communication/simulated_port.py:75-81 | ratio ≥ 1: floor(ratio) samples; ratio < 1: one sample exactly on packets whose index·ratio is an integer, else the channel is skipped |
| Simulation.FastChannelEveryPacket | instrumentino/communication/simulated_port.py:76-77 | a channel at m times the packet rate sends m samples in every packet |
| Simulation.SlowChannelEveryKthPacket | instrumentino/communication/simulated_port.py:78-81 | a channel at 1/k of the packet rate sends one sample exactly in every k-th packet, from packet 0 |
| Simulation.StartIndex | instrumentino/communication/simulated_port.py:84 | int(index·ratio) mod the pattern length, hence inside the pattern |
| Simulation.SlicedPoints | instrumentino/communication/simulated_port.py:85 | the Python slice: n samples from start, cut short at the pattern's end |
| Simulation.WrappedPoints | instrumentino/communication/simulated_port.py:84-85 | n samples from start, wrapping to the pattern's beginning (the intended reading) |
| Simulation.SimBlock | instrumentino/communication/simulated_port.py:73-96 | a rendered block's id is the channel's position in `input_channels` |
| Simulation.SimBlockDecodes | instrumentino/communication/simulated_port.py:84-95 | with wrap-around, the controller decodes a block back to the samples taken from the pattern (its length field is the serialized byte count) |
| Simulation.WrappedBlockBuilds | instrumentino/communication/simulated_port.py:84-96 | with wrap-around a due channel's block always builds once rates, pattern, width, id and length fit |
| Simulation.SlicedPointsRunOff | instrumentino/communication/simulated_port.py:84-87 | as written, a 30 Hz channel at 10 Hz in packet 33 starts at sample 99 of 100, the slice holds one sample and the Array build fails; with wrap-around it builds |
| Simulation.DueSpec | instrumentino/communication/simulated_port.py:73-81 | the due channels are exactly those with samples this packet, once each and in list order |
| Simulation.SimBlocksIds | instrumentino/communication/simulated_port.py:73-96 | the rendered packet's block ids are exactly the due channels' positions, in order |
| Simulation.SimDataPacket | instrumentino/communication/simulated_port.py:99-112 | the packet builds iff its fields fit, and the controller parses it back to the blocks with start ⌊(now − t_zero)·1000⌋ ms |
| Simulation.IntendedPassesFirstBuild | instrumentino/communication/simulated_port.py:103-111 | any packet the intended rendering accepts passes the first build, so the as-written code reaches `_end` on it |
| Simulation.StartWithinAMillisecond | instrumentino/communication/simulated_port.py:99 | the start read back in seconds is within one millisecond below the elapsed time |
| Simulation.CommandOf | instrumentino/communication/simulated_port.py:131-133 | the command word has no space in it |
| Simulation.CommandOfBuilt | instrumentino/communication/simulated_port.py:131-134 | the simulator recovers the command word of any built command packet |
| Simulation.Simulator.constructor | instrumentino/communication/simulated_port.py:19-35 | counter 0, t_zero 0, no PONG pending |
| Simulation.Simulator.RenderBlocks | instrumentino/communication/simulated_port.py:72-96 | the loop over the channels returns exactly `SimBlocks`, failing with the first channel that fails |
| Simulation.Simulator.GetIncomingBytes | instrumentino/communication/simulated_port.py:50-118 | as written every poll raises and changes nothing: AttributeError on `_end` with a PING pending (before the flag is cleared); otherwise the first failing block, the first build's error or AttributeError; the counter never advances |
| Simulation.Simulator.GetIncomingBytesIntended | instrumentino/communication/simulated_port.py:50-118 | as intended: a pending PING yields the PONG packet, clears the flag and does not count; otherwise the data packet of the wrapped blocks, counted only when it builds |
| Simulation.Simulator.HandleCommand | instrumentino/communication/simulated_port.py:127-141 | RTC:ZERO sets t_zero to now, PING sets the reply flag, anything else changes nothing |
| Simulation.SimBlocks | instrumentino/communication/simulated_port.py:73-96 | the blocks of one simulated packet, channels in list order, each due channel's block, the first failing channel failing the packet; `SimBlocksIds` states which channels appear |
| Simulation.Due | instrumentino/communication/simulated_port.py:73-81 | the channels with a sample due in the packet; `DueSpec` proves exactly those appear, once each and in increasing order |
| Controlino.Accept | controlino/controlino.cpp:601-606 | a printable character is appended exactly when the line is below its capacity; any other character leaves the line as it was |
| Controlino.Printable | controlino/controlino.cpp:603 | the characters kept from a stream are all printable and never more than the stream |
| Controlino.AssembledIsPrintablePrefix | controlino/controlino.cpp:544-606 | the line assembled from any character stream is the stream's printable characters, cut off at the capacity |
| Controlino.TerminatorPastBufferAsWritten | controlino/controlino.cpp:549-605 | with the bound as written, 200 printable characters fill all of `msg`, so the terminator of line 552 lands at `msg[200]`, one past the end |
| Controlino.TerminatorInBuffer | controlino/controlino.cpp:549-605 | with one slot kept for the terminator, the assembled line is always shorter than the 200-byte buffer |
| Controlino.ArgvOverrunAsWritten | controlino/controlino.cpp:556-564 | with the loop bound as written, a line of 30 or more tokens drives `i` to 30, so `argV[30]` is written past the 30-slot array |
| Controlino.ArgCountValue | controlino/controlino.cpp:556-564 | the corrected `argC` is the number of tokens (1 for an empty line), clamped to 29, so `argV[argC]` is always inside the array |
| Controlino.Argv | controlino/controlino.cpp:556-564 | `argV` has 30 slots and agrees with the line's tokens up to `argC` |
| Controlino.Tokenize | controlino/controlino.cpp:556-564 | after the `strtok` loop, slots `0..argC` hold the line's tokens (NULL past the last), every later slot is NULL, and `argC` is the corrected count |
| Controlino.FillSlots | controlino/controlino.cpp:559-564 | the do-while fills slot after slot until NULL or the bound, leaving the same slots and count as `Tokenize` states |
| Controlino.Strings | controlino/controlino.cpp:565-592 | the argument strings handed to the commands, one per `argV` slot, NULL read as empty |
| Controlino.CommandOf | controlino/controlino.cpp:567-596 | a command is selected exactly when the first token equals its name ignoring case; otherwise no command name matches |
| Controlino.CommandOfIgnoresCase | controlino/controlino.cpp:567-592 | two first tokens that differ only in letter case select the same command |
| Controlino.ModeOf | controlino/controlino.cpp:131-137 | `in` gives input and `out` gives output, each in any letter case, and nothing else selects a mode |
| Controlino.ModeOfIgnoresCase | controlino/controlino.cpp:131-137 | the mode word is read without regard to letter case |
| Controlino.SetEffects | controlino/controlino.cpp:127-138 | `Set` performs one `pinMode` on the pin from argument 1 when the mode is known, and nothing otherwise |
| Controlino.Clamp | controlino/controlino.cpp:216 | the duty cycle is within 0..255, equals the value inside that range and saturates at either end outside it |
| Controlino.WriteEffects | controlino/controlino.cpp:204-220 | `Write` writes exactly when the type is `digi` or `anal`: `digi` drives the pin from argument 1 high exactly for a non-zero value, `anal` writes the value of argument 3 clamped to 0..255 |
| Controlino.ResetEffects | controlino/controlino.cpp:145-149 | `Reset` sets every one of the 13 digital pins to input, in pin order |
| Controlino.PinRead | controlino/controlino.cpp:179-189 | a token is read exactly when it starts with `D` or `A` in either case, the empty token never; `D` reads the digital and `A` the analog pin numbered by the rest of the token, as `strtol` and a 16-bit `int` give it |
| Controlino.ReadReplyJoinsValues | controlino/controlino.cpp:173-197 | when every pin token is readable, the corrected reply is the values joined by single spaces, with no trailing separator |
| Controlino.AnalogTokenReads | controlino/controlino.cpp:179-186 | the token `A<n>` reads analog pin n for any 16-bit n |
| Controlino.ReadTrailingSpaceAsWritten | controlino/controlino.cpp:178-195 | as written, `Read A<n>` prints the value followed by a space (and reads through the NULL `argV[2]`); the corrected reply is the value alone |
| Controlino.PwmMode | controlino/controlino.cpp:232-270 | a mode is selected exactly for the dividers listed for pins 5, 6, 9, 10 and for pins 3, 11; the mode is within 1..7 and belongs to the pin's timer |
| Controlino.PwmModeInvertible | controlino/controlino.cpp:237-265 | the chosen mode selects the requested divider again, and each mode of a timer is reached by some divider |
| Controlino.WithMode | controlino/controlino.cpp:246-268 | the low three register bits become the mode and the upper five bits are kept |
| Controlino.DescriptorIndex | controlino/controlino.cpp:287-289 | a descriptor number is accepted exactly within 1..count, and maps to the zero-based slot number-1 |
| Controlino.PortRejectedAsWritten | controlino/controlino.cpp:398-400 | the ternary as written lets through only soft port 1 |
| Controlino.PortRejected | controlino/controlino.cpp:398-400 | the intended check accepts exactly soft ports 1..4 on the Nano, which has no hardware port |
| Controlino.SecondSoftPortRefusedAsWritten | controlino/controlino.cpp:398-400 | soft port 2 is refused as written and accepted by the intended check |
| Controlino.Created | controlino/controlino.cpp:278-299 | a created descriptor is marked created and off, and keeps its set point and window start |
| Controlino.Received | controlino/controlino.cpp:451-454 | `SerReceive` copies a prefix of the received message, at most 100 characters |
| Controlino.Firmware.constructor | controlino/controlino.cpp:473-498 | `setup()`: an empty line, nothing sent, no descriptor in use, no blinking, the timer registers as the board left them |
| Controlino.Firmware.ReceiveChar | controlino/controlino.cpp:543-607 | `\n` is ignored; another non-`\r` character goes through `Accept` and leaves the rest of the state as it was; `\r` empties the line, prints a CRLF and then changes the whole state as `Step` says for the line's tokens |
| Controlino.Firmware.Execute | controlino/controlino.cpp:565-599 | the whole new state is `Step` of the old: an unknown command changes nothing, a known one runs its handler and a `done` line follows; `Read` prints exactly the corrected reply; `Set`, `Write` and `Reset` append exactly their pin effects |
| Controlino.Firmware.Dispatch | controlino/controlino.cpp:567-592 | the dispatcher's chain, before its `done`: the state becomes `Run` of the old state for the selected command |
| Controlino.Firmware.DispatchPins | controlino/controlino.cpp:567-586 | `Set`, `Reset`, `BlinkPin`, `Read`, `Write`, `SetPwmFreq` and the compiled-out `HardSerConnect` change the state as `Run` says |
| Controlino.Firmware.DispatchPid | controlino/controlino.cpp:579-584 | the three PID commands change the state as `Run` says |
| Controlino.Firmware.DispatchSerial | controlino/controlino.cpp:587-592 | `SoftSerConnect`, `SerSend` and `SerReceive` change the state as `Run` says |
| Controlino.Firmware.CmdSet | controlino/controlino.cpp:127-143 | the effects grow by exactly `SetEffects` and nothing else changes |
| Controlino.Firmware.CmdWrite | controlino/controlino.cpp:204-220 | the effects grow by exactly `WriteEffects` and nothing else changes |
| Controlino.SerSendAcknowledgedTwice | controlino/controlino.cpp:392-403 | a `SerSend` line puts its own `done` ahead of the dispatcher's, prints nothing else and asks nothing of the pins |
| Controlino.StepKeepsOthers | controlino/controlino.cpp:565-599 | `Set`, `Reset`, `Read`, `Write`, `HardSerConnect` and an unknown command leave the timer registers, the blinking and every descriptor as they were |
| Controlino.RunExtendsOutput | controlino/controlino.cpp:567-592 | no handler takes back anything sent on the control port: the old output is a prefix of the new |
| Controlino.Firmware.CmdReset | controlino/controlino.cpp:145-149 | the effects grow by exactly `ResetEffects` |
| Controlino.Firmware.CmdBlinkPin | controlino/controlino.cpp:156-163 | the pin becomes an output and blinking starts now with the given pin and delay |
| Controlino.Firmware.CmdRead | controlino/controlino.cpp:173-197 | the port output grows by exactly the corrected `Read` reply over `argV[1..argC-1]` |
| Controlino.Firmware.CmdSetPwmFreq | controlino/controlino.cpp:232-270 | only the register of the timer `PwmMode` selects changes, and only in its low three bits |
| Controlino.Firmware.CmdPidRelayCreate | controlino/controlino.cpp:278-299 | an out-of-range number changes nothing; otherwise only that descriptor is (re)created and its output limit set to its window size |
| Controlino.Firmware.CmdPidRelaySet | controlino/controlino.cpp:306-316 | only the addressed descriptor's set point changes, nothing for an out-of-range number |
| Controlino.Firmware.CmdPidRelayEnable | controlino/controlino.cpp:323-343 | the addressed descriptor starts a new window now and is switched on or off; switching off also drives its relay pin low |
| Controlino.Firmware.CmdSoftSerConnect | controlino/controlino.cpp:369-384 | ports 1..4 only: that port is connected with both message lengths reset and begun at the given pins and baud rate |
| Controlino.Firmware.CmdSerSend | controlino/controlino.cpp:392-403 | `done` is sent first; an accepted soft port's transmit message is emptied and nothing else changes |
| Controlino.Firmware.CmdSerReceive | controlino/controlino.cpp:443-464 | an accepted soft port's received message (at most 100 characters) is written out; a rejected port writes nothing |
| Controlino.Assembled | controlino/controlino.cpp:600-606 | the line buffered after a run of characters without `\r`; `AssembledIsPrintablePrefix` proves it is their printable characters cut at the capacity |
| Controlino.ArgCount | controlino/controlino.cpp:556-564 | the corrected `argC` for a line of `n` tokens; `ArgCountValue` proves it is `n` (1 for an empty line) clamped to 29 |
| Controlino.ReadReplyAsWritten | controlino/controlino.cpp:178-195 | `cmdRead`'s loop as written, over `argV[1..argC]` with a space after every value but the last round's; `ReadTrailingSpaceAsWritten` shows the stray space |
| Controlino.ReadReply | controlino/controlino.cpp:173-197 | the corrected reply over `argV[1..argC-1]`; `ReadReplyJoinsValues` proves it is the values joined by single spaces |
| Controlino.TimerOf | controlino/controlino.cpp:222-230 | the timer of a PWM pin: Timer0 for pins 5 and 6, Timer1 for 9 and 10, Timer2 for the rest; `PwmMode` keeps each mode to its pin's timer |
| Controlino.Run | controlino/controlino.cpp:127-464 | the handler of each known command as a change of the whole board state, mirroring the `Cmd*` methods; `RunExtendsOutput`, `StepKeepsOthers` and `SerSendAcknowledgedTwice` state its properties |
| Controlino.Step | controlino/controlino.cpp:565-599 | one line's dispatch: an unknown command leaves the state alone, a known one runs `Run` and the dispatcher prints `done`; `Execute` and `ReceiveChar` are proved to change the firmware as it says |
| SerialCommand.FirstMatch | controlino2/Libraries/SerialCommand/SerialCommand.cpp:102-124 | the index found names the command and no earlier entry does; nothing is found exactly when the name is not registered |
| SerialCommand.DispatchOf | controlino2/Libraries/SerialCommand/SerialCommand.cpp:99-128 | at most one handler runs: none for an empty line, the first registered match when there is one, else the default handler when it is set |
| SerialCommand.FeedPrintable | controlino2/Libraries/SerialCommand/SerialCommand.cpp:131-140 | printable characters are buffered until 64 are held and dropped after that; nothing else changes |
| SerialCommand.FeedDiscards | controlino2/Libraries/SerialCommand/SerialCommand.cpp:86-142 | characters that are neither printable nor the terminator leave the reader unchanged |
| SerialCommand.LineDispatched | controlino2/Libraries/SerialCommand/SerialCommand.cpp:86-150 | a line of at most 64 printable characters and the terminator dispatches exactly the handler for its first token, empties the buffer, and leaves the remaining tokens for `next()` |
| SerialCommand.SerialCommand.constructor | controlino2/Libraries/SerialCommand/SerialCommand.cpp:29-44 | an empty buffer, no commands, no default handler and the given command limit |
| SerialCommand.SerialCommand.AddCommand | controlino2/Libraries/SerialCommand/SerialCommand.cpp:51-70 | the command is appended while fewer than `maxCommands` are registered and ignored after that |
| SerialCommand.SerialCommand.SetDefaultHandler | controlino2/Libraries/SerialCommand/SerialCommand.cpp:76-78 | the default handler is set or, for NULL, cleared |
| SerialCommand.SerialCommand.ClearBuffer | controlino2/Libraries/SerialCommand/SerialCommand.cpp:147-150 | the buffer is empty and NUL-terminated |
| SerialCommand.SerialCommand.Next | controlino2/Libraries/SerialCommand/SerialCommand.cpp:156-158 | the next token of the line being handled, the rest kept for later calls; NULL once the tokens run out |
| SerialCommand.SerialCommand.FindCommand | controlino2/Libraries/SerialCommand/SerialCommand.cpp:102-124 | the search loop finds the first registered command with that name |
| SerialCommand.SerialCommand.Consume | controlino2/Libraries/SerialCommand/SerialCommand.cpp:88-140 | one character moves the object exactly as the reader function `Step` states |
| SerialCommand.SerialCommand.ReadSerial | controlino2/Libraries/SerialCommand/SerialCommand.cpp:86-142 | reading a run of characters leaves the object in the state `Feed` gives for them, invariant kept |
| SerialCommand.Step | controlino2/Libraries/SerialCommand/SerialCommand.cpp:88-140 | one character of `readSerial`: the terminator dispatches and clears the buffer, a printable character is stored while there is room, anything else is dropped; `FeedPrintable` and `LineDispatched` state what it does |
| SerialCommand.Feed | controlino2/Libraries/SerialCommand/SerialCommand.cpp:86-142 | `readSerial` over everything available, one `Step` per character; `FeedDiscards` and `LineDispatched` state its properties and `ReadSerial` is the loop proved equal to it |
| CStrings.Strtok | controlino/controlino.cpp:556-561 | a token is non-empty and free of spaces and the text left to resume on is shorter than the input; NULL leaves nothing to resume on |
| CStrings.TokensAreWords | controlino/controlino.cpp:556-561 | every token of a line is a non-empty word without spaces, and a line has no token exactly when it is all spaces |
| CStrings.TokensOfJoin | controlino/controlino.cpp:556-561 | a line made of words joined by single spaces tokenizes back into exactly those words |
| CStrings.DoubleSpaceCollapsed | controlino/controlino.cpp:557-560 | a run of spaces separates two tokens as a single space does |
| CStrings.StrToL | controlino/controlino.cpp:128 | `strtol(s, NULL, 10)` always yields a value within the 32-bit `long` range |
| CStrings.ClampLong | controlino/controlino.cpp:128 | values inside the `long` range are kept and values outside saturate at the nearer end |
| CStrings.StrToLOfIntToString | controlino/controlino.cpp:181 | a number printed in decimal reads back as itself (clamped to a `long`) whatever non-digit text follows it |
| CStrings.StrToLWithoutDigits | controlino/controlino.cpp:128 | a token that does not start with a digit, sign or white space reads as 0 |
| CStrings.AvrInt | controlino/controlino.cpp:128 | the AVR's 16-bit `int`: the result is in range, congruent to the input modulo 2^16, and equal to it when it already fits |
| CStrings.UnsignedLong | controlino/controlino.cpp:158 | the AVR's 32-bit `unsigned long`: the result is in range, congruent modulo 2^32, and the input itself when it fits |
| ArduinoDriver.Answer | instrumentino/controllers/arduino/__init__.py:319-330 | no answer exactly when the reply holds no `done`; otherwise the stripped text before the last `done` |
| ArduinoDriver.AnswerOfAcknowledged | instrumentino/controllers/arduino/__init__.py:319-330 | a firmware reply ending in its `done` line yields exactly the stripped text before it |
| ArduinoDriver.Framed | instrumentino/controllers/arduino/__init__.py:307-308 | with `addLineBreak` the command gets one `\r` appended, otherwise it is sent as given |
| ArduinoDriver.Key | instrumentino/controllers/arduino/__init__.py:185-219 | a cache key is `A` or `D` followed by the pin number in decimal |
| ArduinoDriver.SetCommandTokens | instrumentino/controllers/arduino/__init__.py:123-128 | the `Set` command the driver sends splits, as the firmware tokenizes it, into `Set`, the pin and `out`/`in` |
| ArduinoDriver.SetCommandUnderstood | instrumentino/controllers/arduino/__init__.py:123-128 | the firmware runs the driver's `Set` command as exactly one pin-mode change of that pin to output or input |
| ArduinoDriver.WriteCommandTokens | instrumentino/controllers/arduino/__init__.py:146-151 | the `Write` command the driver sends splits into `Write`, the pin, `anal`/`digi` and the value |
| ArduinoDriver.WriteEffectsOf | instrumentino/controllers/arduino/__init__.py:146-151 | the firmware's `Write` on the driver's arguments is one analog write of the clamped value or one digital write high exactly for a non-zero value |
| ArduinoDriver.WriteCommandUnderstood | instrumentino/controllers/arduino/__init__.py:146-151 | the driver's `Write` commands, analog and digital, are selected as `Write` by the firmware and have exactly the intended pin effect |
| ArduinoDriver.AssignedValues | instrumentino/controllers/arduino/__init__.py:94-109 | a reply with one printed number per distinct key stores each number under its key, adds no key and leaves the other entries alone |
| ArduinoDriver.AssignedKeys | instrumentino/controllers/arduino/__init__.py:105-109 | refreshing cached keys adds no key to the cache |
| ArduinoDriver.AssignedOthers | instrumentino/controllers/arduino/__init__.py:105-109 | a key outside the refreshed list keeps its entry, or its absence |
| ArduinoDriver.PinCache.constructor | instrumentino/controllers/arduino/__init__.py:46 | the shared pin cache starts empty |
| ArduinoDriver.Arduino.constructor | instrumentino/controllers/arduino/__init__.py:51-58 | no port, the semaphore free, no timer and a zeroed non-response counter |
| ArduinoDriver.Arduino.Exchange | instrumentino/controllers/arduino/__init__.py:310-330 | the command is written; a reply with `done` yields its answer and zeroes the counter, a reply without one counts one more non-response and is logged when `wait` is set or the count exceeds 10 |
| ArduinoDriver.Arduino.SendData | instrumentino/controllers/arduino/__init__.py:280-330 | `_sendData` as written: nothing is sent without a port; a held lock refuses the call (or blocks with `wait`); a lock taken is released only when an answer came |
| ArduinoDriver.Arduino.SendDataReleasing | instrumentino/controllers/arduino/__init__.py:280-330 | the same exchange with the lock released on every path: the lock state after the call is the one before it |
| ArduinoDriver.Arduino.Connect | instrumentino/controllers/arduino/__init__.py:60-80 | success exactly when the port opens, the lock is free and `Read A0` is answered; an opened port stays assigned, an unanswered ping keeps the lock, and a port that cannot be opened is logged |
| ArduinoDriver.Arduino.Handshake | instrumentino/controllers/arduino/__init__.py:72-80 | the `Read A0` ping is sent when the lock is free, and the cache timer starts exactly when it is answered |
| ArduinoDriver.Arduino.PinRead | instrumentino/controllers/arduino/__init__.py:179-219 | a cached pin returns its value and changes nothing; a missing pin returns None and is added with 0 |
| ArduinoDriver.Arduino.CacheUpdate | instrumentino/controllers/arduino/__init__.py:94-109 | one `Read` of every cached key; an answer is assigned in key order until an `int()` raises ValueError, no answer leaves the cache alone and the lock held |
| ArduinoDriver.Arduino.Refresh | instrumentino/controllers/arduino/__init__.py:108-109 | each key takes its value's `int()`, up to the shorter list or the first ValueError, which is reported |
| ArduinoDriver.LockLeakShown | instrumentino/controllers/arduino/__init__.py:297-330 | as written, an unanswered call keeps the lock, so the next call is refused and one with `wait` never returns |
| ArduinoDriver.LockReleasedShown | instrumentino/controllers/arduino/__init__.py:297-330 | with the lock released on failure, the call after an unanswered one gets its answer |
| ArduinoDriver.Inverted | instrumentino/controllers/arduino/__init__.py:349 | `valueToState` has exactly the values of `stateToValue` as keys |
| ArduinoDriver.InvertedUndoes | instrumentino/controllers/arduino/__init__.py:348-349 | with distinct values, `valueToState` maps each value back to its state |
| ArduinoDriver.DigitalState | instrumentino/controllers/arduino/__init__.py:357-359 | a missing reading stays None, a known value gives its state, an unknown value raises KeyError |
| ArduinoDriver.DigitalStateRoundTrip | instrumentino/controllers/arduino/__init__.py:357-362 | reading back the value a state was written as gives that state |
| ArduinoDriver.UnipolarSign | instrumentino/controllers/arduino/__init__.py:405 | the sign is -1 exactly when one end of the range is negative, and 1 otherwise |
| ArduinoDriver.UnipolarMin | instrumentino/controllers/arduino/__init__.py:413-414 | the smaller of the two magnitudes of the range |
| ArduinoDriver.UnipolarMax | instrumentino/controllers/arduino/__init__.py:416-417 | the larger of the two magnitudes of the range |
| ArduinoDriver.BipolarMin | instrumentino/controllers/arduino/__init__.py:428-429 | the bipolar range starts at 0 |
| ArduinoDriver.BipolarMax | instrumentino/controllers/arduino/__init__.py:431-433 | the magnitude of the range's upper end |
| ArduinoDriver.UnipolarRangeNonNegative | instrumentino/controllers/arduino/__init__.py:387-388 | `GetUnipolarRange` is never negative and is the distance between the two magnitudes |
| ArduinoDriver.SetCommand | instrumentino/controllers/arduino/__init__.py:123-128 | `Set <pin> out` or `Set <pin> in`; `SetCommandTokens` and `SetCommandUnderstood` prove the firmware reads back the pin and mode |
| ArduinoDriver.WriteCommand | instrumentino/controllers/arduino/__init__.py:146-151 | `Write <pin> anal <value>` or `Write <pin> digi <value>`; `WriteCommandTokens` and `WriteCommandUnderstood` prove the firmware performs that write |
| ArduinoDriver.ReadCommand | instrumentino/controllers/arduino/__init__.py:95-101 | `Read` followed by the cache keys, one space between each; `Arduino.CacheUpdate` sends it |
| ArduinoDriver.Assigned | instrumentino/controllers/arduino/__init__.py:105-109 | the cache after `cache[key] = int(val)` over the pairs in order; `AssignedValues`, `AssignedKeys` and `AssignedOthers` state what it sets and keeps |
| Dac.MaxVal | instrumentino/controllers/arduino/dac.py:4-5 | the full scale of an n-bit converter is one less than 2^n |
| Dac.FullScales | instrumentino/controllers/arduino/dac.py:15-32 | the MAX517 (8 bits) has full scale 255 and the MCP4922 (12 bits) 4095 |
| Dac.CommandWordEncodes | instrumentino/controllers/arduino/dac.py:34-47 | a 12-bit value packs into two bytes that decode back to it, with GA and SHDN set, BUF clear and bit 7 set exactly for channel 1 |
| Dac.WriteFraction | instrumentino/controllers/arduino/dac.py:20-47 | the MAX517 gets an I2C write of control 0 and 255·fraction; the MCP4922 gets an SPI write to its chip-select pin of the command word for int(4095·fraction) |
| Dac.Mcp4922Encodes | instrumentino/controllers/arduino/dac.py:34-47 | for a fraction within 0..1 the MCP4922 receives two bytes encoding int(4095·fraction) on the selected channel, GA and SHDN set, BUF clear |
| Dac.CommandWord | instrumentino/controllers/arduino/dac.py:34-45 | the two bytes `WriteFraction` packs: the value's high bits with `0x30`, then its low byte, bit 7 cleared for channel 0 and set for channel 1; `CommandWordEncodes` proves the fields |
| Tecan.N1Ascending | instrumentino/build/lib/instrumentino/controllers/arduino/tecan.py:10-51 | the N1 stroke-time table is in ascending order |
| Tecan.N1Increasing | instrumentino/build/lib/instrumentino/controllers/arduino/tecan.py:10-51 | the N1 stroke-time table is strictly increasing |
| Tecan.FirstAbove | instrumentino/build/lib/instrumentino/controllers/arduino/tecan.py:127-129 | the first position whose entry exceeds the stroke time, with no earlier one exceeding it; none exactly when no entry exceeds it |
| Tecan.SecondsPerStroke | instrumentino/build/lib/instrumentino/controllers/arduino/tecan.py:125-126 | ZeroDivisionError exactly when the volume or the speed is zero |
| Tecan.SecondsPerStrokeValue | instrumentino/build/lib/instrumentino/controllers/arduino/tecan.py:125-126 | otherwise the stroke time is the syringe volume in µL over the speed in µL/s |
| Tecan.SpeedIndex | instrumentino/build/lib/instrumentino/controllers/arduino/tecan.py:124-131 | the first speed code whose stroke is slower than requested, else the last code; an error for zero volume, zero speed or an empty table |
| Tecan.StrokeTable | instrumentino/build/lib/instrumentino/controllers/arduino/tecan.py:10-52 | the N1 mode has the table, N2 an empty one, and any other mode raises KeyError |
| Tecan.SpeedIndexMonotone | instrumentino/build/lib/instrumentino/controllers/arduino/tecan.py:124-131 | on any table, a faster speed never gets a later (slower) speed code |
| Tecan.SpeedIndexBoundary | instrumentino/build/lib/instrumentino/controllers/arduino/tecan.py:124-131 | on a strictly increasing table the code found is the boundary between entries not slower and entries slower than requested |
| Tecan.N1SpeedIndex | instrumentino/build/lib/instrumentino/controllers/arduino/tecan.py:124-131 | the N1 lookup always yields a code in 0..40, and for a positive volume a faster speed never gets a slower code |
| Tecan.DecodeEncode | instrumentino/build/lib/instrumentino/controllers/arduino/tecan.py:91-115 | a command body written out as letters with decimal arguments reads back as the same instructions |
| Tecan.UnframeFramed | instrumentino/build/lib/instrumentino/controllers/arduino/tecan.py:54-75 | a framed command gives back its address and body |
| Tecan.UseSoftSer | instrumentino/build/lib/instrumentino/controllers/arduino/tecan.py:64-69 | a software serial port is used exactly when both pins are given |
| Tecan.SendCommand | instrumentino/build/lib/instrumentino/controllers/arduino/tecan.py:74-75 | the text sent is the framed address and command, on the pump's serial port and kind, with the given answer wait |
| Tecan.MicroSteps | instrumentino/build/lib/instrumentino/controllers/arduino/tecan.py:77-78 | ZeroDivisionError exactly when the syringe volume is zero |
| Tecan.MiliLitToMicroSteps | instrumentino/build/lib/instrumentino/controllers/arduino/tecan.py:77-78 | the decimal string reads back as the integer step count of the volume |
| Tecan.MicroStepsRange | instrumentino/build/lib/instrumentino/controllers/arduino/tecan.py:59-78 | for volumes up to the syringe's the step count is within 0..48000, and the full syringe is "48000" |
| Tecan.InitPumpAndMultivalve | instrumentino/build/lib/instrumentino/controllers/arduino/tecan.py:80-82 | two commands: the pump's init with a 3 s wait, then the valve's with a 1 s wait |
| Tecan.SelectMultivalvePort | instrumentino/build/lib/instrumentino/controllers/arduino/tecan.py:84-85 | one command to the valve address: the move direction and the port number, with the given wait |
| Tecan.Stroke | instrumentino/build/lib/instrumentino/controllers/arduino/tecan.py:87-96 | ZeroDivisionError exactly for zero volume or zero speed, nothing sent then; otherwise exactly one pump command after what was already sent |
| Tecan.PullOrDispenseAtMultivalvePort | instrumentino/build/lib/instrumentino/controllers/arduino/tecan.py:87-91 | the valve move goes out first; the call fails exactly for zero volume or zero speed |
| Tecan.PullOrDispenseAtPumpInputPort | instrumentino/build/lib/instrumentino/controllers/arduino/tecan.py:93-96 | fails exactly for zero volume or zero speed, and then sends nothing |
| Tecan.TransferFromInputToMultivalvePort | instrumentino/build/lib/instrumentino/controllers/arduino/tecan.py:110-115 | the valve move goes out first; the call fails exactly for zero volume or zero speed |
| Tecan.Transfer | instrumentino/build/lib/instrumentino/controllers/arduino/tecan.py:112-115 | the given valve move comes first; the transfer fails exactly for zero volume or zero speed |
| Tecan.FirstTimeOnline | instrumentino/build/lib/instrumentino/controllers/arduino/tecan.py:117-122 | a software serial connection on the two pins when both are given, else the hardware port, at 9600 baud on the pump's port |
| Tecan.StrokeCommand | instrumentino/build/lib/instrumentino/controllers/arduino/tecan.py:87-96 | on any table, a valid stroke's command is the pump address followed by a body that decodes to the valve side, the speed code for the speed, M1000 and the pull/dispense of the step count, with the stroke-time wait |
| Tecan.PullOrDispenseCommand | instrumentino/build/lib/instrumentino/controllers/arduino/tecan.py:87-91 | a pull or dispense at the valve: the valve moves, then the pump reads O, the N1 speed code, M1000 and P/D of the step count, and waits the code's stroke time times the fraction plus 2 s |
| Tecan.PumpInputCommand | instrumentino/build/lib/instrumentino/controllers/arduino/tecan.py:93-96 | the same stroke through the pump's input side (I), with no valve move |
| Tecan.PullAndDispenseLetters | instrumentino/build/lib/instrumentino/controllers/arduino/tecan.py:98-108 | the four public commands are the two shared strokes, with P to pull and D to dispense, and with the move direction and wait passed through unchanged |
| Tecan.TransferCommand | instrumentino/build/lib/instrumentino/controllers/arduino/tecan.py:110-115 | a transfer makes the pump read I, the speed code, M1000, P of the steps, O, D of the same steps, and wait two strokes' share plus 2 s |
| Tecan.TransferSteps | instrumentino/build/lib/instrumentino/controllers/arduino/tecan.py:112-115 | the transfer command and its wait on any table |
| Tecan.ZeroVolumeRaises | instrumentino/build/lib/instrumentino/controllers/arduino/tecan.py:87-112 | with no syringe volume the valve has already moved when the division fails and nothing reaches the pump |
| Tecan.Framed | instrumentino/build/lib/instrumentino/controllers/arduino/tecan.py:54-75 | start mark, address, body, execute mark, end mark; `UnframeFramed` proves the address and body read back |
| Tecan.PullFromMultivalvePort | instrumentino/build/lib/instrumentino/controllers/arduino/tecan.py:98-99 | the valve moves first, and the pull fails exactly for a zero syringe volume or speed |
| Tecan.DispenseToMultivalvePort | instrumentino/build/lib/instrumentino/controllers/arduino/tecan.py:101-102 | the valve moves first, and the dispense fails exactly for a zero syringe volume or speed |
| Tecan.PullFromPumpInputPort | instrumentino/build/lib/instrumentino/controllers/arduino/tecan.py:104-105 | the pull fails exactly for a zero syringe volume or speed, and then nothing is sent |
| Tecan.DispenseToPumpInputPort | instrumentino/build/lib/instrumentino/controllers/arduino/tecan.py:107-108 | the dispense fails exactly for a zero syringe volume or speed, and then nothing is sent |
| Action.IntParam | build/lib/instrumentino/action.py:44-50 | an integer parameter keeps its name, units and range, and its value as the decimal text of the integer |
| Action.IntParamRoundTrip | build/lib/instrumentino/action.py:48-68 | `Get` of an integer parameter gives back the integer it was made with |
| Action.FloatParam | build/lib/instrumentino/action.py:75-86 | each of name, units and range is the argument when given (or when there is no analog variable) and the analog variable's otherwise; the value is the given text |
| Action.FloatParamMirrorsVariable | build/lib/instrumentino/action.py:75-86 | with every argument at its default, the parameter carries the analog variable's name, units and range |
| Action.ClockField | build/lib/instrumentino/action.py:129 | a `%H`/`%M`/`%S` field is one or two digits whose value is at most the field's maximum |
| Action.StrpTime | build/lib/instrumentino/action.py:129 | `strptime(_, '%H:%M:%S')` either raises ValueError or gives hours ≤ 23, minutes ≤ 59 and seconds ≤ 61 |
| Action.TimeGet | build/lib/instrumentino/action.py:125-133 | a time parameter's `Get` either raises ValueError or gives a duration in seconds |
| Action.TimeGetParts | build/lib/instrumentino/action.py:129-133 | a clock and a fraction around one '.' give the clock's seconds plus `int(fraction)` milliseconds |
| Action.TimeGetBadClock | build/lib/instrumentino/action.py:129 | a clock that `strptime` refuses makes the whole value raise ValueError, whatever follows the '.' |
| Action.TimeGetWhole | build/lib/instrumentino/action.py:132 | a value without '.' is the clock alone |
| Action.StrpTimeOfClockText | build/lib/instrumentino/action.py:118-129 | a zero-padded clock is accepted exactly when each field is in range, and then gives those fields |
| Action.TimeGetOfTimeText | build/lib/instrumentino/action.py:118-133 | the text the `##:##:##.###` widget holds parses to its hours, minutes, seconds and milliseconds, in seconds |
| Action.DefaultTimeIsZero | build/lib/instrumentino/action.py:111-133 | a time parameter left at its default `00:00:00.000` lasts zero seconds |
| Action.OneDigitIsMilliseconds | build/lib/instrumentino/action.py:132 | the digits after the point count as milliseconds however many there are: `.5` adds 5 ms, not half a second |
| Action.HourTwentyFourRejected | build/lib/instrumentino/action.py:129 | an hour of 24 is refused with ValueError |
| Action.GetState | build/lib/instrumentino/action.py:31-41 | the pickled state has every attribute except the widget, unchanged, and putting the widget back restores the attributes |
| Action.StateKeepsParam | build/lib/instrumentino/action.py:18-41 | a parameter's pickled state describes exactly that parameter and holds nothing of its widget |
| Action.Entries | build/lib/instrumentino/action.py:149-184 | one `name=value` entry per parameter, in order |
| Action.Repr | build/lib/instrumentino/action.py:149-156 | the loop builds exactly the representation text `ReprOf` gives |
| Action.ReprReadsBack | build/lib/instrumentino/action.py:149-156 | the representation splits at '\r' into the three lines, and the last one at spaces into the header and the entries, when no name or value holds those characters |
| Action.BuildLogMessage | build/lib/instrumentino/action.py:176-184 | the logging loop builds exactly the line `LogMessage` gives |
| Action.Run | build/lib/instrumentino/action.py:172-188 | the log line goes out first when asked for, then the command runs exactly once |
| Action.LogEntriesReadBack | build/lib/instrumentino/action.py:176-185 | the log line is the clock text, the name, ': ' and the entries joined by ', ', and splitting it at ',' gives back every entry |
| Action.IntGet | build/lib/instrumentino/action.py:64-68 | `int(self.value)` on the parameter's text; `IntParamRoundTrip` proves it gives back the integer the parameter was made with |
| Action.TimeParam | build/lib/instrumentino/action.py:111-112 | a parameter with the `h:m:s.ms` units; `DefaultTimeIsZero` proves the default `00:00:00.000` lasts zero seconds |
| Action.ReprOf | build/lib/instrumentino/action.py:149-156 | `sysAction:`, the name line and the `params:` line of entries, as `__repr__` builds them; `ReprReadsBack` proves the lines and the entries split back out |
| Action.LogMessage | build/lib/instrumentino/action.py:176-184 | the clock text, the name, then `: ` and the `name=value` entries joined by `, `; `LogEntriesReadBack` proves the entries split back out at the commas |
| Variables.PyIndex | instrumentino/variables/__init__.py:239 | `options[index]`: a non-negative index in range picks that element, a negative one counts from the end, and exactly the indices outside `[-n, n)` raise IndexError |
| Variables.ListIndex | instrumentino/variables/__init__.py:244 | `options.index(text)`: the first position holding the text; ValueError exactly when the text is not among the options |
| Variables.DigitalToPercentage | instrumentino/variables/__init__.py:241-244 | a text that is not an option raises ValueError; with a single option the division by `n - 1` raises ZeroDivisionError |
| Variables.DigitalRoundTrip | instrumentino/variables/__init__.py:235-244 | with two options or more, in exact arithmetic an option's percentage lies in [0, 100] and converts back to that same option |
| Variables.TruncLosesOption | instrumentino/variables/__init__.py:238 | when the floating-point product lands just below the option's index, `int()` picks the option before it |
| Variables.FourOptionsLoseSecond | instrumentino/variables/__init__.py:238 | the concrete case: the second of four options has percentage 1/3·100, and with the product `1 - 2^-52` the conversion back yields the first option |
| Variables.Round | instrumentino/variables/__init__.py:238 | the rounding the corrected conversion uses: the nearest integer, within one half of its argument |
| Variables.RoundedRoundTrip | instrumentino/variables/__init__.py:235-244 | with `int(round(...))` in place of `int(...)` every option comes back from its percentage, whatever the rounding error below one half |
| Variables.DigitalPicks | instrumentino/variables/__init__.py:235-239 | every percentage in [0, 100] selects an option inside the list, so no IndexError |
| Variables.DigitalQuantizes | instrumentino/variables/__init__.py:235-244 | among distinct options, a percentage picks the option whose own percentage is the largest grid point `k/(n-1)·100` not above it |
| Variables.OnOffPercentages | instrumentino/variables/__init__.py:247-257 | for the options `off` and `on`, `off` is 0 % and `on` is 100 % |
| Variables.AnalogLimits | instrumentino/variables/__init__.py:157-174 | the limits are `range[0]` and `range[1]`; a unipolar variable raises ValueError exactly when their product is negative |
| Variables.UnipolarOneSign | instrumentino/variables/__init__.py:170-174 | an accepted unipolar range lies entirely on one side of zero |
| Variables.AnalogToPercentage | instrumentino/variables/__init__.py:181-184 | converting a value to a percentage raises ZeroDivisionError exactly when the two limits are equal |
| Variables.AnalogInverse | instrumentino/variables/__init__.py:152-184 | with distinct limits, `get_value` and `text_to_percentage` undo each other in both directions |
| Variables.PercentageVariable | instrumentino/variables/__init__.py:187-197 | the range [0, 100] is accepted as unipolar, and the value equals the percentage |
| Variables.Variable.constructor | instrumentino/variables/__init__.py:104-114 | a new variable holds its subclass's conversions and whether it has an output channel; it starts at 0 %, not editing, with nothing written |
| Variables.Variable.UserEnteredText | instrumentino/variables/__init__.py:116-122 | a text that converts is stored as the percentage and written to the output channel when there is one; one that raises changes nothing and propagates the error |
| Variables.Variable.NewDataArrived | instrumentino/variables/__init__.py:125-133 | the new percentage is always stored; while the user is not editing, the display then shows its text; while the user is editing, the display is left alone |
| Variables.NewDigitalVariable | instrumentino/variables/__init__.py:223-244 | a new variable whose conversions are the digital variable's conversions for the given options |
| Variables.DurationInput.constructor | instrumentino/variables/__init__.py:277-288 | a duration field with the given text and cursor |
| Variables.DurationInput.CursorAdvancementInRealText | instrumentino/variables/__init__.py:290-306 | the cursor after typing, moved past separators, and capped at the last character of the current text |
| Variables.DurationInput.InsertText | instrumentino/variables/__init__.py:308-335 | the new text is the old digits overwritten by the typed ones and laid out again; the column moves past what was typed and the row is kept |
| InputFilters.SliceIndex | instrumentino/variables/__init__.py:320 | a Python slice bound always falls within the text; a non-negative bound is capped at the length |
| InputFilters.TakeDrop | instrumentino/variables/__init__.py:320 | `text[:cc] + text[cc:]` is the text again, for any cursor |
| InputFilters.DigitsAroundPoint | instrumentino/variables/__init__.py:273 | digits joined around one point make decimal text with that point, and the point is the only character lost by keeping digits |
| InputFilters.DigitsOnly | instrumentino/variables/__init__.py:271 | digit-only text is decimal text without a point |
| InputFilters.FloatFilterKeepsDigits | instrumentino/variables/__init__.py:266-274 | the float filter passes on decimal text holding every typed digit in order, with a point exactly when the typed text has one and the field does not |
| InputFilters.DigitSlotsSplit | instrumentino/variables/__init__.py:294-306 | counting the digit positions of `hh:mm:ss.mmm` over a stretch is additive over adjacent stretches |
| InputFilters.CursorLanding | instrumentino/variables/__init__.py:290-306 | typing `k` digits moves the cursor over exactly `k` digit positions, at least `k` places on, and never leaves it on a separator |
| InputFilters.CursorAdvancement | instrumentino/variables/__init__.py:290-306 | the loop's result is the advanced cursor capped by `min` at the last character of the text |
| InputFilters.InsertOverwrites | instrumentino/variables/__init__.py:317-321 | the new digits are the field's digits with the typed ones written over them from the cursor on, cut to nine |
| InputFilters.LayoutOfNine | instrumentino/variables/__init__.py:323-331 | nine digits are laid out as `hh:mm:ss.mmm` |
| InputFilters.NineDigitsShaped | instrumentino/variables/__init__.py:323-331 | nine digits laid out give a twelve-character text in the field's shape whose digits are those nine |
| InputFilters.OverwriteDigits | instrumentino/variables/__init__.py:320 | writing digits over digits leaves only digits |
| InputFilters.InsertKeepsShape | instrumentino/variables/__init__.py:317-331 | typing digits into a field of shape `hh:mm:ss.mmm` keeps nine digits and that shape |
| InputFilters.InsertKeepsField | instrumentino/variables/__init__.py:308-335 | whatever is typed, a field of shape `hh:mm:ss.mmm` keeps that shape, and a cursor inside the text stays inside it |
| Variables.DigitalToText | instrumentino/variables/__init__.py:235-239 | the option at `int(p / 100 * (n - 1))`, IndexError outside the list; `DigitalRoundTrip`, `DigitalPicks` and `DigitalQuantizes` state its properties |
| Variables.AnalogValue | instrumentino/variables/__init__.py:152-155 | the percentage placed between the lower and upper limits; `AnalogInverse` proves `AnalogToPercentage` undoes it |
| InputFilters.FloatFilter | instrumentino/variables/__init__.py:266-274 | the text a float input passes on; `FloatFilterKeepsDigits` states which characters it keeps |
| InputFilters.CursorAfter | instrumentino/variables/__init__.py:290-306 | the cursor after `k` digits typed from `c`, skipping the separators; `CursorLanding` states where it lands and `CursorAdvancement` is the loop proved equal to it |
| InputFilters.InsertedText | instrumentino/variables/__init__.py:308-335 | the duration text after `insert_text`; `InsertOverwrites`, `InsertKeepsShape` and `InsertKeepsField` state how it overwrites digits and keeps the `hh:mm:ss.mmm` layout |
| InputFilters.InsertedColumn | instrumentino/variables/__init__.py:308-335 | the cursor column after `insert_text`; `InsertKeepsField` proves a cursor inside the field stays inside its 12 characters |
| ListWidgets.AddClsDicts | instrumentino/screens/list_widgets.py:22-30 | the keyword dictionary gains a `cls_dicts` entry that starts with the added widgets and continues with the ones already there (none when the key was missing); every other key is unchanged |
| ListWidgets.ParentWidgetsFirst | instrumentino/screens/list_widgets.py:26-30 | when a subclass adds its widgets and then its parent adds its own, the parent's widgets come first, then the subclass's, then the caller's |
| ListWidgets.DurationInput.constructor | instrumentino/screens/list_widgets.py:106-121 | a new list duration field with the given text and cursor and an empty `last_text` |
| ListWidgets.DurationInput.InsertText | instrumentino/screens/list_widgets.py:141-177 | when the text's length differs from `last_text`'s, the last text is restored and the cursor kept; otherwise the typed digits overwrite those at the cursor as in the variables' duration field; either way the text afterwards is the remembered `last_text`, and a field of shape `hh:mm:ss.mmm` keeps that shape |
| ListWidgets.DurationInput.DoBackspace | instrumentino/screens/list_widgets.py:179-182 | backspace changes nothing |
| ListWidgets.DurationInput.SelectText | instrumentino/screens/list_widgets.py:184-187 | selection changes nothing |
| LogGraph.Filled | build/lib/instrumentino/log_graph.py:110-111 | a given value is logged as is; a missing one repeats the variable's last logged value, or is 0 when nothing was logged yet |
| LogGraph.Range | build/lib/instrumentino/log_graph.py:124 | the row indices of `[from, to)`, in order, and as many as the interval is long |
| LogGraph.RangeSplit | build/lib/instrumentino/log_graph.py:123-134 | two adjacent stretches of rows together are the stretch that spans both |
| LogGraph.BulksCoverRows | build/lib/instrumentino/log_graph.py:122-125 | the bulk writes of `FinishUpdate` together cover every row up to the last multiple of `dataWriteBulk`, each once and in order |
| LogGraph.EveryRowWrittenOnce | build/lib/instrumentino/log_graph.py:115-134 | the bulk writes followed by the rows `StopUpdates` adds write every sample row to the signals file exactly once, in order |
| LogGraph.LogGraphPanel.constructor | build/lib/instrumentino/log_graph.py:56-82 | no sample times yet, and an empty data list for every analog and every digital variable |
| LogGraph.LogGraphPanel.AddData | build/lib/instrumentino/log_graph.py:107-113 | a variable's list grows by the filled value only while it is not ahead of the time list, so no list gets more than one value ahead; an unknown name raises KeyError and changes nothing |
| LogGraph.LogGraphPanel.FinishUpdate | build/lib/instrumentino/log_graph.py:115-130 | one more sample time, and afterwards no data list is ahead of the time list; at a multiple of ten samples, when some list holds fewer than ten values, the bulk write raises IndexError and nothing is written; otherwise the header after the first sample, the last ten rows at every multiple of ten, and a redraw from the second sample on (the first one setting up the axes) |
| LogGraph.LogGraphPanel.StopUpdates | build/lib/instrumentino/log_graph.py:132-134 | the rows after the last full bulk, all of them existing rows, or IndexError exactly when some data list holds fewer values than there are such rows |
| LogGraphSplit.BipolarIsOppositeSigns | instrumentino/build/lib/instrumentino/log_graph.py:179-180 | a range counts as bipolar exactly when its two ends have strictly opposite signs |
| LogGraphSplit.Normalize | instrumentino/build/lib/instrumentino/log_graph.py:182-185 | a zero-width range raises ZeroDivisionError, and exactly that; every other range gives a non-negative percentage |
| LogGraphSplit.PercentBounds | instrumentino/build/lib/instrumentino/log_graph.py:185 | a distance between 0 and the width is between 0 % and 100 %, with 0 at the edge and 100 at the full width |
| LogGraphSplit.NormalizeEnds | instrumentino/build/lib/instrumentino/log_graph.py:182-185 | on an increasing range that does not cross zero, the end nearer zero is 0 %, the other end 100 %, and every value in between lies in [0, 100] |
| LogGraphSplit.HalvesDiffer | instrumentino/build/lib/instrumentino/log_graph.py:126-127 | the `_POS` and `_NEG` series of one variable have different names |
| LogGraphSplit.SplitSamples | instrumentino/build/lib/instrumentino/log_graph.py:201-202 | a non-negative value gets a point on the `_POS` series only, a negative one on the `_NEG` series only, each with that side's percentage |
| LogGraphSplit.SplitExactlyOne | instrumentino/build/lib/instrumentino/log_graph.py:201-202 | every value of a bipolar variable is drawn on exactly one of its two series |
| LogGraphSplit.HalvesNormalize | instrumentino/build/lib/instrumentino/log_graph.py:126-127 | the halves `[0, upper]` and `[lower, 0]` of a bipolar range never divide by zero, and every value of the range gets a percentage in [0, 100] on the side of its sign |
| LogGraphSplit.SplitLogGraphPanel.constructor | instrumentino/build/lib/instrumentino/log_graph.py:89-139 | an empty data list for every shown variable; one plotted series for each unipolar analog variable and two, with ranges `[0, upper]` and `[lower, 0]`, for each bipolar one |
| LogGraphSplit.SplitLogGraphPanel.AddData | instrumentino/build/lib/instrumentino/log_graph.py:187-202 | as in the earlier panel the filled value is appended while the list is not ahead of the time list; an analog value then adds its percentage to its plotted series, or to the series of its sign with a gap on the other; an unknown name raises KeyError, and a label or a zero-width range raises after the real value was stored |
| LogGraphSplit.SplitLogGraphPanel.FinishUpdate | instrumentino/build/lib/instrumentino/log_graph.py:204-219 | one more sample time and no data list ahead of the time list; IndexError with nothing written exactly at a multiple of ten samples when some list holds fewer than ten values, otherwise the same header, bulk and redraw schedule as the earlier panel |
| LogGraph.FinishWrites | build/lib/instrumentino/log_graph.py:118-130 | the header after the first sample, the last ten rows at every multiple of ten, and a redraw from the second sample on; `BulksCoverRows` and `EveryRowWrittenOnce` state what the bulks cover |
| LogGraph.StopRows | build/lib/instrumentino/log_graph.py:132-134 | the rows after the last full bulk; `EveryRowWrittenOnce` proves that with them every row is written once, in order |
| LogGraphSplit.AnalogRanges | instrumentino/build/lib/instrumentino/log_graph.py:102-110 | the range of every analog variable that is shown in the log, by full name |
| LogGraphSplit.PlottedRanges | instrumentino/build/lib/instrumentino/log_graph.py:119-127 | the plotted series' ranges: the range itself, or `[0, upper]` and `[lower, 0]` for a bipolar one; `HalvesNormalize` states how the halves scale |
| LogGraphSplit.DigitalNames | instrumentino/build/lib/instrumentino/log_graph.py:134-136 | the names of the digital variables shown in the log |
| LogGraphSplit.SplitLogGraphPanel.StopUpdates | instrumentino/build/lib/instrumentino/log_graph.py:221-223 | the rows after the last full bulk, or IndexError exactly when some list holds fewer values than there are such rows |
| ToggleGroups.FirstDead | instrumentino/libs2/togglebuttonmulti/__init__.py:77-80 | the position of the first reference whose widget is gone; every reference before it is alive |
| ToggleGroups.Selected | instrumentino/libs2/togglebuttonmulti/__init__.py:72-83 | counting a group raises AttributeError exactly when one of its references is dead, since `widget.state` is then read on `None`; otherwise it gives the number of buttons down |
| ToggleGroups.Alive | instrumentino/libs2/togglebuttonmulti/__init__.py:132-135 | the live references of a group, in order; every one of them refers to a live widget |
| ToggleGroups.AliveKeepsCount | instrumentino/libs2/togglebuttonmulti/__init__.py:77-83 | dead references add nothing to the count of buttons down, so flushing them keeps it |
| ToggleGroups.SkippingCountsLive | instrumentino/libs2/togglebuttonmulti/__init__.py:77-83 | the count the loop evidently intends, skipping a dead reference, is what counting the live references gives, without raising |
| ToggleGroups.DeadReferenceRaises | instrumentino/libs2/togglebuttonmulti/__init__.py:78-81 | one dead reference anywhere in the group makes the count raise AttributeError, whatever the other buttons' states |
| ToggleGroups.CountAfterChange | instrumentino/libs2/togglebuttonmulti/__init__.py:94-99 | changing one button's state changes the group's count of buttons down by the number of its references, up or down |
| ToggleGroups.Registry.constructor | instrumentino/libs2/togglebuttonmulti/__init__.py:44 | an empty class-level group dictionary and no widgets |
| ToggleGroups.Registry.AddWidget | instrumentino/libs2/togglebuttonmulti/__init__.py:54-56 | a new button is in state normal, with no group and no previous group; the groups are unchanged |
| ToggleGroups.Registry.Collect | instrumentino/libs2/togglebuttonmulti/__init__.py:69 | a collected widget leaves the live widgets while its references stay listed |
| ToggleGroups.Registry.OnGroup | instrumentino/libs2/togglebuttonmulti/__init__.py:58-70 | the widget's first reference leaves its previous group when that group is truthy; a reference to it is appended to the new group's list, which is created when missing; the group becomes the previous group |
| ToggleGroups.Registry.Counted | instrumentino/libs2/togglebuttonmulti/__init__.py:72-83 | without a group a widget counts only itself, 1 exactly when it is down and 0 otherwise; a group that was never registered raises KeyError; otherwise the group's count |
| ToggleGroups.Registry.NumSelected | instrumentino/libs2/togglebuttonmulti/__init__.py:72-83 | the loop returns the count `Counted` describes; the first dead reference is removed from its group's list before the error, and nothing else in the groups changes |
| ToggleGroups.Registry.Widgets | instrumentino/libs2/togglebuttonmulti/__init__.py:112-135 | an unknown group has no widgets; otherwise the live widgets of the group, in order |
| MultichoiceToggle.Pressed | instrumentino/libs2/togglebuttonmulti/__init__.py:94-101 | a press changes the state exactly when a normal button has room below `max_selected` or a down button leaves more than `min_selected` |
| MultichoiceToggle.PressKeepsBounds | instrumentino/libs2/togglebuttonmulti/__init__.py:88-101 | in a group whose buttons are all alive and hold the pressed one once, a press keeps the number selected between `min_selected` and `max_selected` |
| MultichoiceToggle.DoPress | instrumentino/libs2/togglebuttonmulti/__init__.py:88-101 | a button without a truthy group changes nothing; otherwise a failed count propagates, leaves the states alone and leaves the groups as the count flushed them (its first dead reference gone), and a count sets the pressed button to the state `Pressed` gives |
| ToggleButtonMulti.Pressed | instrumentino/libs/garden/togglebuttonmulti/__init__.py:74-87 | with `allow_no_selection` off, the last selected button of a group stays down; a normal button goes down exactly when fewer than `max_selected` are selected; any other down button goes back to normal |
| ToggleButtonMulti.PressKeepsSelection | instrumentino/libs/garden/togglebuttonmulti/__init__.py:74-87 | with `allow_no_selection` off, a press in a group with all buttons alive and the pressed one listed once keeps between 1 and `max_selected` buttons selected |
| ToggleButtonMulti.PressToggles | instrumentino/libs/garden/togglebuttonmulti/__init__.py:81-87 | with `allow_no_selection` on, a press toggles the button, except that a full group takes no more |
| ToggleButtonMulti.DoPress | instrumentino/libs/garden/togglebuttonmulti/__init__.py:74-87 | a failed count propagates, leaves the states alone and leaves the groups as the count flushed them; a count sets the pressed button to the state `Pressed` gives, with or without a group |
| Comp.Get | instrumentino/instrumentino/comp.py:31-38 | the value read is returned unchanged; `GetFunc` runs first, and `PostGetFunc` sees that value exactly when it is set |
| Comp.Set | instrumentino/instrumentino/comp.py:40-47 | a variable that is not editable makes no call at all; otherwise `SetFunc` comes last with the value, preceded by `PreSetFunc` with the same value when there is one |
| Comp.FullNameDistinguishes | instrumentino/instrumentino/comp.py:54-57 | within one component and one kind of units, two full names are equal exactly when the variables' names are |
| Comp.AnalogOnEdit | instrumentino/instrumentino/comp.py:87-96 | the value is set only on Return or Enter, only when its text parses, only for an editable variable, and only within the range; a parse error propagates before `event.Skip()`, and every other path ends with `Skip` |
| Comp.DigitalOnEdit | instrumentino/instrumentino/comp.py:154-158 | an editable variable is set to the chosen radio button's label, as the last call; a non-editable one makes no call |
| Comp.VarsByNameKeys | instrumentino/instrumentino/comp.py:186 | the ordered dictionary holds each name once, under the variable that carries it, and every variable's name is among its keys |
| Comp.VarsByNameDistinct | instrumentino/instrumentino/comp.py:186 | without repeated names the dictionary lists every variable in input order |
| Comp.UpdateCalls | instrumentino/instrumentino/comp.py:49-52 | a variable's update ends by logging the value read under the variable's full name |
| Comp.UpdateVars | instrumentino/instrumentino/comp.py:219-221 | every variable is updated in dictionary order, each with its own reading |
| Comp.SysComp.constructor | instrumentino/instrumentino/comp.py:182-188 | a component whose variables are keyed by name, with no panel, offline, and `FirstTimeOnline` not yet run |
| Comp.SysComp.CreatePanel | instrumentino/instrumentino/comp.py:190-209 | a panel exists exactly when the component has variables |
| Comp.SysComp.Update | instrumentino/instrumentino/comp.py:211-221 | the component is online afterwards and `FirstTimeOnline` has run exactly once however often `Update` is called; it runs only on the first call, and the variables are updated only when a panel exists |
| Cfg.FirstInstance | instrumentino/instrumentino/cfg.py:113-116 | the position of the first controller that is an instance of the class; none before it is one |
| Cfg.AddIdempotent | instrumentino/instrumentino/cfg.py:72-78 | adding the same class a second time changes nothing; afterwards an instance exists and at most one controller was added |
| Cfg.AllOnline | instrumentino/instrumentino/cfg.py:85-95 | false for an empty list, otherwise true exactly when every controller is online |
| Cfg.AllListedOnline | instrumentino/instrumentino/cfg.py:90-92 | the loop ends true exactly when no controller is offline |
| Cfg.GetController | instrumentino/instrumentino/cfg.py:109-119 | some instance of the class exists exactly when a controller is returned, and then it is the first instance |
| Cfg.CompOnlineIsControllerOnline | instrumentino/instrumentino/cfg.py:97-107 | a component is online exactly when its controller exists and is online |
| Cfg.AllOnlineCoversComps | instrumentino/instrumentino/cfg.py:85-107 | when all controllers are online, so is every component that has a controller |
| Cfg.Registry.constructor | instrumentino/instrumentino/cfg.py:36 | the global list starts empty |
| Cfg.Registry.AddControllerIfNeeded | instrumentino/instrumentino/cfg.py:68-78 | the list is unchanged when an instance of the class is in it, and otherwise gains one new, offline controller of that class at the end |
| Cfg.Registry.Close | instrumentino/instrumentino/cfg.py:80-83 | every registered controller is closed, once each and in order |
| Comp.FullName | instrumentino/instrumentino/comp.py:54-57 | `comp: ` when the component is named, the name, and ` (units)` for an analog variable; `FullNameDistinguishes` proves that, with the same component and units, two full names are equal exactly when the names are |
| Comp.VarsByName | instrumentino/instrumentino/comp.py:186 | `OrderedDict([(var.name, var) for var in vars])`; `VarsByNameKeys` proves every name is keyed once and every variable's name is there, `VarsByNameDistinct` that without repeated names the variables keep their order |
| Comp.VarUpdates | instrumentino/instrumentino/comp.py:219-221 | the calls of updating the variables in order, each with its reading; `UpdateVars` is the loop proved equal to it |
| Cfg.WithController | instrumentino/instrumentino/cfg.py:68-78 | the controller list after `AddControllerIfNeeded`; `AddIdempotent` proves adding the same class twice adds it once |
| Cfg.IsCompOnline | instrumentino/instrumentino/cfg.py:97-107 | the `online` flag of the first instance of the component's controller class, false without one; `CompOnlineIsControllerOnline` ties it to `GetController` |
| ToggleGroups.FirstHolding | instrumentino/libs2/togglebuttonmulti/__init__.py:107-110 | the first group, in iteration order, whose list holds the reference, with no earlier one holding it |
| ToggleGroups.RemoveFirstMultiset | instrumentino/libs2/togglebuttonmulti/__init__.py:109 | `list.remove` takes out exactly one occurrence of a value the list holds |
| ToggleGroups.Registry.ClearGroups | instrumentino/libs2/togglebuttonmulti/__init__.py:103-110 | only the first list holding the dead reference, in the dictionary's order, loses one occurrence of it; every other list is unchanged |
| MultichoiceToggle.DefaultsSelectAtMostOne | instrumentino/libs2/togglebuttonmulti/__init__.py:32-38 | with the defaults `max_selected` 1 and `min_selected` 0, a press leaves at most one button of a live group selected |
| ToggleButtonMulti.DefaultsSelectAtMostOne | instrumentino/libs/garden/togglebuttonmulti/__init__.py:16-30 | with the defaults `max_selected` 1 and `allow_no_selection` on, a press leaves at most one button of a live group selected |

## Left out

- I/O, threads and time. Serial transports, the wx and kivy widget trees, threads, semaphores beyond the `_sendData` lock, `time.time()`, `millis()` and random data are parameters of the members or are left out.
- Floating point. Python floats and the firmware's `float`/`atof` are exact reals. Rounding, formatting such as `'{:2.2f}'`, and `float()` parsing of text are not modelled.
- AbsRatio.AbsRatio: divides exactly. `instrumentino/libs/abs_ratio.py` has no `from __future__ import division`, so under Python 2 two integer rates would floor. The `.is_integer()` call on such an int result (instrumentino/channels/__init__.py:110) would raise AttributeError; that is not captured either.
- Channels.DataChannelIn.Create: leaves out the registration `self.controller.add_channel(self)` (instrumentino/channels/__init__.py:66). No controller class of the repository defines `add_channel`; the controller's method is `add_input_channel`. With the repository's controller the construction would raise AttributeError there. The model builds the channel as a controller providing that method would.
- Channels: `do_first_when_online` of the base class is a `pass`. `get_dataframe_subset` (pandas slicing) and `DataChannelI2C` are not modelled.
- Controllers.Controller.ConnectIntended: treats the undefined `start_acquiring_data` as a call that changes nothing. `ControlinoProtocol.set_controller_t_zero` (RTC:ZERO) is not modelled.
- Controllers.Controller.UpdateInputChannels: returns the calls made to the undefined `update_timestamp_series`, in order, instead of performing them. The `update_data_series` call after it (instrumentino/controllers/__init__.py:166) passes its two arguments in swapped order; it is never reached.
- Controllers.Controller.Disconnect: returns the AttributeError of the undefined `get_data_block`. The stamping of the blocks' end times that follows it, which would read an unbound `now` when no time block was found, is unreachable and is not modelled.
- ControlinoProtocol.HandleIncomingBytes: the DATA and overload callbacks (`update_input_channels`, `disconnect`) are recorded in order, not run. In the source an exception from one of them ends `handle_incoming_bytes`, leaving the rest of the buffer unparsed. The model goes on parsing. `Controllers.Controller.Disconnect` and `UpdateInputChannels` show when those callbacks raise.
- Communication.CommunicationPort.Receive: hands the bytes to `HandleIncomingBytes` and inherits the same gap: callback exceptions are not propagated.
- Tecan.FirstTimeOnline: returns the connection request only. The inherited `FirstTimeOnline` it then calls (instrumentino/controllers/arduino/__init__.py:440-442) runs the hooks of the component's own variables, which are not modelled.
- ControlinoProtocol.DeframeStep: an unknown type byte takes the code's `else` branch. The construct library's `Enum` may raise on parsing such a header instead. A header that cannot be parsed halts, and the loop that would spin on a zero-length packet stops with `NoProgress`. The `DEBUG` print is left out.
- Communication: `modify_address_field_options_for_settings_menu` and `CommunicationTypesLoader` (the settings-menu helpers) are not modelled.
- Simulation: the sine-shaped pattern is a parameter, not computed.
- Controlino: `HardSerConnect` is compiled out on the Nano, which has no hardware serial port. Where the code dereferences a missing `argV` token, a NULL pointer and so undefined behaviour, the model reads the empty string. An empty line (`strcasecmp` and `strtol` on NULL) is treated as an unknown command. The `cmdSerSend` mirror loop is not modelled, so `rxMsg` stays empty. PID gains from `atof`, the PID computation and pin blinking are not modelled.
- SerialCommand: output forwarding (`write`) is left out, as is `next()` on a NULL `_last`.
- ArduinoDriver: of the command wrappers only `PinMode`, `DigitalWrite`/`AnalogWrite` and the reads are modelled, through `SetCommand`, `WriteCommand` and `ReadCommand`. `Close`, `PinModeOut`/`PinModeIn`, `AnalogWriteVolts`/`AnalogWriteFraction`, `SetHighFreqPwm`, `AnalogReadVolts`/`AnalogReadFraction`, `DigitalWriteHigh`/`DigitalWriteLow`, `HardSerConnect`, `SoftSerConnect`, `SerSend`, `Reset`, `BlinkPin`, `_getData` and the `FirstTimeOnline` hooks are not modelled. Of these, `DigitalWriteHigh` and `DigitalWriteLow` pass `self` twice to `DigitalWrite` (instrumentino/controllers/arduino/__init__.py:195 and :201), so they would raise TypeError.
- Variables.DigitalToText: works on exact reals, so `int(percentage_value / 100 * (len(options) - 1))` always gives back the option. The float product can fall just below the integer. `Variables.FourOptionsLoseSecond` shows this for four options, and `Variables.RoundedRoundTrip` is the corrected conversion.
- Variables: `AnalogVariableDurationInSeconds` (instrumentino/variables/__init__.py:200-220) is not modelled. It reads the attributes `lower_limit` and `upper_limit`, which its class never defines. Neither is `SpinnerWithOnChoiceEvent`.
- Variables and ListWidgets: the wx panels and `onKeyPress` are not modelled.
- ListWidgets.AddClsDicts: returns the new dictionary instead of updating the caller's `kwargs` in place.
- ToggleGroups: the weak-reference callback `_clear_groups` runs at garbage collection. The model splits this into two explicit operations: `Collect` drops the widget, and `ClearGroups` removes its reference from the first list that holds it. The dictionary's iteration order is a parameter of `ClearGroups`. The `is 'down'` identity comparison is read as string equality. `_do_release` does nothing and is not modelled.
- LogGraph: a bulk write that raises IndexError has written nothing, since the first row's values are read before it is written. A lagging list that is long enough is read at the wrong row (`v[idx]` counts from the list's own end); which values the rows hold is not modelled.
- LogGraph: the signals-file text, `Redraw`, `HideVariableFromLog`, `OnPick` and the `showInSignalLog` filtering are not modelled.
- Cfg: `InitVariables`, the path helpers, `Log`, `LogFromOtherThread`, `UpdateControlsFromOtherThread`, `Sleep` and `WaitForUser` are I/O or GUI glue and are not modelled.

## Findings

| source | as written | input that shows it | evidently intended | confidence | as-written member | corrected member |
|---|---|---|---|---|---|---|
| instrumentino/controlino_protocol.py:158-164 | after the garbage before the marker is dropped, the header is parsed at the offset the marker had before the drop | one stray byte before a PONG string packet | parse the header at the marker | not executed | ControlinoProtocol.StaleOffsetLosesPong | ControlinoProtocol.AtMarkerKeepsPong |
| instrumentino/communication/simulated_port.py:58-66 | the PONG reply is built with an `_end` field that the string packet format does not have | any poll with a PING pending | build the PONG packet and clear the flag | not executed | Simulation.Simulator.GetIncomingBytes | Simulation.Simulator.GetIncomingBytesIntended |
| instrumentino/communication/simulated_port.py:84-87 | the pattern is sliced without wrap-around, so near its end fewer samples remain than the `Array` expects | a 30 Hz channel with 10 Hz packets in packet 33 of a 100-sample pattern | wrap around the pattern | not executed | Simulation.SlicedPointsRunOff | Simulation.WrappedBlockBuilds |
| controlino/controlino.cpp:178-195 | `cmdRead` loops one token too far and puts a space after each value | `Read A0` | the values joined by single spaces | not executed | Controlino.ReadTrailingSpaceAsWritten | Controlino.ReadReplyJoinsValues |
| controlino/controlino.cpp:398-400 | `>` binds tighter than `?:`, so the port check rejects every soft port but 1 | soft serial port 2 | reject ports outside 1..SOFT_SER_MAX_PORTS | not executed | Controlino.SecondSoftPortRefusedAsWritten | Controlino.PortRejected |
| controlino/controlino.cpp:549-605 | a line may fill all 200 bytes of `msg`, so its terminator is written one past the end | a line of 200 printable characters | keep one byte for the terminator | not executed | Controlino.TerminatorPastBufferAsWritten | Controlino.TerminatorInBuffer |
| controlino/controlino.cpp:556-564 | the token loop may store into `argV[30]` of a 30-slot array | a line of 30 or more tokens | stop at 29 tokens | not executed | Controlino.ArgvOverrunAsWritten | Controlino.ArgCountValue |
| instrumentino/controllers/arduino/__init__.py:297-330 | `_sendData` returns without releasing its lock when no answer arrives | one unanswered command, then another | release the lock on every path | not executed | ArduinoDriver.LockLeakShown | ArduinoDriver.LockReleasedShown |
| instrumentino/variables/__init__.py:238 | `int(...)` truncates a float product that falls just below the option's index | the second of four options | round before truncating | not executed | Variables.FourOptionsLoseSecond | Variables.RoundedRoundTrip |
| instrumentino/libs2/togglebuttonmulti/__init__.py:78-81 | a dead weak reference still listed (its `_clear_groups` callback not yet run) is dereferenced and its `state` read | a group holding one collected button | skip dead references | not executed | ToggleGroups.DeadReferenceRaises | ToggleGroups.SkippingCountsLive |
| instrumentino/channels/__init__.py:137-138 | the numeric `controller.t_zero` plus the packet's offset is added to a `timedelta`, which raises TypeError | any packet with one reading | time stamps at t_zero + offset + i sampling periods | not executed | Channels.DataChannelIn.UpdateDataSeries | Channels.DataChannelIn.UpdateDataSeriesIntended |
| instrumentino/controllers/__init__.py:208 | `connect` calls `start_acquiring_data`, which `ControlinoProtocol` does not define | any successful ping | start the session and register the input channels | not executed | Controllers.Controller.Connect | Controllers.Controller.ConnectIntended |
