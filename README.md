# WithCrossDevice camera firmware: a Dafny model of its core

The WithCrossDevice firmware runs on an ESP32 camera board. A phone hands it Wi-Fi credentials
over BLE. It then connects to a WebSocket server, and the user picks one of three modes with four
buttons. In an active mode the camera streams JPEG frames, as RTP/JPEG payloads (RFC 2435) over UDP.

This project models the logic of that firmware that does not depend on hardware:

- **RTP/JPEG codec** (`rtp_jpeg.cpp`, `rtp_jpeg.h`):
  - `extract_qtables_and_scan` walks the JPEG marker segments of ITU-T T.81 Annex B. It collects
    the 8-bit quantization tables of the DQT segments, and returns the entropy-coded data between
    the SOS header and EOI (modules `JpegScan` and `JpegScanProps`).
  - `packetize` cuts that scan into payloads (modules `RtpPacketizer` and `RtpPacketizerProps`).
    Each payload has an 8-byte main header carrying the fragment offset. The first payload also
    carries the quantization-table block. The last payload carries the marker flag.
  - Each of the two operations is a recursive specification function, and a method with the
    source's loops is proved to compute it. `packetize` fills the static 1500-byte payload buffer
    in place.
- **Device state machine** (`AppStateMachine.cpp/.h`, modules `StateMachine` and
  `StateMachineProps`):
  - the screens and `to()`;
  - HOME's mode candidates and the OK long press;
  - the OK latch in the active modes;
  - the LED blink interval and the 100 ms motor pulse;
  - the 16-slot command queue and the loop that drains it onto the mode and control sockets;
  - the once-only BLE stop.

  The class `AppStateMachine` holds the fields, grouped in records. Each of its methods is proved
  to compute a function on the value `Ui`. The lemmas state the behaviour of those functions and
  the invariant `Inv`:
  - the candidate index stays below 3 and `mode == kModes[modeIdx]`;
  - the queue holds at most 16 commands;
  - the LED interval is the one of the current screen.
- **Button debouncer** (`Buttons.h`, module `Debounce`): a class over the 8-record array, with
  scans at least 20 ms apart and rising flags that a read clears.
- **Transport policies**:
  - `WsAgent.cpp`, module `WebSocket`: the connect guard with its 5 s cooldown, the retry in
    `loop`, the event callback, the big-endian 16-bit command codec, and the motor on/off decoder.
  - `UdpAgent.cpp`, module `UdpLink`: the `begin` reset, the rule for `sendOne`, the count of
    consecutive failures, and the back-off.
  - `BleAgent.cpp`, module `BleLink`: the `ssid|psk|ip|port` parser and the 10 s
    advertising-restart timer.

`millis()` is a `uint32` parameter, and time arithmetic wraps modulo 2^32 as in C (`Sub32`,
`Add32`). Pin levels, radio results and socket results are parameters too.

Where the RFC and the code disagree, the model follows the code. The code builds a
quantization-table block of 134 bytes whose length field says 130, with an id byte before each
table. Section 3.1.8 of RFC 2435 describes a length of 128 and no id bytes.

## Model

| member | source | states |
|---|---|---|
| JpegScan.FindEoi | with_cross_device/rtp_jpeg.cpp:42-56 | The EOI search returns a position inside the buffer that holds FF D9, at or after the start |
| JpegScan.SosScan | with_cross_device/rtp_jpeg.cpp:35-56 | At an SOS marker at `i`, a scan found starts at `i + 2 + seglen`, the end of the SOS header, and is followed by FF D9 inside the buffer |
| JpegScan.DqtEnd | with_cross_device/rtp_jpeg.cpp:58-59 | The end of a DQT segment, taken from its length, is accepted only inside the buffer (the corrected walk; see Findings) |
| JpegScan.Walk | with_cross_device/rtp_jpeg.cpp:29-80 | The scan that the marker walk finds always lies inside the buffer |
| JpegScan.Marker | with_cross_device/rtp_jpeg.cpp:33-78 | The scan that the walk at a marker finds always lies inside the buffer |
| JpegScan.InstallAll | with_cross_device/rtp_jpeg.cpp:68-70 | Copying sub-tables into the tables never changes `have` |
| JpegScan.Extract | with_cross_device/rtp_jpeg.cpp:23-81 | Extraction fails on fewer than 4 bytes or a missing SOI; on failure `have` is false; a scan found lies inside the buffer |
| JpegScan.ExtractQtablesAndScan | with_cross_device/rtp_jpeg.cpp:23-81 | The source's loop returns the result, scan offset, scan length and tables of `Extract`, and null/0 on failure |
| JpegScan.WalkMarkers | with_cross_device/rtp_jpeg.cpp:29-80 | The outer loop from offset 2 finds the scan of `Walk`, copies its sub-tables in order, and sets haveL/haveC exactly when ids 0/1 were copied |
| JpegScan.Step | with_cross_device/rtp_jpeg.cpp:32-78 | One turn of the outer loop either ends the walk with its result or moves forward to a position from which the walk continues |
| JpegScan.AtSos | with_cross_device/rtp_jpeg.cpp:35-56 | The SOS branch returns the scan of `Marker` and copies no table |
| JpegScan.AtDqt | with_cross_device/rtp_jpeg.cpp:57-72 | The DQT branch copies the segment's sub-tables and continues after the segment, or fails as `Marker` does |
| JpegScan.SkipSegment | with_cross_device/rtp_jpeg.cpp:73-78 | Other markers are skipped by 2 (SOI/EOI) or by their length, as `Marker` says |
| JpegScan.ScanToEoi | with_cross_device/rtp_jpeg.cpp:42-55 | The inner EOI loop computes `FindEoi` |
| JpegScan.CopyDqtTables | with_cross_device/rtp_jpeg.cpp:60-71 | The sub-table loop fails on a 16-bit table or a short segment, and otherwise copies every sub-table in order |
| JpegScan.InstallAllAppend | with_cross_device/rtp_jpeg.cpp:68-70 | Copying two runs of sub-tables is copying the first run, then the second |
| JpegScan.HasIdAppend | with_cross_device/rtp_jpeg.cpp:50 | An id was seen in two runs exactly when it was seen in one of them |
| JpegScanProps.ReadBe16Bytes | with_cross_device/rtp_jpeg.cpp:15-17 | `read_be16` succeeds iff both bytes are in the buffer, and returns them high byte first |
| JpegScanProps.FindEoiStuffed | with_cross_device/rtp_jpeg.cpp:43-55 | Over stuffed entropy data (FF 00 and RSTn pairs) followed by EOI, the search stops exactly at that EOI |
| JpegScanProps.WalkScanEndsAtEoi | with_cross_device/rtp_jpeg.cpp:29-80 | A scan found is followed by FF D9 inside the buffer, and starts exactly at the end of the header of an SOS segment at or after the walk's start |
| JpegScanProps.MarkerScanEndsAtEoi | with_cross_device/rtp_jpeg.cpp:33-78 | The same for the walk at a marker |
| JpegScanProps.InstallAllLastWins | with_cross_device/rtp_jpeg.cpp:68-70 | Each table holds the last sub-table copied for its id, ids above 1 change nothing, and `have` is kept |
| JpegScanProps.DqtIdsBelow16 | with_cross_device/rtp_jpeg.cpp:60-70 | The k-th sub-table copied from a DQT segment is the 65-byte record at `p + 65k`: its id is the low nibble (Tq) of the record's Pq/Tq byte, so below 16, and its table is the 64 bytes after that byte |
| JpegScanProps.DqtSubtablesOk | with_cross_device/rtp_jpeg.cpp:60-71 | The sub-table loop succeeds iff the segment payload is a whole number of 65-byte records whose Pq nibble is 0; it then copies one sub-table per record |
| JpegScanProps.DqtSixteenBitFails | with_cross_device/rtp_jpeg.cpp:57-66 | A DQT segment inside the buffer whose first record has Pq ≠ 0 (a 16-bit table) makes the walk fail |
| JpegScanProps.DqtShortRecordFails | with_cross_device/rtp_jpeg.cpp:57-67 | A DQT segment inside the buffer whose first 8-bit record is cut short by the segment end makes the walk fail |
| JpegScanProps.HaveIff | with_cross_device/rtp_jpeg.cpp:26-81 | `have` is set iff the scan was found and the walk copied a table for both id 0 and id 1; after a valid SOI the scan and the tables are the walk's |
| JpegScanProps.ExtractSampleFrame | with_cross_device/rtp_jpeg.cpp:23-81 | A minimal baseline frame yields both of its tables, `have` set, and exactly its entropy data as the scan |
| DqtFinding.AsWrittenDqt | with_cross_device/rtp_jpeg.cpp:59-71 | The DQT loop as written, with the highest address it reads, which never passes the segment end |
| DqtFinding.AsWrittenReadsPastBuffer | with_cross_device/rtp_jpeg.cpp:57-72 | The 7-byte buffer FF D8 FF DB 00 43 00 makes the loop as written copy 64 bytes that lie after the buffer |
| DqtFinding.CorrectedRefusesOverread | with_cross_device/rtp_jpeg.cpp:57-72 | The corrected walk refuses the same buffer before copying anything, and leaves the tables unchanged |
| DqtFinding.GuardedLoopStaysInBuffer | with_cross_device/rtp_jpeg.cpp:59-71 | When the segment end is inside the buffer, the loop as written reads only the buffer and agrees with `DqtSubtables` |
| RtpJpegTypes.DefaultQtables | with_cross_device/rtp_jpeg.h:10-12 | A default `Qtables` has `have` false and both tables zero |
| RtpJpegTypes.TypeCode | with_cross_device/rtp_jpeg.h:21 | The Type byte is 1 for YUV420 and 0 for YUV422 |
| RtpPacketizer.MainHeader | with_cross_device/rtp_jpeg.cpp:109-115 | The main header is 8 bytes long |
| RtpPacketizer.QtBlock | with_cross_device/rtp_jpeg.cpp:119-123 | The table block is 134 bytes long |
| RtpPacketizer.Payload | with_cross_device/rtp_jpeg.cpp:142-157 | A payload is its headers plus its chunk: 142 + chunk bytes at offset 0, and 8 + chunk bytes after that |
| RtpPacketizer.Packetize | with_cross_device/rtp_jpeg.cpp:86-165 | `packetize` returns, and hands to `emit`, exactly what `PacketizeSpec` says; the payload buffer holds 1500 bytes |
| RtpPacketizer.SendChunks | with_cross_device/rtp_jpeg.cpp:131-163 | The chunk loop computes `SendFrom` from offset 0 |
| RtpPacketizer.SendChunk | with_cross_device/rtp_jpeg.cpp:132-162 | One turn of the chunk loop: the room check, the payload, the call of `emit`, and the next offset |
| RtpPacketizer.FillPayload | with_cross_device/rtp_jpeg.cpp:142-157 | The buffer ends up holding the main header with the fragment offset, the table block at offset 0, and the chunk |
| RtpPacketizer.CopyInto | with_cross_device/rtp_jpeg.cpp:151 | `memcpy` into the buffer writes the source bytes at `pos`, and the other bytes stay as they were |
| RtpPacketizer.SendFromStep | with_cross_device/rtp_jpeg.cpp:132-162 | One turn of the chunk loop, stated in terms of the payload built |
| RtpPacketizerProps.PacketsFromDefined | with_cross_device/rtp_jpeg.cpp:131-138 | Payloads cannot be built exactly when data remains and `max_payload` leaves no room after the headers |
| RtpPacketizerProps.PacketsFromCons | with_cross_device/rtp_jpeg.cpp:131-162 | With room left, the payloads are the one for the largest chunk that fits, then the rest |
| RtpPacketizerProps.SendFromIsEmitAll | with_cross_device/rtp_jpeg.cpp:131-164 | The loop is: build every payload, then hand them to `emit` in order; it fails before any `emit` only for lack of room |
| RtpPacketizerProps.EmitAllPrefix | with_cross_device/rtp_jpeg.cpp:160 | `emit` sees a prefix of the payloads in order. Every payload but the last one seen was accepted. The result is true iff all were seen and accepted, and on false the last one seen was refused |
| RtpPacketizerProps.EmitAllSent | with_cross_device/rtp_jpeg.cpp:160 | The prefix and acceptance half of the above |
| RtpPacketizerProps.EmitAllOk | with_cross_device/rtp_jpeg.cpp:160-164 | The result is true iff every payload was handed over and accepted |
| RtpPacketizerProps.PacketsShape | with_cross_device/rtp_jpeg.cpp:131-163 | Every payload fits in `max_payload`, holds at least one scan byte, and has the frame's fixed header bytes (type-specific, Type, Q=255, width/8, height/8); only the last has the marker |
| RtpPacketizerProps.MainHeaderOffset | with_cross_device/rtp_jpeg.cpp:147-150 | Bytes 1 to 3 of a main header read back big-endian as the fragment offset, below 2^24 |
| RtpPacketizerProps.Bytes24 | with_cross_device/rtp_jpeg.cpp:148-150 | The three bytes written are the base-256 digits of the offset |
| RtpPacketizerProps.PayloadReadBack | with_cross_device/rtp_jpeg.cpp:142-157 | A receiver reads back the payload's offset and exactly its chunk of the scan |
| RtpPacketizerProps.PacketsReassemble | with_cross_device/rtp_jpeg.cpp:131-163 | The scan parts of the payloads, concatenated in order, are the scan |
| RtpPacketizerProps.PacketsOffsets | with_cross_device/rtp_jpeg.cpp:146-150 | Each payload's fragment offset counts the scan bytes of the payloads before it |
| RtpPacketizerProps.OffsetsCons | with_cross_device/rtp_jpeg.cpp:146-150 | A payload whose offset is `off` can be put in front of payloads whose offsets start after its chunk |
| RtpPacketizerProps.PacketsSingle | with_cross_device/rtp_jpeg.cpp:131-163 | A scan that fits with both headers goes out as one payload, with the marker set |
| RtpPacketizerProps.FirstPayloadTables | with_cross_device/rtp_jpeg.cpp:153-155 | The first payload is the main header at offset 0, then the table block |
| RtpPacketizerProps.ScanOf | with_cross_device/rtp_jpeg.cpp:96-100 | The scan that `packetize` sends lies inside the file, with room for EOI after it |
| RtpPacketizerProps.PacketizeRefuses | with_cross_device/rtp_jpeg.cpp:94-135 | Returns false with no `emit` call iff: the input is null or shorter than 4 bytes; or there is no `emit`; or extraction fails; or the scan is non-empty and `max_payload <= 142` |
| RtpPacketizerProps.SendFromFits | with_cross_device/rtp_jpeg.cpp:86-165 | Every payload the chunk loop hands to `emit`, whether or not the loop completes, holds at most `max_payload` bytes and more than the main header |
| RtpPacketizerProps.PacketizeDelivers | with_cross_device/rtp_jpeg.cpp:86-165 | Every payload handed to `emit` holds at most `max_payload` bytes. On true, `emit` got every payload: their chunks reassemble to the scan, their offsets count the bytes before them, and only the last has the marker |
| Debounce.FindFrom | with_cross_device/Buttons.h:39-45 | The lookup finds the first registered record of the pin, or reports that no registered record has it |
| Debounce.ScanAll | with_cross_device/Buttons.h:27-34 | A scan keeps the number of records |
| Debounce.FindSamePins | with_cross_device/Buttons.h:39-40 | The lookup depends only on the pins of the records |
| Debounce.RisingReadClears | with_cross_device/Buttons.h:38-45 | `rising` clears what it reports: a second read right after the first returns false and changes nothing |
| Debounce.ScanThenRising | with_cross_device/Buttons.h:28-44 | A scan that sees a registered pin go from LOW to HIGH makes the next `rising` of that pin true |
| Debounce.SampleRunRise | with_cross_device/Buttons.h:28-33 | Over any run of scans, the flag ends set iff it was set before or some scan was a LOW to HIGH change; `prev` is the last level |
| Debounce.Buttons.constructor | with_cross_device/Buttons.h:64-66 | No buttons, and the last scan at time 0 |
| Debounce.Buttons.Begin | with_cross_device/Buttons.h:11-20 | Registers at most 8 pins, each with the level it reads and no rising flag; the scan time is `now` |
| Debounce.Buttons.Update | with_cross_device/Buttons.h:23-35 | Within 20 ms (wrapping) of the last scan nothing changes; otherwise every registered record is sampled and the scan time is `now` |
| Debounce.Buttons.Rising | with_cross_device/Buttons.h:38-46 | Returns the pin's flag and clears it; false and no change for an unregistered pin |
| Debounce.Buttons.Falling | with_cross_device/Buttons.h:48-55 | True iff the pin is registered, was high at the last scan, and reads low now |
| Debounce.Buttons.Pressed | with_cross_device/Buttons.h:57-61 | The level of the pin at the last scan, false if unregistered; changes nothing |
| BleLink.CString | with_cross_device/BleAgent.cpp:11 | `c_str()` keeps the written bytes up to the first NUL |
| BleLink.IndexOf | with_cross_device/BleAgent.cpp:14 | `indexOf` returns the first occurrence at or after `from`, or -1 when there is none |
| BleLink.Atol | with_cross_device/BleAgent.cpp:21 | `toInt` returns a value within the range of a 32-bit `long` |
| BleLink.BarPositions | with_cross_device/BleAgent.cpp:14-15 | The three `|` found are in increasing order, inside the text |
| BleLink.BleAgent.constructor | with_cross_device/BleAgent.h:33-34 | `_t0` is 0, with no connection and no advertising |
| BleLink.BleAgent.Begin | with_cross_device/BleAgent.cpp:58-59 | Advertising starts and `_t0` becomes `now` |
| BleLink.BleAgent.OnConnect | with_cross_device/BleAgent.cpp:6 | Sets `_connected` |
| BleLink.BleAgent.OnDisconnect | with_cross_device/BleAgent.cpp:7 | Clears `_connected` |
| BleLink.BleAgent.Loop | with_cross_device/BleAgent.cpp:64-73 | Restarts advertising and resets `_t0` iff not connected and at least 10 s have passed |
| BleLink.BleAgent.Stop | with_cross_device/BleAgent.cpp:76-80 | Advertising stops |
| BleLink.BleAgent.OnWrite | with_cross_device/BleAgent.cpp:10-27 | The callback gets the parsed credentials once, or is not called |
| BleLinkProps.CStringWhole | with_cross_device/BleAgent.cpp:11 | Text without NUL passes through `c_str()` whole |
| BleLinkProps.IndexOfAt | with_cross_device/BleAgent.cpp:14 | `indexOf` finds the first occurrence |
| BleLinkProps.IndexOfCount | with_cross_device/BleAgent.cpp:14 | `indexOf` is -1 only when the character does not occur from `from` on; otherwise one fewer occurrence follows the one found |
| BleLinkProps.DigitsAppend | with_cross_device/BleAgent.cpp:21 | Reading one more digit multiplies by ten and adds it |
| BleLinkProps.DecimalValue | with_cross_device/BleAgent.cpp:21 | The decimal digits of `n` read back as `n` |
| BleLinkProps.AtolDecimal | with_cross_device/BleAgent.cpp:21 | A port written in decimal is parsed back, as `uint16`, to the port |
| BleLinkProps.ParseAt | with_cross_device/BleAgent.cpp:14-21 | The fields are the texts between the three `|`, and the port is the rest |
| BleLinkProps.FormatParseFields | with_cross_device/BleAgent.cpp:14-21 | Parsing `ssid|psk|ip|port` gives the four fields back, when the three texts have no `|` |
| BleLinkProps.FormatParse | with_cross_device/BleAgent.cpp:10-26 | The same for the written bytes, when the texts also have no NUL |
| BleLinkProps.ParseShape | with_cross_device/BleAgent.cpp:14-21 | On success the text is `ssid|psk|ip|rest`, the three texts contain no `|`, and the port is the value of the rest |
| BleLinkProps.ParseRefuses | with_cross_device/BleAgent.cpp:14-15 | A text is refused iff it has fewer than three `|` |
| BleLinkProps.LoopSpacing | with_cross_device/BleAgent.cpp:71-73 | A restart needs no connection and 10 s since `_t0`, and no restart follows within 10 s of it |
| WebSocket.Encode16 | with_cross_device/WsAgent.cpp:100-104 | Two bytes, high byte first, whose value is `v` |
| WebSocket.MotorSwitch.constructor | with_cross_device/WsAgent.cpp:6 | The motor starts off |
| WebSocket.MotorSwitch.CtrlCb | with_cross_device/WsAgent.cpp:32-46 | The motor flag follows `Control`, and the pin is written exactly when the flag changes, to the new flag |
| WebSocket.WsAgent.constructor | with_cross_device/WsAgent.h:19-25 | The members' initial values |
| WebSocket.WsAgent.Begin | with_cross_device/WsAgent.cpp:48-80 | `begin` computes `BeginSpec` |
| WebSocket.WsAgent.WsCb | with_cross_device/WsAgent.cpp:8-30 | `wsCb` computes `WsCbSpec` |
| WebSocket.WsAgent.Loop | with_cross_device/WsAgent.cpp:90-98 | `loop` computes `LoopSpec` |
| WebSocket.WsAgent.SendFrame | with_cross_device/WsAgent.cpp:112-121 | `sendFrame` computes `SendFrameSpec` |
| WebSocketProps.DecodeEncode | with_cross_device/WsAgent.cpp:32-35 | Decoding 2 bytes and encoding the value again gives the bytes back |
| WebSocketProps.ControlChanges | with_cross_device/WsAgent.cpp:34-45 | The motor flag changes iff a binary frame of at least 2 bytes says 0x0001 while off or 0x0000 while on |
| WebSocketProps.NonCommandKeeps | with_cross_device/WsAgent.cpp:34 | A frame that is not binary, or is shorter than 2 bytes, changes nothing |
| WebSocketProps.ControlsNoCommand | with_cross_device/WsAgent.cpp:32-46 | A run of frames without a valid on/off command leaves the motor as it was |
| WebSocketProps.ControlsLastCommand | with_cross_device/WsAgent.cpp:36-45 | After a run of frames, the motor is on iff the last on/off command was 0x0001, however often commands repeat |
| WebSocketProps.InvPreserved | with_cross_device/WsAgent.cpp:14-66 | Every operation keeps `_busy == _connecting` |
| WebSocketProps.BeginRefusedIff | with_cross_device/WsAgent.cpp:50-55 | `begin` changes nothing iff it is busy, connecting or connected, or within 5 s of the last try |
| WebSocketProps.BeginSucceedsIff | with_cross_device/WsAgent.cpp:50-79 | `begin` returns true iff no guard refuses it and the probe connects. Then the callback is registered with the new host and port, busy and connecting are set, and `_lastTry` is `now` |
| WebSocketProps.Cooldown | with_cross_device/WsAgent.cpp:55-56 | After an attempt, any `begin` within 5 s of it is refused |
| WebSocketProps.LoopRetries | with_cross_device/WsAgent.cpp:94-97 | With a retry wanted, no connection in progress and more than 5 s since the last try, `loop` attempts `begin`, which asks again only if the probe fails |
| WebSocketProps.LoopOnlyWhenWanted | with_cross_device/WsAgent.cpp:94-97 | `loop` calls `begin` only under that condition, and otherwise changes nothing |
| WebSocketProps.CallbackEvents | with_cross_device/WsAgent.cpp:8-30 | Once registered, the other sockets are started iff the event is CONNECTED; a disconnect or error clears busy/connecting and asks for a retry |
| WebSocketProps.SendFrameOutcome | with_cross_device/WsAgent.cpp:112-121 | True iff connected and queued; a refused send sets `_nextOkAfter = now + backoffMs`, and nothing else changes |
| UdpLink.UdpAgent.Begin | with_cross_device/UdpAgent.cpp:4-19 | `begin` computes `BeginSpec` |
| UdpLink.UdpAgent.SendFrame | with_cross_device/UdpAgent.cpp:29-58 | `sendFrame`, with `sendOne` inside it, computes `SendFrameSpec` from the socket's answers and reports whether it asked for a reconnect |
| UdpLinkProps.SendOneAllSteps | with_cross_device/UdpAgent.cpp:29-52 | A frame counts as sent only if the packet began, the socket took all `len` bytes and the packet ended; a short write is a failed send that counts a failure and starts the back-off |
| UdpLinkProps.FailBound | with_cross_device/UdpAgent.cpp:44-51 | The failure count stays below 10 after every call |
| UdpLinkProps.FailRunCounts | with_cross_device/UdpAgent.cpp:44-51 | After k failures in a row from count c, the count is (c+k) mod 10, and (c+k)/10 reconnects were asked for |
| UdpLinkProps.SendGate | with_cross_device/UdpAgent.cpp:29-57 | True iff begun, Wi-Fi up, not backing off, and every step of the datagram succeeded with all bytes written; success resets the count and asks for no reconnect |
| UdpLinkProps.SendRefusedOrFailed | with_cross_device/UdpAgent.cpp:39-52 | A refused send changes nothing; a failed one sets the back-off to `now + backoffMs` |
| UdpLinkProps.BeginOutcome | with_cross_device/UdpAgent.cpp:4-19 | True iff the host parses and the socket opens. A bad host changes nothing; a parsed host sets the destination; success resets the count and the back-off |
| StateMachine.ScanPad | with_cross_device/Buttons.h:23-35 | `buttons.update()` on the records keeps their count in range |
| StateMachine.Wire | with_cross_device/AppStateMachine.cpp:110-114 | One frame per command, in queue order: MODE commands go to the mode socket, the others to the control socket, each as 2 bytes that decode to the value |
| StateMachine.AppStateMachine.constructor | with_cross_device/AppStateMachine.h:27-56 | The initial values of the members |
| StateMachine.AppStateMachine.Begin | with_cross_device/AppStateMachine.cpp:8-30 | The four buttons are registered at their levels, advertising starts, and the queue is created |
| StateMachine.AppStateMachine.SendModeAsync | with_cross_device/AppStateMachine.h:91-95 | A MODE command is pushed into the bounded queue |
| StateMachine.AppStateMachine.SendMotorAsync | with_cross_device/AppStateMachine.h:96-100 | A MOTOR command is pushed into the bounded queue |
| StateMachine.AppStateMachine.StartMotorPulse | with_cross_device/AppStateMachine.h:57-60 | The motor goes high until `now + 100` |
| StateMachine.AppStateMachine.To | with_cross_device/AppStateMachine.cpp:137-158 | `to(n)` computes `ToSpec` |
| StateMachine.AppStateMachine.SelectMode | with_cross_device/AppStateMachine.cpp:175-177 | Selects a candidate and announces it |
| StateMachine.AppStateMachine.HomeCycleTask | with_cross_device/AppStateMachine.cpp:174-183 | The NEXT/PREV part of `buttonTask` computes `HomeCycle` |
| StateMachine.AppStateMachine.HomeOkTask | with_cross_device/AppStateMachine.cpp:186-212 | The OK part of `buttonTask` computes `HomeOk` |
| StateMachine.AppStateMachine.ActiveTask | with_cross_device/AppStateMachine.cpp:215-239 | `buttonTask` in an active mode computes `ActiveStep` |
| StateMachine.AppStateMachine.ButtonTask | with_cross_device/AppStateMachine.cpp:171-240 | `buttonTask` computes `ButtonStep` |
| StateMachine.AppStateMachine.LedTask | with_cross_device/AppStateMachine.cpp:161-168 | `ledTask` computes `LedStep` |
| StateMachine.AppStateMachine.MotorPulseExpiry | with_cross_device/AppStateMachine.cpp:48-51 | The end of the pulse computes `MotorExpiry` |
| StateMachine.AppStateMachine.OnCreds | with_cross_device/AppStateMachine.cpp:14-19 | The credentials callback stores the credentials and goes to WS_WAIT |
| StateMachine.AppStateMachine.StopBleOnce | with_cross_device/AppStateMachine.cpp:91-97 | BLE is stopped on the first call only |
| StateMachine.AppStateMachine.WsWaitReady | with_cross_device/AppStateMachine.cpp:101-105 | With the WebSocket ready in WS_WAIT, the buttons come alive and the device goes HOME |
| StateMachine.AppStateMachine.DrainCommands | with_cross_device/AppStateMachine.cpp:110-114 | Sends every queued command, oldest first, as `Wire` says, and leaves the queue empty; sends nothing if the queue does not exist |
| StateMachine.AppStateMachine.UiTaskStep | with_cross_device/AppStateMachine.cpp:38-56 | One pass of `uiTask`: buttons once active, then the LED, then the motor pulse, then `ble.loop()` while BLE is active. The scan time becomes `now` iff the buttons are active and 20 ms (wrapping) have passed since the last scan |
| StateMachineProps.InitialInv | with_cross_device/AppStateMachine.h:31-44 | The initial state is BLE_WAIT with mode 0x0001, LED interval 500, BLE active and buttons inactive, and satisfies `Inv` |
| StateMachineProps.PushSemantics | with_cross_device/AppStateMachine.h:88-100 | A push appends when the queue exists and has fewer than 16 commands; otherwise it drops the command; it never exceeds 16 |
| StateMachineProps.PushAllKeepsPrefix | with_cross_device/AppStateMachine.h:88-100 | Pushing a run of commands keeps the queue's contents and appends as many of them as fit, in order |
| StateMachineProps.QueueThenDrain | with_cross_device/AppStateMachine.cpp:110-114 | Up to 16 commands pushed into a new queue are drained in FIFO order |
| StateMachineProps.ToScreen | with_cross_device/AppStateMachine.cpp:137-153 | `to(n)` sets the screen, keeps the candidate, sets the LED interval of BLE_WAIT/GET_INFO/WS_WAIT/HOME (500/200/100/0, unchanged for active modes), and clears `wifiStarted` only for WS_WAIT |
| StateMachineProps.ToHome | with_cross_device/AppStateMachine.cpp:143-153 | HOME from an active mode enqueues 0x1111 then the candidate and starts the pulse; from elsewhere it enqueues only the candidate |
| StateMachineProps.ToActive | with_cross_device/AppStateMachine.cpp:154-156 | An active mode sets `okSuppressUntil = now + 100` and the OK latch, and enqueues 0x1001/0x1010/0x1011 |
| StateMachineProps.ActiveCodesDistinct | with_cross_device/AppStateMachine.cpp:154-156 | The three active codes are distinct and differ from the candidates, 0x1000 and 0x1111 |
| StateMachineProps.ToStrDistinct | with_cross_device/AppStateMachine.h:63-73 | `toStr` gives the seven screens seven distinct names |
| StateMachineProps.SelectInv | with_cross_device/AppStateMachine.cpp:175-177 | Selecting keeps `Inv`, sets the index, and enqueues exactly the new candidate |
| StateMachineProps.RisingOtherPin | with_cross_device/Buttons.h:38-61 | Reading one pin's edge does not change another pin's edge or level |
| StateMachineProps.HomeCycleMoves | with_cross_device/AppStateMachine.cpp:174-183 | In HOME, NEXT moves the candidate +1 and PREV moves it -1 (mod 3); nothing else changes and `Inv` holds |
| StateMachineProps.LongPressFires | with_cross_device/AppStateMachine.cpp:186-201 | While OK is held, the state changes iff the hold has lasted 300 ms and has not fired yet. It then enters the candidate's active mode, marks it fired and drops the OK edge |
| StateMachineProps.LongPressOnce | with_cross_device/AppStateMachine.cpp:191 | A fired hold changes nothing while OK stays pressed |
| StateMachineProps.PressStartsHold | with_cross_device/AppStateMachine.cpp:187-190 | A new press starts a hold at `now` |
| StateMachineProps.ReleaseEndsHold | with_cross_device/AppStateMachine.cpp:202-211 | A release clears the hold, and cycles the candidate forward only after a short press that did not fire |
| StateMachineProps.HomeOkInv | with_cross_device/AppStateMachine.cpp:186-212 | The OK handling in HOME keeps `Inv` and the links |
| StateMachineProps.BackGoesHome | with_cross_device/AppStateMachine.cpp:218-222 | BACK in an active mode enqueues 0x1000, 0x1111 and the candidate, goes HOME and starts the pulse |
| StateMachineProps.OkLatch | with_cross_device/AppStateMachine.cpp:225-231 | While latched, OK does nothing; a not-pressed sample releases the latch and drops the pending OK edge |
| StateMachineProps.OkExitNeedsTime | with_cross_device/AppStateMachine.cpp:215-239 | An active mode only stays or goes HOME. Without BACK, it goes HOME iff the latch is off, `now >= okSuppressUntil`, and OK rose |
| StateMachineProps.ActiveInv | with_cross_device/AppStateMachine.cpp:215-239 | The active-mode handling keeps `Inv` and the links |
| StateMachineProps.ButtonStepInv | with_cross_device/AppStateMachine.cpp:171-240 | `buttonTask` keeps `Inv` and the links |
| StateMachineProps.LedHeldLow | with_cross_device/AppStateMachine.cpp:162 | With interval 0 the LED is held low |
| StateMachineProps.LedToggles | with_cross_device/AppStateMachine.cpp:163-167 | The LED toggles iff the interval has passed (wrapping). The pin then shows the new level and `tLed` is `now`; otherwise nothing changes |
| StateMachineProps.LedKeepsForInterval | with_cross_device/AppStateMachine.cpp:163-167 | After a toggle, the LED does not toggle again within the interval |
| StateMachineProps.PulseLasts100 | with_cross_device/AppStateMachine.cpp:48-51 | Away from the wrap, a pulse keeps the motor high exactly until `now + 100` |
| StateMachineProps.PulseAtWrapNeverEnds | with_cross_device/AppStateMachine.cpp:48-51 | A pulse started 100 ms before the wrap stores 0 and never ends |
| StateMachineProps.PulseNearWrapEndsAtOnce | with_cross_device/AppStateMachine.cpp:48-51 | A pulse started in the last 100 ms before the wrap ends at once |
| PulseFinding.CorrectedPulseLasts100 | with_cross_device/AppStateMachine.h:57-60 | For every start time, wrap or no wrap, the corrected pulse keeps the motor high exactly while fewer than 100 ms (wrapping) have passed |
| PulseFinding.CorrectedPulseEndsAtWrap | with_cross_device/AppStateMachine.cpp:48-51 | The pulse started 100 ms before the wrap, which never ends as written, stays high until the wrap and ends at the first check after it |
| PulseFinding.CorrectedAgreesAwayFromWrap | with_cross_device/AppStateMachine.cpp:48-51 | Away from the wrap, the corrected pulse drives the motor exactly as the code as written |
| PulseFinding.CorrectedEndIsFinal | with_cross_device/AppStateMachine.cpp:48-51 | Once ended, the corrected pulse stays ended |
| StateMachineProps.ExpiryIdle | with_cross_device/AppStateMachine.cpp:48 | With no pulse running, the expiry changes nothing |
| StateMachineProps.BleStopsOnce | with_cross_device/AppStateMachine.cpp:91-97 | BLE is stopped iff it was not stopped before, and a second call does nothing |
| StateMachineProps.OnCredsInv | with_cross_device/AppStateMachine.cpp:14-19 | Receiving credentials goes to WS_WAIT, stores them, clears `wifiStarted`, and keeps `Inv` |
| StateMachineProps.WsWaitToHome | with_cross_device/AppStateMachine.cpp:101-105 | In WS_WAIT, a ready WebSocket activates the buttons and goes HOME, enqueueing only the candidate; otherwise nothing changes |
| StateMachineProps.UiStepInv | with_cross_device/AppStateMachine.cpp:38-56 | A pass of `uiTask` keeps `Inv` and the links. Before the buttons are active it touches neither the buttons, the screen, the queue nor the OK state |

## Left out

- Radio, network and camera I/O are not modelled: Wi-Fi, the WebSocket client, UDP sockets, NimBLE set-up, the camera and RTSP. Their results are parameters: `probeOk`, `streamConnected`, `sendOk`, `wifiUp`, `hostValid`, `socketOk`, and the UDP socket's answers to `beginPacket`, `write` and `endPacket` (`SocketSteps`).
- The FreeRTOS tasks, core pinning and `vTaskDelay` are left out. One pass of `uiTask` is one method call, and the drain loop of `netcamTask` is another. Creating the queue is the `open` flag.
- `uiTask` and `netcamTask` run concurrently in the source; the model does not capture that interleaving.
- The Wi-Fi bring-up of `netcamTask` is left out: `WiFi.begin`, `ws.begin` and `udp.begin` (AppStateMachine.cpp:65-90). Only the BLE stop latch and the move to HOME are modelled.
- Camera streaming in the active modes is left out (AppStateMachine.cpp:116-130), and so are `udp.tick1sReport`, `initHardware` and `cam.begin`.
- `UdpAgent.h` declares members that `UdpAgent.cpp` does not use, such as `_sock`, the RTP state and `sendRtpJpegFrame`. The model follows `UdpAgent.cpp`. The initial member values and the type of `consec_fail_` are not shown, so the model starts un-begun and makes the count a `nat`. RTP headers, sequence numbers and timestamps are not part of this model.
- `UdpAgent::loop` is a no-op and is left out. `WsAgent::start` is modelled only as the flag that says the other sockets were started.
- `is_marker` and `clamp_u8` in `rtp_jpeg.cpp` are never called, so they are left out.
- RtpPacketizer.Packetize: it requires `max_payload <= 1500`, because the static payload buffer holds 1500 bytes. The source writes past it otherwise.
- `ts90k` is left out: `packetize` never reads it, so the model's result cannot depend on it. `emit` is a pure function from a payload and the marker flag to a bool, so whatever it does besides answering is not modelled.
- RtpPacketizerProps.PacketizeDelivers and RtpPacketizerProps.PacketsOffsets: they require the file to be shorter than 2^24 bytes, because the 24-bit fragment offset field truncates larger offsets.
- The model reads `millis()` once per call. The source reads it several times within one call, and those readings may differ by a millisecond.
- `ctrlCb` and the motor pulse both write `PIN_MOTOR`. The model keeps them apart, `MotorSwitch` and `Motor`, so how the two interact on the pin is not captured.
- The comparisons `now >= motorPulseUntil`, `now >= okSuppressUntil` and `now < next_ok_after_` are modelled as the source writes them, which is not wrap-safe. For the motor pulse this is a finding (see Findings); the state machine keeps the pulse as written, and the corrected pulse is stated beside it in `PulseFinding`.
- The fields of `AppStateMachine` are grouped into records: `Led`, `OkPress`, `Motor`, `Links` and `CmdQueue`. The static `bleStopped` latch is one of the `Links`.
- `GET_INFO` is modelled, although nothing in the shown code enters it.
- Log output (`LOGD`, `LOGI`, `LOGW`, `LOGE`, `Serial.println`) is left out.

## Findings

| source | as written | input that shows it | evidently intended | confidence | as-written member | corrected member |
|---|---|---|---|---|---|---|
| with_cross_device/rtp_jpeg.cpp:59-67 | The DQT loop takes the segment end `i+2+seglen` from the length field and never compares it with `L`. It reads, and copies into `qt.lqt`, up to 64 bytes after the end of the buffer. | The 7-byte buffer `FF D8 FF DB 00 43 00`: the length field says 0x43, so the loop copies table 0 from bytes 7 to 70 | Refuse a DQT segment whose end lies past the buffer, before reading it. Extraction fails and the tables are not touched | not executed | DqtFinding.AsWrittenReadsPastBuffer | DqtFinding.CorrectedRefusesOverread |
| with_cross_device/AppStateMachine.h:57-60 | `startMotorPulse100ms` stores `millis() + 100` in a `uint32_t`, and `uiTask` (AppStateMachine.cpp:48) takes 0 to mean "no pulse" and compares with `>=`. | A pulse started at `millis() == 2^32 - 100` stores 0: the check never fires and `PIN_MOTOR` stays HIGH. One started later stores a wrapped end below `now` and ends at once | A 100 ms pulse whatever the clock: keep the start time and a running flag, and end the pulse once `now - start` (wrapping) reaches 100 | not executed | StateMachineProps.PulseAtWrapNeverEnds | PulseFinding.CorrectedPulseLasts100 |
