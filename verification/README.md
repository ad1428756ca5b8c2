# A verified model of the FMB630 tracker emulator and its FTP client

The firmware emulates a Teltonika FMB630 GPS tracker: it drives through a scenario of legs, reports its state in
Codec 8 packets over a stop-and-wait session, obeys text commands that arrive in Codec 12 and 13 frames, and switches
relays off when their time is up. A buffered FTP client fetches and stores files. This project models both and proves
what holds on every input, every run and every way the network splits its data.

The model follows the form of the code. State that the code updates in place is held by classes (`Tracker`, `Receiver`,
`Connection`, `Emulator`, `LegList`, `Clock`, `NetBuf`, `Control`), whose methods are proved equal to step functions; the
lemmas are about runs of those functions.

| files | subject |
|---|---|
| `Words`, `Wire`, `CStr` | machine words, byte order, C strings |
| `CrcRegister`, `CrcTable`, `Crc`, `Gf2`, `CrcPeriod`, `CrcDetect` | the checksum: bits, table, polynomial division, order of x, detected errors |
| `Codec8`, `Mirror`, `Fields` | Codec 8 format and decoder, the mirror and its packets, and what a packet says field by field |
| `Clock` | the tick clock and its deadlines |
| `Scenario`, `ScenarioRuns`, `LegList` | the drive, what runs of records do, the list of legs |
| `Commands`, `TrackerModel`, `TrackerRuns`, `Replies`, `CommandTexts`, `StatByte`, `Tracker` | commands, relays, the whole tracker as a state machine, replies, printed and rejected commands, the state byte, the in-place code |
| `Receiver`, `Framing` | cutting the byte stream into units |
| `Session`, `SessionRuns`, `AckRuns` | the session with the server, and whose acknowledgements it hears |
| `Device`, `DeviceRuns`, `Emulator` | session and tracker together, from the bytes of a command to the relay and the answer, and the whole pass in place |
| `FtpText`, `NetBuf`, `FtpTransfer` | text conversion, buffered lines, whole files |
| `FtpReply`, `FtpDialogue`, `FtpControl` | server replies, the dialogue, the control connection |

## Where the code does less than its description

Each is proved with the exact condition under which the expected behaviour holds.

- A Park leg of more than 255 counts is never left (`ScenarioRuns.LongParkIsForEver`, `ParkIsLeft`); a Stop leg of more
  than 255 counts only after a record with the pump blocked followed by as many with it released as its length exceeds
  255 (`ScenarioRuns.LongStopTakes`).
- In both codecs the inner length of an answer delimits its text. In Codec 13 four stale bytes follow the text, so the
  closing count is in the announced place if and only if the codec is 12 (`Replies.ReplyIsReadable`).
- An accepted SET_ALL starts the timers of the relays it leaves alone anew: their old deadline holds exactly when the
  SET_ALL came at the tick of the command that set it (`TrackerRuns.KeepRestartsTimer`).
- A deadline past the end of the 32-bit tick counter is wrong, but for the one that wraps to 0, which means no timer
  (`TrackerRuns.DeadlineWrap`, `Clock.DeadlineIsExact`).
- SET_ALL stores any number as a state. The byte that GET_STAT shows is right if and only if no state above 1 spoils it
  (`StatByte.GetStatIsRight`); after `SET_ALL 2,0 0,0 ...` relay 1 is on and relay 2 off, and it shows the opposite
  (`StatByte.TwoIsShownWrong`). With no SET_ALL but printed ones it is always right (`StatByte.PrintedCommandsAreShown`).
- A record sent while a frame is partly received loses that frame (`Framing.RestartLosesUnit`), and the next four bytes
  of the frame are taken for an acknowledgement if and only if there are four and the last is not 0
  (`Framing.TailAsAck`): they acknowledge the record that has just gone out (`AckRuns.FalseAck`), as "GET_" of a framed
  GET_STAT does (`AckRuns.CommandAsAck`). Where no record is sent mid-frame every acknowledgement heard is one the server
  sent (`AckRuns.AcksAreTheServers`).
- The checksum of a received frame is not looked at: whatever its last four bytes, it is delivered, and its command is
  the same (`Framing.ChecksumIsIgnored`). What `CrcDetect` proves protects only what the tracker sends.
- Every received frame is printed into a buffer of 2048 bytes. Frames of up to 880 bytes always fit it and frames of more
  than 1011 never do, although the receive buffer holds 4096 (`Framing.PrintBounds`, `Framing.BufferSuffices`). A command
  of more than 255 characters whose frame can be printed is cut to its length modulo 256 (`Framing.CommandArrives`).
- Two flipped bits go unnoticed exactly when they are a multiple of 32767 bits apart (`CrcDetect.TwoFlips`).
- readLine gives the line if and only if it fits its buffer with two bytes or more and room to spare. Otherwise it leaves
  the buffer at one end, or returns the first max - 1 bytes with a NUL in place of the first (`NetBuf.NetBuf.ReadLine`).
  A download keeps such pieces, all bytes but the first of each, and reports success (`FtpTransfer.Download`, `Kept`).
- A text comes back from the FTP client unchanged exactly when it has no CR LF; a whole file exactly when every CR LF
  in it is split between two 2048-byte chunks (`FtpText.TextRoundTrip`, `FtpTransfer.FileRoundTrip`).
- A download reports success in every case; it lacks the last line exactly when the connection broke within it
  (`FtpTransfer.Download`, `DownloadIsComplete`, `BrokenDownload`).
- A restart-marker reply between the preliminary and the final reply of a transfer is taken for the final one, and
  every later command is answered with an earlier reply (`FtpDialogue.MarkersLag`, `LagIsKept`). A path of exactly 1017
  characters passes the length check of `accessFtpClient` and fails that of `sendCommand`, after which the client waits
  for a reply to a command it never sent (`FtpDialogue.Clean`, `OneOperation`).
- `max_pk` is 3 (`main/fmb630.h:21`); the comment at `main/fmb630.c:581` says 2. The model follows the code.
- A setdigout token shorter than four characters sets the pins it does not name to 208
  (`CommandTexts.ShortTokenSets208`, `SetdigoutOne`).
- SET_ON and SET_OFF name a relay exactly when the token has an odd number of characters, of which only the first is
  read (`CommandTexts.RelayIsNamed`).

## Model

| member | source | states |
|---|---|---|
| CrcTable.EntryIsShift8 | main/fmb630.c:180-214 | every one of the 256 table entries is its index shifted eight times through the bitwise register |
| Crc.Bit16IsFeed | main/fmb630.c:215 | one table step, on a 16-bit load of which only the low byte matters, is eight bitwise steps on that byte |
| Crc.Ksum | main/fmb630.c:217-228 | the table loop over any bytes gives the bit-by-bit CRC-16/ARC of exactly those bytes, and 0 for no or negative length |
| Crc.Crc16Incremental | main/fmb630.c:217-228 | the checksum of a concatenation continues from the checksum of its first part |
| Gf2.Crc16IsRemainder | main/fmb630.c:180-228 | a polynomial is the remainder of the message times x^16 on division by x^16+x^15+x^2+1 if and only if it is the checksum |
| Gf2.RemainderUnique | main/fmb630.c:180-228 | division over GF(2) by the generator has one remainder |
| CrcPeriod.OrderOfX | main/fmb630.c:180-228 | modulo the generator x^n is 1 exactly for the multiples n of 32767 |
| CrcDetect.BurstDetected | main/fmb630.c:215-228 | different messages of equal length that agree outside 16 consecutive bits have different checksums |
| CrcDetect.ParityOfChecksum | main/fmb630.c:215-228 | the checksum has the bit parity of the message |
| CrcDetect.OddErrorDetected | main/fmb630.c:215-228 | an odd number of flipped bits always changes the checksum |
| CrcDetect.TwoFlips | main/fmb630.c:215-228 | two flipped bits leave the register unchanged exactly when their distance is a multiple of 32767 |
| CrcDetect.UpToThreeBitsDetected | main/fmb630.c:215-228 | in messages of at most 4095 bytes one, two or three flipped bits always change the checksum |
| Wire.StoredIsBigEndian | main/fmb630.c:540-565 | a byte-swapped value stored little-endian is the big-endian encoding of the value, for every width |
| Wire.HtonInvolution | main/fmb630.c:540-565 | swapping bytes twice gives the value back |
| Fields.BigEndianAt | main/fmb630.c:540-565 | big-endian: the byte at place i counts 256^(n-1-i), for every width |
| Codec8.FrameRoundTrip | main/fmb630.c:782-811 | a string parses as the frame of some data, with nothing left over, if and only if it is the frame the code lays out for that data (zero preamble, length, data, zero-extended checksum) and the length fits 32 bits |
| Codec8.PacketRoundTrip | main/fmb630.h:159-256 | a general Codec 8 decoder recovers every list of fewer than 256 records from its frame |
| Mirror.ImageIsRecord | main/fmb630.h:159-256 | the byte image of the packed mirror is the Codec 8 record with the mirror's values, big-endian, and counts 13, 7, 3, 0 adding up to its total of 23 |
| Mirror.PacketDecodes | main/fmb630.c:782-811 | decoding a packet gives one record per sample, each with the mirror's host-order values and its own time stamp |
| Fields.PacketFields | main/fmb630.h:159-256 | looking up each of the 23 identifiers in any record of a decoded packet finds exactly one value, that of its own field of the mirror (9 fuel, 10 tachometer, 199 odometer, 216 total and so on); position, time and priority are in their own fields; there are 1 to 3 records as asked for |
| Fields.ImageLayout | main/fmb630.h:159-256 | the packed structure byte by byte: every field in network order, every element behind its identifier |
| Fields.PacketFrame | main/fmb630.c:782-811 | every packet: four zeros, the length of what follows but the checksum field, and the checksum of exactly those bytes, high byte first |
| Fields.FirstPacket | main/fmb630.c:48-94 | the first packet of a tracker without a scenario says, identifier by identifier, what it has at power-on, and the configured position |
| Mirror.LayOut | main/fmb630.c:783-811 | copying header, samples, tail and checksum into the cleared buffer leaves exactly the frame, padded with zeros, and returns its length |
| Clock.DeadlineIsExact | main/main.c:136-144 | a deadline is met exactly after its delay, at every tick before the counter wraps, if and only if the sum does not wrap |
| LegList.LegList.Add | main/fmb630.c:239-284 | appends at the tail of the chain, numbers the node and returns the count; -1 and no change without data |
| LegList.LegList.Get | main/fmb630.c:325-355 | the leg with number i is the i-th in the chain, and there is none outside 1..counter |
| LegList.LegList.DeleteAll | main/fmb630.c:358-383 | visits every node once, in order, and leaves an empty list with counter 0 |
| LegList.Replay | main/fmb630.c:239-383 | after any interleaving of adds and delete-alls the list is a valid chain holding what `Content` says |
| LegList.ContentAfterAdds | main/fmb630.c:239-383 | `Content` is exactly the legs added since the last delete-all, in order |
| Scenario.RunKeepsPlace | main/fmb630.c:598-599 | leg number within 1..total, and count 0 or below the leg's count, in every state any run of records reaches |
| ScenarioRuns.Tour | main/fmb630.c:632-729 | with moving legs, after the sum of max(1, counts) records the drive is at leg 1 again, displaced by the signed sum of max(1, counts) times delta, modulo 2^32 |
| ScenarioRuns.ClosedTour | main/fmb630.c:632-729 | a tour ends at the latitude (longitude) it began at exactly when the signed sum is a multiple of 2^32 |
| ScenarioRuns.ParkIsLeft | main/fmb630.c:601-631 | a Park leg is left at a record exactly when it has at most one count, or at most 255, the pump is released and the tank is at least half full |
| ScenarioRuns.StopIsLeft | main/fmb630.c:730-759 | when a record leaves a Stop leg, for every length: with at most one count always; up to 255 when the pump is blocked, and of two counts at the second; beyond 255 only a record with the pump released that completes the count |
| ScenarioRuns.LongStopTakes | main/fmb630.c:730-759 | over runs: a Stop leg of more than 255 counts is left by the record that makes 255 plus the released records since the last blocked one reach its length, and by no other |
| ScenarioRuns.LongParkIsForEver | main/fmb630.c:601-631 | no run of records leaves a Park leg of more than 255 counts |
| ScenarioRuns.ParkTakes | main/fmb630.c:613-629 | with the pump released Park ends after exactly max(1, ceil(fuel/1275)) records, not earlier |
| ScenarioRuns.OdometerConserved | main/fmb630.c:638-640 | over any run the total odometer grows by the sum of the packets' odometers, modulo 2^32 |
| ScenarioRuns.OdometerIsDistance | main/fmb630.c:638-640 | over any run the total odometer is its start plus the distances of the records spent on moving legs, modulo 2^32 |
| ScenarioRuns.RecordShowsWay | main/fmb630.c:638-749 | a record on a moving leg carries the distance just driven as its odometer, one on a Park or Stop leg 0, and the total grows by just that |
| ScenarioRuns.HeadingPointsAhead | main/fmb630.c:642-717 | the heading of a direction points where its position moves, north or south and east or west, halfway on a diagonal |
| ScenarioRuns.MovingRecord | main/fmb630.c:632-729 | heading, speed, height, tachometer and period of a record on a moving leg, with the numbers of the code |
| ScenarioRuns.ParkRecord | main/fmb630.c:601-631 | doors, hood, engine, ignition, fuel and period of a record on a Park leg, before and at the start |
| ScenarioRuns.StopRecord | main/fmb630.c:730-759 | doors, hood, engine, ignition and period of a record on a Stop leg, at the first record and after it |
| ScenarioRuns.FuelBalance | main/fmb630.c:652-657 | over any run the fuel value is its start, plus one for every fourth moving record, minus what was refuelled |
| ScenarioRuns.FuelOfMovingRun | main/fmb630.c:652-657 | over n moving records from the initial divider it rises by floor((n+1)/4) |
| Commands.EntriesRoundTrip | main/fmb630.c:926-948 | printing any list of orders, 0, 1 or X with any 32-bit time, and parsing it gives what they mean, the time dropped for 0 and X |
| Commands.SetAllRoundTrip | main/fmb630.c:916-967 | a printed SET_ALL of any eight orders fits 255 characters, is recognised as SET_ALL and parses to what they mean |
| CommandTexts.SetAllTakesEffect | main/fmb630.c:941-964 | after a printed SET_ALL a relay ordered off is off with no timer, one ordered on for T seconds is on and timed for T, one left alone keeps its state and is timed anew; pins and their timers stay |
| DeviceRuns.SetAllTimes | main/fmb630.c:953-957 | a relay a printed SET_ALL orders on for T seconds at t is on, over any run in which nothing else sets it, if and only if no sweep came at or past t+10T |
| CommandTexts.IgnitionFollows | main/fmb630.c:959-1090 | an accepted SET_ALL, and an accepted SET_ON or SET_OFF for relay 7 or 8, switch the ignition on when both are on and off when both are off; nothing else touches it |
| CommandTexts.AnswersOk | main/fmb630.c:950-1091 | SET_ALL, SET_ON and SET_OFF are answered ERROR if and only if they are rejected, otherwise OK |
| CommandTexts.OneStat | main/fmb630.c:976-982 | GET_STAT with a number from 1 to 8 is answered with the state of that relay, with any other number with ERROR |
| CommandTexts.FixedAnswers | main/fmb630.c:151-165 | the answers to a rejected setdigout, an unknown command and the commands without parameters |
| CommandTexts.RelayIsNamed | main/fmb630.c:1064-1067 | a text names a relay if and only if its first token has an odd number of characters and begins with a digit from 1 to 8 |
| CommandTexts.SetOnTakesEffect | main/fmb630.c:1050-1094 | a printed SET_ON for any relay and time switches that relay on, arms its timer for that time and changes no other relay, pin or timer |
| CommandTexts.SetOffTakesEffect | main/fmb630.c:1050-1094 | a printed SET_OFF switches that relay off, clears its timer and changes no other |
| CommandTexts.SetPinsRoundTrip | main/fmb630.c:992-1024 | a printed setdigout of any four codes and times is recognised and parses to the pins it describes, X keeping the state |
| CommandTexts.SetPinsTakesEffect | main/fmb630.c:1026-1045 | it sets exactly those pins, their timers and the mirror's outputs, leaves the relays alone, and is answered with the new pins |
| CommandTexts.PinsAreShown | main/fmb630.c:1027-1041 | the answer shows each pin's state in its place |
| CommandTexts.TimesAreShown | main/fmb630.c:1027-1043 | the answer shows the four times, each in its place, as numbers that parse back to them |
| CommandTexts.RejectedExactly | main/fmb630.c:926-951 | a command is rejected, and changes no relay, pin, timer or mirror field, if and only if it is a SET_ALL one of whose first eight words, cut to its length modulo 32, has no comma, a SET_ON or SET_OFF that names no relay, or a setdigout with no blank after its codes |
| CommandTexts.ShortTokenSets208 | main/fmb630.c:1003-1042 | an accepted setdigout sets every pin beyond its codes, and its output in the mirror, to 208, with the time of its word and the timer that goes with it; a pin with a code 0, 1 or X is 208 only if X leaves a 208 |
| CommandTexts.SetdigoutOne | main/fmb630.c:1003-1042 | "setdigout 1 0" switches pin 1 on and the three others to 208, in any state |
| CStr.AtoiOfDecimal | main/fmb630.c:936 | atoi undoes %d on every natural number |
| TrackerRuns.StepKeepsCoherence | main/fmb630.c:1029-1045 | every event keeps outputs equal to pins, input 1 equal to ignition, both speeds equal, the movement flag equal to speed non-zero, and armed timers on switches that are on; after a record or command the displayed position is the mirror's |
| TrackerRuns.Reachable | main/fmb630.c:1294-1501 | all of that, and the scenario invariant in scenario mode, in every state reachable from power-on |
| TrackerRuns.CommandOnSwitch | main/fmb630.c:1066-1076 | a command that sets a relay or pin arms its timer from the new state and the clock; any other leaves state and timer alone |
| TrackerRuns.ArmedSwitch | main/fmb630.c:1463-1497 | through any events that do not set it, an armed switch keeps state and timer until a sweep at or past the deadline and is off with no timer after it |
| TrackerRuns.TimedSwitch | main/fmb630.c:1463-1497 | a switch set on at t for T seconds, with t+10T below 2^32, is on after any run that does not set it again if and only if no sweep came at or past t+10T |
| TrackerRuns.DeadlineWrap | main/fmb630.c:1074 | an armed timer expires at exactly the ticks from t+10T on if and only if t+10T stays below 2^32 or is a multiple of it |
| TrackerRuns.KeepRestartsTimer | main/fmb630.c:953-958 | a relay set at tick t for T seconds and left alone by a SET_ALL at tick u, before a sweep saw t+10T, is on until u+10T over every run in which nothing sets it, and until t+10T exactly when u = t |
| TrackerRuns.EventsAreTurns | main/fmb630.c:1294-1501 | any run of records, commands and sweeps drives as the run of its records alone does, each with its own distance and the outputs it finds |
| TrackerRuns.TrackerParks | main/fmb630.c:601-631 | while every record finds pin 1 on, whatever other commands and sweeps come, Park ends at exactly record number max(1, ceil(fuel/1275)) |
| TrackerRuns.TrackerStaysParked | main/fmb630.c:601-631 | while every record finds pin 1 off, a Park leg of at least two counts is not left and no fuel is taken |
| TrackerRuns.TrackerFuel | main/fmb630.c:652-657 | the fuel balance holds over every run of events in scenario mode |
| TrackerRuns.TrackerTour | main/fmb630.c:596-761 | the tour holds for the whole tracker, whatever commands and sweeps come in between |
| TrackerRuns.TrackerOdometer | main/fmb630.c:638-640 | the total odometer is conserved over every run of events in scenario mode |
| TrackerRuns.OdometerFromPowerOn | main/fmb630.c:596-763 | from power-on, in a mode that does not change, with any legs or none, the total odometer is the sum of the odometers of all packets sent, modulo 2^32, over every run |
| TrackerRuns.DistanceFromPowerOn | main/fmb630.c:540-763 | from power-on, over any events in any mode, the total odometer is the distance of the records that found a moving leg; the drive begins at the configured latitude and longitude, each in its own field |
| TrackerRuns.EveryRecord | main/fmb630.c:763-817 | what every record does to satellites, movement flag, time, priority and displayed position, and that outside scenario mode nothing else changes but the period |
| TrackerRuns.ReportIsCarriedOnce | main/fmb630.c:779 | over every run from power-on a record has priority 1 if and only if a report was asked for since the record before it |
| Replies.ReplyIsReadable | main/fmb630.c:1108-1144 | the frame of every answer parses, and the inner length delimits exactly its text, in Codec 12 and 13; the closing count follows at once if and only if the codec is 12, four other bytes come first in Codec 13 |
| Replies.AnswerHead | main/fmb630.c:1108-1144 | byte by byte: codec 13 for SET_ALL, GET_STAT, SET_ON and SET_OFF and 12 for everything else, one answer, the command type plus 1, the size, the time in Codec 13 |
| Replies.StaleBytes | main/fmb630.c:1111-1132 | the four bytes after the text in Codec 13: zeros after a SET_ALL, after the state byte the terminator and what is left of the default answer |
| StatByte.GetStatIsRight | main/fmb630.c:984-988 | in any state GET_STAT shows every relay as what it is if and only if each stored state is harmless: its higher bits fall on relays that are on, and an even state other than 0 is covered by a lower relay |
| StatByte.HexDigits | main/fmb630.c:986 | the byte is shown as two hexadecimal digits in capitals, the higher first |
| StatByte.SetAllReadBack | main/fmb630.c:916-988 | after a printed SET_ALL that leaves alone only relays with a state of 0 or 1, GET_STAT shows, bit by bit, the new states of all eight |
| StatByte.TwoIsShownWrong | main/fmb630.c:939-942 | after SET_ALL 2,0 0,0 and any six other orders relay 1 is on but shown off, relay 2 off but shown on |
| StatByte.TameKeepsOnOff | main/fmb630.c:939-942 | from states of 0 and 1 an event keeps them so if and only if it is not an accepted SET_ALL that stores a state above 1 |
| StatByte.PrintedCommandsAreShown | main/fmb630.c:916-988 | from power-on, over any run whose SET_ALLs are printed ones, GET_STAT shows every relay right |
| Replies.AckTextFits | main/fmb630.c:847 | no answer text overruns the 384-byte answer buffer |
| Tracker.Tracker.MakeRecord | main/fmb630.c:567-839 | the in-place record builder makes the model's record step and writes exactly the packet, zero-padded |
| Tracker.Tracker.ParseCmd | main/fmb630.c:841-1150 | the in-place interpreter makes the model's command step and writes exactly the framed answer |
| Tracker.Tracker.SetAll | main/fmb630.c:916-967 | the token loop on scratch relays accepts and applies exactly what `ParseAll` says |
| Tracker.Tracker.SetDigOut | main/fmb630.c:992-1046 | the setdigout loops accept and apply exactly what `ParsePins` says |
| Tracker.Tracker.SweepTimers | main/fmb630.c:1463-1497 | the sweep loops make the model's sweep step |
| Receiver.Receiver.Receive | main/fmb630.c:1383-1441 | a byte put in the buffer moves the cursors and delivers a unit exactly as `Accept` says |
| Framing.NothingLost | main/fmb630.c:1383-1441 | on any bytes, what is delivered and what is kept is the stream: nothing lost, doubled or reordered, and every unit well formed |
| Framing.CutExactly | main/fmb630.c:1383-1441 | a stream is cut into given units with nothing left over if and only if it is their concatenation and each is well formed |
| Framing.FramesArriveOneByOne | main/fmb630.c:1388-1437 | every stream of acknowledgements and checksummed frames is delivered as exactly those, in order, with the buffer empty at the end |
| Framing.OutputsAreUnits | main/fmb630.c:783-811 | every packet and every answer the tracker can send, Codec 8, 12 or 13, is one sendable frame of announced length plus 12 |
| Framing.RecordPacketDecodes | main/fmb630.c:567-839 | every packet decodes to one to three samples of the mirror after the record |
| Framing.BufferSuffices | main/fmb630.c:1383-1386 | with units of at most 4096 bytes a byte never arrives at a full buffer |
| Framing.RestartLosesUnit | main/fmb630.c:1365 | a cursor reset after k bytes of a unit still delivers it exactly when it falls before or after the unit |
| Framing.TailAsAck | main/fmb630.c:1365-1437 | after a reset inside a frame the first unit heard is an acknowledgement if and only if four bytes are left and the last of them is not 0, and then it is those four bytes of the frame |
| Framing.ChecksumIsIgnored | main/fmb630.c:1388-1415 | frames that differ only in their last four bytes are delivered alike and give the same command |
| Framing.PrintBounds | main/fmb630.c:1401-1406 | printing a received frame fits the 2048-byte buffer for every frame of up to 880 bytes and for none of more than 1011 |
| Framing.CommandArrives | main/fmb630.c:1396-1407 | a framed command without NUL or CR LF whose frame can be printed reaches the interpreter unchanged if and only if it has at most 255 characters, and all of those can be printed |
| Session.Connection.Iterate | main/fmb630.c:1294-1453 | one pass of the session loop, in place, is one step of the session machine, with the same actions |
| Emulator.Emulator.OnePass | main/fmb630.c:1294-1501 | one pass of the loop over the real connection, tracker and buffers makes the step of session and tracker together and sends exactly what the model says, packet and answer taken from the send buffer |
| Device.RunIsBoth | main/fmb630.c:1294-1501 | session and tracker together: over any passes the session does what it does alone on what the commands turn out to be, and the tracker what it does alone on the records, commands and sweeps of the passes |
| DeviceRuns.CommandsAreFrames | main/fmb630.c:1383-1415 | the tracker executes exactly the commands in the frames of the received stream, in order, however its bytes are spread, when no record is sent mid-frame |
| DeviceRuns.CommandIsExecuted | main/fmb630.c:1396-1424 | the last byte of a framed command executes that command and nothing else, and sends the answer to it |
| DeviceRuns.SetOnEndToEnd | main/fmb630.c:1383-1475 | the bytes of a framed SET_ON, in any pieces, are answered, and the relay is on, after any passes without another command, if and only if none of them swept at or past its deadline |
| DeviceRuns.ResetEndToEnd | main/fmb630.c:1096-1428 | the bytes of a framed cpureset, in any pieces, are not answered and end the session with the reset error |
| DeviceRuns.ReportEndToEnd | main/fmb630.c:1047-1424 | the bytes of a framed report request are answered "#OK", the next record is due 20 ticks later and has priority 1 |
| DeviceRuns.SamplesMatch | main/fmb630.c:1352-1367 | the packet a pass sends decodes to as many records as the session logs, 1 to 3 |
| SessionRuns.SessionKeepsInv | main/fmb630.c:1294-1453 | in every state of a session from its start: granted exactly from phase 1 on, the exit flag set exactly when there is an error, no internal error, 1 to 3 samples; later phases are never earlier and errors never cleared |
| SessionRuns.AckBetweenRecords | main/fmb630.c:1349-1367 | between two records sent there is always a unit the receiver took for an acknowledgement |
| SessionRuns.RecordsAreSpaced | main/fmb630.c:1350-1424 | between a record and any later one lies at least the send period, if the clock neither goes back nor wraps and no report request was answered since |
| AckRuns.AcksAreTheServers | main/fmb630.c:1383-1437 | in a session that sends no record mid-frame the acknowledgements and commands heard are exactly the first units of what the server sent, in order |
| AckRuns.FalseAck | main/fmb630.c:1365-1437 | whatever is being received when a record goes out, the next four bytes are its acknowledgement if the last of them is not 0 |
| AckRuns.CommandAsAck | main/fmb630.c:1365-1437 | a server that sends one framed GET_STAT and no acknowledgement acknowledges a record sent after 15 bytes of the frame |
| AckRuns.ServerWithholds | main/fmb630.c:1451-1453 | a server that after a record sends only commands, in whole or in part, leaves the session waiting with its deadline unchanged, until a pass ends it, at the latest the first to reach the deadline |
| SessionRuns.NoRecordBeforeGrant | main/fmb630.c:1316-1336 | a record is sent only after the server accepted the IMEI, with one to three samples |
| SessionRuns.GrantedByOne | main/fmb630.c:1298-1317 | everything a session logs begins with its login; whatever more it logs, any record included, means that the first byte received was 1 |
| SessionRuns.ServerDecides | main/fmb630.c:1306-1330 | once the IMEI has gone out, the first byte, if it comes before the deadline, decides: 1 takes the session to phase 1, any other ends it with the rejection as its only error |
| SessionRuns.FailedSends | main/fmb630.c:1309-1363 | a login or a record that could not be sent ends the session with exactly its error |
| SessionRuns.SampleCount | main/fmb630.c:1352-1355 | a record has one sample more every 600 ticks, and one again after three |
| SessionRuns.ReportBringsRecord | main/fmb630.c:1424 | an answered report request makes the next record due exactly 20 ticks later |
| SessionRuns.FirstRecord | main/fmb630.c:1335-1358 | the pass after the grant has been seen sends the first record at once |
| SessionRuns.RecordsMinusAcks | main/fmb630.c:1349-1433 | in phase 2 records sent exceed acknowledgements by at most the pending one |
| SessionRuns.AckWithheld | main/fmb630.c:1451-1453 | as long as the receiver takes nothing for the acknowledgement (or the login answer) the wait goes on, with its deadline unchanged and every pass before it, or a pass ended the session, at the latest the first to reach the deadline, with the time-out error, another error of that pass, or both |
| SessionRuns.WaitingIsInTime | main/fmb630.c:1451-1453 | after any run that leaves a session waiting the clock of its last pass is before the deadline |
| SessionRuns.SessionHearsStream | main/fmb630.c:1349-1441 | a session that sends no record mid-frame acts on exactly the units of the byte stream it received, however the bytes are spread over its passes |
| FtpText.PiecewiseConversion | main/ftp_cli.c:445-496 | converting line ends piece by piece is converting the whole exactly when no CR LF is split between the pieces |
| FtpText.TextRoundTrip | main/ftp_cli.c:133-190 | converted and read back as lines, a text is itself if and only if it contains no CR LF |
| NetBuf.NetBuf.ReadLine | main/ftp_cli.c:133-190 | the next line, the rest staying pending, depends on the byte stream only, not on its pieces; it is read properly if and only if it fits, for every stream and every segmentation; a line cut off is returned as max - 1 bytes, the first of them a NUL |
| NetBuf.NetBuf.WriteLine | main/ftp_cli.c:445-496 | batches of 2048 bytes send exactly the converted text, or, when the connection stops taking data, exactly as much of it as it took, and then -1 is returned |
| FtpTransfer.Upload | main/ftp_cli.c:286-294 | a file sent in chunks arrives as `Chunked` says, all of it exactly when success is reported |
| FtpTransfer.ChunkedIsWhole | main/ftp_cli.c:286-294 | chunked sending equals sending the file as one text exactly when no chunk ends between CR and LF |
| FtpTransfer.Download | main/ftp_cli.c:295-314 | for every stream: as long as readLine stays inside its buffer, which it does when all lines fit, everything pending is read, the file holds what `Kept` says, and success is reported in every case; when all lines fit it holds what `Received` says |
| FtpTransfer.DownloadIsComplete | main/ftp_cli.c:295-314 | what is received is a prefix of all the lines, and all of them if and only if the connection did not break or the stream is empty or ends with a line end |
| FtpTransfer.FileRoundTrip | main/ftp_cli.c:286-305 | a file uploaded and downloaded is itself if and only if every CR LF in it is split between two chunks |
| FtpTransfer.FileFits | main/ftp_cli.c:133-190 | such a file can be read back within 2048-byte lines when every line leaves room for its CR |
| FtpTransfer.ThereAndBack | main/ftp_cli.c:286-305 | upload, any segmentation, download: the copy is the file if and only if it has no unsplit CR LF |
| FtpReply.OneReplyIsRead | main/ftp_cli.c:197-229 | reading consumes exactly one single- or multi-line reply and keeps its last line if and only if no line in its middle starts with its code and a space |
| FtpControl.Control.ReadResponse | main/ftp_cli.c:197-229 | the line loop on the response buffer reads what `ReadReply` says from the byte stream, in any pieces |
| FtpControl.Control.SendCommand | main/ftp_cli.c:235-253 | sends a command that fits, with CR LF, reads one reply, and succeeds exactly when its first digit is the expected one |
| FtpControl.Control.Login | main/ftp_cli.c:740-754 | in step, login succeeds exactly when the user needs no password or the password is accepted |
| FtpControl.Control.OpenData | main/ftp_cli.c:974-1044 | the passive-mode opening sends the commands and reads the replies of `Access`, on every success and failure path |
| FtpControl.Control.CloseData | main/ftp_cli.c:1101-1112 | a last reply is read unless the one before was a 4yz or 5yz |
| FtpControl.Control.TransferFile | main/ftp_cli.c:259-315 | from a connection in step, all replies sent are read and none is waited for in vain if and only if the operation is clean |
| FtpDialogue.OneOperation | main/ftp_cli.c:974-1113 | any login, command or transfer that starts in step ends in step if and only if it is clean: a condition on path length, the digit of the answer and the absence of further replies |
| FtpDialogue.SessionInStep | main/ftp_cli.c:235-253 | a whole session stays in step after every operation if and only if all its operations are clean |
| FtpDialogue.TransferSays | main/ftp_cli.c:974-1033 | a transfer that reaches its command sends "TYPE A" or "TYPE I", "PASV", and NLST, LIST, RETR, STOR or MLSD with its path, each with CR LF |
| FtpDialogue.LoginSays | main/ftp_cli.c:740-754 | a login sends "USER " and the user, and "PASS " and the password if and only if the answer begins with 3 |
| FtpDialogue.OthersSay | main/ftp_cli.c:235-253 | a command of up to 1021 characters is sent with CR LF; longer ones, and logins with a name or password of more than 57, send nothing |
| FtpDialogue.Limits | main/ftp_cli.c:974-1026 | paths of up to 1017 characters pass, a file transfer needs a path, and the digits the dialogue goes by are 1 to 5 |
| FtpDialogue.MarkersLag | main/ftp_cli.c:1111 | n marker replies leave n replies unread, the final one last |
| FtpDialogue.LagIsKept | main/ftp_cli.c:235-253 | a client n replies behind stays n behind, every command being given the reply n earlier |

## Left out

- Wi-Fi, FreeRTOS tasks, mutexes, GPIO, NVS and FAT mounts: events and methods are atomic steps; sockets are byte streams with arbitrary segmentation, select is the choice of what arrives, and the clock, the time of day and `restart_flag` are inputs of a step, the clock sampled twice in each pass of the session.
- `main/tls_srv.c`, `main/ssd1306.c`, `main/sntp_cli.c`, `main/tcp_srv.c` and `print_msg`: library calls, display, time and logging.
- `read_cfg` and floating point: the configuration is given, and the distance of a record is an arbitrary 32-bit value used for both odometers.
- The random satellite count is an input; the texts of getgps, getver, getio and of the commands without effect are one parameter of at most 383 characters.
- Failing allocations, but for a flag that a packet was not built; connecting and reconnecting; the Vixod exits are modelled, the pause before the next session is not.
- The error byte is a set of errors; its bits are named in `Session.Error`.
- The mirror is kept in host order and put in network order when it is written out; `Wire.StoredIsBigEndian` and `Wire.HtonInvolution` say why that is the same.
- `scena_total` is the length of the leg list, so changing the list after the firmware has read its length is not modelled.
- atoi is exact on all digits and its result is cut to 32 bits when stored, where C leaves overflow undefined.
- Tokens longer than the 32-byte scratch buffers and reads past the end of the 256-byte parameter copy: the model sees the string's characters only.
- Crc.Ksum: requires one readable byte after the data, because the code loads 16 bits at a time.
- Receiver.Receiver.Receive: requires room for the byte; frames longer than the buffer overrun it, and `Framing.BufferSuffices` says when that cannot happen.
- Framing.CommandArrives: is about frames whose inner length fits them; the code does not compare inner and outer length, and behind a frame the model sees the zeros of a cleared buffer.
- Framing.FramesArriveOneByOne: is about the receive buffer; frames between 881 and 4096 bytes can be too long for the print buffer, as `Framing.PrintBounds` says.
- NetBuf.NetBuf.ReadLine: requires max to be at least 2 (its callers pass 1024 and 2048), and stops where the code would leave its buffer.
- Session.Connection.Iterate: takes it as an input whether a command was a reset or a report request; `Emulator.Emulator.OnePass` takes it from the command.
- Tracker.Tracker.ParseCmd: the texts of getgps, getver and getio are a parameter of at most 383 characters.
- FtpControl.Control.ReadResponse: requires reply lines that fit 1024 bytes and a first line of at least three, without NUL in its code; otherwise the code looks at stale characters.
- FtpControl.Control.SendCommand: requires the connection to take the whole command; `OpenData`, `Login` and `TransferFile` require room for theirs.
- FtpControl.Control.OpenPort: the address in the reply to PASV and the connection made to it are the parameter `connects`.
- FTP active mode, idle callbacks, binary mode (which copies bytes), invalid transfer types, local file errors and the one-command wrappers, which are `Op.Simple`.
