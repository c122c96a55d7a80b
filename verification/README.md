# FS20/FHT and WS300 radio codec of ethersex, in Dafny

This project models the 868 MHz radio codec of the ethersex firmware. It also
models the two text commands that use the codec and the segment routines of
the HR20 thermostat LCD.

- **Timing** — the pulse-width windows of `fs20.h` (`FS20_US2T`, `FS20_BETWEEN`, `FS20_SYMM`, the FS20 and WS300 pulse tests). They are written as functions of the CPU clock, and the two classifiers the edge interrupt applies are built from them.
- **Layout** — the bit-field layouts of `struct fs20_datagram_t` (54 bits in a `uint64_t`, `p6` at bit 0, `hc1` at bits 46..53) and `struct ws300_datagram_t` (16 nibbles, each followed by a marker, in `bytes[10]`). They are written as shift/mask accessors, with pack/unpack round trips.
- **Encoder** — `fs20_send`, `fs20_send_byte` and `fs20_send_sync` as the list of ZERO/ONE symbols they emit. A reader turns one repetition back into the request.
- **Fs20Receiver** — the FS20 half of the comparator-edge interrupt, of the timer-0 silence interrupt, and of `fs20_process` with its four-entry queue, plus `fs20_process_timeout`. Each is a pure step on the `fs20` part of `fs20_global`, including the static `time_old`.
- **Weather** — `ws300_parse_datagram`: the marker, constant, XOR and sum checks and the BCD decoding with the C store widths. `Seal` builds exactly the datagrams that pass.
- **Ws300Receiver** — the WS300 halves of the same interrupts and of `fs20_process`, with LSB-first bit packing into `bytes[10]`.
- **Radio** — both receivers together, driven by the five events of the firmware: an edge, silence, the mainloop, the 1-tick job and the 50-tick job. The invariant holds from `fs20_init` onwards.
- **EndToEnd** — one repetition of `fs20_send`, measured as intervals by the edge interrupt, completed by the silence interrupt and checked by `fs20_process`. Under the corrected checksum comparison it always ends up at the head of the queue. Under the comparison as written it does so only when the 8-bit sum of its data bytes is below 250; otherwise it is dropped (see Findings).
- **Ecmd** — `parse_cmd_fs20_send` and `parse_cmd_fs20_receive` from `fs20_ecmd.c`. Reading the 11-character hex records back gives the queue entries.
- **Hr20** — the segment macros, `hr20_lcd_putchar`, `hr20_lcd_hourbar` and `parse_cmd_hr20_toggle` from `hr20.c`. The display is 20 registers of 8 bits.

Integer widths are written out:
- the 6-bit `null` counter wraps mod 64;
- `time_old` is a `uint8_t` (`(time_old + time) % 256`);
- the checksum sums are 8-bit (`Layout.Sum8`);
- the WS300 temperature is an `int8_t` store (`Weather.Int8`);
- the rain counter is `uint16_t`;
- the drained length `outlen` is `uint8_t`;
- the segment number of `hr20 toggle` is `atoi` truncated to `uint8_t`.

## Where the model follows the code rather than the prose description

- **Unsynced INVALID.** An INVALID interval while unsynchronised only stores the interval in `time_old`. It does not reset the preamble counter: only a ONE resets it (`fs20.c:192-207`).
- **Error run.** The error-run reset happens on the sixth consecutive invalid interval, not the fifth. `err > 4` is tested before `err` is incremented (`fs20.c:218-229`).
- **WS300 checks.**
  - The XOR and sum cover 15 nibbles, from the constant up to and including checksum1.
  - Only markers p1..p15 are checked; p16 is never received (`fs20.c:489-521`).
- **FS20 checksum width.** The checksum comparison is made at `int` width, not modulo 256 (see Findings).
- **Silence reset.** The silence interrupt restarts FS20 reception whenever a quiet period runs, even with a complete datagram held. The quiet period itself is counted down only by `fs20_process_timeout` (`fs20.c:319-326`, `473-480`).
- **Stale `err`.** The silence reset and the synchronising ONE do not clear `err`. A stale error run therefore carries into the next frame. `EndToEnd.TransmissionReceived` requires the run to be at most four.

## Model

| member | source | states |
|---|---|---|
| Timing.US2TMonotone | hardware/radio/fs20/fs20.h:131 | FS20_US2T is monotone in the microseconds for every clock |
| Timing.ZeroTickIsNoPulse | hardware/radio/fs20/fs20.h:131-138 | from 1 MHz up, the tick 0 (a discarded first edge, a cleared time_old) is in neither FS20 window |
| Timing.Ws300ZeroTickIsNoPulse | hardware/radio/fs20/fs20.h:146-148 | from 2 MHz up, no WS300 pair starting with tick 0 is a ONE or a ZERO |
| Timing.Ws300ZeroTickAtOneMHz | hardware/radio/fs20/fs20.h:146 | at exactly 1 MHz the pair (0, 2) is a WS300 ONE: the short window contains tick 0, so the bound above cannot be lowered to 1 MHz |
| Timing.PulseWindowsShareOneTick | hardware/radio/fs20/fs20.h:132-138 | a tick is in both the ZERO and the ONE window iff it is US2T(500) |
| Timing.PulseDifferenceIsDistance | hardware/radio/fs20/fs20.h:133-140 | FS20_PULSE_DIFFERENCE is the test abs(x-y) <= US2T(100), hence symmetric |
| Timing.Ws300WindowsDisjoint | hardware/radio/fs20/fs20.h:146-148 | from 1 MHz up, the short and long WS300 windows are disjoint and no pair is both a ONE and a ZERO |
| Timing.Ws300WindowsCollapseBelowOneMHz | hardware/radio/fs20/fs20.h:131-148 | at 999999 Hz every window collapses to tick 0, and the pair (0, 0) is both a ONE and a ZERO |
| Timing.Fs20Classify | hardware/radio/fs20/fs20.c:176-191 | Invalid exactly when neither window test with the difference test holds; a ZERO has both intervals at most US2T(500); a ONE has both at least US2T(500), not both equal to it |
| Timing.Ws300Classify | hardware/radio/fs20/fs20.c:249-254 | Invalid exactly when the pair is neither (long, short) nor (short, long); from 1 MHz up, ONE exactly when WS300_PULSE_ONE holds |
| Timing.NominalIntervalsClassify | hardware/radio/fs20/fs20.h:131-138 | at every clock from 1 MHz up where the 1500us compare value fits 8 bits, 400us is a ZERO tick and 600us a ONE tick outside the ZERO window |
| Layout.ParityEvenCountsOnes | hardware/radio/fs20/fs20.c:107 | the parity bit is the number of ones mod 2, so byte plus bit has an even count |
| Layout.UnpackPack | hardware/radio/fs20/fs20.h:173-186 | writing all twelve fields and reading them back gives them unchanged (no gap, no overlap) |
| Layout.PackUnpack | hardware/radio/fs20/fs20.h:173-186 | a buffer with nothing above bit 53 is exactly its twelve fields |
| Layout.Ws300ViewPack | hardware/radio/fs20/fs20.h:197-230 | the 16 nibbles and 16 markers tile the 80 bits of bytes[10]: write then read is the identity |
| Layout.Ws300PackView | hardware/radio/fs20/fs20.h:197-230 | every bit of bytes[10] belongs to a nibble or a marker: reading any buffer as a datagram and writing it back gives the same ten bytes |
| Encoder.ByteSymbols | hardware/radio/fs20/fs20.c:98-109 | a byte is sent as nine symbols with an even number of ONEs |
| Encoder.ReadByteSymbols | hardware/radio/fs20/fs20.c:98-109 | the nine symbols read back, MSB first, give the byte |
| Encoder.RepetitionShape | hardware/radio/fs20/fs20.c:114-129 | one repetition is 59 symbols: 12 ZEROs, a ONE, five 9-symbol groups of even parity, a trailing ZERO |
| Encoder.ReadRepetitionOf | hardware/radio/fs20/fs20.c:111-134 | one repetition reads back as the housecode, address and command it was built from |
| Encoder.Repetition | hardware/radio/fs20/fs20.c:114-129 | the symbols of one loop iteration have the shape above and read back as the request |
| Encoder.Send | hardware/radio/fs20/fs20.c:111-134 | three repetitions, 177 symbols, and each of the three reads back as the request |
| Encoder.ChecksumIsLowByte | hardware/radio/fs20/fs20.c:117-127 | the checksum byte of a telegram is 6 + HI8(housecode) + LO8(housecode) + address + command, summed without wrap in 32 bits, taken mod 256 |
| ByteSum.ChecksumIsLowByte | hardware/radio/fs20/fs20.c:117-127 | the uint8_t running sum seeded with 6 equals the low byte of the same five-term sum formed in 32 bits |
| Encoder.AssembleBytes | hardware/radio/fs20/fs20.c:119-122 | the HI8 and LO8 bytes sent for the housecode, shifted back together, give the housecode: the split loses nothing |
| Fs20Receiver.InitialChannelInv | hardware/radio/fs20/fs20.c:590-592 | the zeroed state of fs20_init satisfies the receiver invariant |
| Fs20Receiver.Edge | hardware/radio/fs20/fs20.c:157-172 | the edge changes nothing unless timeout is 0 and fewer than 54 bits are held; it never touches queue, len or timeout |
| Fs20Receiver.EdgeKeepsInv | hardware/radio/fs20/fs20.c:163-231 | every edge keeps the invariant: rec stays at most 54, null below 64, err at most 5, nothing held while unsynced |
| Fs20Receiver.FirstEdgeIgnoresMeasurement | hardware/radio/fs20/fs20.c:168-172 | the first edge after a reset gives the same state whatever the timer reads: it only arms the receiver |
| Fs20Receiver.OneSyncsAfterEightZeros | hardware/radio/fs20/fs20.c:192-207 | while unsynced, a ONE synchronises iff at least 8 ZEROs were counted, and always clears the count |
| Fs20Receiver.InvalidWhileSynced | hardware/radio/fs20/fs20.c:218-229 | while synced, an invalid interval after at most four others only counts the error and adds the interval to time_old mod 256; the next resets the channel completely, time_old included |
| Fs20Receiver.ZeroCountsPreamble | hardware/radio/fs20/fs20.c:192-195 | while unsynced, a ZERO adds one to the 6-bit null counter (64 wraps to 0) and clears time_old; nothing else changes |
| Fs20Receiver.InvalidWhileUnsynced | hardware/radio/fs20/fs20.c:205-207 | while unsynced, an invalid interval is only stored in time_old; the null counter is kept |
| Fs20Receiver.ValidWhileSynced | hardware/radio/fs20/fs20.c:210-217 | while synced, a valid symbol moves raw up one bit, puts its bit at bit 0, counts it and clears the error run |
| Fs20Receiver.TelescopeShortFrame | hardware/radio/fs20/fs20.c:308-317 | telescoping a 45-bit frame keeps checksum and p6, moves the other fields up nine bits, and leaves ext and p5 zero |
| Fs20Receiver.Tick | hardware/radio/fs20/fs20.c:307-326 | after silence a whole datagram is held iff 54 or 45 bits were held and no quiet period runs; otherwise reception restarts; the held datagram is the received one, telescoped if short |
| Fs20Receiver.TickKeepsInv | hardware/radio/fs20/fs20.c:307-326 | the silence interrupt keeps the invariant |
| Fs20Receiver.ParityErrorsZero | hardware/radio/fs20/fs20.c:359-378 | the sum of the six parity mismatches is 0 iff every byte carries its own even-parity bit |
| Fs20Receiver.IntWidthSumFs20 | hardware/radio/fs20/fs20.c:382 | the int-width test checksum == cs + 6 holds iff cs < 250 and the 8-bit sum matches |
| Fs20Receiver.IntWidthSumFht | hardware/radio/fs20/fs20.c:387 | the int-width test checksum == cs + 12 holds iff cs < 244 and the 8-bit sum matches |
| Fs20Receiver.KindAsWritten | hardware/radio/fs20/fs20.c:382-392 | the type as the code decides it: 'F' iff cs < 250 and checksum = cs + 6, 'T' iff cs < 244 and checksum = cs + 12 |
| Fs20Receiver.Kind | hardware/radio/fs20/fs20.c:382-392 | the type with the 8-bit comparison: 'F' iff checksum - cs = 6, 'T' iff checksum - cs = 12, modulo 256 |
| Fs20Receiver.ValidateAsWritten | hardware/radio/fs20/fs20.c:359-393 | a frame is accepted iff all parities match and the int-width checksum test gives a type |
| Fs20Receiver.Validate | hardware/radio/fs20/fs20.c:359-393 | a frame is accepted iff all parities match and the 8-bit checksum test gives a type |
| Fs20Receiver.ValidateExtendsAsWritten | hardware/radio/fs20/fs20.c:382-392 | wherever the check as written accepts, the 8-bit check accepts with the same type |
| Fs20Receiver.Push | hardware/radio/fs20/fs20.c:395-406 | the new entry is queue[0], every older entry moves down one, the oldest is dropped, the length stays 4 |
| Fs20Receiver.Process | hardware/radio/fs20/fs20.c:340-437 | with the corrected checksum comparison: without 54 bits nothing changes; with them, an accepted frame is pushed, len grows up to 4 and the quiet period becomes 6; a rejected one leaves the queue; either way raw, rec, sync and null are cleared |
| Fs20Receiver.ProcessAsWritten | hardware/radio/fs20/fs20.c:340-437 | the same with the comparison as written: a frame is pushed exactly when the int-width check accepts it |
| Fs20Receiver.ProcessExtendsAsWritten | hardware/radio/fs20/fs20.c:382-392 | wherever the comparison as written accepts, both versions give the same channel; otherwise they differ only in the queue, len and quiet period the corrected one may set |
| Fs20Receiver.ProcessKeepsInv | hardware/radio/fs20/fs20.c:340-437 | fs20_process keeps the invariant |
| Fs20Receiver.ProcessTimeout | hardware/radio/fs20/fs20.c:473-480 | the quiet period counts down, saturating at 0; nothing else changes |
| Fs20Receiver.ProcessTimeoutKeepsInv | hardware/radio/fs20/fs20.c:473-480 | the countdown keeps the invariant |
| Weather.Check | hardware/radio/fs20/fs20.c:488-537 | a datagram passes iff markers p1..p15 are set, the constant is 7, the XOR of nibbles 0..14 is 0 and checksum2 is the low nibble of their sum plus 5 |
| Weather.Decode | hardware/radio/fs20/fs20.c:540-555 | the stored readings fit their C types: temp in int8_t, rain_value in uint16_t, hygro and wind in uint8_t |
| Weather.Parse | hardware/radio/fs20/fs20.c:483-558 | a rejected datagram changes nothing; an accepted one replaces every reading and restarts the age counter |
| Weather.Age | hardware/radio/fs20/fs20.c:649-653 | the 50-tick job keeps the readings and adds one to an age below 65535; the uint16_t age 65535 wraps to 0 |
| Weather.Seal | hardware/radio/fs20/fs20.c:507-537 | the datagram built from 13 payload nibbles is well formed and carries the payload in nibbles 1..13 |
| Weather.SealPasses | hardware/radio/fs20/fs20.c:488-537 | every sealed datagram passes all four checks |
| Weather.PassingIsSealed | hardware/radio/fs20/fs20.c:488-537 | every datagram that passes is the sealed form of its own payload, so the checks accept exactly the sealed datagrams |
| Weather.DecodeUnsigned | hardware/radio/fs20/fs20.c:540-555 | fractions, rain flag, humidity, wind and rain counter are the nibbles by their decimal places, without wrapping |
| Weather.SealDecodes | hardware/radio/fs20/fs20.c:540-555 | the readings of a sealed datagram are its payload digits by their places |
| Weather.TemperatureBcd | hardware/radio/fs20/fs20.c:541-546 | with BCD digits the magnitude is at most 99 and the sign flag only negates it |
| Weather.DecodeBcd | hardware/radio/fs20/fs20.c:540-555 | with BCD digits every reading is exact: temperature within +-99, humidity and wind at most 99, rain at most 999 |
| Weather.TemperatureWrapsOutsideBcd | hardware/radio/fs20/fs20.c:541 | temperature digits 5 and 15 are stored as -101: the int8_t store wraps outside BCD |
| Ws300Receiver.Edge | hardware/radio/fs20/fs20.c:235-245 | the WS300 half does nothing once 79 bits are held, and never changes the readings |
| Ws300Receiver.EdgeKeepsInv | hardware/radio/fs20/fs20.c:235-297 | every edge keeps the invariant: rec at most 79 and no bit at or above rec set |
| Ws300Receiver.SetBitBit | hardware/radio/fs20/fs20.c:276-279 | setting bit rec of bytes sets exactly that bit of the datagram |
| Ws300Receiver.ValidWhileSynced | hardware/radio/fs20/fs20.c:275-283 | while synced, a valid symbol stores its bit at position rec, touches no other bit, counts it and clears the error run |
| Ws300Receiver.OneSyncsAfterFiveZeros | hardware/radio/fs20/fs20.c:257-272 | while unsynced, a ONE synchronises iff at least 5 ZEROs were counted, and always clears the count |
| Ws300Receiver.InvalidWhileSynced | hardware/radio/fs20/fs20.c:284-295 | while synced, an invalid pair after at most four others only counts the error and adds the interval to time_old mod 256; the next resets err, rec, time_old, sync, start and null and zeroes the datagram |
| Ws300Receiver.ZeroCountsPreamble | hardware/radio/fs20/fs20.c:257-260 | while unsynced, a ZERO adds one to the 6-bit null counter (64 wraps to 0) and clears time_old; nothing else changes |
| Ws300Receiver.InvalidWhileUnsynced | hardware/radio/fs20/fs20.c:270-272 | while unsynced, an invalid pair is only stored in time_old; the null counter is kept |
| Ws300Receiver.Tick | hardware/radio/fs20/fs20.c:328-335 | silence resets WS300 reception and zeroes the datagram unless 79 bits are held |
| Ws300Receiver.TickKeepsInv | hardware/radio/fs20/fs20.c:328-335 | the silence reset keeps the invariant |
| Ws300Receiver.Process | hardware/radio/fs20/fs20.c:439-469 | a complete datagram is parsed into the readings, then the buffer, sync, null and rec are cleared whatever the outcome |
| Ws300Receiver.ProcessKeepsInv | hardware/radio/fs20/fs20.c:439-469 | the WS300 half of fs20_process keeps the invariant |
| Ws300Receiver.AgeChannel | hardware/radio/fs20/fs20.c:649-653 | the 50-tick job ages the readings and changes nothing else |
| Radio.InitialInv | hardware/radio/fs20/fs20.c:590-618 | the state fs20_init leaves satisfies the combined invariant |
| Radio.Step | hardware/radio/fs20/fs20.c:627-653 | the timer jobs never receive bits; only the mainloop changes the queue; only the mainloop and the 50-tick job change the readings |
| Radio.StepKeepsInv | hardware/radio/fs20/fs20.c:151-480 | every event keeps the combined invariant |
| Radio.StepsKeepInv | hardware/radio/fs20/fs20.c:151-480 | every sequence of events keeps the combined invariant |
| Radio.Reachable | hardware/radio/fs20/fs20.c:579-653 | from power-up, rec stays within 54 and 79, the queue length within 4, the quiet period within 6 and the age within uint16_t |
| EndToEnd.ClassifyPhases | hardware/radio/fs20/fs20.c:176-191 | the first phase of a symbol, against a cleared time_old, is invalid; the second completes the symbol |
| EndToEnd.PreamblePhase | hardware/radio/fs20/fs20.c:192-195 | ZEROs before synchronisation only count the preamble |
| EndToEnd.SyncPhase | hardware/radio/fs20/fs20.c:196-204 | the ONE after at least 8 ZEROs synchronises |
| EndToEnd.DataPhase | hardware/radio/fs20/fs20.c:208-229 | synchronised, each symbol shifts its bit in; its first phase is a tolerated error |
| EndToEnd.ShiftInByte | hardware/radio/fs20/fs20.c:98-109 | the nine symbols of a byte, shifted into raw MSB first, append the byte and its parity bit |
| EndToEnd.BodyDatagram | hardware/radio/fs20/fs20.h:173-186 | the 45 data bits of a repetition read as hc1, hc2, addr, cmd and checksum with their parity bits, ext zero |
| EndToEnd.ReceivedIsValid | hardware/radio/fs20/fs20.c:359-393 | every telegram the sender builds passes the 8-bit check as an FS20 telegram |
| EndToEnd.ReceivedAsWritten | hardware/radio/fs20/fs20.c:382-392 | under the check as written, a sent telegram is accepted iff the 8-bit sum of its data bytes is below 250 |
| EndToEnd.AsWrittenDropsWrappedChecksum | hardware/radio/fs20/fs20.c:382 | housecode 0x00FA, address 0, command 0 has checksum byte 0 and is dropped as written but accepted by the 8-bit check |
| EndToEnd.HeaderReceived | hardware/radio/fs20/fs20.c:168-207 | the arming edge, 12 ZEROs and the ONE take an idle receiver to the synchronised state |
| EndToEnd.RepetitionEdgesReceived | hardware/radio/fs20/fs20.c:151-231 | the edges of one repetition leave the 45 data bits in raw with an error run of one |
| EndToEnd.TransmissionReceived | hardware/radio/fs20/fs20.c:301-412 | under the corrected checksum comparison (as written, only when the data sum is below 250): one repetition, then silence, then the mainloop puts the telegram at the head of the queue as an FS20 command with ext 0, len grows up to 4, the quiet period starts |
| EndToEnd.TransmissionReceivedAsWritten | hardware/radio/fs20/fs20.c:301-412 | with fs20_process as written: the telegram is queued as above exactly when the 8-bit sum of its data bytes is below 250; otherwise queue, len and quiet period are unchanged |
| Ecmd.SendCommand | hardware/radio/fs20/fs20_ecmd.c:36-59 | FINAL_OK and a transmission iff all three fields converted; the transmission reads back as the housecode with the low bytes of address and command |
| Ecmd.SendIgnoresHighBytes | hardware/radio/fs20/fs20_ecmd.c:53 | the high bytes of address and command never reach the air |
| Ecmd.Record | hardware/radio/fs20/fs20_ecmd.c:85-90 | a record is 11 characters ending in a newline |
| Ecmd.Receive | hardware/radio/fs20/fs20_ecmd.c:64-106 | records go out newest first while entries remain and the next fits the buffer; the reply length is 11 per record; len is 0 afterwards whatever fitted |
| Ecmd.ReadHex2Of | hardware/radio/fs20/fs20_ecmd.c:85 | two %02x digits read back as the byte |
| Ecmd.ReadRecordOf | hardware/radio/fs20/fs20_ecmd.c:85-90 | a record reads back as hc1, hc2, addr, cmd and ext of its entry |
| Ecmd.ReadRecordsOf | hardware/radio/fs20/fs20_ecmd.c:74-94 | the drained text reads back as the entries it covers, in queue order |
| Hr20.SegWrite | hardware/lcd/hr20.c:40-41 | LCD_SEG_SET/CLEAR gives segment i the value and leaves every other segment |
| Hr20.SegToggle | hardware/lcd/hr20.c:42 | LCD_SEG_TOGGLE flips segment i and leaves every other segment |
| Hr20.ToggleCommand | hardware/lcd/hr20.c:117-125 | parse error iff the uint8_t-truncated number is 160 or more, and then the display is unchanged; otherwise exactly that segment flips |
| Hr20.ToggleTwice | hardware/lcd/hr20.c:123 | toggling the same number twice restores the display |
| Hr20.ToggleTruncates | hardware/lcd/hr20.c:119 | numbers 256 apart toggle the same segment |
| Hr20.Paint | hardware/lcd/hr20.c:87-93 | each listed segment ends with its value unless a later entry names it again; unlisted segments are unchanged |
| Hr20.DigitSegments | hardware/lcd/hr20.c:88 | a digit's segment numbers are uint8_t sums |
| Hr20.PutChar | hardware/lcd/hr20.c:81-94 | segment k of the digit is lit iff bit k of the glyph is set; nothing else changes |
| Hr20.CodedLitIsBarLit | hardware/lcd/hr20.c:100-109 | the loop test after the wrap case lights bar i iff start <= i <= stop, or, when stop < start, i <= stop or i >= start |
| Hr20.Hourbar | hardware/lcd/hr20.c:97-114 | every bar is set or cleared by the range whatever it showed before; segments outside the bar table are unchanged |

## Left out

- Hardware access is not modelled: the send pin, `_delay_loop_2` and the `FS20_DELAY_*` values, the timer, comparator and LCD registers, and the register setup of `fs20_init` and `hr20_lcd_init`. The encoder is a symbol list, the timer count is a parameter of an edge event, and the LCD is an array of 160 bits.
- The `enable` flag is set by `fs20_init` and never read, so it is not modelled.
- Interrupts and the mainloop run as atomic steps in any order. `volatile`, preemption and races are not modelled.
- The debug and profiling blocks (`debug_printf`, `int_counter`, `ovf_counter`, the `timer(10)` job) are not modelled.
- `parse_cmd_fs20_ws300` only formats the readings with `snprintf_P` and is not modelled.
- `sscanf_P` and `atoi` are not modelled. The send command receives the values that converted, and the toggle command receives the `int` that `atoi` returns.
- `sprintf_P` is replaced by the digits it prints. `ECMD_FINAL` belongs to `ecmd-base.h`, which is not part of this model, so `Ecmd.Receive` returns the length it encodes.
- `hr20-charset.c` (character, digit-position, segment-offset and bar tables) is not part of this model. `Hr20.PutChar` and `Hr20.Hourbar` take the table entries as parameters.
- Hr20.PutChar: requires every segment number to be below 160. The code would write past LCDDR19 otherwise.
- Hr20.Hourbar: requires every bar-table entry to be below 160, for the same reason.
- The unused `WS300_VALID_VALUE(S)` macros (`fs20.h:150-153`) are not modelled.
- The camera files are not modelled.
- There is no WS300 sender in the firmware. The partner of the WS300 check is `Weather.Seal`, not an edge-level end-to-end run.
- EndToEnd.TransmissionReceived: covers a receiver starting idle with an error run of at most four, and intervals that classify as intended. It does not cover noise between edges.
- Fs20Receiver.Process: decides the FS20 checksum type with the corrected 8-bit comparison, not the int-width comparison of the code, and so does everything built on it (`Radio`, `EndToEnd.TransmissionReceived`). `Fs20Receiver.ProcessAsWritten` and `EndToEnd.TransmissionReceivedAsWritten` keep the comparison as written beside it (see Findings).

## Findings

| source | as written | input that shows it | evidently intended | confidence | as-written member | corrected member |
|---|---|---|---|---|---|---|
| hardware/radio/fs20/fs20.c:382-387 | `dg->checksum == cs + cs_fs20` compares the 8-bit checksum field with `cs + 6` after promotion to `int`, so the sum is not reduced mod 256. The sender's checksum (`fs20.c:117-127`) is an 8-bit running sum that does wrap. | `fs20_send(0x00FA, 0, 0)`: the data sum is 250 and the sent checksum byte is 0. The receiver compares 0 with 256 and with 262 and drops the telegram. | The checksum byte equals the data sum plus 6 (FS20) or plus 12 (FHT), modulo 256, as the sender computes it. | not executed | Fs20Receiver.ValidateAsWritten, EndToEnd.AsWrittenDropsWrappedChecksum, EndToEnd.TransmissionReceivedAsWritten | Fs20Receiver.Validate, EndToEnd.ReceivedIsValid, EndToEnd.TransmissionReceived |
