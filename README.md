# Mercury 200 meter node: driver, polling cycle and attribute data

This project models the core of a Zigbee end device (Z-Stack firmware) that
polls a Mercury 200 electricity meter over a serial line and reports its
readings. The model covers three parts.

- **Meter driver** (`zstack-lib/mercury200.c`).
  - Builds the seven-byte request frame: the serial number big-endian, the command, then the CRC-16/MODBUS low byte first.
  - Reads the 14-byte current-values reply and the 23-byte energy reply into zeroed buffers.
  - Checks each reply's trailing CRC. A failed check gives the 0xFFFF sentinel and one extra discarded read.
  - Decodes the packed BCD fields nibble by nibble. `from_bcd_to_dec` does this for the energy tariffs.
- **Application task** (`Source/zcl_app.c`).
  - `zclApp_ReadSensors` is a five-phase cycle: request current values, read them, request energy, read it, then report.
  - Its cache of readings is replaced only by a read without the sentinel.
  - `zclApp_event_loop` serves one event bit per call, in a fixed priority.
  - `zclApp_Report` arms the polling timer.
- **Application data** (`Source/zcl_app_data.c`).
  - The boot values of the configuration and of the two caches.
  - The reset to default values.
  - The attribute table of the first endpoint, which fixes the global field behind each ZCL attribute. All four tier attributes point at `Energy_T1`.

Modules:
- `CTypes` (`ctypes.dfy`): fixed-width integer types, and the int16 truncation of the target.
- `Uart` (`uart.dfy`): the serial port. Pending input is a byte sequence that reads consume from the front. Writes go to a log of frames.
- `AppTypes` (`app_types.dfy`): the records, event bits and identifiers of `Source/zcl_app.h`, and the Z-Stack and ZCL constants it names (`SYS_EVENT_MSG`, the Basic, Electrical Measurement and Metering attribute ids).
- `ModbusCrc` (`modbus_crc.dfy`): the CRC as a fold over the bytes, the imperative `MODBUS_CRC16`, and the residue property. The CRC is CRC-16/MODBUS as in sections 2.5.1.2 and 6.2.2 of the Modbus over Serial Line Specification V1.02.
- `Bcd` (`bcd.dfy`): BCD digits, multi-byte BCD values, their bounds and their encoding.
- `Mercury200` (`mercury200.dfy`): the driver. Each reply has a pure specification (`CurrentValuesReply`, `EnergyReply`), and the methods on the port are proved against it.
- `AppData` (`app_data.dfy`): the globals as a class, the reset, and the attribute table and its lookup.
- `App` (`zcl_app.dfy`): the task.
  - One call of `zclApp_ReadSensors` is the state function `ReadSensorsStep` on a `Machine`. The machine holds the phase, the globals, the port and an ordered log of the OSAL calls and reports.
  - The class `ZclApp` holds the static phase counter and is proved against `ReadSensorsStep`, `ReportStep` and `Dispatch`.

## Notes on the source

- `zclApp_ReadSensors` has no guard after the terminal phase. A further call restarts the cycle and writes a new request (`App.CallAfterTerminalRestarts`).
- The CRC register value for `01 03 00 00 00 0A` is `0xCDC5`. It is sent low byte first as `C5 CD`, which is often quoted as `0xC5CD` (`ModbusCrc.ReadHoldingRegistersVector`).

## Model

| member | source | states |
|---|---|---|
| CTypes.ToInt16 | zstack-lib/mercury200.c:76 | storing a value into the int16 `Power` field keeps it modulo 2^16, read as signed; values below 0x8000 are kept |
| Uart.Received | zstack-lib/mercury200.c:52-53 | a read into the zeroed buffer leaves byte i equal to pending byte i, or 0 when fewer bytes have arrived |
| Uart.Consumed | zstack-lib/mercury200.c:53 | a read of len bytes removes exactly min(len, pending) bytes from the front of the input |
| Uart.ConsumedTwice | zstack-lib/mercury200.c:70 | two reads of a and b bytes consume as much as one read of a+b bytes |
| Uart.ReadIntoZeros | zstack-lib/mercury200.c:52-53 | a zeroed buffer after one read holds exactly `Received` |
| Uart.SerialPort.Read | zstack-lib/mercury200.c:53 | `HalUARTRead` copies at most len pending bytes to the buffer's front, leaves the rest of the buffer, and consumes them |
| Uart.SerialPort.Write | zstack-lib/mercury200.c:37 | `HalUARTWrite` appends the first len bytes of the buffer to the output log as one frame |
| ModbusCrc.Crc16 | zstack-lib/mercury200.c:151-176 | the CRC of the empty buffer is the initial value 0xFFFF |
| ModbusCrc.CrcBytes | zstack-lib/mercury200.c:34-35 | the CRC goes on the wire as two bytes, low byte first, and the two bytes rebuild the register (high << 8 \| low) |
| ModbusCrc.WithCrc | zstack-lib/mercury200.c:32-35 | appending the CRC adds two bytes and keeps the payload as the frame's prefix |
| ModbusCrc.CrcFromSnoc | zstack-lib/mercury200.c:157-173 | feeding one more byte is one more outer-loop step |
| ModbusCrc.CrcFromAppend | zstack-lib/mercury200.c:157-173 | the CRC is a left fold: the CRC of a+b continues from the register after a |
| ModbusCrc.ShiftsZero | zstack-lib/mercury200.c:161-172 | the shift steps map only the zero register to zero |
| ModbusCrc.StepToHighByte | zstack-lib/mercury200.c:159-172 | a byte step yields a value below 0x100 iff the byte is the register's low byte, and the value is then its high byte |
| ModbusCrc.StepToZero | zstack-lib/mercury200.c:159-172 | a byte step clears the register iff the register equals the byte |
| ModbusCrc.ResidueIff | zstack-lib/mercury200.c:157-173 | feeding two bytes clears the register iff they are its low and high byte |
| ModbusCrc.CrcMatchesIffZero | zstack-lib/mercury200.c:62-68 | the readers' check of the two trailing bytes holds iff the CRC of the whole frame is 0 |
| ModbusCrc.WithCrcMatches | zstack-lib/mercury200.c:32-35 | a frame built by appending its CRC passes the readers' check |
| ModbusCrc.ReadHoldingRegistersVector | zstack-lib/mercury200.c:151-176 | the CRC of 01 03 00 00 00 0A is 0xCDC5, sent as C5 CD |
| ModbusCrc.CheckValue | zstack-lib/mercury200.c:151-176 | the CRC of "123456789" is the CRC-16/MODBUS check value 0x4B37 |
| ModbusCrc.ModbusCrc16 | zstack-lib/mercury200.c:151-176 | the two nested loops compute the fold `Crc16` of the first len bytes |
| Bcd.HiNibble | zstack-lib/mercury200.c:74 | a high nibble is at most 15 |
| Bcd.LoNibble | zstack-lib/mercury200.c:74 | a low nibble is at most 15 |
| Bcd.NibblesDivMod | zstack-lib/mercury200.c:74-76 | `b / 16` and `b % 16` are the high and low nibble, and b is 16·hi + lo |
| Bcd.FromBcdToDec | zstack-lib/mercury200.c:81-86 | `from_bcd_to_dec` is at most 165 for any byte |
| Bcd.FromBcdToDecValid | zstack-lib/mercury200.c:81-86 | a byte with two decimal nibbles decodes below 100 |
| Bcd.FromBcdToDecNibbles | zstack-lib/mercury200.c:83 | the shift-and-mask form equals 10·hi + lo |
| Bcd.ToBcdRoundTrip | zstack-lib/mercury200.c:81-86 | every two-digit number's BCD byte is valid and decodes back to the number |
| Bcd.FromBcdRoundTrip | zstack-lib/mercury200.c:81-86 | every valid BCD byte is the BCD byte of its decoded value |
| Bcd.BcdValue2 | zstack-lib/mercury200.c:74-75 | a two-byte field is d(b0)·100 + d(b1) |
| Bcd.BcdValue3 | zstack-lib/mercury200.c:76 | a three-byte field is d(b0)·10^4 + d(b1)·100 + d(b2) |
| Bcd.BcdValue4 | zstack-lib/mercury200.c:124-128 | a four-byte field is d(b0)·10^6 + d(b1)·10^4 + d(b2)·100 + d(b3), the tariff sum |
| Bcd.BcdValueBound | zstack-lib/mercury200.c:124-146 | with arbitrary nibbles an n-byte field is at most 165·(1 + 100 + ... + 100^(n-1)) |
| Bcd.FieldBounds | zstack-lib/mercury200.c:74-146 | two-, three- and four-byte fields are at most 16665, 1666665 and 166666665, so a uint32 tariff never overflows |
| Bcd.BcdValueValidBound | zstack-lib/mercury200.c:124-146 | with valid digits an n-byte field is below 100^n |
| Bcd.EncodeBcd | zstack-lib/mercury200.c:124-146 | the meter's encoding of a number into k BCD bytes has k bytes |
| Bcd.EncodeBcdRoundTrip | zstack-lib/mercury200.c:124-146 | an encoded number is valid BCD and decodes back to the number |
| Bcd.DecodeBcdRoundTrip | zstack-lib/mercury200.c:124-146 | every valid BCD field is the encoding of its decoded value, so decoding is injective on valid fields |
| Bcd.BcdValueDivMod | zstack-lib/mercury200.c:124-146 | the last valid byte holds the value's two lowest decimal digits |
| Bcd.BcdExamples | zstack-lib/mercury200.c:81-86 | 0x12 decodes to 12, and 00 12 34 56 to 123456 |
| Mercury200.SerialBytes | zstack-lib/mercury200.c:27-30 | the serial number goes out as four bytes |
| Mercury200.SerialRoundTrip | zstack-lib/mercury200.c:27-30 | reassembling the four bytes gives back the serial number |
| Mercury200.SerialBytesRoundTrip | zstack-lib/mercury200.c:27-30 | every four bytes are the bytes of the serial number they reassemble to |
| Mercury200.RequestFrame | zstack-lib/mercury200.c:22-37 | a request frame has seven bytes |
| Mercury200.RequestFrameLayout | zstack-lib/mercury200.c:24-35 | bytes 0-3 are the serial number most significant first, byte 4 the command, bytes 5-6 the CRC of bytes 0-4 low byte first, and the frame's CRC is 0 |
| Mercury200.RequestRoundTrip | zstack-lib/mercury200.c:22-37 | a meter parsing the frame gets back the serial number and the command |
| Mercury200.ParsedRequestIsRequestFrame | zstack-lib/mercury200.c:22-37 | every seven-byte frame that passes the CRC check is the request for what it parses to |
| Mercury200.RequestExample | zstack-lib/mercury200.c:22-37 | serial 0x0A987654 with command 0x63 is sent as 0A 98 76 54 63 0C 52 |
| Mercury200.RequestMeasure | zstack-lib/mercury200.c:22-45 | filling the buffer in place writes exactly one frame, the request frame, and reads nothing |
| Mercury200.RequestHead | zstack-lib/mercury200.c:26-30 | the five bytes stored by index are the serial bytes and the command |
| Mercury200.RequestTail | zstack-lib/mercury200.c:34-35 | storing the CRC bytes completes the frame |
| Mercury200.CurrentFields | zstack-lib/mercury200.c:74-76 | voltage (bytes 5-6) and current (bytes 7-8) are at most 16665, so a decoded voltage never equals the sentinel |
| Mercury200.DecodeCurrentValues | zstack-lib/mercury200.c:48-76 | the voltage is 0xFFFF iff the CRC check fails, and a rejected frame gives voltage = current = 0xFFFF and power = -1 |
| Mercury200.CurrentFieldsValid | zstack-lib/mercury200.c:74-76 | with valid digits voltage and current are at most 9999, and power is the six-digit field reduced mod 2^16 (unchanged below 0x8000) |
| Mercury200.CurrentValuesRoundTrip | zstack-lib/mercury200.c:74-76 | a CRC-valid frame carrying v, c < 10000 and p < 10^6 in BCD decodes to exactly v and c, and to p stored into the int16 `Power` field: p itself when p < 0x8000, otherwise p modulo 2^16 read as signed (04 00 00 gives -25536) |
| Mercury200.CurrentValuesReplySpec | zstack-lib/mercury200.c:48-79 | the result decodes the first 14 pending bytes; an accepted reply consumes 14 bytes, a rejected one 28 |
| Mercury200.ReadCurrentValues | zstack-lib/mercury200.c:48-79 | the method returns the result and leaves the input that `CurrentValuesReply` specifies, and writes nothing |
| Mercury200.StoreCurrentFields | zstack-lib/mercury200.c:74-76 | the nibble-by-nibble assignments store exactly `CurrentFields` of the buffer |
| Mercury200.FourDigits | zstack-lib/mercury200.c:74-75 | the four-nibble weighted sum is the field's BCD value and at most 16665 |
| Mercury200.SixDigits | zstack-lib/mercury200.c:76 | the six-nibble weighted sum is the field's BCD value |
| Mercury200.TariffsOf | zstack-lib/mercury200.c:124-146 | T0 is 0 and each tariff is at most 166666665 |
| Mercury200.DecodeEnergy | zstack-lib/mercury200.c:88-146 | T0 is always 0, and a rejected frame gives T1 = T2 = T3 = 0xFFFF and T4 = 0 |
| Mercury200.TariffsValid | zstack-lib/mercury200.c:124-146 | with valid digits each tariff has at most eight decimal digits |
| Mercury200.EnergyRoundTrip | zstack-lib/mercury200.c:124-146 | a CRC-valid frame carrying t1..t4 in BCD decodes to exactly those tariffs |
| Mercury200.EnergyReplySpec | zstack-lib/mercury200.c:88-149 | the result decodes the first 23 pending bytes; an accepted reply consumes 23 bytes, a rejected one 46 |
| Mercury200.ReadEnergy | zstack-lib/mercury200.c:88-149 | the method returns the result and leaves the input that `EnergyReply` specifies, and writes nothing |
| Mercury200.StoreTariffs | zstack-lib/mercury200.c:124-146 | the four accumulations store exactly `TariffsOf` of the buffer |
| Mercury200.SumTariff | zstack-lib/mercury200.c:124-128 | one cleared-then-accumulated tariff is the BCD value of its four bytes |
| Mercury200.EightDigits | zstack-lib/mercury200.c:124-146 | the weighted `from_bcd_to_dec` sum is the field's BCD value and fits the uint32 bound |
| AppData.ResetConfig | Source/zcl_app_data.c:145-154 | reset sets address 11111111, period 30, all three divisors 10 and all three multipliers 1 |
| AppData.ResetOverwritesAll | Source/zcl_app_data.c:145-154 | the reset result does not depend on the old configuration, and resetting twice equals resetting once |
| AppData.BootDiffersFromReset | Source/zcl_app_data.c:61-70 | at boot the current divisor is 100 and the power divisor 1, against 10 after reset; every other field agrees |
| AppData.Globals.constructor | Source/zcl_app_data.c:61-83 | at boot the configuration has its static values, and the current values and all tariffs are 0 |
| AppData.Globals.ResetAttributesToDefaultValues | Source/zcl_app_data.c:145-154 | the configuration becomes `ResetConfig` of the old one, and both caches are untouched |
| AppData.FindAttr | Source/zcl_app_data.c:89-117 | a position the lookup finds lies within the table |
| AppData.FindAttrSpec | Source/zcl_app_data.c:89-117 | the lookup finds the first record with the cluster and id, and finds none iff no record has them |
| AppData.AttrKeysUnique | Source/zcl_app_data.c:89-117 | no two records share a cluster and an attribute id |
| AppData.FindAttrAt | Source/zcl_app_data.c:89-117 | looking up a record's own key finds that record |
| AppData.ReadAttributeAt | Source/zcl_app_data.c:89-117 | reading a record's key yields the value of the field it points at |
| AppData.TierRecords | Source/zcl_app_data.c:111-114 | the four tier records carry tier ids 1-4, type uint32 and read-only access, and all point at `Energy_T1` |
| AppData.TierAttributeReadsT1 | Source/zcl_app_data.c:111-114 | reading tier attribute t+1 yields `Energy_T1` |
| AppData.TierAttributesReadT1 | Source/zcl_app_data.c:111-114 | reading any of the four tier attributes yields `Energy_T1` |
| AppData.AccessOfAttributes | Source/zcl_app_data.c:90-116 | device address and measurement period are exactly the writable attributes; voltage, current and power exactly the reportable ones |
| App.PhaseCycle | Source/zcl_app.c:194-251 | from phases 0-4 the counter goes one up, or from 4 back to 0, and the configuration is never touched |
| App.PortUseByPhase | Source/zcl_app.c:203-247 | only phases 0 and 2 write, one frame each; only phases 1 and 3 read |
| App.PowerHints | Source/zcl_app.c:203-250 | phases 0 and 2 add one HOLD and phases 1 and 3 one CONSERVE on either branch; the terminal phase adds no hint |
| App.CurrentCacheUpdate | Source/zcl_app.c:207-229 | phase 1 replaces the current-values cache with the decoded fields iff the reply's CRC matches, otherwise keeps it |
| App.EnergyCacheUpdate | Source/zcl_app.c:234-247 | phase 3 replaces the energy cache iff the CRC matches and T1 is not 0xFFFF, otherwise keeps it |
| App.ValidReadingDiscarded | Source/zcl_app.c:234-241 | a CRC-valid, valid-BCD reply with T1 bytes 00 06 55 35 decodes to 65535 and is discarded |
| App.TerminalReportsCache | Source/zcl_app.c:248-302 | the terminal phase resets the counter, stops and clears the read event, then reports the caches, and changes neither the caches nor the port |
| App.TierReadAndReport | Source/zcl_app.c:276-300 | the terminal report's tier n carries `Energy_Tn`, while an attribute read of every tier yields `Energy_T1` |
| App.CallAfterTerminalRestarts | Source/zcl_app.c:202-206 | a call after the terminal phase starts a new cycle and sends the current-values request again |
| App.FullCycle | Source/zcl_app.c:192-306 | five calls from phase 0 return to phase 0 after exactly two requests, 0x63 then 0x27, and report the caches the two reads left |
| App.CycleFromEnergyRequest | Source/zcl_app.c:230-302 | three calls from phase 2 send the energy request, cache the energy reply if valid, and report, ending at phase 0 |
| App.ReportOnlyArmsTimer | Source/zcl_app.c:308 | `zclApp_Report` arms the read timer with period 500 and changes nothing else |
| App.FirstPendingIndex | Source/zcl_app.c:146-190 | the reference priority: the first position whose event is pending, with none pending before it |
| App.HandledEventPriority | Source/zcl_app.c:146-190 | the served event is the first pending one in the order SYS_EVENT_MSG, report, save, read, or none when none of the four is pending |
| App.EventLoopClearsOneBit | Source/zcl_app.c:171-189 | the returned mask is the input with exactly the served bit cleared, or 0 when no event is served |
| App.ZclApp.constructor | Source/zcl_app.c:194 | the phase counter starts at 0 |
| App.ZclApp.ReadSensors | Source/zcl_app.c:192-306 | one call changes the task, globals and port as `ReadSensorsStep` specifies |
| App.ZclApp.SendRequest | Source/zcl_app.c:203-233 | the request branches as `ReadSensorsStep` specifies |
| App.ZclApp.ReceiveCurrentValues | Source/zcl_app.c:207-229 | the current-values branch as `ReadSensorsStep` specifies |
| App.ZclApp.ReceiveEnergy | Source/zcl_app.c:234-247 | the energy branch as `ReadSensorsStep` specifies |
| App.ZclApp.SendReports | Source/zcl_app.c:248-302 | the default branch as `ReadSensorsStep` specifies |
| App.ZclApp.Report | Source/zcl_app.c:308 | `zclApp_Report` changes the state as `ReportStep` specifies |
| App.ZclApp.EventLoop | Source/zcl_app.c:146-190 | the returned mask is `EventLoopResult` of the input, and the state changes as `Dispatch` specifies |

## Left out

- The UART hardware, `zclApp_InitMercuryUart` and `HalUARTOpen` are not modelled. A read is modelled as taking whatever bytes have arrived, with no timeout.
- LREP logging, including the byte dumps of the driver, is left out. It is debug output.
- OSAL timers, event clearing, the power manager and `zcl_SendReportCmd` are recorded as effects in a log, in call order. Scheduling, timer expiry and interleaving are not modelled.
- `osal_mem_alloc` failure is not modelled: a report is always sent. When the allocation fails the source skips that report.
- App.ZclApp.EventLoop: the SYS_EVENT_MSG branch is one `DrainMessages` effect. The message queue, key handling (`zclApp_HandleKeys`) and message deallocation are not modelled.
- App.ZclApp.EventLoop: the save branch is one `SaveAttributes` effect. NV storage (`zclApp_SaveAttributesToNV`, `zclApp_RestoreAttributesFromNV`) is a foreign call and is not modelled.
- The driver's function-pointer table (`zclMercury_t`) is replaced by direct calls into module `Mercury200`.
- App.ZclApp.ReadSensors: the source's switch is one method. Here each branch is its own method. The request and read branches each perform the post-increment themselves; the terminal branch only sets the counter to 0, since the source overwrites its post-increment with that assignment.
- The date-code string comes from a generated header, so it is a parameter of the attribute read.
- The ZCL stack's own attribute lookup is not part of this model. A read is modelled as the first table record with the cluster and id, and those are unique.
- ZCL character strings are modelled as text without their length prefix.
- The timer period `MeasurementPeriod * 1000` in the parts of `Source/zcl_app.c` outside this model is left out. Its overflow depends on the target's `int` width.
- ZCL registration, `zclApp_ReadWriteAuthCB`, `zclApp_BasicResetCB` beyond the reset itself, the endpoint descriptor, LEDs and delays are left out. They are stack plumbing.
- The commented-out energy decode and `bdb_RepChangedAttrValue` calls are left out. They are not compiled.
- Mercury200.StoreTariffs: requires the incoming record's T0 to be 0, which holds because it is always the invalid record. Each tariff is accumulated in a local and all four are stored together at the end. The source accumulates directly in the result's fields; the final values are the same.
- Mercury200.CurrentFields: the power is the exact six-digit sum taken modulo 2^16 into the int16 field. The width of the target's `int` is not known here. With a 16-bit `int`, the product `(response[9] % 16) * 10000` overflows for nibbles of 4 or more; the stored value still agrees only if signed overflow wraps, and the model assumes it does.
- App.PowerHints: the power hints go to the effect log and the frames to the port's transmit log. These are two separate logs, so the order between a HOLD hint and the request written in the same call (HOLD first in the source) is not recorded.
