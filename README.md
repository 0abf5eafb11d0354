# CyberGear asynchronous motor controller, modelled in Dafny

This project models the byte-level core of `CANMotorAsyncController` in
`cyberGearAsyncAPI.py`. The controller drives a geared CAN motor through a
USB-to-CAN serial adapter. The model covers:

- **Transcoder**: the adapter's envelope. A 13-entry CAN frame (4 identifier
  bytes, a length byte that must be 8, 8 data bytes) travels as a 17-entry
  packet framed by `AT` and CR LF (`can_to_uart`, `uart_to_can`).
- **Header**: how `organize_can_message` packs the communication type,
  `cmd_data` and the motor id into the four identifier entries. Three of
  those entries (0, 1 and 3) are not masked to 8 bits, so entries are
  unbounded integers. Also how the reader splits an identifier with the
  5/2/6/8/8/3-bit feedback layout, written with explicit shifts and masks.
- **Codec**: `format_data`. It decodes and encodes lists of typed scalars
  (`u8 s8 u16 s16 u32 s32 f`) as little-endian bytes, with a moving cursor,
  zero padding to four bytes and the early `[]` on an unknown tag. A float
  is kept as its opaque 32-bit pattern.
- **Quantize**: `_float_to_uint`, `_uint_to_float` and `_linear_mapping`
  over exact reals.
- **Feedback**: `motor_status_parser`, which gives position, velocity,
  torque and temperature from four big-endian 16-bit codes.
- **Controller**: the controller class. Its fields are `MOTOR_ID`,
  `Motor_Status`, `IndexValue` and `READ`, plus the log of every packet
  written to the serial port. The reader loop's step is a method over one
  received line. The commands (enable, disable, set zero, set mode,
  write/read property) append the packets they write and return the
  exception they raise, if any.

Python exceptions are the `Raise` case of a `Result`. Python's `|`, `>>` and
`& 0xff` on non-negative integers are a bitwise `Or`, integer division and
`% 256`. Python's `int()` of a float truncates toward zero.

## Model

| member | source | states |
|---|---|---|
| Transcoder.CanToUart | cyberGearAsyncAPI.py:173-182 | a 13-entry frame whose entry 4 is 8 becomes `0x41 0x54`, the frame, `0x0d 0x0a`; any other input gives `[]` |
| Transcoder.UartToCan | cyberGearAsyncAPI.py:186-191 | a 17-entry packet whose entry 6 is 8 gives its entries 2..14; any other input gives nothing (`None`) |
| Transcoder.UnwrapWrap | cyberGearAsyncAPI.py:173-191 | the packet built from an accepted frame is accepted back and yields the same frame |
| Transcoder.WrapUnwrap | cyberGearAsyncAPI.py:173-191 | an accepted packet's middle is an accepted frame, and rewrapping it rebuilds the packet exactly when both markers are present |
| Header.OrganizeCanMessage | cyberGearAsyncAPI.py:193-202 | with `data_num == 8`: 13 entries, namely the four header entries, the length 8 and `data[0..7]`; IndexError when `cmd_data` has fewer than 2 or `data` fewer than 8 entries |
| Header.HeaderBytes | cyberGearAsyncAPI.py:195-198 | with mode < 32 and ids < 256, the header entries mod 256 are the top 3 bits of each id closing one byte and its low 5 bits opening the next |
| Header.HeaderPacking | cyberGearAsyncAPI.py:195-198 | the header entries mod 256, read big-endian, are `(mode*2^24 + cmd_data[1]*2^16 + cmd_data[0]*2^8 + MOTOR_ID)*8 + 4` |
| Header.ExtendedIdIsOr | cyberGearAsyncAPI.py:195-198 | with every field in range, `((mode<<24) | (cmd_data[1]<<16) | (cmd_data[0]<<8) | MOTOR_ID) << 3 | 4` equals that sum, so the header bytes are the shifted, tagged extended identifier |
| Header.HeaderEntriesAreBytes | cyberGearAsyncAPI.py:195-198 | all four header entries are below 256 if and only if `cmd_data[1] < 32` and the motor id < 32 |
| Header.HeaderAsSums | cyberGearAsyncAPI.py:195-197 | with ids below 256, the `|` in each header entry joins disjoint bits and equals the sum |
| Bits.OrDisjoint | cyberGearAsyncAPI.py:195-197 | `(a << k) | b` equals `a * 2^k + b` whenever `b < 2^k` |
| Header.ParseFeedbackHeader | cyberGearAsyncAPI.py:75-82 | each of the six feedback fields lies within its bit width (5, 2, 6, 8, 8, 3) |
| Header.FeedbackFieldsOfWord | cyberGearAsyncAPI.py:75-82 | the six fields, weighted by their bit positions, sum to the big-endian 32-bit word, so each field is its bit range, most significant first |
| Header.CommandHeaderParsesBack | cyberGearAsyncAPI.py:195-198 | a command header read with the feedback layout gives back the command's mode as `com_mode`, `cmd_data[1]` split 2/6, `cmd_data[0]`, the motor id and the tag 0b100 |
| Bits.FromLEToLE | cyberGearAsyncAPI.py:446 | writing a number that fits into w little-endian bytes and reading them back gives the number |
| Bits.FromBE | cyberGearAsyncAPI.py:205 | a big-endian reading of n bytes is below 256^n |
| Codec.Words | cyberGearAsyncAPI.py:395 | `format.split()`: no more words than characters, each word non-empty and free of whitespace (`WordsOfToken` gives the single-word case) |
| Codec.WordsOfToken | cyberGearAsyncAPI.py:395 | a non-empty string without whitespace splits into itself alone |
| Codec.ParseTagByName | cyberGearAsyncAPI.py:399-414 | reading a tag character by character agrees with the chain of comparisons against `f u16 s16 u32 s32 u8 s8` |
| Codec.DecodeScalar | cyberGearAsyncAPI.py:420 | one unpacked field always lies in its tag's range |
| Codec.EncodeScalar | cyberGearAsyncAPI.py:446 | `struct.pack` of one in-range field gives exactly the tag's width in bytes, least significant first; `ScalarRoundTrip` and `DecodeOneFloat` show `DecodeScalar` reads it back |
| Codec.ScalarRoundTrip | cyberGearAsyncAPI.py:420-446 | an integer in range, packed and unpacked with the same integer tag, comes back unchanged |
| Codec.ReadBytes | cyberGearAsyncAPI.py:417-419 | the inner read loop gives the `width` bytes at the cursor, or IndexError when the data ends first |
| Codec.Decode | cyberGearAsyncAPI.py:395-424 | decoding returns what the tag-by-tag walk over the data produces: the values, `[]` after an unknown tag, or IndexError |
| Codec.DecodeScanSucceeds | cyberGearAsyncAPI.py:397-424 | decoding handles every tag if and only if every tag is known and the data holds the sum of their widths; it then yields one value per tag |
| Codec.DecodeScanItems | cyberGearAsyncAPI.py:415-420 | the k-th decoded value is the k-th tag read at the offset where the widths of the tags before it end, so the cursor moves by exactly each tag's width |
| Codec.DecodeUnknownTag | cyberGearAsyncAPI.py:421-423 | an unknown tag ends decoding with `[]`, unless an earlier tag already ran past the data (IndexError); with 4 bytes per tag available it is always `[]` |
| Codec.AppendBytes | cyberGearAsyncAPI.py:447-448 | the inner copy loop appends exactly the packed bytes |
| Codec.PadBytes | cyberGearAsyncAPI.py:452-454 | the padding loop extends the output with zeros to four bytes and leaves longer output alone |
| Codec.Encode | cyberGearAsyncAPI.py:425-455 | encoding returns nothing when the counts of tags and values differ, otherwise the walk's packed bytes padded to four, `[]` after an unknown tag, or `struct.error` |
| Codec.EncodeScanSucceeds | cyberGearAsyncAPI.py:425-451 | encoding packs every tag if and only if every tag is known and every value fits it; the bytes then number the sum of the tags' widths |
| Codec.EncodeUnknownTag | cyberGearAsyncAPI.py:449-451 | an unknown tag ends encoding with `[]`, unless an earlier value is out of range; when every known tag's value fits it is always `[]` |
| Codec.EncodeThenDecode | cyberGearAsyncAPI.py:397-451 | integers packed under integer tags decode back to the same integers from wherever the packed bytes sit in a buffer |
| Codec.EncodeOneInteger | cyberGearAsyncAPI.py:425-455 | one in-range integer with an integer tag encodes to exactly 4 bytes, namely its 1, 2 or 4 little-endian bytes then zeros, and decoding them with the same tag gives `[value]` |
| Codec.EncodeOne | cyberGearAsyncAPI.py:443-454 | one value under a known tag gives its packed bytes padded to 4, or `struct.error` when it is out of the tag's range |
| Codec.DecodeOneFloat | cyberGearAsyncAPI.py:401-420 | four bytes decoded with `f` give exactly one float, the 32-bit pattern they hold least significant byte first |
| Quantize.TopCode | cyberGearAsyncAPI.py:134 | `(1 << bits) - 1` is at least 1 for a positive width |
| Quantize.FloatToUint | cyberGearAsyncAPI.py:118-134 | `_float_to_uint`: clamp, scale onto the codes and truncate; with `x_min < x_max` the code lies in `[0, 2^bits-1]` (ends and round trip in `FloatToUintRange`, `QuantizeRoundTrip`) |
| Quantize.FloatToUintRange | cyberGearAsyncAPI.py:131-134 | with `x_max > x_min`, quantising gives an integer in `[0, 2^bits-1]`; values at or below `x_min` give 0 and values at or above `x_max` give `2^bits-1` |
| Quantize.FloatToUintSwapped | cyberGearAsyncAPI.py:131-134 | with the bounds swapped the clamp pins every value to `x_min` and quantising gives 0 |
| Quantize.UintToFloat | cyberGearAsyncAPI.py:136-152 | `_uint_to_float`: clamp the code and map it back; with `x_min <= x_max` the value lies in `[x_min, x_max]` (ends in `UintToFloatRange`) |
| Quantize.UintToFloatRange | cyberGearAsyncAPI.py:149-152 | dequantising gives a value in `[x_min, x_max]`; codes at or below 0 give `x_min` and codes at or above the top code give `x_max` |
| Quantize.QuantizeRoundTrip | cyberGearAsyncAPI.py:118-152 | a value in range, quantised then dequantised, comes back at most one code step `(x_max-x_min)/(2^bits-1)` below where it was, never above |
| Quantize.LinearMapping | cyberGearAsyncAPI.py:154-170 | `_linear_mapping`: a code in `[0, target_max-target_min]` maps into `[value_min, value_max]` (ends and monotonicity in `LinearMappingRange`, `LinearMappingMonotone`) |
| Quantize.LinearMappingIsUnscale | cyberGearAsyncAPI.py:154-170 | `_linear_mapping` is the dequantising map over the target width |
| Quantize.LinearMappingRange | cyberGearAsyncAPI.py:170 | a code in `[0, target_max-target_min]` maps into `[value_min, value_max]`, with the first and last code on the ends |
| Quantize.LinearMappingMonotone | cyberGearAsyncAPI.py:170 | a larger code never maps to a smaller value |
| Feedback.Slice | cyberGearAsyncAPI.py:205-211 | Python slicing with non-negative bounds: the plain subsequence when in range, the tail `s[i..]` when only the end passes the length, empty when reversed or when the start passes the length |
| Feedback.FieldIsCode | cyberGearAsyncAPI.py:205-211 | a field of at most two bytes read big-endian is a code in `[0, 65535]` |
| Feedback.MotorStatusParser | cyberGearAsyncAPI.py:204-213 | four readings: position within ±4·3.14, velocity within ±30, torque within ±12 and temperature within `[0, 6553.5]` |
| Feedback.StatusFields | cyberGearAsyncAPI.py:204-213 | on 8 payload bytes, each reading is the linear mapping of bytes 2k and 2k+1 read most significant first, and the temperature is that code / 10 |
| Feedback.FeedbackMappingIsDequantise | cyberGearAsyncAPI.py:206-210 | the feedback mapping of a 16-bit code equals `_uint_to_float` on the same symmetric range |
| Feedback.FeedbackRoundTrip | cyberGearAsyncAPI.py:204-213 | a value quantised to 16 bits and read through the feedback mapping lands at most one step `2·max/65535` below where it was |
| Controller.IndexOf | cyberGearAsyncAPI.py:284 | `list.index`: the first position holding the element, or nothing (ValueError) exactly when it is absent |
| Controller.TypeListNamesTags | cyberGearAsyncAPI.py:283-285 | a type is in `['u8','s8','u16','s16','u32','s32','f']` if and only if `format_data` knows the tag |
| Controller.ParamIndexBytes | cyberGearAsyncAPI.py:277-278 | the two index bytes of a parameter access give back the index modulo 2^16 |
| Controller.CommandPacketDecodes | cyberGearAsyncAPI.py:249-252 | a command packet is accepted by `uart_to_can`, carries the payload at entries 7..14, and its identifier parses back to the command's type |
| Controller.PacketLine | cyberGearAsyncAPI.py:227-228 | a command packet reduced to bytes is a 17-byte line carrying the payload at bytes 7..14 and the command's type as `com_mode` |
| Controller.PacketAbsorbed | cyberGearAsyncAPI.py:227-232 | such a line, given to the reader, stores the status parsed from its payload for type 2, the float in its last four payload bytes for type 17, and nothing otherwise |
| Controller.Absorb | cyberGearAsyncAPI.py:227-232 | one turn of the reader loop: a line not 17 bytes long changes nothing, and a turn changes at most one of status and index value, a changed status having four readings (cases in `AbsorbCases`) |
| Controller.AbsorbCases | cyberGearAsyncAPI.py:227-232 | the reader step: a line not 17 bytes long changes nothing; type 2 replaces only the status with four readings of bytes 7..14; type 17 replaces only the index value with what decoding bytes 11..14 as `f` yields; other types change nothing |
| Controller.ReplayStatus | cyberGearAsyncAPI.py:222-232 | after a run of lines the status is the one parsed from the last status line, or the old status if there was none |
| Controller.ReplayIndexValue | cyberGearAsyncAPI.py:222-232 | after a run of lines the index value is the float of the last single-parameter reply, or the old value if there was none |
| Controller.PackedValueDecodes | cyberGearAsyncAPI.py:285 | the packed value of a parameter write decodes back, under the same type, to the value written |
| Controller.ParamPayloadRoundTrip | cyberGearAsyncAPI.py:276-285 | a table write payload has 8 bytes: the index modulo 2^16, the type's position in the list, and the value, which the same type decodes back |
| Controller.MotorController.constructor | cyberGearAsyncAPI.py:69-74 | `READ` is 0, `Motor_Status` is three zeros, `IndexValue` is 0 and nothing is written yet |
| Controller.MotorController.HandleLine | cyberGearAsyncAPI.py:227-232 | the step updates status and index value as `Absorb` does (see `AbsorbCases`) and touches no other field |
| Controller.MotorController.Listen | cyberGearAsyncAPI.py:222-232 | over a run of lines the fields end as the fold of the step over the lines (see `ReplayStatus`, `ReplayIndexValue`) |
| Controller.MotorController.SendCommand | cyberGearAsyncAPI.py:249-252 | appends exactly one packet, the wrapped frame of the command, or raises IndexError and writes nothing |
| Controller.MotorController.Enable | cyberGearAsyncAPI.py:345-354 | one type-3 packet with `cmd_data [253, 0]` and a zero payload |
| Controller.MotorController.Disable | cyberGearAsyncAPI.py:357-367 | one type-4 packet with `cmd_data [0, 0]` and a zero payload |
| Controller.MotorController.SetZeroPosition | cyberGearAsyncAPI.py:370-380 | the disable packet, then a type-6 packet whose payload is 1 followed by seven zeros |
| Controller.MotorController.WriteProperty | cyberGearAsyncAPI.py:254-293 | below 0x7000: ValueError for a type not in the list, otherwise the type-8 write packet with the type's position in byte 2, then the type-4 stop packet, then AttributeError; from 0x7000: one type-18 packet; the encoder's `struct.error`, a `None` result (TypeError) or a short payload (IndexError) write nothing |
| Controller.MotorController.SendParameter | cyberGearAsyncAPI.py:286-292 | a payload shorter than 8 raises IndexError and writes nothing; a table write (type 8) logs its packet and the type-4 stop packet, then raises AttributeError; any other type logs its one packet |
| Controller.MotorController.SetMode | cyberGearAsyncAPI.py:327-342 | one type-18 packet with payload `05 70 00 00 mode 00 00 00` for a mode in 0..255; a negative mode or one above 255 raises `struct.error` and writes nothing |
| Controller.RunModeEncoding | cyberGearAsyncAPI.py:342 | the run mode as one `u8`: a mode in 0..255 encodes to `mode 00 00 00` behind the index bytes `05 70 00 00`, any other integer raises `struct.error` |
| Controller.MotorController.ReadProperty | cyberGearAsyncAPI.py:295-324 | below 0x7000 ValueError for a type not in the list, with nothing changed; otherwise `READ` becomes 1 and one request goes out, type 9 with the type's position in byte 2 or type 17 from 0x7000 |

## Left out

- Serial I/O is replaced by the `written` log: `reset_input_buffer`, `readline_async`, `write_async`, and the close/open/retry of `async_write_data`. The serial library's treatment of entries of 256 or more (a header entry such as `127 << 3 | 4 = 1020`) is not modelled; the packet is logged as the list handed to it.
- The asyncio task lifecycle (`create_task`, `cancel_serial_read_handle`, `open_serial_read_handle`, `CancelledError`, the `finally` clause) is left out: it is concurrency. The reader loop is modelled as a fold over received lines. No modelled line raises, so the model has no path that ends the task early.
- `time.sleep`, `print` and `logging` are left out: they have no effect on the modelled state.
- Floats: tag `f` is a 32-bit pattern that is not interpreted; `struct.pack('f', …)` of a Python float is not modelled. The quantisation and linear mapping run over exact reals, not IEEE doubles.
- Quantize.FloatToUint: a zero span (`x_max == x_min`) raises ZeroDivisionError in the source; the function requires a non-zero span instead.
- Quantize.UintToFloat: `bits == 0` divides by zero in the source; the function requires `bits >= 1`.
- Quantize.LinearMapping: equal targets divide by zero in the source; the function requires distinct targets.
- Codec.Encode: requires each value to be of its tag's kind (an integer for integer tags, a float pattern for `f`); `int()` on a float value and the in-place overwrite of the caller's `data[i]` are not modelled.
- Codec.Words: splits on ASCII whitespace only; Unicode whitespace is not modelled.
- `format_data` with a `type` other than `"decode"` or `"encode"` (it returns `None`) is not modelled.
- Controller.PackedValueDecodes: for type `f` the value is already a single-precision bit pattern, so it decodes back exactly; a Python float passed to the source comes back rounded to single precision, which the model does not capture.
- Controller.ParamPayloadRoundTrip: the same holds for its `f` case; the exact round trip covers the 32-bit pattern, not a Python float.
- Controller.MotorController.WriteProperty: requires the value to be of the type's kind, as `Codec.Encode` does, whenever the encoder is reached.
- The `data_num != 8` branch of `organize_can_message` is not modelled; every caller passes 8.
- `rtr` is ignored by the source and is not a parameter.
- `PARAM_TABLE`, `PARAMETERS`, `RunModes`, `WRITE_STRUCT`, `MAIN_CAN_ID`, `READ_FLAG`, `ERROR_FLAG`, the P/V/T/KP/KD limits and `TORQUE_CONSTANT` are constants that the modelled operations never read.
- The motor id, indices and `cmd_data` entries are natural numbers; negative ids are not modelled.
- The `construct` library is replaced by explicit shifts and masks for the feedback layout.
