# Modbus RTU master — a Dafny model

This project models the core of a small Python Modbus RTU master:

- **Frames.** `RtuMessage` holds a frame's slave address, function code, data field and CRC.
  - `encode` recomputes the CRC and lays the frame out for the line.
  - `decode` takes a received frame apart.
  - `check_crc` compares the stored CRC with the one the fields call for.
- **CRC-16/MODBUS.** The CRC is table-driven, starts from 0xFFFF and travels low byte first, as in the MODBUS over Serial Line Specification V1.02, section 2.5.1.2.
- **Reception.** A state machine walks the response byte by byte through five states:
  - the address, which waits through silence and foreign bytes;
  - the function code, which must echo the request;
  - an optional byte count;
  - the data bytes, whose number the function code decides;
  - two CRC bytes.
- **Commands.** `Cmd` builds the requests: write one coil, write all coils, read coils, read discrete inputs, read input registers, preset one register and preset several registers.
- **Responses.** `RespAnalyzer` reads the payload of each response.

## Layout

- `crc.dfy` (module `Crc`) has the table-driven CRC and a loop that computes it. It also has:
  - proof that the 256-entry table is the reflected polynomial 0xA001;
  - proof that the table-driven CRC equals the bit-by-bit CRC;
  - concatenation lemmas and two check values.
- `bytes.dfy` (module `Bytes`) has big-endian integer/byte conversions (`to_bytes`, `from_bytes`).
- `frame.dfy` (module `Frame`) has:
  - the function codes and the response-shape table;
  - the pure frame layout functions;
  - class `RtuMessage`, whose `Encode` and `Decode` update its fields in place.
- `receive.dfy` (module `Receive`) has:
  - the receive states and one step of the machine (`Handle`);
  - the machine over a whole sequence of reads (`Run`);
  - soundness and completeness of reception;
  - class `Client` with `Send` and `Recv`.
- `cmd.dfy` has modules `Cmd` (request builders) and `RespAnalyzer` (response readers).

The serial line is a finite sequence of reads. Each read is either one byte (`Byte(b)`) or nothing before the read timeout (`Silence`). `Client.incoming` holds what the line will still deliver. `Client.written` holds everything sent.

## Model

| member | source | states |
|---|---|---|
| Crc.CrcStep | src/modbus_rtu_client/base.py:70-71 | One table step (index from the byte and the register's low byte, entry folded into the register shifted down) equals one byte of the bit-by-bit CRC, for every register and byte |
| Crc.CrcFrom | src/modbus_rtu_client/base.py:68-72 | Folding the bytes into a register with the table gives, from any register and over any byte sequence, the bit-by-bit CRC of those bytes |
| Crc.Crc16 | src/modbus_rtu_client/base.py:66-72 | `cal_crc` is CRC-16/MODBUS: it equals the bit-by-bit reference started from 0xFFFF, and the CRC of no bytes is 0xFFFF |
| Crc.CalCrc | src/modbus_rtu_client/base.py:66-72 | The byte loop returns the table-driven CRC of its input (loop invariant: CRC of the rest from the running register equals the CRC of the whole) |
| Crc.CrcFromConcat | src/modbus_rtu_client/base.py:69-71 | Running the CRC over `s + t` is running it over `t` from the register left by `s` |
| Crc.CrcAppend | src/modbus_rtu_client/base.py:69-71 | Appending one byte applies one table step to the CRC of the prefix |
| Crc.CrcFromCons | src/modbus_rtu_client/base.py:69-71 | The first byte of a frame is one table step before the rest |
| Crc.TableIsReflectedA001 | src/modbus_rtu_client/base.py:15-48 | Each of the 256 table entries is its index shifted right eight times through the reflected polynomial 0xA001 |
| Crc.Shift8Split | src/modbus_rtu_client/base.py:70-71 | Eight polynomial shifts of a register split into its high byte moved down and the shifts of its low byte (why the table works) |
| Crc.CrcWriteDoVector | tests/test_modbus.py:5-7 | The CRC of the write-coil request FE 05 00 00 FF 00 is 0x3598 |
| Crc.CrcReadCoilsResponseVector | src/modbus_rtu_client/cmd.py:230-240 | The CRC of the read-coils response FE 01 01 0F is 0x9821 |
| Bytes.ToByte | src/modbus_rtu_client/cmd.py:118-121 | A one-byte `to_bytes` of a value below 256 gives that value back as a byte |
| Bytes.ToBytes2 | src/modbus_rtu_client/cmd.py:24 | A two-byte big-endian `to_bytes` reads back to the same integer through `from_bytes` |
| Bytes.Word | src/modbus_rtu_client/cmd.py:278 | `hi * 256 + lo` is a 16-bit value whose high and low bytes are `hi` and `lo` |
| Bytes.FromBytes | src/modbus_rtu_client/cmd.py:309 | A big-endian `from_bytes` of `n` bytes is a non-negative value below 256 to the power `n` |
| Bytes.FromBytesPair | src/modbus_rtu_client/cmd.py:309 | A two-byte big-endian `from_bytes` is `hi * 256 + lo` |
| Bytes.ToBytes2OfWord | src/modbus_rtu_client/cmd.py:24 | Encoding a register assembled from two bytes gives those two bytes back |
| Frame.FunctionCode.Value | src/modbus_rtu_client/base.py:75-82 | Every request function code has an entry in the response-shape table |
| Frame.ShapeOf | src/modbus_rtu_client/base.py:50-63 | The response-shape table marks exactly the codes 0x01, 0x02, 0x03, 0x04 and 0x11 as byte-counted; every other known code has a fixed data length between 1 and 6 |
| Frame.CrcBytes | src/modbus_rtu_client/base.py:175-177 | The two CRC bytes are little-endian: the second byte shifted up, or-ed with the first, is the CRC |
| Frame.DecodedData | src/modbus_rtu_client/base.py:130-136 | The data field `decode` takes starts at byte 2; with CRC it is four bytes shorter than the frame (empty for frames under four bytes), without CRC two bytes shorter |
| Frame.DecodedCrc | src/modbus_rtu_client/base.py:133-134 | The CRC field `decode` takes is two bytes that, after the rest of the frame, make up the whole frame |
| Frame.EncodeThenDecode | src/modbus_rtu_client/base.py:122-136 | Encoding with CRC and then decoding gives back address, function code and data, and the frame is four bytes longer than its data; without CRC the data also comes back |
| Frame.DecodeThenEncode | src/modbus_rtu_client/base.py:122-136 | Decoding then re-encoding reproduces the received bytes: with CRC for frames of four bytes or more, without CRC for every frame |
| Frame.DecodedCheckCrc | src/modbus_rtu_client/base.py:127-139 | After decoding with CRC, `check_crc` holds exactly when the last two bytes are the CRC of the bytes before them |
| Frame.CrcOfCheckedFrameIsZero | src/modbus_rtu_client/base.py:175-177 | Running the CRC over a frame followed by its own little-endian CRC leaves zero |
| Frame.CrcBytesCancel | src/modbus_rtu_client/base.py:175-177 | Folding a register's own two CRC bytes, low byte first, into it leaves zero |
| Frame.OnlyCrcBytesCancel | src/modbus_rtu_client/base.py:175-177 | Any two bytes that fold a register to zero are that register's own CRC bytes |
| Frame.CrcTwoBytes | src/modbus_rtu_client/base.py:69-71 | The CRC over a frame body and two more bytes is two table steps from the CRC of the body |
| Frame.CheckedIffResidueZero | src/modbus_rtu_client/base.py:138-139 | A CRC field equals the CRC the body calls for exactly when it has two bytes and the CRC over the body followed by it is zero |
| Frame.RtuMessage.constructor | src/modbus_rtu_client/base.py:102-112 | A new message holds the given address, function code and data and an empty CRC |
| Frame.RtuMessage.Empty | src/modbus_rtu_client/base.py:102-112 | A message built without arguments has empty data and an empty CRC |
| Frame.RtuMessage.Raw | src/modbus_rtu_client/base.py:171-173 | The frame without its CRC is two bytes longer than the data: address, then function code, then the data |
| Frame.RtuMessage.CalculatedCrcBytes | src/modbus_rtu_client/base.py:175-177 | The calculated CRC is two bytes that bring the CRC over the fields followed by them to zero |
| Frame.RtuMessage.CheckCrc | src/modbus_rtu_client/base.py:138-139 | `check_crc` holds exactly when the stored CRC has two bytes and the CRC over address, function code, data and stored CRC is zero |
| Frame.RtuMessage.Length | src/modbus_rtu_client/base.py:179-186 | The length is the number of bytes of address, function code, data and stored CRC (at least two) |
| Frame.RtuMessage.Encode | src/modbus_rtu_client/base.py:122-125 | With CRC the stored CRC becomes the calculated one, so the message then passes `check_crc` and is four bytes longer than its data. Without CRC the stored CRC is kept. The result is the raw bytes followed by the stored CRC. Only the CRC field changes |
| Frame.RtuMessage.Decode | src/modbus_rtu_client/base.py:127-136 | Address and function code are the first two bytes. With CRC, the data is the slice between byte 2 and the last two bytes (empty below four bytes) and the CRC is the last two bytes. Without CRC, the data runs to the end and the CRC is kept |
| Receive.Handle | src/modbus_rtu_client/base.py:226-299 | One read either leaves the buffer alone or appends exactly the byte read; an abort appends nothing. Silence keeps the address state waiting and aborts every later state with a timeout in that state. In the address state the machine moves on exactly when the byte is the request's address, and otherwise stays put with the buffer unchanged. In the function-code state a byte other than the request's code aborts with a mismatch naming both codes, buffer unchanged |
| Receive.AfterFunc | src/modbus_rtu_client/base.py:252-256 | The state after the function code agrees with a buffer holding just the address and function code: the byte-count state for byte-counted codes, otherwise the data state expecting the fixed length |
| Receive.HandleKeepsInv | src/modbus_rtu_client/base.py:240-299 | Every step keeps the buffer consistent with the state (address and function code in front, data bytes counted against the length the function code or byte count calls for); a completing step leaves a complete frame |
| Receive.DataKeepsInv | src/modbus_rtu_client/base.py:268-284 | A data byte never ends or aborts the reception and keeps the buffer consistent with the next state |
| Receive.CrcKeepsInv | src/modbus_rtu_client/base.py:287-299 | A CRC byte keeps the buffer consistent; the second one completes a frame |
| Receive.Run | src/modbus_rtu_client/base.py:319-327 | The receive loop over a sequence of reads; when it completes or aborts, what remains of the line is a proper suffix of it (the loop consumed at least one read) |
| Receive.RunFinishedIsFrame | src/modbus_rtu_client/base.py:319-327 | Soundness: whatever the line delivers, a completed frame starts with the request's address and function code, has the data length its function code (or its byte count) calls for, and ends with two CRC bytes |
| Receive.RunCons | src/modbus_rtu_client/base.py:322-325 | A run over one read and more is one state step, then the run over the rest from the new state and buffer, or the end the step reports |
| Receive.AsReads | src/modbus_rtu_client/base.py:324 | A gap-free delivery has one read per byte |
| Receive.AsReadsConcat | src/modbus_rtu_client/base.py:324 | Delivering two byte strings one after the other is delivering their concatenation |
| Receive.RunCrcCompletes | src/modbus_rtu_client/base.py:287-299 | From the CRC state, two bytes complete the frame and leave the rest of the line |
| Receive.RunDataBytes | src/modbus_rtu_client/base.py:268-284 | From `DataRecvState(n)`, delivering the data bytes it expects (at least one) reaches the CRC state with those bytes appended to the buffer |
| Receive.RunDataCompletes | src/modbus_rtu_client/base.py:268-299 | From `DataRecvState(n)`, the expected data bytes and two CRC bytes complete the frame |
| Receive.RunCountedCompletes | src/modbus_rtu_client/base.py:259-299 | From the byte-count state, a count byte, that many data bytes and two CRC bytes complete the frame |
| Receive.RunHeader | src/modbus_rtu_client/base.py:226-256 | Address then function code bring the machine to the state the function code calls for |
| Receive.RunCompletes | src/modbus_rtu_client/base.py:319-327 | Completeness: a well-shaped response for the request delivered without gaps is received byte for byte, and the reads after it stay on the line |
| Receive.RunSkipsNoise | src/modbus_rtu_client/base.py:226-232 | Silence and bytes other than the address before a response do not change the outcome |
| Receive.RunRejectsOtherFunction | src/modbus_rtu_client/base.py:240-249 | A response with the right address and another function code (an exception response, say) is given up at its second byte with a function-code mismatch |
| Receive.ResponseIsReceived | src/modbus_rtu_client/base.py:319-335 | A well-shaped response with its correct CRC, after any noise, is received exactly and passes the CRC check that follows reception |
| Receive.CompleteFrameDecodes | src/modbus_rtu_client/base.py:327-330 | A completed frame decoded with CRC has a well-shaped data field, re-encodes to itself, and passes `check_crc` exactly when its trailing CRC is right |
| Receive.DecodeChecked | src/modbus_rtu_client/base.py:327-335 | A completed frame is decoded into a new message, which is kept exactly when the frame's CRC is valid; a kept message carries the request's address and function code, has a well-shaped data field, passes `check_crc` and re-encodes to the frame |
| Receive.Client.constructor | src/modbus_rtu_client/base.py:303-312 | A client starts with the given line and CRC setting and has written nothing |
| Receive.Client.Send | src/modbus_rtu_client/base.py:314-317 | The encoded message is appended to what was written and its length is returned. The message's CRC is recomputed only when CRC is enabled; its other fields and the incoming line are unchanged |
| Receive.Client.Recv | src/modbus_rtu_client/base.py:319-335 | The result follows the state machine over the line. Reads running out give "not finished". An abort gives its reason. A completed frame is decoded with CRC, always, and returned only when its CRC checks; otherwise the result is a CRC-check failure. A returned response is new, carries the request's address and function code, has a well-shaped data field, passes `check_crc`, and re-encodes to the received frame. Nothing is written |
| Cmd.TwoFields | src/modbus_rtu_client/cmd.py:117-121 | Four data bytes are two big-endian 16-bit fields that read back to the given values |
| Cmd.Fill | src/modbus_rtu_client/cmd.py:52-53 | The coil fill is `k` bytes, each FF when switching on and 00 when switching off |
| Cmd.PackWords | src/modbus_rtu_client/cmd.py:176-178 | Register values pack into two bytes each |
| Cmd.PackWordsSnoc | src/modbus_rtu_client/cmd.py:176-178 | Packing one more register appends its two big-endian bytes |
| Cmd.WriteDoData | src/modbus_rtu_client/cmd.py:23-25 | The force-single-coil data is the coil address in two big-endian bytes, then FF 00 for on or 00 00 for off |
| Cmd.WriteAllDoData | src/modbus_rtu_client/cmd.py:47-53 | The force-multiple-coils data starts at coil 0 and carries the coil count. The byte count is the fewest bytes holding that many bits, and the count equals the number of fill bytes that follow. Every fill byte is FF for on or 00 for off |
| Cmd.WriteMultiAoData | src/modbus_rtu_client/cmd.py:170-178 | The preset-multiple-registers data holds the start and count fields, then a byte count of twice the number of values, then the values packed big-endian |
| Cmd.WriteDo | src/modbus_rtu_client/cmd.py:23-30 | Builds a new force-single-coil (0x05) message for the address with the write-coil data and no CRC |
| Cmd.WriteAllDo | src/modbus_rtu_client/cmd.py:47-58 | Builds a new force-multiple-coils (0x0F) message; the fill loop writes one coil byte per counted byte |
| Cmd.ReadDo | src/modbus_rtu_client/cmd.py:73-80 | Builds a new read-coil-status (0x01) message whose data is start 0 and the coil count |
| Cmd.ReadDi | src/modbus_rtu_client/cmd.py:95-102 | Builds a new read-input-status (0x02) message whose data is start 0 and the input count |
| Cmd.ReadAiInfo | src/modbus_rtu_client/cmd.py:117-126 | Builds a new 0x04 message whose data is the start register and register count, each as high byte then low byte |
| Cmd.WriteSingleAoInfo | src/modbus_rtu_client/cmd.py:141-150 | Builds a new preset-single-register (0x06) message whose data is the register address and the value, each as high byte then low byte |
| Cmd.WriteMultiAoInfo | src/modbus_rtu_client/cmd.py:170-183 | Builds a new preset-multiple-registers (0x10) message whose data is the header, then the byte count, then each value's two bytes (loop invariant: the bytes so far are the header and the packed prefix) |
| Cmd.WriteDoWire | tests/test_modbus.py:5-7 | Writing coil 0 on at slave 254, encoded without CRC, is FE 05 00 00 FF 00 |
| Cmd.WriteDoCrcWire | src/modbus_rtu_client/base.py:122-125 | The same request encoded with CRC ends in the CRC bytes 98 35 |
| Cmd.ReadDoWire | tests/test_modbus.py:9-11 | Reading 4 coils at slave 254, encoded without CRC, is FE 01 00 00 00 04 |
| Cmd.WriteAllDoWire | tests/test_modbus.py:13-15 | Switching 4 coils on at slave 254, encoded without CRC, is FE 0F 00 00 00 04 01 FF |
| RespAnalyzer.WriteDo | src/modbus_rtu_client/cmd.py:202-203 | The response is accepted exactly when its data field is non-empty; the rejection names "write_do" |
| RespAnalyzer.WriteAllDo | src/modbus_rtu_client/cmd.py:217-218 | The response is accepted exactly when its data field is non-empty; the rejection names "write_all_do" |
| RespAnalyzer.WriteSingleAoInfo | src/modbus_rtu_client/cmd.py:293-294 | The response is accepted exactly when its data field is non-empty; the rejection names "write_all_do", as the source has it |
| RespAnalyzer.CountedField | src/modbus_rtu_client/cmd.py:239-240 | The payload is the bytes after the count byte, as many as the count says, cut short at the end of the data field (Python slice clamping) |
| RespAnalyzer.CountedFieldOfWhole | src/modbus_rtu_client/cmd.py:239-240 | A count byte followed by exactly that many bytes yields those bytes |
| RespAnalyzer.ReadDo | src/modbus_rtu_client/cmd.py:239-240 | The coil status bytes are the bytes right after the count byte; there are as many as the count says, or all the rest of the data field when it is shorter |
| RespAnalyzer.ReadDi | src/modbus_rtu_client/cmd.py:252-253 | The input status bytes are the bytes right after the count byte; there are as many as the count says, or all the rest of the data field when it is shorter |
| RespAnalyzer.Words | src/modbus_rtu_client/cmd.py:278 | Pairing bytes gives one register per complete pair (an odd last byte is dropped), each `hi * 256 + lo` |
| RespAnalyzer.ReadAiInfo | src/modbus_rtu_client/cmd.py:276-279 | One register per complete byte pair of the counted field (half the smaller of the count and the bytes after it, rounded down); register `i` is `hi * 256 + lo` of data bytes `1 + 2i` and `2 + 2i`, a 16-bit value |
| RespAnalyzer.WriteMultiAoInfo | src/modbus_rtu_client/cmd.py:308-313 | The starting address is the first two data bytes (fewer if the field is shorter); the quantity is the big-endian value of the bytes after them |
| RespAnalyzer.WordsOfPackWords | src/modbus_rtu_client/cmd.py:176-178 | Pairing the packed bytes of register values gives the values back |
| RespAnalyzer.ReadAiInfoOfPacked | src/modbus_rtu_client/cmd.py:276-279 | Reading a register response whose count byte is twice the number of values gives back exactly the packed values |
| RespAnalyzer.WriteMultiAoInfoOfEcho | src/modbus_rtu_client/cmd.py:308-313 | Reading an echo of the start and count fields gives back the start's two bytes and the count |
| RespAnalyzer.ReceivedWriteEchoAccepted | src/modbus_rtu_client/cmd.py:202-218 | A received response to a write function (0x05, 0x06, 0x0F, 0x10) has four data bytes, so every write-response check accepts it |
| RespAnalyzer.ReceivedCountedFieldIsWhole | src/modbus_rtu_client/cmd.py:239-240 | For a received byte-counted response, the counted field is exactly the count byte's number of bytes after it: no clamping happens |
| RespAnalyzer.ReadCoilsFrameReceived | src/modbus_rtu_client/base.py:319-335 | The read-coils response FE 01 01 0F 21 98 is received whole for slave 254 and function 0x01, and its CRC checks |
| RespAnalyzer.ReadCoilsExample | src/modbus_rtu_client/cmd.py:230-240 | The response FE 01 01 0F 21 98 to a read-coils request at slave 254 is received whole, its CRC checks, and its coil bytes are [0F] |

## Behaviour worth knowing

- **Decoding short frames.** `decode` needs only two bytes, since address and function code are indexed. With CRC and two or three bytes, the data slice is empty and the CRC is the last two bytes, overlapping the header. The model follows the code (`Frame.DecodedData`, `Frame.DecodedCrc`). `Client.Recv` never produces such a frame, since every frame it completes has at least five bytes.
- **Zero byte count.** A byte count of 0 still makes `DataRecvState` take one data byte, because the count is decremented before it is tested. The model keeps this (`Receive.AtLeastOne`).
- **Decoding in `recv` always uses CRC.** `recv` decodes with the default `crc_enable=True` and always checks the CRC, whatever the client's CRC setting. The model does the same.

## Left out

- Timing: `time.sleep` before each write, the frame interval and timeout floats and the unused constants (`MIN_MSG_BYTES`, `MAX_MSG_BYTES`, the diagnostic function codes) carry no logic that reaches the bytes. They are left out.
- The serial port is not modelled. Its reads become the finite sequence `Client.incoming`. Where the source would loop forever on a silent line, the model ends with `NotFinished` when the reads run out.
- demos/dam0400_client.py, including its `query` helper, is not part of this model.
- Message texts of the exceptions, `__str__`, and `.hex()` are not modelled. Aborts are the `Abort` datatype. `RespAnalyzer.WriteMultiAoInfo` returns the start address as its two raw bytes rather than their hex string.
- Receive.Client.Recv: the function-code lookup that raises `KeyError` for a code missing from the table is a precondition (`KnownCode(sent.func)`). The model demands it even on lines where the source would fail only after a matching address and function code arrived.
- Cmd.WriteAllDo, Cmd.WriteDo, Cmd.ReadDo, Cmd.ReadDi, Cmd.ReadAiInfo, Cmd.WriteSingleAoInfo, Cmd.WriteMultiAoInfo: an out-of-range argument makes `to_bytes` raise `OverflowError`. The model states the valid ranges as preconditions instead of modelling the exception.
- RespAnalyzer.CountedField, RespAnalyzer.ReadDo, RespAnalyzer.ReadDi, RespAnalyzer.ReadAiInfo: on an empty data field, `data_bytes[0]` raises `IndexError`. The model requires a non-empty data field instead of modelling the exception. Every response `recv` returns for these byte-counted codes has at least two data bytes (`Receive.RunFinishedIsFrame`).
- Frame.RtuMessage.Decode: on a frame shorter than two bytes, indexing the function code raises `IndexError`. The model requires two bytes instead of modelling the exception. Every frame `recv` completes has at least five bytes.
- Frame.RtuMessage.Empty: the `None` placeholders for address and function code are modelled as 0. `decode` always overwrites them before they are read.
- Addresses and function codes are held as bytes, not as Python integers turned into one-byte strings by the getters. The setters' `bytes` branch therefore collapses into plain assignment.
- The receive handlers take the request's address and function code rather than the message object. The response readers take the data field rather than the message.
- Exception responses (function code with the high bit set) get no special handling in the source. They are given up as a function-code mismatch, as `Receive.RunRejectsOtherFunction` states.
- The CRC table is stored as 16 rows of 16 entries. The entries and their order are those of the flat list.
