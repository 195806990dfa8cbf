/** Request builders. Each builds the data field of one request, write by
 *  write, and wraps it in an `RtuMessage` without CRC. Integer arguments
 *  must fit the bytes they are written into (`to_bytes` raises otherwise);
 *  the slave address is a byte. */
module Cmd {
  import opened Bytes
  import opened Crc
  import opened Frame

  /** Two big-endian 16-bit fields, the shape of most request data fields. */
  function TwoFields(first: int, second: int): (r: seq<bv8>)
    requires 0 <= first < 0x1_0000 && 0 <= second < 0x1_0000
    ensures |r| == 4 && FromBytes(r[..2]) == first && FromBytes(r[2..]) == second
  {
    var r := ToBytes2(first) + ToBytes2(second);
    assert r[..2] == ToBytes2(first) && r[2..] == ToBytes2(second);
    r
  }

  /** The coil value `write_do` and `write_all_do` write: FF for on. */
  function CoilByte(on: bool): bv8
  {
    if on then 0xFF else 0x00
  }

  /** `k` copies of the coil byte. */
  function Fill(k: nat, on: bool): (r: seq<bv8>)
    ensures |r| == k && forall i :: 0 <= i < k ==> r[i] == CoilByte(on)
  {
    seq(k, _ => CoilByte(on))
  }

  /** Every value fits a 16-bit register. */
  predicate AllWords(ws: seq<int>)
  {
    forall i :: 0 <= i < |ws| ==> 0 <= ws[i] < 0x1_0000
  }

  /** Register values, each as its high byte then its low byte. */
  function PackWords(ws: seq<int>): (r: seq<bv8>)
    requires AllWords(ws)
    ensures |r| == 2 * |ws|
  {
    if ws == [] then [] else ToBytes2(ws[0]) + PackWords(ws[1..])
  }

  lemma {:induction false} PackWordsSnoc(ws: seq<int>, w: int)
    requires AllWords(ws) && 0 <= w < 0x1_0000
    ensures AllWords(ws + [w])
    ensures PackWords(ws + [w]) == PackWords(ws) + ToBytes2(w)
    decreases |ws|
  {
    if ws == [] {
      assert ws + [w] == [w];
      assert [w][1..] == [];
    } else {
      assert (ws + [w])[1..] == ws[1..] + [w];
      PackWordsSnoc(ws[1..], w);
    }
  }

  /** Writing `x >> 8` and `x & 0xff` one byte each writes `x` in two
   *  big-endian bytes. */
  lemma ByteWrites(x: int)
    requires 0 <= x < 0x1_0000
    ensures [ToByte(x / 256)] + [ToByte(x % 256)] == ToBytes2(x)
  {
  }

  /** One more register value written as two single bytes extends the
   *  packed prefix of `ao` by one value. */
  lemma PackedPrefix(header: seq<bv8>, ao: seq<int>, i: int)
    requires AllWords(ao) && 0 <= i < |ao|
    ensures 0 <= ao[i] < 0x1_0000
    ensures header + PackWords(ao[..i]) + [ToByte(ao[i] / 256)] + [ToByte(ao[i] % 256)]
         == header + PackWords(ao[..i + 1])
  {
    var w := ao[i];
    assert ao[..i + 1] == ao[..i] + [w];
    ByteWrites(w);
    PackWordsSnoc(ao[..i], w);
  }

  /** The five single-byte header writes of `write_multi_ao_info`. */
  lemma MultiAoHeader(regStart: int, regNum: int, count: int)
    requires 0 <= regStart < 0x1_0000 && 0 <= regNum < 0x1_0000 && 0 <= count < 0x100
    ensures [] + [ToByte(regStart / 256)] + [ToByte(regStart % 256)]
              + [ToByte(regNum / 256)] + [ToByte(regNum % 256)] + [ToByte(count)]
         == TwoFields(regStart, regNum) + [ToByte(count)]
  {
    ByteWrites(regStart);
    ByteWrites(regNum);
  }

  /** Data field of `write_do`: coil address, then FF 00 (on) or 00 00. */
  function WriteDoData(io: int, on: bool): (r: seq<bv8>)
    requires 0 <= io < 0x1_0000
    ensures |r| == 4 && FromBytes(r[..2]) == io
    ensures r[2..] == (if on then [0xFF, 0x00] else [0x00, 0x00])
  {
    var r := ToBytes2(io) + [CoilByte(on), 0x00];
    assert r[..2] == ToBytes2(io);
    r
  }

  /** Data field of `write_all_do`: start 0, quantity `ioNum`, a byte count
   *  just large enough for `ioNum` coils, and that many coil bytes. */
  function WriteAllDoData(ioNum: int, on: bool): (r: seq<bv8>)
    requires 0 <= ioNum <= 2040
    ensures |r| >= 5 && |r| == 5 + r[4] as int
    ensures r[..2] == [0x00, 0x00] && FromBytes(r[2..4]) == ioNum
    ensures 8 * (r[4] as int) >= ioNum && 8 * (r[4] as int) < ioNum + 8
    ensures forall i :: 5 <= i < |r| ==> r[i] == CoilByte(on)
  {
    var k := (ioNum + 7) / 8;
    var r := [0x00, 0x00] + ToBytes2(ioNum) + [ToByte(k)] + Fill(k, on);
    assert r[2..4] == ToBytes2(ioNum);
    r
  }

  /** One more coil byte written after a fill of `i` bytes is a fill of
   *  `i + 1` bytes. */
  lemma FillSnoc(header: seq<bv8>, i: nat, on: bool)
    ensures header + Fill(i, on) + [if on then 0xFF else 0x00] == header + Fill(i + 1, on)
  {
    assert Fill(i + 1, on) == Fill(i, on) + [CoilByte(on)];
  }

  /** The writes of `write_all_do` in the order the builder makes them. */
  lemma WriteAllDoLayout(ioNum: int, on: bool)
    requires 0 <= ioNum <= 2040
    ensures WriteAllDoData(ioNum, on)
         == [0x00, 0x00] + ToBytes2(ioNum) + [ToByte((ioNum + 7) / 8)] + Fill((ioNum + 7) / 8, on)
  {
  }

  /** Data field of `write_multi_ao_info`: start register, register count,
   *  byte count of the values, then the values. */
  function WriteMultiAoData(regStart: int, regNum: int, ao: seq<int>): (r: seq<bv8>)
    requires 0 <= regStart < 0x1_0000 && 0 <= regNum < 0x1_0000
    requires |ao| <= 127 && AllWords(ao)
    ensures |r| == 5 + 2 * |ao| && r[4] as int == 2 * |ao|
    ensures r[..4] == TwoFields(regStart, regNum) && r[5..] == PackWords(ao)
  {
    var r := TwoFields(regStart, regNum) + [ToByte(2 * |ao|)] + PackWords(ao);
    assert r[..4] == TwoFields(regStart, regNum);
    assert r[5..] == PackWords(ao);
    r
  }

  /** `write_do`: force one coil (function 0x05). */
  method WriteDo(addr: bv8, io: int, on: bool) returns (m: RtuMessage)
    requires 0 <= io < 0x1_0000
    ensures fresh(m)
    ensures m.addr == addr && m.func == ForceSingleCoil.Value()
    ensures m.data == WriteDoData(io, on) && m.crc == []
  {
    var buffer: seq<bv8> := [];
    buffer := buffer + ToBytes2(io);
    buffer := buffer + (if on then [0xFF, 0x00] else [0x00, 0x00]);
    m := new RtuMessage(addr, ForceSingleCoil.Value(), buffer);
  }

  /** `write_all_do`: force coils 0 .. ioNum-1 all on or all off
   *  (function 0x0F). */
  method WriteAllDo(addr: bv8, ioNum: int, on: bool) returns (m: RtuMessage)
    requires 0 <= ioNum <= 2040
    ensures fresh(m)
    ensures m.addr == addr && m.func == WriteMultiCoils.Value()
    ensures m.data == WriteAllDoData(ioNum, on) && m.crc == []
  {
    var buffer: seq<bv8> := [];
    buffer := buffer + [0x00, 0x00];
    buffer := buffer + ToBytes2(ioNum);
    var byteCount := (ioNum + 7) / 8;
    buffer := buffer + [ToByte(byteCount)];
    ghost var header := buffer;
    for i := 0 to byteCount
      invariant buffer == header + Fill(i, on)
    {
      FillSnoc(header, i, on);
      buffer := buffer + [if on then 0xFF else 0x00];
    }
    WriteAllDoLayout(ioNum, on);
    m := new RtuMessage(addr, WriteMultiCoils.Value(), buffer);
  }

  /** `read_do`: read `doNum` coils from coil 0 (function 0x01). */
  method ReadDo(addr: bv8, doNum: int) returns (m: RtuMessage)
    requires 0 <= doNum < 0x1_0000
    ensures fresh(m)
    ensures m.addr == addr && m.func == ReadCoilStatus.Value()
    ensures m.data == TwoFields(0, doNum) && m.crc == []
  {
    var buffer: seq<bv8> := [];
    buffer := buffer + [0x00, 0x00];
    buffer := buffer + ToBytes2(doNum);
    m := new RtuMessage(addr, ReadCoilStatus.Value(), buffer);
  }

  /** `read_di`: read `diNum` discrete inputs from input 0 (function 0x02). */
  method ReadDi(addr: bv8, diNum: int) returns (m: RtuMessage)
    requires 0 <= diNum < 0x1_0000
    ensures fresh(m)
    ensures m.addr == addr && m.func == ReadInputStatus.Value()
    ensures m.data == TwoFields(0, diNum) && m.crc == []
  {
    var buffer: seq<bv8> := [];
    buffer := buffer + [0x00, 0x00];
    buffer := buffer + ToBytes2(diNum);
    m := new RtuMessage(addr, ReadInputStatus.Value(), buffer);
  }

  /** `read_ai_info`: read `regNum` input registers from `regStart`
   *  (function 0x04). Each 16-bit field is written as `x >> 8` and
   *  `x & 0xff`, one byte each. */
  method ReadAiInfo(addr: bv8, regStart: int, regNum: int) returns (m: RtuMessage)
    requires 0 <= regStart < 0x1_0000 && 0 <= regNum < 0x1_0000
    ensures fresh(m)
    ensures m.addr == addr && m.func == WriteInputRegs.Value()
    ensures m.data == TwoFields(regStart, regNum) && m.crc == []
  {
    var buffer: seq<bv8> := [];
    buffer := buffer + [ToByte(regStart / 256)];
    buffer := buffer + [ToByte(regStart % 256)];
    buffer := buffer + [ToByte(regNum / 256)];
    buffer := buffer + [ToByte(regNum % 256)];
    m := new RtuMessage(addr, WriteInputRegs.Value(), buffer);
  }

  /** `write_single_ao_info`: preset register `regStart` to `ao`
   *  (function 0x06). */
  method WriteSingleAoInfo(addr: bv8, regStart: int, ao: int) returns (m: RtuMessage)
    requires 0 <= regStart < 0x1_0000 && 0 <= ao < 0x1_0000
    ensures fresh(m)
    ensures m.addr == addr && m.func == PresetSingleReg.Value()
    ensures m.data == TwoFields(regStart, ao) && m.crc == []
  {
    var buffer: seq<bv8> := [];
    buffer := buffer + [ToByte(regStart / 256)];
    buffer := buffer + [ToByte(regStart % 256)];
    buffer := buffer + [ToByte(ao / 256)];
    buffer := buffer + [ToByte(ao % 256)];
    m := new RtuMessage(addr, PresetSingleReg.Value(), buffer);
  }

  /** `write_multi_ao_info`: preset registers from `regStart` to the values
   *  `ao` (function 0x10). The register count `regNum` is written as given;
   *  nothing ties it to the number of values. */
  method WriteMultiAoInfo(addr: bv8, regStart: int, regNum: int, ao: seq<int>) returns (m: RtuMessage)
    requires 0 <= regStart < 0x1_0000 && 0 <= regNum < 0x1_0000
    requires |ao| <= 127 && AllWords(ao)
    ensures fresh(m)
    ensures m.addr == addr && m.func == PresetMultiRegs.Value()
    ensures m.data == WriteMultiAoData(regStart, regNum, ao) && m.crc == []
  {
    var buffer: seq<bv8> := [];
    buffer := buffer + [ToByte(regStart / 256)];
    buffer := buffer + [ToByte(regStart % 256)];
    buffer := buffer + [ToByte(regNum / 256)];
    buffer := buffer + [ToByte(regNum % 256)];
    buffer := buffer + [ToByte(|ao| * 2)];
    ghost var header := buffer;
    MultiAoHeader(regStart, regNum, |ao| * 2);
    for i := 0 to |ao|
      invariant buffer == header + PackWords(ao[..i])
    {
      PackedPrefix(header, ao, i);
      buffer := buffer + [ToByte(ao[i] / 256)];
      buffer := buffer + [ToByte(ao[i] % 256)];
    }
    assert ao[..|ao|] == ao;
    m := new RtuMessage(addr, PresetMultiRegs.Value(), buffer);
  }

  /** Switching on coil 0 of slave 254, encoded without CRC. */
  method WriteDoWire() returns (wire: seq<bv8>)
    ensures wire == [0xFE, 0x05, 0x00, 0x00, 0xFF, 0x00]
  {
    var m := WriteDo(254, 0, true);
    wire := m.Encode(false);
  }

  /** The same request encoded with CRC: the CRC follows, low byte first. */
  method WriteDoCrcWire() returns (wire: seq<bv8>)
    ensures wire == [0xFE, 0x05, 0x00, 0x00, 0xFF, 0x00, 0x98, 0x35]
  {
    var m := WriteDo(254, 0, true);
    assert ToBytes2(0) == [0x00, 0x00];
    assert m.data == [0x00, 0x00, 0xFF, 0x00];
    assert m.Raw() == [0xFE, 0x05] + m.data == [0xFE, 0x05, 0x00, 0x00, 0xFF, 0x00];
    CrcWriteDoVector();
    assert m.CalculatedCrcBytes() == CrcBytes(0x3598) == [0x98, 0x35];
    wire := m.Encode(true);
  }

  /** Reading 4 coils of slave 254, encoded without CRC. */
  method ReadDoWire() returns (wire: seq<bv8>)
    ensures wire == [0xFE, 0x01, 0x00, 0x00, 0x00, 0x04]
  {
    var m := ReadDo(254, 4);
    wire := m.Encode(false);
  }

  /** Switching on coils 0..3 of slave 254, encoded without CRC. */
  method WriteAllDoWire() returns (wire: seq<bv8>)
    ensures wire == [0xFE, 0x0F, 0x00, 0x00, 0x00, 0x04, 0x01, 0xFF]
  {
    var m := WriteAllDo(254, 4, true);
    wire := m.Encode(false);
  }
}

/** Response checkers and extractors. Each looks only at the data field of
 *  a received response. */
module RespAnalyzer {
  import opened Bytes
  import opened Crc
  import opened Frame
  import opened Receive
  import opened Cmd

  /** Outcome of a response check: accepted, or an error naming a command. */
  datatype Verdict = Accepted | Rejected(command: string)

  /** `write_do`: the echo must not be empty. */
  function WriteDo(data: seq<bv8>): (v: Verdict)
    ensures v.Accepted? <==> data != []
    ensures v.Rejected? ==> v.command == "write_do"
  {
    if data == [] then Rejected("write_do") else Accepted
  }

  /** `write_all_do`: the echo must not be empty. */
  function WriteAllDo(data: seq<bv8>): (v: Verdict)
    ensures v.Accepted? <==> data != []
    ensures v.Rejected? ==> v.command == "write_all_do"
  {
    if data == [] then Rejected("write_all_do") else Accepted
  }

  /** `write_single_ao_info`: the echo must not be empty; the error it
   *  raises names `write_all_do`. */
  function WriteSingleAoInfo(data: seq<bv8>): (v: Verdict)
    ensures v.Accepted? <==> data != []
    ensures v.Rejected? ==> v.command == "write_all_do"
  {
    if data == [] then Rejected("write_all_do") else Accepted
  }

  /** The bytes a leading byte count announces, cut short if fewer arrived
   *  (Python's `data[1:1 + data[0]]`). */
  function CountedField(data: seq<bv8>): (r: seq<bv8>)
    requires |data| >= 1
    ensures |r| == if data[0] as int <= |data| - 1 then data[0] as int else |data| - 1
    ensures r == data[1..1 + |r|]
  {
    var end := if 1 + data[0] as int <= |data| then 1 + data[0] as int else |data|;
    data[1..end]
  }

  /** A byte count followed by exactly that many bytes yields those bytes. */
  lemma CountedFieldOfWhole(count: bv8, s: seq<bv8>)
    requires count as int == |s|
    ensures CountedField([count] + s) == s
  {
    assert ([count] + s)[1..1 + |s|] == s;
  }

  /** `read_do`: the coil bytes of a read-coils response. */
  function ReadDo(data: seq<bv8>): (r: seq<bv8>)
    requires |data| >= 1
    ensures |r| <= data[0] as int && |r| <= |data| - 1
    ensures |r| == data[0] as int || |r| == |data| - 1
    ensures r == data[1..1 + |r|]
  {
    CountedField(data)
  }

  /** `read_di`: the input bytes of a read-inputs response. */
  function ReadDi(data: seq<bv8>): (r: seq<bv8>)
    requires |data| >= 1
    ensures |r| <= data[0] as int && |r| <= |data| - 1
    ensures |r| == data[0] as int || |r| == |data| - 1
    ensures r == data[1..1 + |r|]
  {
    CountedField(data)
  }

  /** Consecutive byte pairs as 16-bit words, high byte first; an odd last
   *  byte is dropped. */
  function Words(s: seq<bv8>): (r: seq<int>)
    ensures |r| == |s| / 2
    ensures forall i :: 0 <= i < |r| ==> r[i] == Word(s[2 * i], s[2 * i + 1])
    decreases |s|
  {
    if |s| < 2 then []
    else
      var rest := Words(s[2..]);
      assert forall i :: 1 <= i < 1 + |rest| ==> s[2..][2 * (i - 1)] == s[2 * i];
      [Word(s[0], s[1])] + rest
  }

  /** `read_ai_info`: the register values of a read-registers response. */
  function ReadAiInfo(data: seq<bv8>): (r: seq<int>)
    requires |data| >= 1
    ensures |r| == (if data[0] as int <= |data| - 1 then data[0] as int else |data| - 1) / 2
    ensures forall i :: 0 <= i < |r| ==> r[i] == Word(data[1 + 2 * i], data[2 + 2 * i])
    ensures AllWords(r)
  {
    Words(CountedField(data))
  }

  /** What `write_multi_ao_info` reports: start address bytes and quantity. */
  datatype Preset = Preset(start: seq<bv8>, quantity: nat)

  /** `write_multi_ao_info`: the first two bytes are the start address and
   *  everything after them, read big-endian, is the quantity. */
  function WriteMultiAoInfo(data: seq<bv8>): (p: Preset)
    ensures p.start == data[..if |data| < 2 then |data| else 2]
    ensures p.quantity == FromBytes(data[|p.start|..])
  {
    var cut := if |data| < 2 then |data| else 2;
    Preset(data[..cut], FromBytes(data[cut..]))
  }

  /** Unpacking words undoes packing them. */
  lemma {:induction false} WordsOfPackWords(ws: seq<int>)
    requires AllWords(ws)
    ensures Words(PackWords(ws)) == ws
    decreases |ws|
  {
    if ws != [] {
      var p := PackWords(ws);
      var head := ToBytes2(ws[0]);
      assert p == head + PackWords(ws[1..]);
      assert p[2..] == PackWords(ws[1..]);
      FromBytesPair(head[0], head[1]);
      assert head == [head[0], head[1]];
      WordsOfPackWords(ws[1..]);
    }
  }

  /** A read-registers response laid out the way requests lay out register
   *  values (a byte count, then each value high byte first) yields exactly
   *  those values. */
  lemma ReadAiInfoOfPacked(ws: seq<int>)
    requires |ws| <= 127 && AllWords(ws)
    ensures ReadAiInfo([ToByte(2 * |ws|)] + PackWords(ws)) == ws
  {
    CountedFieldOfWhole(ToByte(2 * |ws|), PackWords(ws));
    WordsOfPackWords(ws);
  }

  /** The echo of a preset-multiple-registers request reports the start
   *  address bytes and the register count the request carried. */
  lemma WriteMultiAoInfoOfEcho(regStart: int, regNum: int)
    requires 0 <= regStart < 0x1_0000 && 0 <= regNum < 0x1_0000
    ensures WriteMultiAoInfo(TwoFields(regStart, regNum)) == Preset(ToBytes2(regStart), regNum)
  {
    var echo := TwoFields(regStart, regNum);
    assert echo[..2] == ToBytes2(regStart) by {
      assert echo == ToBytes2(regStart) + ToBytes2(regNum);
    }
  }

  /** A response the receiver completes for a single or multiple write
   *  always passes the emptiness check: its data field has four bytes. */
  lemma ReceivedWriteEchoAccepted(func: bv8, data: seq<bv8>)
    requires func in {0x05, 0x06, 0x0F, 0x10}
    requires KnownCode(func) && WellShaped(func, data)
    ensures |data| == 4
    ensures WriteDo(data) == Accepted && WriteAllDo(data) == Accepted
    ensures WriteSingleAoInfo(data) == Accepted
  {
    assert ShapeOf(func) == Fixed(4) by {
      if func == 0x05 {
      } else if func == 0x06 {
      } else if func == 0x0F {
      } else {
      }
    }
  }

  /** In a byte-counted response the receiver completes, the counted field
   *  is never cut short: it holds all `data[0]` announced bytes (one byte
   *  more arrives, and is not returned, when the count is zero). */
  lemma ReceivedCountedFieldIsWhole(func: bv8, data: seq<bv8>)
    requires KnownCode(func) && ShapeOf(func) == ByteCounted
    requires WellShaped(func, data)
    ensures |CountedField(data)| == data[0] as int
    ensures CountedField(data) == data[1..1 + data[0] as int]
  {
  }

  /** The CRC bytes of the read-coils response body `FE 01 01 0F`. */
  lemma ReadCoilsResponseCrc()
    ensures CalculatedCrc([0xFE, 0x01, 0x01, 0x0F]) == [0x21, 0x98]
  {
    CrcReadCoilsResponseVector();
  }

  /** The read-coils function code reads a byte-counted response. */
  lemma ReadCoilsShape()
    ensures KnownCode(0x01) && ShapeOf(0x01) == ByteCounted
  {
    assert 0x01 in DATA_BYTE_COUNT_TABLE;
  }

  /** The frame `FE 01 01 0F 21 98` is received whole and its CRC checks. */
  lemma ReadCoilsFrameReceived()
    ensures KnownCode(0x01)
    ensures var frame := [0xFE, 0x01, 0x01, 0x0F, 0x21, 0x98];
      && Run(AddrState, [], AsReads(frame), 0xFE, 0x01) == Finished(frame, [])
      && CrcValid(frame)
  {
    var frame: seq<bv8> := [0xFE, 0x01, 0x01, 0x0F, 0x21, 0x98];
    var body: seq<bv8> := [0xFE, 0x01, 0x01, 0x0F];
    var data: seq<bv8> := [0x01, 0x0F];
    ReadCoilsShape();
    ReadCoilsResponseCrc();
    assert RawBytes(0xFE, 0x01, data) == body;
    assert RawBytes(0xFE, 0x01, data) + CalculatedCrc(RawBytes(0xFE, 0x01, data)) == frame;
    assert WellShaped(0x01, data);
    ResponseIsReceived([], 0xFE, 0x01, data, []);
    assert [] + AsReads(frame) + [] == AsReads(frame);
  }

  /** Slave 254 answering a read of its coils with one byte of coil states
   *  0x0F: the frame `FE 01 01 0F 21 98` is received, its CRC checks, and
   *  `read_do` extracts the single coil byte. */
  lemma ReadCoilsExample()
    ensures KnownCode(0x01)
    ensures var frame := [0xFE, 0x01, 0x01, 0x0F, 0x21, 0x98];
      && Run(AddrState, [], AsReads(frame), 0xFE, 0x01) == Finished(frame, [])
      && CrcValid(frame)
      && ReadDo(DecodedData(frame, true)) == [0x0F]
  {
    ReadCoilsFrameReceived();
    var frame: seq<bv8> := [0xFE, 0x01, 0x01, 0x0F, 0x21, 0x98];
    assert DecodedData(frame, true) == [0x01] + [0x0F];
    CountedFieldOfWhole(0x01, [0x0F]);
  }
}
