/** The Modbus RTU frame: slave address, function code, data field, CRC.
 *  The CRC is computed over address, function code and data and travels
 *  low byte first (MODBUS over Serial Line Specification V1.02, section
 *  2.5.1.2). `RtuMessage` keeps the four fields and updates them in place
 *  when it encodes or decodes. */
module Frame {
  import opened Crc
  import opened Bytes

  /** The function codes a request can be built with. */
  datatype FunctionCode =
    | ReadCoilStatus
    | ReadInputStatus
    | WriteInputRegs
    | ForceSingleCoil
    | PresetSingleReg
    | WriteMultiCoils
    | PresetMultiRegs
  {
    /** The code on the wire; the receiver knows the response shape of each. */
    function Value(): (c: bv8)
      ensures KnownCode(c)
    {
      match this
      case ReadCoilStatus => 0x01
      case ReadInputStatus => 0x02
      case WriteInputRegs => 0x04
      case ForceSingleCoil => 0x05
      case PresetSingleReg => 0x06
      case WriteMultiCoils => 0x0F
      case PresetMultiRegs => 0x10
    }
  }

  /** How the data field of a response is delimited: by a leading byte count
   *  (the count byte is part of the data field) or by a fixed length. */
  datatype Shape = ByteCounted | Fixed(count: nat)

  /** Response data-field shape per function code. */
  const DATA_BYTE_COUNT_TABLE: map<int, Shape> := map[
    0x01 := ByteCounted,
    0x02 := ByteCounted,
    0x03 := ByteCounted,
    0x04 := ByteCounted,
    0x05 := Fixed(4),
    0x06 := Fixed(4),
    0x07 := Fixed(1),
    0x0B := Fixed(4),
    0x0F := Fixed(4),
    0x10 := Fixed(4),
    0x11 := ByteCounted,
    0x16 := Fixed(6)
  ]

  /** A function code the table knows; any other raises a lookup error. */
  predicate KnownCode(func: bv8)
  {
    func as int in DATA_BYTE_COUNT_TABLE
  }

  /** The response shape the table gives a known function code. */
  function ShapeOf(func: bv8): (s: Shape)
    requires KnownCode(func)
    ensures s.ByteCounted? <==> func in {0x01, 0x02, 0x03, 0x04, 0x11}
    ensures s.Fixed? ==> 1 <= s.count <= 6
  {
    DATA_BYTE_COUNT_TABLE[func as int]
  }

  /** A CRC as it is appended to a frame: `to_bytes(2, "little")`. */
  function CrcBytes(c: bv16): (r: seq<bv8>)
    ensures |r| == 2
    ensures ((r[1] as bv16) << 8) | (r[0] as bv16) == c
  {
    [(c & 0xFF) as bv8, (c >> 8) as bv8]
  }

  /** The frame without its CRC: address, function code, data. */
  function RawBytes(addr: bv8, func: bv8, data: seq<bv8>): seq<bv8>
  {
    [addr, func] + data
  }

  /** The CRC bytes a frame body calls for. */
  function CalculatedCrc(raw: seq<bv8>): seq<bv8>
  {
    CrcBytes(Crc16(raw))
  }

  /** The data field `decode` takes from a received frame: with CRC, the
   *  bytes between the function code and the last two (Python's `[2:-2]`,
   *  empty when fewer than four bytes); without CRC, all after byte 1. */
  function DecodedData(raw: seq<bv8>, crcEnable: bool): (r: seq<bv8>)
    requires |raw| >= 2
    ensures |r| == if !crcEnable then |raw| - 2 else if |raw| >= 4 then |raw| - 4 else 0
    ensures r == raw[2..2 + |r|]
  {
    if !crcEnable then raw[2..]
    else if |raw| >= 4 then raw[2..|raw| - 2]
    else []
  }

  /** The CRC field `decode` takes: the last two bytes (Python's `[-2:]`). */
  function DecodedCrc(raw: seq<bv8>): (r: seq<bv8>)
    requires |raw| >= 2
    ensures |r| == 2 && raw[..|raw| - 2] + r == raw
  {
    raw[|raw| - 2..]
  }

  /** Encoding with CRC and decoding with CRC gives back address, function
   *  code and data, and the decoded frame passes the CRC check. Without CRC
   *  the data field comes back likewise. */
  lemma EncodeThenDecode(addr: bv8, func: bv8, data: seq<bv8>)
    ensures var wire := RawBytes(addr, func, data) + CalculatedCrc(RawBytes(addr, func, data));
      && |wire| == |data| + 4
      && wire[0] == addr && wire[1] == func
      && DecodedData(wire, true) == data
      && DecodedCrc(wire) == CalculatedCrc(RawBytes(wire[0], wire[1], DecodedData(wire, true)))
    ensures var body := RawBytes(addr, func, data);
      body[0] == addr && body[1] == func && DecodedData(body, false) == data
  {
    var body := RawBytes(addr, func, data);
    var wire := body + CalculatedCrc(body);
    assert wire[2..|wire| - 2] == data;
    assert wire[|wire| - 2..] == CalculatedCrc(body);
    assert RawBytes(wire[0], wire[1], data) == body;
  }

  /** Decoding then encoding reproduces the received bytes: with CRC for any
   *  frame of four bytes or more, without CRC for any frame at all. */
  lemma DecodeThenEncode(raw: seq<bv8>)
    requires |raw| >= 2
    ensures |raw| >= 4 ==> RawBytes(raw[0], raw[1], DecodedData(raw, true)) + DecodedCrc(raw) == raw
    ensures RawBytes(raw[0], raw[1], DecodedData(raw, false)) == raw
  {
    assert raw == [raw[0], raw[1]] + raw[2..];
    if |raw| >= 4 {
      assert raw == [raw[0], raw[1]] + raw[2..|raw| - 2] + raw[|raw| - 2..];
    }
  }

  /** A received frame whose last two bytes are the CRC of the bytes before. */
  predicate CrcValid(frame: seq<bv8>)
    requires |frame| >= 2
  {
    frame[|frame| - 2..] == CalculatedCrc(frame[..|frame| - 2])
  }

  /** Decoding a frame with CRC and checking the CRC of the decoded message
   *  accepts exactly the frames whose trailing CRC is right. */
  lemma DecodedCheckCrc(raw: seq<bv8>)
    requires |raw| >= 4
    ensures CalculatedCrc(RawBytes(raw[0], raw[1], DecodedData(raw, true))) == DecodedCrc(raw)
        <==> CrcValid(raw)
  {
    DecodeThenEncode(raw);
    assert RawBytes(raw[0], raw[1], DecodedData(raw, true)) == raw[..|raw| - 2];
  }

  /** Folding a CRC's own two bytes, low byte first, into the register it
   *  came from leaves zero. */
  lemma CrcBytesCancel(c: bv16)
    ensures CrcStep(CrcStep(c, CrcBytes(c)[0]), CrcBytes(c)[1]) == 0
  {
    var lo, hi := (c & 0xFF) as bv8, (c >> 8) as bv8;
    assert CrcBytes(c)[0] == lo && CrcBytes(c)[1] == hi;
    assert (lo as bv16) ^ (c & 0xFF) == 0;
    assert TableAt(0) == 0;
    assert CrcStep(c, lo) == c >> 8;
    assert (hi as bv16) ^ ((c >> 8) & 0xFF) == 0 && (c >> 8) >> 8 == 0;
  }

  /** No other two bytes cancel the register. */
  lemma OnlyCrcBytesCancel(c: bv16, b0: bv8, b1: bv8)
    requires CrcStep(CrcStep(c, b0), b1) == 0
    ensures [b0, b1] == CrcBytes(c)
  {
    assert b0 == (c & 0xFF) as bv8 && b1 == (c >> 8) as bv8;
  }

  /** Running the CRC over a frame together with its appended CRC leaves
   *  zero: the two CRC bytes cancel the register. */
  lemma CrcOfCheckedFrameIsZero(body: seq<bv8>)
    ensures Crc16(body + CalculatedCrc(body)) == 0
  {
    var b := CalculatedCrc(body);
    CrcTwoBytes(body, b);
    CrcBytesCancel(Crc16(body));
  }

  /** The CRC over a frame body and two more bytes, one step per byte. */
  lemma CrcTwoBytes(body: seq<bv8>, b: seq<bv8>)
    requires |b| == 2
    ensures Crc16(body + b) == CrcStep(CrcStep(Crc16(body), b[0]), b[1])
  {
    CrcFromConcat(CRC_INIT, body, b);
    CrcFromCons(Crc16(body), b[0], b[1..]);
    CrcFromCons(CrcStep(Crc16(body), b[0]), b[1], []);
    assert b[1..] == [b[1]] + [];
  }

  /** Two bytes are the CRC a frame body calls for exactly when the CRC over
   *  the body followed by them is zero; no other field passes. */
  lemma CheckedIffResidueZero(body: seq<bv8>, crc: seq<bv8>)
    ensures crc == CalculatedCrc(body) <==> |crc| == 2 && Crc16(body + crc) == 0
  {
    if crc == CalculatedCrc(body) {
      CrcOfCheckedFrameIsZero(body);
    }
    if |crc| == 2 && Crc16(body + crc) == 0 {
      CrcTwoBytes(body, crc);
      OnlyCrcBytesCancel(Crc16(body), crc[0], crc[1]);
      assert crc == [crc[0], crc[1]];
    }
  }

  /** A frame held by the master: sent requests and received responses. */
  class RtuMessage {
    var addr: bv8
    var func: bv8
    var data: seq<bv8>
    var crc: seq<bv8>

    /** A message with the given fields and no CRC yet. */
    constructor (addr: bv8, func: bv8, data: seq<bv8>)
      ensures this.addr == addr && this.func == func && this.data == data
      ensures crc == []
    {
      this.addr := addr;
      this.func := func;
      this.data := data;
      crc := [];
    }

    /** An empty message to decode into; address and function code are
     *  placeholders until `Decode` sets them. */
    constructor Empty()
      ensures data == [] && crc == []
    {
      addr := 0;
      func := 0;
      data := [];
      crc := [];
    }

    /** Address, function code and data, without the CRC. */
    function Raw(): (r: seq<bv8>)
      reads this
      ensures |r| == |data| + 2
      ensures r[0] == addr && r[1] == func && r[2..] == data
    {
      RawBytes(addr, func, data)
    }

    /** The CRC bytes the current fields call for: two bytes that bring the
     *  CRC over the fields followed by them to zero. */
    function CalculatedCrcBytes(): (r: seq<bv8>)
      reads this
      ensures |r| == 2
      ensures Crc16(Raw() + r) == 0
    {
      CrcOfCheckedFrameIsZero(Raw());
      CalculatedCrc(Raw())
    }

    /** Whether the stored CRC is the one the fields call for: it holds
     *  exactly when the stored CRC has two bytes and the CRC over the fields
     *  followed by it is zero. */
    predicate CheckCrc()
      reads this
      ensures CheckCrc() <==> |crc| == 2 && Crc16(Raw() + crc) == 0
    {
      CheckedIffResidueZero(Raw(), crc);
      CalculatedCrcBytes() == crc
    }

    /** Bytes of address, function code, data and stored CRC. */
    function Length(): (n: nat)
      reads this
      ensures n == |Raw() + crc|
      ensures n >= 2
    {
      1 + 1 + |data| + |crc|
    }

    /** The bytes to put on the line. With `crcEnable` the CRC is first
     *  recomputed and stored; without it the stored CRC (empty for a
     *  message that was never encoded or decoded) is sent as it is. */
    method Encode(crcEnable: bool) returns (wire: seq<bv8>)
      modifies this`crc
      ensures crc == (if crcEnable then CalculatedCrcBytes() else old(crc))
      ensures wire == Raw() + crc && |wire| == Length()
      ensures crcEnable ==> CheckCrc() && Length() == |data| + 4
    {
      if crcEnable {
        crc := CalculatedCrcBytes();
      }
      wire := Raw() + crc;
    }

    /** Takes the fields from received bytes. Without `crcEnable` the data
     *  field runs to the end and the stored CRC is left as it was. */
    method Decode(raw: seq<bv8>, crcEnable: bool)
      requires |raw| >= 2
      modifies this
      ensures addr == raw[0] && func == raw[1]
      ensures data == DecodedData(raw, crcEnable)
      ensures crc == (if crcEnable then DecodedCrc(raw) else old(crc))
    {
      addr := raw[0];
      func := raw[1];
      if crcEnable {
        data := if |raw| >= 4 then raw[2..|raw| - 2] else [];
        crc := raw[|raw| - 2..];
      } else {
        data := raw[2..];
      }
    }
  }
}
