/** The master's side of the line: sending a request and receiving the
 *  response byte by byte with a state machine. A response is found by its
 *  slave address, its length comes from the function code (a fixed length
 *  or a byte count), and it ends with two CRC bytes. The serial line is a
 *  finite sequence of reads, each returning one byte or nothing. */
module Receive {
  import opened Crc
  import opened Frame

  /** Where the receiver is in a response. `DataRecvState(count)` still
   *  expects `count` data bytes, but always takes at least one; `CrcState`
   *  expects `count` CRC bytes. */
  datatype State =
    | AddrState
    | FuncState
    | ByteCountState
    | DataRecvState(count: nat)
    | CrcState(count: nat)

  /** One read of the line: nothing before its timeout, or one byte. */
  datatype Read = Silence | Byte(b: bv8)

  /** Why a reception was given up. */
  datatype Abort =
    | Timeout(state: State)
    | FuncMismatch(sent: bv8, received: bv8)
    | CrcCheck

  /** What a state does with one read. */
  datatype Outcome = Continue(next: State) | Complete | Aborted(reason: Abort)

  /** The outcome of one read and the receive buffer after it. */
  datatype Handled = Handled(outcome: Outcome, buffer: seq<bv8>)

  /** One read in one state, for a request sent to `addr` with code `func`.
   *  Only the address state waits through silence and through bytes that
   *  are not the address; every later state gives up on silence. */
  function Handle(state: State, input: Read, addr: bv8, func: bv8, buffer: seq<bv8>): (h: Handled)
    requires KnownCode(func)
    ensures h.buffer == buffer || (input.Byte? && h.buffer == buffer + [input.b])
    ensures h.outcome.Aborted? ==> h.buffer == buffer
    ensures input.Silence? ==> h.outcome == (if state == AddrState then Continue(AddrState) else Aborted(Timeout(state)))
    ensures state == AddrState ==> (h.outcome == Continue(FuncState) <==> input == Byte(addr))
    ensures state == AddrState && input != Byte(addr) ==> h == Handled(Continue(AddrState), buffer)
    ensures state == FuncState && input.Byte? && input.b != func ==> h == Handled(Aborted(FuncMismatch(func, input.b)), buffer)
  {
    match state
    case AddrState =>
      if input == Byte(addr) then Handled(Continue(FuncState), buffer + [addr])
      else Handled(Continue(AddrState), buffer)
    case FuncState =>
      if input.Silence? then Handled(Aborted(Timeout(state)), buffer)
      else if input.b != func then Handled(Aborted(FuncMismatch(func, input.b)), buffer)
      else Handled(Continue(AfterFunc(func)), buffer + [input.b])
    case ByteCountState =>
      if input.Silence? then Handled(Aborted(Timeout(state)), buffer)
      else Handled(Continue(DataRecvState(input.b as nat)), buffer + [input.b])
    case DataRecvState(count) =>
      if input.Silence? then Handled(Aborted(Timeout(state)), buffer)
      else if count - 1 > 0 then Handled(Continue(DataRecvState(count - 1)), buffer + [input.b])
      else Handled(Continue(CrcState(2)), buffer + [input.b])
    case CrcState(count) =>
      if input.Silence? then Handled(Aborted(Timeout(state)), buffer)
      else if count - 1 > 0 then Handled(Continue(CrcState(count - 1)), buffer + [input.b])
      else Handled(Complete, buffer + [input.b])
  }

  /** The state after the function code: read a byte count first, or
   *  the fixed number of data bytes. */
  function AfterFunc(func: bv8): (s: State)
    requires KnownCode(func)
    ensures forall addr: bv8 :: Inv(s, [addr, func], addr, func)
  {
    match ShapeOf(func)
    case ByteCounted => ByteCountState
    case Fixed(n) => DataRecvState(n)
  }

  /** How a run of the state machine over a sequence of reads ends: with a
   *  complete frame, given up, or with the reads used up mid-way. */
  datatype RunResult =
    | Finished(frame: seq<bv8>, rest: seq<Read>)
    | Failed(reason: Abort, rest: seq<Read>)
    | Exhausted(state: State, buffer: seq<bv8>)

  /** The receive loop: handle reads one at a time until the frame is
   *  complete, the reception is given up, or there are no reads left. */
  function Run(state: State, buffer: seq<bv8>, line: seq<Read>, addr: bv8, func: bv8): (r: RunResult)
    requires KnownCode(func)
    ensures !r.Exhausted? ==> |r.rest| < |line| && r.rest == line[|line| - |r.rest|..]
    decreases |line|
  {
    if line == [] then Exhausted(state, buffer)
    else
      var h := Handle(state, line[0], addr, func, buffer);
      match h.outcome
      case Continue(next) => Run(next, h.buffer, line[1..], addr, func)
      case Complete => Finished(h.buffer, line[1..])
      case Aborted(reason) => Failed(reason, line[1..])
  }

  /** Data bytes a `DataRecvState(count)` takes: at least one. */
  function AtLeastOne(count: int): int
  {
    if count <= 0 then 1 else count
  }

  /** The data field a response to `func` carries: the fixed length (every
   *  fixed length in the table is at least one), or the count byte followed
   *  by as many bytes as it says, at least one. */
  predicate WellShaped(func: bv8, data: seq<bv8>)
    requires KnownCode(func)
  {
    match ShapeOf(func)
    case Fixed(n) => |data| == AtLeastOne(n)
    case ByteCounted => |data| >= 1 && |data| == 1 + AtLeastOne(data[0] as int)
  }

  /** Length of the data field once the count byte (if any) is in. */
  function Expected(func: bv8, buffer: seq<bv8>): int
    requires KnownCode(func)
    requires ShapeOf(func).ByteCounted? ==> |buffer| >= 3
  {
    match ShapeOf(func)
    case Fixed(n) => AtLeastOne(n)
    case ByteCounted => 1 + AtLeastOne(buffer[2] as int)
  }

  /** What the buffer holds in each state of a reception for (addr, func). */
  predicate Inv(state: State, buffer: seq<bv8>, addr: bv8, func: bv8)
    requires KnownCode(func)
  {
    match state
    case AddrState => buffer == []
    case FuncState => buffer == [addr]
    case ByteCountState => buffer == [addr, func] && ShapeOf(func).ByteCounted?
    case DataRecvState(n) =>
      && |buffer| >= 2 && buffer[0] == addr && buffer[1] == func
      && (ShapeOf(func).ByteCounted? ==> |buffer| >= 3)
      && |buffer| - 2 + AtLeastOne(n) == Expected(func, buffer)
    case CrcState(k) =>
      && 1 <= k <= 2
      && |buffer| >= 2 && buffer[0] == addr && buffer[1] == func
      && (ShapeOf(func).ByteCounted? ==> |buffer| >= 3)
      && |buffer| - 2 - (2 - k) == Expected(func, buffer)
  }

  /** One read keeps the buffer invariant; a completed buffer is a frame
   *  for (addr, func) with a well-shaped data field and two CRC bytes. */
  lemma HandleKeepsInv(state: State, input: Read, addr: bv8, func: bv8, buffer: seq<bv8>)
    requires KnownCode(func)
    requires Inv(state, buffer, addr, func)
    ensures var h := Handle(state, input, addr, func, buffer);
      && (h.outcome.Continue? ==> Inv(h.outcome.next, h.buffer, addr, func))
      && (h.outcome.Complete? ==> CompleteFrame(h.buffer, addr, func))
  {
    if input.Byte? {
      match state
      case AddrState =>
      case FuncState =>
      case ByteCountState =>
        assert (buffer + [input.b])[2] == input.b;
      case DataRecvState(n) =>
        DataKeepsInv(n, input.b, addr, func, buffer);
      case CrcState(k) =>
        CrcKeepsInv(k, input.b, addr, func, buffer);
    }
  }

  /** A complete buffer: address, function code, a well-shaped data field
   *  and two CRC bytes. */
  predicate CompleteFrame(frame: seq<bv8>, addr: bv8, func: bv8)
    requires KnownCode(func)
  {
    && |frame| >= 5 && frame[0] == addr && frame[1] == func
    && WellShaped(func, frame[2..|frame| - 2])
  }

  lemma DataKeepsInv(n: nat, b: bv8, addr: bv8, func: bv8, buffer: seq<bv8>)
    requires KnownCode(func)
    requires Inv(DataRecvState(n), buffer, addr, func)
    ensures var h := Handle(DataRecvState(n), Byte(b), addr, func, buffer);
      h.outcome.Continue? && Inv(h.outcome.next, h.buffer, addr, func)
  {
    var longer := buffer + [b];
    assert longer[0] == addr && longer[1] == func;
    if ShapeOf(func).ByteCounted? {
      assert longer[2] == buffer[2];
    }
    assert Expected(func, longer) == Expected(func, buffer);
  }

  lemma CrcKeepsInv(k: nat, b: bv8, addr: bv8, func: bv8, buffer: seq<bv8>)
    requires KnownCode(func)
    requires Inv(CrcState(k), buffer, addr, func)
    ensures var h := Handle(CrcState(k), Byte(b), addr, func, buffer);
      && (h.outcome.Continue? ==> Inv(h.outcome.next, h.buffer, addr, func))
      && (h.outcome.Complete? ==> CompleteFrame(h.buffer, addr, func))
  {
    var longer := buffer + [b];
    assert longer[0] == addr && longer[1] == func;
    if ShapeOf(func).ByteCounted? {
      assert longer[2] == buffer[2];
    }
    assert Expected(func, longer) == Expected(func, buffer);
    if k == 1 {
      var data := longer[2..|longer| - 2];
      if ShapeOf(func).ByteCounted? {
        assert data[0] == longer[2];
      }
    }
  }

  /** Soundness of reception: whatever the line delivers, a frame the
   *  receiver completes starts with the address and function code of the
   *  request, has the data length its function code calls for, and ends
   *  with two CRC bytes. */
  lemma {:induction false} RunFinishedIsFrame(state: State, buffer: seq<bv8>, line: seq<Read>, addr: bv8, func: bv8)
    requires KnownCode(func)
    requires Inv(state, buffer, addr, func)
    ensures var r := Run(state, buffer, line, addr, func);
      r.Finished? ==> CompleteFrame(r.frame, addr, func)
    decreases |line|
  {
    if line != [] {
      HandleKeepsInv(state, line[0], addr, func, buffer);
      var h := Handle(state, line[0], addr, func, buffer);
      if h.outcome.Continue? {
        RunFinishedIsFrame(h.outcome.next, h.buffer, line[1..], addr, func);
      }
    }
  }

  /** The reads that deliver the given bytes one by one without a gap. */
  function AsReads(s: seq<bv8>): (r: seq<Read>)
    ensures |r| == |s|
  {
    if s == [] then [] else [Byte(s[0])] + AsReads(s[1..])
  }

  lemma {:induction false} AsReadsConcat(s: seq<bv8>, t: seq<bv8>)
    ensures AsReads(s + t) == AsReads(s) + AsReads(t)
    decreases |s|
  {
    if s == [] {
      assert s + t == t;
    } else {
      assert (s + t)[1..] == s[1..] + t;
      AsReadsConcat(s[1..], t);
    }
  }

  /** The run over one read followed by more is one step of the machine,
   *  then the run over the rest. */
  lemma RunCons(state: State, buffer: seq<bv8>, r: Read, line: seq<Read>, addr: bv8, func: bv8)
    requires KnownCode(func)
    ensures var h := Handle(state, r, addr, func, buffer);
      Run(state, buffer, [r] + line, addr, func)
        == if h.outcome.Continue? then Run(h.outcome.next, h.buffer, line, addr, func)
           else if h.outcome.Complete? then Finished(h.buffer, line)
           else Failed(h.outcome.reason, line)
  {
    assert ([r] + line)[1..] == line;
  }

  /** Delivering a non-empty byte string starts with its first byte. */
  lemma AsReadsCons(s: seq<bv8>, rest: seq<Read>)
    requires |s| >= 1
    ensures AsReads(s) + rest == [Byte(s[0])] + (AsReads(s[1..]) + rest)
  {
  }

  /** Taking the first element off a sequence and putting it back. */
  lemma HeadTail<T>(prefix: seq<T>, s: seq<T>)
    requires |s| >= 1
    ensures prefix + [s[0]] + s[1..] == prefix + s
  {
    assert s == [s[0]] + s[1..];
  }

  /** The head and tail of a concatenation whose first part is not empty. */
  lemma ConcatTail<T>(s: seq<T>, t: seq<T>)
    requires |s| >= 1
    ensures (s + t)[0] == s[0] && (s + t)[1..] == s[1..] + t
  {
  }

  /** In `CrcState(2)` two CRC bytes complete the frame. */
  lemma RunCrcCompletes(buffer: seq<bv8>, crc: seq<bv8>, rest: seq<Read>, addr: bv8, func: bv8)
    requires KnownCode(func)
    requires |crc| == 2
    ensures Run(CrcState(2), buffer, AsReads(crc) + rest, addr, func) == Finished(buffer + crc, rest)
  {
    var last := AsReads(crc[1..]) + rest;
    assert AsReads(crc) + rest == [Byte(crc[0])] + last by {
      AsReadsCons(crc, rest);
    }
    assert last == [Byte(crc[1])] + rest by {
      AsReadsCons(crc[1..], rest);
      assert crc[1..][1..] == [] && crc[1..][0] == crc[1];
    }
    calc {
      Run(CrcState(2), buffer, AsReads(crc) + rest, addr, func);
      Run(CrcState(2), buffer, [Byte(crc[0])] + last, addr, func);
      { RunCons(CrcState(2), buffer, Byte(crc[0]), last, addr, func); }
      Run(CrcState(1), buffer + [crc[0]], [Byte(crc[1])] + rest, addr, func);
      { RunCons(CrcState(1), buffer + [crc[0]], Byte(crc[1]), rest, addr, func); }
      Finished(buffer + [crc[0]] + [crc[1]], rest);
      { assert buffer + [crc[0]] + [crc[1]] == buffer + crc; }
      Finished(buffer + crc, rest);
    }
  }

  /** One data byte: count down, or move to the CRC bytes after the last. */
  lemma DataStep(count: nat, buffer: seq<bv8>, b: bv8, line: seq<Read>, addr: bv8, func: bv8)
    requires KnownCode(func)
    ensures Run(DataRecvState(count), buffer, [Byte(b)] + line, addr, func)
         == Run(if count - 1 > 0 then DataRecvState(count - 1) else CrcState(2), buffer + [b], line, addr, func)
  {
    RunCons(DataRecvState(count), buffer, Byte(b), line, addr, func);
  }

  /** In `DataRecvState(count)` the data bytes it expects lead to the CRC
   *  state with those bytes appended to the buffer. */
  lemma {:induction false} RunDataBytes(count: nat, buffer: seq<bv8>, data: seq<bv8>, tail: seq<Read>, addr: bv8, func: bv8)
    requires KnownCode(func)
    requires |data| == AtLeastOne(count)
    ensures Run(DataRecvState(count), buffer, AsReads(data) + tail, addr, func)
         == Run(CrcState(2), buffer + data, tail, addr, func)
    decreases |data|
  {
    var line := AsReads(data[1..]) + tail;
    assert AsReads(data) + tail == [Byte(data[0])] + line by {
      AsReadsCons(data, tail);
    }
    HeadTail(buffer, data);
    if count - 1 > 0 {
      calc {
        Run(DataRecvState(count), buffer, AsReads(data) + tail, addr, func);
        Run(DataRecvState(count), buffer, [Byte(data[0])] + line, addr, func);
        { DataStep(count, buffer, data[0], line, addr, func); }
        Run(DataRecvState(count - 1), buffer + [data[0]], line, addr, func);
        { RunDataBytes(count - 1, buffer + [data[0]], data[1..], tail, addr, func); }
        Run(CrcState(2), buffer + [data[0]] + data[1..], tail, addr, func);
        Run(CrcState(2), buffer + data, tail, addr, func);
      }
    } else {
      assert line == tail && buffer + [data[0]] == buffer + data by {
        assert data[1..] == [];
      }
      calc {
        Run(DataRecvState(count), buffer, AsReads(data) + tail, addr, func);
        Run(DataRecvState(count), buffer, [Byte(data[0])] + line, addr, func);
        { DataStep(count, buffer, data[0], line, addr, func); }
        Run(CrcState(2), buffer + [data[0]], line, addr, func);
        Run(CrcState(2), buffer + data, tail, addr, func);
      }
    }
  }

  /** In `DataRecvState(count)` the data bytes it expects followed by two
   *  CRC bytes complete the frame. */
  lemma RunDataCompletes(count: nat, buffer: seq<bv8>, data: seq<bv8>, crc: seq<bv8>, rest: seq<Read>, addr: bv8, func: bv8)
    requires KnownCode(func)
    requires |data| == AtLeastOne(count) && |crc| == 2
    ensures Run(DataRecvState(count), buffer, AsReads(data + crc) + rest, addr, func)
         == Finished(buffer + data + crc, rest)
  {
    assert AsReads(data + crc) + rest == AsReads(data) + (AsReads(crc) + rest) by {
      AsReadsConcat(data, crc);
    }
    RunDataBytes(count, buffer, data, AsReads(crc) + rest, addr, func);
    RunCrcCompletes(buffer + data, crc, rest, addr, func);
  }

  /** In `ByteCountState` a count byte, the data bytes it announces (at
   *  least one) and two CRC bytes complete the frame. */
  lemma RunCountedCompletes(buffer: seq<bv8>, data: seq<bv8>, crc: seq<bv8>, rest: seq<Read>, addr: bv8, func: bv8)
    requires KnownCode(func)
    requires |data| >= 1 && |data| == 1 + AtLeastOne(data[0] as int) && |crc| == 2
    ensures Run(ByteCountState, buffer, AsReads(data + crc) + rest, addr, func)
         == Finished(buffer + data + crc, rest)
  {
    var tail := AsReads(data[1..] + crc) + rest;
    calc {
      Run(ByteCountState, buffer, AsReads(data + crc) + rest, addr, func);
      { AsReadsCons(data + crc, rest); ConcatTail(data, crc); }
      Run(ByteCountState, buffer, [Byte(data[0])] + tail, addr, func);
      { RunCons(ByteCountState, buffer, Byte(data[0]), tail, addr, func); }
      Run(DataRecvState(data[0] as nat), buffer + [data[0]], tail, addr, func);
      { RunDataCompletes(data[0] as nat, buffer + [data[0]], data[1..], crc, rest, addr, func); }
      Finished(buffer + [data[0]] + data[1..] + crc, rest);
      { HeadTail(buffer, data); }
      Finished(buffer + data + crc, rest);
    }
  }

  /** The address and function code of the request move the receiver to
   *  the state that reads the data field. */
  lemma RunHeader(addr: bv8, func: bv8, tail: seq<Read>)
    requires KnownCode(func)
    ensures Run(AddrState, [], [Byte(addr), Byte(func)] + tail, addr, func)
         == Run(AfterFunc(func), [addr, func], tail, addr, func)
  {
    var line := [Byte(addr), Byte(func)] + tail;
    assert line[0] == Byte(addr);
    assert line[1..] == [Byte(func)] + tail;
    assert line[1..][0] == Byte(func);
    assert line[1..][1..] == tail;
    assert [] + [addr] == [addr] && [addr] + [func] == [addr, func];
  }

  /** Completeness of reception: a well-shaped response for (addr, func)
   *  delivered without gaps is received exactly, and the reads after it
   *  are left on the line. */
  lemma RunCompletes(addr: bv8, func: bv8, data: seq<bv8>, crc: seq<bv8>, rest: seq<Read>)
    requires KnownCode(func)
    requires WellShaped(func, data) && |crc| == 2
    ensures Run(AddrState, [], AsReads([addr, func] + data + crc) + rest, addr, func)
         == Finished([addr, func] + data + crc, rest)
  {
    var tail := AsReads(data + crc) + rest;
    assert AsReads([addr, func] + data + crc) + rest == [Byte(addr), Byte(func)] + tail by {
      AsReadsConcat([addr, func], data + crc);
      assert [addr, func] + data + crc == [addr, func] + (data + crc);
      assert [addr, func][1..] == [func];
      assert [func][1..] == [];
    }
    assert [addr, func] + data + crc == [addr, func] + (data + crc);
    calc {
      Run(AddrState, [], AsReads([addr, func] + data + crc) + rest, addr, func);
      Run(AddrState, [], [Byte(addr), Byte(func)] + tail, addr, func);
      { RunHeader(addr, func, tail); }
      Run(AfterFunc(func), [addr, func], tail, addr, func);
      { match ShapeOf(func)
        case Fixed(n) =>
          RunDataCompletes(n, [addr, func], data, crc, rest, addr, func);
        case ByteCounted =>
          RunCountedCompletes([addr, func], data, crc, rest, addr, func);
      }
      Finished([addr, func] + data + crc, rest);
    }
  }

  /** Before the address byte, silence and bytes that are not the address
   *  are skipped. */
  lemma {:induction false} RunSkipsNoise(noise: seq<Read>, line: seq<Read>, addr: bv8, func: bv8)
    requires KnownCode(func)
    requires forall i :: 0 <= i < |noise| ==> noise[i] != Byte(addr)
    ensures Run(AddrState, [], noise + line, addr, func) == Run(AddrState, [], line, addr, func)
    decreases |noise|
  {
    if noise == [] {
      assert noise + line == line;
    } else {
      assert (noise + line)[0] == noise[0];
      assert (noise + line)[1..] == noise[1..] + line;
      RunSkipsNoise(noise[1..], line, addr, func);
    }
  }

  /** A response with the right address but another function code (an
   *  exception response, say) is given up at its second byte. */
  lemma RunRejectsOtherFunction(noise: seq<Read>, other: bv8, rest: seq<Read>, addr: bv8, func: bv8)
    requires KnownCode(func) && other != func
    requires forall i :: 0 <= i < |noise| ==> noise[i] != Byte(addr)
    ensures Run(AddrState, [], noise + [Byte(addr), Byte(other)] + rest, addr, func)
         == Failed(FuncMismatch(func, other), rest)
  {
    assert noise + [Byte(addr), Byte(other)] + rest == noise + ([Byte(addr), Byte(other)] + rest);
    RunSkipsNoise(noise, [Byte(addr), Byte(other)] + rest, addr, func);
    assert ([Byte(addr), Byte(other)] + rest)[1..][1..] == rest;
  }

  /** A request encoded with CRC, answered by a well-shaped response with
   *  its own correct CRC after any noise, is received and passes the CRC
   *  check that follows reception. */
  lemma ResponseIsReceived(noise: seq<Read>, addr: bv8, func: bv8, data: seq<bv8>, rest: seq<Read>)
    requires KnownCode(func) && WellShaped(func, data)
    requires forall i :: 0 <= i < |noise| ==> noise[i] != Byte(addr)
    ensures var frame := RawBytes(addr, func, data) + CalculatedCrc(RawBytes(addr, func, data));
      && Run(AddrState, [], noise + AsReads(frame) + rest, addr, func) == Finished(frame, rest)
      && CrcValid(frame)
  {
    var body := RawBytes(addr, func, data);
    var frame := body + CalculatedCrc(body);
    assert noise + AsReads(frame) + rest == noise + (AsReads(frame) + rest);
    RunSkipsNoise(noise, AsReads(frame) + rest, addr, func);
    RunCompletes(addr, func, data, CalculatedCrc(body), rest);
    assert frame[..|frame| - 2] == body;
  }

  /** A complete frame decoded with CRC: its data field is well shaped, it
   *  re-encodes to itself, and its CRC checks exactly when it is valid. */
  lemma CompleteFrameDecodes(frame: seq<bv8>, addr: bv8, func: bv8)
    requires KnownCode(func) && CompleteFrame(frame, addr, func)
    ensures WellShaped(func, DecodedData(frame, true))
    ensures RawBytes(frame[0], frame[1], DecodedData(frame, true)) + DecodedCrc(frame) == frame
    ensures CalculatedCrc(RawBytes(frame[0], frame[1], DecodedData(frame, true))) == DecodedCrc(frame)
        <==> CrcValid(frame)
  {
    DecodedCheckCrc(frame);
    DecodeThenEncode(frame);
  }

  /** What `recv` does with a completed frame: decode it with CRC into a
   *  new message and keep it only if its CRC checks. */
  method DecodeChecked(frame: seq<bv8>, addr: bv8, func: bv8) returns (response: RtuMessage?)
    requires KnownCode(func) && CompleteFrame(frame, addr, func)
    ensures (response != null) == CrcValid(frame)
    ensures response != null ==>
      && fresh(response)
      && response.addr == addr && response.func == func
      && WellShaped(func, response.data)
      && response.CheckCrc()
      && response.Raw() + response.crc == frame
  {
    response := new RtuMessage.Empty();
    response.Decode(frame, true);
    CompleteFrameDecodes(frame, addr, func);
    if !response.CheckCrc() {
      response := null;
    }
  }

  /** How `Recv` ended. */
  datatype RecvStatus = Received | RecvFailed(reason: Abort) | NotFinished

  /** The master on a serial line. `incoming` is what the line will still
   *  deliver, read by read; `written` is everything sent on it. */
  class Client {
    const crcEnable: bool
    var incoming: seq<Read>
    var written: seq<bv8>

    constructor (incoming: seq<Read>, crcEnable: bool)
      ensures this.incoming == incoming && this.crcEnable == crcEnable
      ensures written == []
    {
      this.incoming := incoming;
      this.crcEnable := crcEnable;
      written := [];
    }

    /** Encodes `message` (recomputing its CRC when CRC is enabled), writes
     *  it to the line and returns the number of bytes written. */
    method Send(message: RtuMessage) returns (count: nat)
      modifies this, message
      ensures message.addr == old(message.addr) && message.func == old(message.func)
      ensures message.data == old(message.data)
      ensures message.crc == (if crcEnable then message.CalculatedCrcBytes() else old(message.crc))
      ensures written == old(written) + message.Raw() + message.crc
      ensures count == message.Length()
      ensures incoming == old(incoming)
    {
      var wire := message.Encode(crcEnable);
      written := written + wire;
      count := |wire|;
    }

    /** Receives the response to `sent`: runs the state machine over the
     *  reads the line delivers; a complete frame is decoded with CRC and
     *  returned only if its CRC checks. */
    method Recv(sent: RtuMessage) returns (status: RecvStatus, response: RtuMessage?)
      requires KnownCode(sent.func)
      modifies this
      ensures written == old(written)
      ensures var r := Run(AddrState, [], old(incoming), sent.addr, sent.func);
        match r
        case Exhausted(_, _) => status == NotFinished && incoming == []
        case Failed(reason, rest) => status == RecvFailed(reason) && incoming == rest
        case Finished(frame, rest) =>
          && incoming == rest
          && |frame| >= 5
          && status == (if CrcValid(frame) then Received else RecvFailed(CrcCheck))
      ensures (response != null) == status.Received?
      ensures response != null ==>
        && fresh(response)
        && response.addr == sent.addr && response.func == sent.func
        && WellShaped(sent.func, response.data)
        && response.CheckCrc()
        && response.Raw() + response.crc == Run(AddrState, [], old(incoming), sent.addr, sent.func).frame
    {
      var state := AddrState;
      var buffer: seq<bv8> := [];
      response := null;
      while incoming != []
        invariant Run(state, buffer, incoming, sent.addr, sent.func)
               == Run(AddrState, [], old(incoming), sent.addr, sent.func)
        invariant Inv(state, buffer, sent.addr, sent.func)
        invariant written == old(written)
        decreases |incoming|
      {
        var input := incoming[0];
        incoming := incoming[1..];
        HandleKeepsInv(state, input, sent.addr, sent.func, buffer);
        var h := Handle(state, input, sent.addr, sent.func, buffer);
        if h.outcome.Continue? {
          state := h.outcome.next;
          buffer := h.buffer;
        } else if h.outcome.Aborted? {
          status := RecvFailed(h.outcome.reason);
          return;
        } else {
          response := DecodeChecked(h.buffer, sent.addr, sent.func);
          status := if response == null then RecvFailed(CrcCheck) else Received;
          return;
        }
      }
      status := NotFinished;
    }
  }
}
