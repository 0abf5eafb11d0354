/** `CANMotorAsyncController`: the commands it writes to the serial adapter and
    what its reader task keeps from the frames it receives. */
module Controller {
  import opened Base
  import opened Bits
  import opened Transcoder
  import opened Header
  import opened Codec
  import opened Feedback

  // Communication types (the `CmdModes` table, plus the literal 9 the
  // parameter-table read uses).
  const MotorFeedback: nat := 2
  const MotorEnable: nat := 3
  const MotorStop: nat := 4
  const SetMechanicalZero: nat := 6
  const ParamTableWrite: nat := 8
  const ParamTableRead: nat := 9
  const SingleParamRead: nat := 17
  const SingleParamWrite: nat := 18

  /** Indices below this go through the parameter table (types 8 and 9);
      the others are single runtime parameters (types 17 and 18). */
  const RuntimeIndexBase: nat := 0x7000
  /** The `run_mode` parameter. */
  const RunModeIndex: nat := 0x7005
  /** The master id that enable and read requests put in `cmd_data[0]`. */
  const RequestMasterId: nat := 253

  /** The type names a parameter-table access accepts, in the order whose
      position is sent in payload byte 2. */
  const TypeList: seq<string> := ["u8", "s8", "u16", "s16", "u32", "s32", "f"]

  /** `list.index`: the first position of `x`, or `None` where Python raises
      ValueError. */
  function IndexOf<T(==)>(xs: seq<T>, x: T): (r: Option<nat>)
    ensures r.Some? ==> r.value < |xs| && xs[r.value] == x
    ensures r.Some? ==> forall j :: 0 <= j < r.value ==> xs[j] != x
    ensures r.None? <==> x !in xs
  {
    if xs == [] then None
    else if xs[0] == x then Some(0)
    else match IndexOf(xs[1..], x)
      case None => None
      case Some(k) => Some(k + 1)
  }

  /** The type list names exactly the tags `format_data` knows, so a type
      accepted by the table is one the encoder can pack. */
  lemma TypeListNamesTags(s: string)
    ensures IndexOf(TypeList, s).Some? <==> ParseTag(s).Some?
  {
    ParseTagByName(s);
    if s == "f" {
      assert TypeList[6] == s;
    } else if s == "u16" {
      assert TypeList[2] == s;
    } else if s == "s16" {
      assert TypeList[3] == s;
    } else if s == "u32" {
      assert TypeList[4] == s;
    } else if s == "s32" {
      assert TypeList[5] == s;
    } else if s == "u8" {
      assert TypeList[0] == s;
    } else if s == "s8" {
      assert TypeList[1] == s;
    } else {
      assert s !in TypeList;
    }
  }

  /** The first four payload bytes of a parameter access: the index, least
      significant byte first, and the type position. */
  function ParamHead(index: nat, slot: nat): seq<byte>
    requires slot < 256
  {
    [index % 256, (index / 256) % 256, slot, 0]
  }

  /** The two index bytes give back the index modulo 2^16. */
  lemma ParamIndexBytes(index: nat)
    ensures ParamHead(index, 0)[0] as int + 256 * ParamHead(index, 0)[1] as int == index % 0x1_0000
  {
    var q := index / 256;
    assert index == 256 * q + index % 256;
    assert q == 256 * (q / 256) + q % 256;
    assert index == 0x1_0000 * (q / 256) + (256 * (q % 256) + index % 256);
  }

  /** The packet `async_send_command` hands to the serial port. */
  function CommandPacket(mode: nat, c0: nat, c1: nat, motorId: nat, payload: seq<int>): seq<int>
  {
    Wrap(HeaderOf(mode, c0, c1, motorId) + [FrameDataLength] + payload)
  }

  /** A command packet is one the adapter accepts back, its payload sits at
      entries 7 to 14, and its identifier parses with the feedback layout
      into the same communication type. */
  lemma CommandPacketDecodes(mode: nat, c0: nat, c1: nat, motorId: nat, payload: seq<int>)
    requires mode < 32 && c0 < 256 && c1 < 256 && motorId < 256 && |payload| == 8
    ensures var u := CommandPacket(mode, c0, c1, motorId, payload);
            && IsPacket(u)
            && u[2..15] == HeaderOf(mode, c0, c1, motorId) + [FrameDataLength] + payload
            && u[7..15] == payload
            && ParseFeedbackHeader(Mod256(u[2..6])) == FeedbackHeader(mode, c1 / 64, c1 % 64, c0, motorId, 4)
  {
    var frame := HeaderOf(mode, c0, c1, motorId) + [FrameDataLength] + payload;
    UnwrapWrap(frame);
    var u := CommandPacket(mode, c0, c1, motorId, payload);
    assert u[2..6] == HeaderOf(mode, c0, c1, motorId);
    assert u[7..15] == payload;
    CommandHeaderParsesBack(mode, c0, c1, motorId);
  }

  /** The part of the controller's state the reader task updates. */
  datatype Readings = Readings(motorStatus: seq<real>, indexValue: Value)

  /** A received line with 17 bytes whose identifier says `com_mode == mode`. */
  predicate IsLineOfMode(line: seq<byte>, mode: nat)
  {
    |line| == 17 && ParseFeedbackHeader(line[2..6]).comMode == mode
  }

  /** One turn of the reader loop: a status frame replaces the motor status,
      a single-parameter reply replaces the index value with the float in
      bytes 11 to 14, and any other line changes nothing. */
  function Absorb(r: Readings, line: seq<byte>): (a: Readings)
    ensures |line| != 17 ==> a == r
    ensures a.motorStatus == r.motorStatus || a.indexValue == r.indexValue
    ensures a.motorStatus == r.motorStatus || |a.motorStatus| == 4
  {
    if IsLineOfMode(line, MotorFeedback) then
      r.(motorStatus := MotorStatusParser(line[7..15]))
    else if IsLineOfMode(line, SingleParamRead) then
      DecodeOneFloat(line[11..15]);
      r.(indexValue := Flt(FromLE(line[11..15])))
    else
      r
  }

  /** The reader step by case: a line that is not 17 bytes long changes
      nothing; a status frame replaces only the motor status with the four
      readings of bytes 7 to 14; a single-parameter reply replaces only the
      index value with what decoding bytes 11 to 14 as `f` yields; any other
      type changes nothing. */
  lemma AbsorbCases(r: Readings, line: seq<byte>)
    ensures |line| != 17 ==> Absorb(r, line) == r
    ensures IsLineOfMode(line, MotorFeedback) ==>
              Absorb(r, line).indexValue == r.indexValue &&
              Absorb(r, line).motorStatus == MotorStatusParser(line[7..15]) &&
              |Absorb(r, line).motorStatus| == 4
    ensures IsLineOfMode(line, SingleParamRead) ==>
              Absorb(r, line).motorStatus == r.motorStatus &&
              DecodeOutcome(DecodeScan(Words("f"), line[11..15], 0)) == Ok([Absorb(r, line).indexValue])
    ensures |line| == 17 && !IsLineOfMode(line, MotorFeedback) && !IsLineOfMode(line, SingleParamRead) ==>
              Absorb(r, line) == r
  {
    if IsLineOfMode(line, SingleParamRead) {
      DecodeOneFloat(line[11..15]);
    }
  }

  /** The reader loop over a sequence of received lines. */
  function Replay(r: Readings, lines: seq<seq<byte>>): Readings
  {
    if lines == [] then r
    else Absorb(Replay(r, lines[..|lines| - 1]), lines[|lines| - 1])
  }

  /** A command packet reduced to bytes is a 17-byte line carrying the
      payload at bytes 7 to 14 and the command's type in its identifier. */
  lemma PacketLine(mode: nat, c0: nat, c1: nat, motorId: nat, payload: seq<byte>)
    requires mode < 32 && c0 < 256 && c1 < 256 && motorId < 256 && |payload| == 8
    ensures var line := Mod256(CommandPacket(mode, c0, c1, motorId, payload));
            && |line| == 17 && line[7..15] == payload && line[11..15] == payload[4..8]
            && ParseFeedbackHeader(line[2..6]).comMode == mode
  {
    var u := CommandPacket(mode, c0, c1, motorId, payload);
    CommandPacketDecodes(mode, c0, c1, motorId, payload);
    var line := Mod256(u);
    assert line[2..6] == Mod256(u[2..6]);
    assert line[7..15] == payload;
  }

  /** A packet in the command layout, reduced to bytes, is dispatched by its
      communication type: status and parameter replies are stored, every
      other type is ignored. */
  lemma PacketAbsorbed(r: Readings, mode: nat, c0: nat, c1: nat, motorId: nat, payload: seq<byte>)
    requires mode < 32 && c0 < 256 && c1 < 256 && motorId < 256 && |payload| == 8
    ensures FromLE(payload[4..8]) < 0x1_0000_0000
    ensures var line := Mod256(CommandPacket(mode, c0, c1, motorId, payload));
            && (mode == MotorFeedback ==> Absorb(r, line) == r.(motorStatus := MotorStatusParser(payload)))
            && (mode == SingleParamRead ==> Absorb(r, line) == r.(indexValue := Flt(FromLE(payload[4..8]))))
            && (mode != MotorFeedback && mode != SingleParamRead ==> Absorb(r, line) == r)
  {
    PacketLine(mode, c0, c1, motorId, payload);
    DecodeOneFloat(payload[4..8]);
  }

  /** The position of the last line of the given type, if any. */
  function LastLineOfMode(lines: seq<seq<byte>>, mode: nat): (k: Option<nat>)
    ensures k.Some? ==> k.value < |lines| && IsLineOfMode(lines[k.value], mode)
    ensures k.Some? ==> forall i :: k.value < i < |lines| ==> !IsLineOfMode(lines[i], mode)
    ensures k.None? ==> forall i :: 0 <= i < |lines| ==> !IsLineOfMode(lines[i], mode)
  {
    if lines == [] then None
    else if IsLineOfMode(lines[|lines| - 1], mode) then Some(|lines| - 1)
    else LastLineOfMode(lines[..|lines| - 1], mode)
  }

  /** After a run of lines, the motor status is the one parsed from the last
      status line, or the old status when there was none. */
  lemma {:induction false} ReplayStatus(r: Readings, lines: seq<seq<byte>>)
    ensures var k := LastLineOfMode(lines, MotorFeedback);
            Replay(r, lines).motorStatus ==
              if k.None? then r.motorStatus else MotorStatusParser(lines[k.value][7..15])
  {
    if lines != [] {
      var n := |lines| - 1;
      var init := lines[..n];
      ReplayStatus(r, init);
      assert Replay(r, lines) == Absorb(Replay(r, init), lines[n]);
      if !IsLineOfMode(lines[n], MotorFeedback) {
        var k := LastLineOfMode(init, MotorFeedback);
        assert k.Some? ==> init[k.value] == lines[k.value];
      }
    }
  }

  /** After a run of lines, the index value is the float of the last
      single-parameter reply, or the old value when there was none. */
  lemma {:induction false} ReplayIndexValue(r: Readings, lines: seq<seq<byte>>)
    ensures var k := LastLineOfMode(lines, SingleParamRead);
            && (k.Some? ==> FromLE(lines[k.value][11..15]) < 0x1_0000_0000)
            && Replay(r, lines).indexValue ==
                 if k.None? then r.indexValue else Flt(FromLE(lines[k.value][11..15]))
  {
    if lines != [] {
      var n := |lines| - 1;
      var init := lines[..n];
      ReplayIndexValue(r, init);
      assert Replay(r, lines) == Absorb(Replay(r, init), lines[n]);
      if IsLineOfMode(lines[n], SingleParamRead) {
        DecodeOneFloat(lines[n][11..15]);
      } else {
        var k := LastLineOfMode(init, SingleParamRead);
        assert k.Some? ==> init[k.value] == lines[k.value];
      }
    }
  }

  /** The payload of a parameter-table write: index, type position, packed
      value padded to four bytes. */
  function TableWritePayload(index: nat, s: string, v: Value): (tx: seq<byte>)
    requires ParseTag(s).Some? && Fits(ParseTag(s).value, v)
    ensures |tx| == 8
  {
    TypeListNamesTags(s);
    var t := ParseTag(s).value;
    ParamHead(index, IndexOf(TypeList, s).value) + EncodeScalar(t, v) + Zeros(4 - Width(t))
  }

  /** The packed value of a fitting write decodes back under the same tag. */
  lemma PackedValueDecodes(s: string, v: Value)
    requires ParseTag(s).Some? && Fits(ParseTag(s).value, v)
    ensures var t := ParseTag(s).value;
            DecodeOutcome(DecodeScan([s], EncodeScalar(t, v) + Zeros(4 - Width(t)), 0)) == Ok([v])
  {
    var t := ParseTag(s).value;
    if t == F {
      assert s == "f";
      var bytes := EncodeScalar(t, v) + Zeros(0);
      assert bytes == ToLE(v.bits, 4);
      ModulusIsPow256(F);
      FromLEToLE(v.bits, 4);
      DecodeOneFloat(bytes);
      WordsOfTagName("f");
    } else {
      EncodeOneInteger(s, v.i);
      WordsOfTagName(s);
    }
  }

  /** A parameter-table write of a value in its type's range: eight payload
      bytes carrying the index, the type's position in the list and the
      packed value, which the same type decodes back. */
  lemma ParamPayloadRoundTrip(index: nat, s: string, v: Value)
    requires ParseTag(s).Some? && Fits(ParseTag(s).value, v)
    ensures var tx := TableWritePayload(index, s, v);
            && |tx| == 8
            && tx[0] as int + 256 * tx[1] as int == index % 0x1_0000
            && 0 <= tx[2] < |TypeList| && TypeList[tx[2]] == s
            && DecodeOutcome(DecodeScan([s], tx[4..], 0)) == Ok([v])
  {
    TypeListNamesTags(s);
    ParamIndexBytes(index);
    var t := ParseTag(s).value;
    var bytes := EncodeScalar(t, v) + Zeros(4 - Width(t));
    var tx := TableWritePayload(index, s, v);
    assert tx == ParamHead(index, IndexOf(TypeList, s).value) + bytes;
    assert tx[4..] == bytes;
    PackedValueDecodes(s, v);
  }

  /** The run mode is written as one `u8`: a mode in 0..255 packs to the
      payload `05 70 00 00 mode 00 00 00`, any other mode makes the encoder
      raise `struct.error`. */
  lemma RunModeEncoding(mode: int)
    ensures ValuesFit(Words("u8"), [Int(mode)])
    ensures 0 <= mode < 256 ==>
              EncodeOutcome(Words("u8"), [Int(mode)]) == Ok(Some([mode, 0, 0, 0])) &&
              ParamHead(RunModeIndex, 0) + [mode, 0, 0, 0] == [0x05, 0x70, 0, 0, mode, 0, 0, 0]
    ensures mode < 0 || mode >= 256 ==> EncodeOutcome(Words("u8"), [Int(mode)]) == Raise(StructError)
  {
    assert ValuesFit(["u8"], [Int(mode)]);
    EncodeOne("u8", Int(mode));
    if 0 <= mode < 256 {
      assert ToLE(mode, 1) == [mode % 256] + ToLE(mode / 256, 0);
      assert EncodeScalar(U8, Int(mode)) + Zeros(3) == [mode, 0, 0, 0];
      assert ParamHead(RunModeIndex, 0) == [0x05, 0x70, 0, 0];
    }
  }

  /** `CANMotorAsyncController` with its serial port replaced by the log of
      what it writes. */
  class MotorController {
    /** `MOTOR_ID` */
    const motorId: nat
    /** `Motor_Status`: three zeros until the first status frame, then
        position, velocity, torque and temperature. */
    var motorStatus: seq<real>
    /** `IndexValue`: the last single-parameter reply. */
    var indexValue: Value
    /** `READ`: set when a read request goes out. */
    var read: nat
    /** Every packet handed to the serial port, oldest first. */
    var written: seq<seq<int>>

    constructor(motorId: nat)
      ensures this.motorId == motorId
      ensures motorStatus == [0.0, 0.0, 0.0] && indexValue == Int(0) && read == 0 && written == []
    {
      this.motorId := motorId;
      motorStatus := [0.0, 0.0, 0.0];
      indexValue := Int(0);
      read := 0;
      written := [];
    }

    /** The body of the reader loop for one received line. */
    method HandleLine(line: seq<byte>)
      modifies this`motorStatus, this`indexValue
      ensures Readings(motorStatus, indexValue) == Absorb(old(Readings(motorStatus, indexValue)), line)
    {
      if |line| == 17 {
        var header := ParseFeedbackHeader(line[2..6]);
        if header.comMode == MotorFeedback {
          motorStatus := MotorStatusParser(line[7..15]);
        } else if header.comMode == SingleParamRead {
          var decoded := Decode(line[11..15], "f");
          DecodeOneFloat(line[11..15]);
          indexValue := decoded.value[0];
        }
      }
    }

    /** `async_serial_data_handle` over the lines the port delivers. */
    method Listen(lines: seq<seq<byte>>)
      modifies this`motorStatus, this`indexValue
      ensures Readings(motorStatus, indexValue) == Replay(old(Readings(motorStatus, indexValue)), lines)
    {
      for k := 0 to |lines|
        invariant Readings(motorStatus, indexValue) == Replay(old(Readings(motorStatus, indexValue)), lines[..k])
      {
        assert lines[..k + 1][..k] == lines[..k];
        HandleLine(lines[k]);
      }
      assert lines[..|lines|] == lines;
    }

    /** `async_send_command` with `data_num == 8`: builds the frame, wraps
        it and writes the packet. */
    method SendCommand(mode: nat, cmdData: seq<nat>, data: seq<int>) returns (r: Result<()>)
      modifies this`written
      ensures |cmdData| >= 2 && |data| >= 8 ==>
        r == Ok(()) && written == old(written) + [CommandPacket(mode, cmdData[0], cmdData[1], motorId, data[..8])]
      ensures |cmdData| < 2 || |data| < 8 ==> r == Raise(IndexError) && written == old(written)
    {
      var frame := OrganizeCanMessage(mode, cmdData, data, motorId);
      if frame.Raise? {
        return Raise(frame.error);
      }
      var packet := CanToUart(frame.value);
      written := written + [packet];
      r := Ok(());
    }

    /** `async_enable` */
    method Enable() returns (r: Result<()>)
      modifies this`written
      ensures r == Ok(())
      ensures written == old(written) + [CommandPacket(MotorEnable, RequestMasterId, 0, motorId, Zeros(8))]
    {
      r := SendCommand(MotorEnable, [RequestMasterId % 256, 0], Zeros(8));
      assert Zeros(8)[..8] == Zeros(8);
    }

    /** `async_disable` */
    method Disable() returns (r: Result<()>)
      modifies this`written
      ensures r == Ok(())
      ensures written == old(written) + [CommandPacket(MotorStop, 0, 0, motorId, Zeros(8))]
    {
      var tx := new int[8];
      for i := 0 to 8
        modifies tx
        invariant tx[..i] == Zeros(i)
      {
        tx[i] := 0;
      }
      var data := tx[..];
      assert data == Zeros(8) && data[..8] == data;
      r := SendCommand(MotorStop, [0, 0], data);
    }

    /** `async_set_0_pos`: stops the motor, then sets the mechanical zero. */
    method SetZeroPosition() returns (r: Result<()>)
      modifies this`written
      ensures r == Ok(())
      ensures written == old(written) + [CommandPacket(MotorStop, 0, 0, motorId, Zeros(8)),
                                         CommandPacket(SetMechanicalZero, 0, 0, motorId, [1] + Zeros(7))]
    {
      r := Disable();
      var tx := [1] + Zeros(7);
      r := SendCommand(SetMechanicalZero, [0, 0], tx);
      assert tx[..8] == tx;
    }

    /** `async_write_property`. Below the runtime base the type must be in
        the type list (else ValueError, before anything is sent); the write
        packet and a stop packet go out, and the misspelt follow-up call then
        raises AttributeError. From the base up the type is not checked:
        `None` from the encoder raises TypeError, an unknown type leaves the
        payload four bytes short and raises IndexError. */
    method WriteProperty(index: nat, dataType: string, value: Value) returns (r: Result<()>)
      requires index >= RuntimeIndexBase || IndexOf(TypeList, dataType).Some? ==>
               ValuesFit(Words(dataType), [value])
      modifies this`written
      ensures index < RuntimeIndexBase && IndexOf(TypeList, dataType).None? ==>
        r == Raise(ValueError) && written == old(written)
      ensures index >= RuntimeIndexBase || IndexOf(TypeList, dataType).Some? ==>
        var enc := EncodeOutcome(Words(dataType), [value]);
        && (enc.Raise? ==> r == Raise(enc.error) && written == old(written))
        && (enc == Ok(None) ==> r == Raise(TypeError) && written == old(written))
        && (enc.Ok? && enc.value.Some? ==>
              var slot := if index < RuntimeIndexBase then IndexOf(TypeList, dataType).value else 0;
              var tx := ParamHead(index, slot) + enc.value.value;
              && (|tx| < 8 ==> r == Raise(IndexError) && written == old(written))
              && (|tx| >= 8 && index < RuntimeIndexBase ==>
                    r == Raise(AttributeError) &&
                    written == old(written) + [CommandPacket(ParamTableWrite, 0, 0, motorId, tx[..8]),
                                               CommandPacket(MotorStop, 0, 0, motorId, Zeros(8))])
              && (|tx| >= 8 && index >= RuntimeIndexBase ==>
                    r == Ok(()) &&
                    written == old(written) + [CommandPacket(SingleParamWrite, 0, 0, motorId, tx[..8])]))
    {
      var mode := SingleParamWrite;
      var head := ParamHead(index, 0);
      if index < RuntimeIndexBase {
        mode := ParamTableWrite;
        var position := IndexOf(TypeList, dataType);
        if position.None? {
          return Raise(ValueError);
        }
        head := ParamHead(index, position.value);
      }
      var enc := Encode([value], dataType);
      if enc.Raise? {
        return Raise(enc.error);
      }
      if enc.value.None? {
        return Raise(TypeError);
      }
      r := SendParameter(mode, head + enc.value.value);
    }

    /** The tail of `async_write_property`: send the payload, and after a
        parameter-table write stop the motor and reach the misspelt
        `async_send_commandsend_command`, which raises AttributeError. */
    method SendParameter(mode: nat, tx: seq<int>) returns (r: Result<()>)
      modifies this`written
      ensures |tx| < 8 ==> r == Raise(IndexError) && written == old(written)
      ensures |tx| >= 8 && mode == ParamTableWrite ==>
        r == Raise(AttributeError) &&
        written == old(written) + [CommandPacket(ParamTableWrite, 0, 0, motorId, tx[..8]),
                                   CommandPacket(MotorStop, 0, 0, motorId, Zeros(8))]
      ensures |tx| >= 8 && mode != ParamTableWrite ==>
        r == Ok(()) && written == old(written) + [CommandPacket(mode, 0, 0, motorId, tx[..8])]
    {
      r := SendCommand(mode, [0, 0], tx);
      if r.Raise? {
        return;
      }
      if mode == ParamTableWrite {
        r := Disable();
        r := Raise(AttributeError);
      }
    }

    /** `async_set_mode`: writes the one-byte `run_mode` parameter. A mode
        outside 0..255 makes `struct.pack` raise. */
    method SetMode(mode: int) returns (r: Result<()>)
      modifies this`written
      ensures 0 <= mode < 256 ==>
        r == Ok(()) &&
        written == old(written) + [CommandPacket(SingleParamWrite, 0, 0, motorId, [0x05, 0x70, 0, 0, mode, 0, 0, 0])]
      ensures mode < 0 || mode >= 256 ==> r == Raise(StructError) && written == old(written)
    {
      RunModeEncoding(mode);
      r := WriteProperty(RunModeIndex, "u8", Int(mode));
      if 0 <= mode < 256 {
        var tx := ParamHead(RunModeIndex, 0) + [mode, 0, 0, 0];
        assert tx[..8] == tx;
      }
    }

    /** `async_read_property`: below the runtime base the type must be in the
        type list (else ValueError before `READ` is set); then `READ` is set
        and one request goes out, the type position in payload byte 2 for a
        table read. */
    method ReadProperty(index: nat, dataType: string) returns (r: Result<()>)
      modifies this`read, this`written
      ensures index < RuntimeIndexBase && IndexOf(TypeList, dataType).None? ==>
        r == Raise(ValueError) && read == old(read) && written == old(written)
      ensures index < RuntimeIndexBase && IndexOf(TypeList, dataType).Some? ==>
        r == Ok(()) && read == 1 &&
        written == old(written) + [CommandPacket(ParamTableRead, RequestMasterId, 0, motorId,
                                                 ParamHead(index, IndexOf(TypeList, dataType).value) + Zeros(4))]
      ensures index >= RuntimeIndexBase ==>
        r == Ok(()) && read == 1 &&
        written == old(written) + [CommandPacket(SingleParamRead, RequestMasterId, 0, motorId, ParamHead(index, 0) + Zeros(4))]
    {
      var mode := SingleParamRead;
      var tx := ParamHead(index, 0) + Zeros(4);
      if index < RuntimeIndexBase {
        mode := ParamTableRead;
        var position := IndexOf(TypeList, dataType);
        if position.None? {
          return Raise(ValueError);
        }
        tx := ParamHead(index, position.value) + Zeros(4);
      }
      read := 1;
      r := SendCommand(mode, [RequestMasterId % 256, 0], tx);
      assert tx[..8] == tx;
    }
  }
}
