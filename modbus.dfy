/** The Modbus TCP frames the controller exchanges with the heat pump: the MBAP header of
    section 3.1.3 of the MODBUS Messaging on TCP/IP Implementation Guide V1.0b, the request
    PDUs of function codes 0x03, 0x04 and 0x06 (sections 6.3, 6.4 and 6.6 of the MODBUS
    Application Protocol Specification V1.1b3), the decode of the register value and the
    exception check (section 7 of the same specification). The socket exchange is not
    modelled: a response is an input. */
module Modbus {
  import opened Text
  import opened PyNum

  type Byte = x: int | 0 <= x < 0x100

  /** `int.from_bytes(b, "big")`. */
  function FromBytes(b: seq<Byte>): nat
  {
    if |b| == 0 then 0 else FromBytes(b[..|b| - 1]) * 0x100 + b[|b| - 1]
  }

  /** Python's `b[i:j]` on bytes: the indices are clamped to the length. */
  function Slice(b: seq<Byte>, i: nat, j: nat): (s: seq<Byte>)
    ensures |s| <= if j < i then 0 else j - i
  {
    if i >= |b| || j <= i then [] else if j <= |b| then b[i..j] else b[i..]
  }

  /** Two bytes hold at most a 16-bit number, one byte at most an 8-bit one. */
  lemma FromBytesSmall(b: seq<Byte>)
    requires |b| <= 2
    ensures FromBytes(b) < 0x1_0000
    ensures |b| <= 1 ==> FromBytes(b) < 0x100
    ensures |b| == 1 ==> FromBytes(b) == b[0]
  {
    if |b| > 0 {
      assert FromBytes(b[..|b| - 1]) < 0x100 by {
        if |b| == 2 { assert b[..1][..0] == []; }
      }
    }
  }

  /** `struct.pack(">H", x)`. */
  function PackU16(x: int): (b: seq<Byte>)
    requires 0 <= x < 0x1_0000
    ensures |b| == 2 && FromBytes(b) == x
  {
    var b := [x / 0x100, x % 0x100];
    assert b[..1] == [x / 0x100] && b[..1][..0] == [];
    assert FromBytes(b[..1]) == x / 0x100;
    b
  }

  /** Two bytes are the packing of the number they hold. */
  lemma PackFromBytes(b: seq<Byte>)
    requires |b| == 2
    ensures FromBytes(b) < 0x1_0000 && PackU16(FromBytes(b)) == b
  {
    assert b[..1][..0] == [];
    FromBytesSmall(b);
  }

  const TransactionId: int := 1
  const ProtocolId: int := 0
  const MessageLength: int := 6
  const UnitId: Byte := 5

  /** `create_mbap_hdr`: `struct.pack(">HHHB", 1, 0, 6, 5)`. */
  function MbapHeader(): (h: seq<Byte>)
    ensures h == [0x00, 0x01, 0x00, 0x00, 0x00, 0x06, 0x05]
  {
    PackU16(TransactionId) + PackU16(ProtocolId) + PackU16(MessageLength) + [UnitId]
  }

  /** The header read back field by field. */
  lemma MbapHeaderFields()
    ensures FromBytes(MbapHeader()[0..2]) == TransactionId
    ensures FromBytes(MbapHeader()[2..4]) == ProtocolId
    ensures FromBytes(MbapHeader()[4..6]) == MessageLength
    ensures MbapHeader()[6] == UnitId
  {
    var h := MbapHeader();
    assert h[0..2] == PackU16(TransactionId);
    assert h[2..4] == PackU16(ProtocolId);
    assert h[4..6] == PackU16(MessageLength);
  }

  /** The header followed by `struct.pack(">BHH", func, address, data)`; `None` where
      `struct.pack` raises because a field does not fit. */
  function Request(func: int, address: int, data: int): (r: Option<seq<Byte>>)
    ensures r.Some? <==> 0 <= func < 0x100 && 0 <= address < 0x1_0000 && 0 <= data < 0x1_0000
    ensures r.Some? ==> |r.value| == 12 && r.value[..7] == MbapHeader()
    ensures r.Some? ==> FromBytes(r.value[4..6]) == |r.value| - 6
  {
    if 0 <= func < 0x100 && 0 <= address < 0x1_0000 && 0 <= data < 0x1_0000 then
      var f := MbapHeader() + [func as Byte] + PackU16(address) + PackU16(data);
      MbapHeaderFields();
      assert f[4..6] == MbapHeader()[4..6];
      Some(f)
    else None
  }

  /** The fields of a 12-byte request behind the fixed header. */
  function ParseRequest(frame: seq<Byte>): Option<(int, int, int)>
  {
    if |frame| != 12 || frame[..7] != MbapHeader() then None
    else Some((frame[7], FromBytes(frame[8..10]), FromBytes(frame[10..12])))
  }

  /** A request carries its three fields. */
  lemma RequestRoundTrip(func: int, address: int, data: int)
    requires 0 <= func < 0x100 && 0 <= address < 0x1_0000 && 0 <= data < 0x1_0000
    ensures ParseRequest(Request(func, address, data).value) == Some((func, address, data))
  {
    var f := Request(func, address, data).value;
    assert f[8..10] == PackU16(address);
    assert f[10..12] == PackU16(data);
  }

  /** Every frame with the header and the request length is the request of its fields. */
  lemma ParseRequestInverse(frame: seq<Byte>)
    requires ParseRequest(frame).Some?
    ensures Request(ParseRequest(frame).value.0, ParseRequest(frame).value.1, ParseRequest(frame).value.2) == Some(frame)
  {
    PackFromBytes(frame[8..10]);
    PackFromBytes(frame[10..12]);
    FromBytesSmall(frame[8..10]);
    FromBytesSmall(frame[10..12]);
    assert frame == frame[..7] + [frame[7]] + frame[8..10] + frame[10..12];
  }

  /** The registers the controller reads: function code, register address and the divisor
      that turns the register into degrees. */
  datatype Register = Register(func: Byte, address: int, scale: nat)

  /** `tcp_get_indoor_temperature`: the comfort wheel setting, in hundredths. */
  const IndoorSetting: Register := Register(3, 5, 100)
  /** `tcp_get_outdoor_temperature`, in hundredths. */
  const OutdoorTemperature: Register := Register(4, 13, 100)
  /** `tcp_get_room_sensor_temperature`, in tenths. */
  const RoomSensor: Register := Register(4, 121, 10)
  /** The number of bytes the controller waits for. */
  const ResponseLength: nat := 11
  /** Function 6 writes the comfort wheel setting, register 5. */
  const WriteFunction: int := 6

  /** The request of `tcp_read_modbus_reg_temp`: one register. */
  function ReadRequest(reg: Register): (f: Option<seq<Byte>>)
    ensures 0 <= reg.address < 0x1_0000 ==>
      f.Some? && ParseRequest(f.value) == Some((reg.func as int, reg.address, 1))
  {
    if 0 <= reg.address < 0x1_0000 then
      RequestRoundTrip(reg.func, reg.address, 1);
      Request(reg.func, reg.address, 1)
    else Request(reg.func, reg.address, 1)
  }

  /** The three registers the controller reads have 12-byte requests. */
  lemma ReadRequestsFit()
    ensures ReadRequest(IndoorSetting).Some? && |ReadRequest(IndoorSetting).value| == 12
    ensures ReadRequest(OutdoorTemperature).Some? && |ReadRequest(OutdoorTemperature).value| == 12
    ensures ReadRequest(RoomSensor).Some? && |ReadRequest(RoomSensor).value| == 12
  {
  }

  /** The request of `tcp_set_indoor_temperature`: the setting in hundredths; `None` where
      `struct.pack` raises. */
  function WriteRequest(temp: int): (f: Option<seq<Byte>>)
    ensures f.Some? <==> 0 <= temp <= 655
    ensures f.Some? ==> ParseRequest(f.value) == Some((WriteFunction, IndoorSetting.address, temp * 100))
  {
    if 0 <= temp <= 655 then
      RequestRoundTrip(WriteFunction, IndoorSetting.address, temp * 100);
      Request(WriteFunction, IndoorSetting.address, temp * 100)
    else Request(WriteFunction, IndoorSetting.address, temp * 100)
  }

  /** `t & 0x8000 == 0x8000` on a 16-bit register. */
  predicate SignBit(t: nat)
    requires t < 0x1_0000
  {
    (t as bv16) & 0x8000 == 0x8000
  }

  /** The sign bit is set exactly on the upper half of the 16-bit range. */
  lemma SignBitHigh(t: nat)
    requires t < 0x1_0000
    ensures SignBit(t) <==> t >= 0x8000
  {
    var b := t as bv16;
    assert b & 0x8000 == 0x8000 <==> b >= 0x8000;
  }

  /** The register value of a response: bytes 9 and 10 big-endian, minus 65536 when the sign
      bit is set, which is the 16-bit two's complement reading. */
  function DecodeRegister(resp: seq<Byte>): (t: int)
    ensures -0x8000 <= t < 0x8000
  {
    var raw := Slice(resp, 9, 11);
    FromBytesSmall(raw);
    var u := FromBytes(raw);
    SignBitHigh(u);
    if SignBit(u) then -(0x1_0000 - u) else u
  }

  /** The two bytes of a signed 16-bit value. */
  function EncodeRegister(v: int): (b: seq<Byte>)
    requires -0x8000 <= v < 0x8000
    ensures |b| == 2
  {
    PackU16(if v < 0 then v + 0x1_0000 else v)
  }

  /** A value placed at bytes 9 and 10 decodes to itself. */
  lemma DecodeEncode(front: seq<Byte>, v: int)
    requires |front| == 9 && -0x8000 <= v < 0x8000
    ensures DecodeRegister(front + EncodeRegister(v)) == v
  {
    var resp := front + EncodeRegister(v);
    assert Slice(resp, 9, 11) == EncodeRegister(v);
    SignBitHigh(if v < 0 then v + 0x1_0000 else v);
  }

  /** The decoded value determines the two bytes it came from. */
  lemma EncodeDecode(resp: seq<Byte>)
    requires |resp| == ResponseLength
    ensures EncodeRegister(DecodeRegister(resp)) == resp[9..11]
  {
    var raw := resp[9..11];
    assert Slice(resp, 9, 11) == raw;
    FromBytesSmall(raw);
    SignBitHigh(FromBytes(raw));
    PackFromBytes(raw);
  }

  /** `round(t / scale)` with ties to even. */
  function ScaledTemperature(t: int, scale: nat): (r: int)
    requires scale > 0
    ensures (t as real / scale as real) - 1.0 / 2.0 <= r as real <= (t as real / scale as real) + 1.0 / 2.0
  {
    RoundHalfEven(t as real / scale as real)
  }

  /** `exit_if_resp_invalid`: the function code byte (`bytes_rcvd[7:8]`, empty for a short
      response) above 127 marks an exception response, on which the program exits. */
  predicate IsException(resp: seq<Byte>)
  {
    FromBytes(Slice(resp, 7, 8)) > 127
  }

  /** An exception response is one whose function code byte has its high bit set. */
  lemma ExceptionHighBit(resp: seq<Byte>)
    ensures IsException(resp) <==> |resp| > 7 && resp[7] >= 0x80
  {
    FromBytesSmall(Slice(resp, 7, 8));
  }

  /** A response that echoes a function code is accepted; one that returns it with the high
      bit added is an exception. */
  lemma EchoAccepted(resp: seq<Byte>, func: Byte)
    requires func < 0x80 && |resp| > 7
    ensures resp[7] == func ==> !IsException(resp)
    ensures resp[7] == func + 0x80 ==> IsException(resp)
  {
    ExceptionHighBit(resp);
  }

  /** `tcp_read_modbus_reg_temp` once the response is in: `None` where the program exits. */
  function ReadTemperature(reg: Register, resp: seq<Byte>): (r: Option<int>)
    requires reg.scale > 0
    ensures r.Some? <==> !IsException(resp)
    ensures r.Some? ==> r.value == ScaledTemperature(DecodeRegister(resp), reg.scale)
  {
    if IsException(resp) then None else Some(ScaledTemperature(DecodeRegister(resp), reg.scale))
  }

  /** `tcp_set_indoor_temperature` once the response is in: the setting written, or `None`
      where `struct.pack` raises or the program exits. */
  function SetIndoorTemperature(temp: int, resp: seq<Byte>): (r: Option<int>)
    ensures r.Some? <==> 0 <= temp <= 655 && !IsException(resp)
    ensures r.Some? ==> r.value == temp
  {
    if WriteRequest(temp).None? || IsException(resp) then None else Some(temp)
  }

  /** A setting written in hundredths reads back as the same whole degrees. */
  lemma WriteThenRead(front: seq<Byte>, temp: int)
    requires |front| == 9 && 0 <= temp <= 327 && front[7] < 0x80
    ensures ReadTemperature(IndoorSetting, front + EncodeRegister(temp * 100)) == Some(temp)
  {
    var resp := front + EncodeRegister(temp * 100);
    DecodeEncode(front, temp * 100);
    ExceptionHighBit(resp);
    assert (temp * 100) as real / 100 as real == temp as real;
    RoundWhole(temp);
  }
}
