/**
 * The Chameleon Ultra binary protocol: the opcode and status registries, the
 * command frame (`opcode` as 4 big-endian bytes followed by the payload), the
 * reply frame (1 status byte followed by the payload) and the command factories.
 */
module ChameleonUltraProtocol {
  import opened Wrappers

  /** A Kotlin `Int`. */
  type int32 = x: int | -0x8000_0000 <= x < 0x8000_0000

  const CMD_GET_VERSION: int32 := 0x1000
  const CMD_SET_SLOT: int32 := 0x1001
  const CMD_GET_SLOT: int32 := 0x1002
  const CMD_HF14A_SCAN: int32 := 0x2000
  const CMD_HF14A_RAW: int32 := 0x2001
  const CMD_EMULATOR_START: int32 := 0x3000
  const CMD_EMULATOR_STOP: int32 := 0x3001
  const CMD_SET_UID: int32 := 0x3002
  const CMD_SET_SAK: int32 := 0x3003
  const CMD_SET_ATQA: int32 := 0x3004

  const STATUS_OK: byte := 0x00
  const STATUS_ERROR: byte := 0x01
  const STATUS_INVALID_PARAM: byte := 0x02
  const STATUS_TIMEOUT: byte := 0x03

  /** An outbound request: an opcode and its payload (empty by default in the source). */
  datatype Command = Command(cmd: int32, data: seq<byte>)

  /** An inbound reply: a status byte and the payload that follows it. */
  datatype Response = Response(status: byte, data: seq<byte>)

  /** Kotlin's `shr` on an `Int`: an arithmetic shift, i.e. division rounding down. */
  function Shr(x: int32, n: nat): int
    requires n < 32
  {
    x / Pow2(n)
  }

  function Pow2(n: nat): (p: int)
    ensures p >= 1
  {
    if n == 0 then 1 else 2 * Pow2(n - 1)
  }

  /** The four header bytes the source writes into `cmdBytes`. */
  function Header(cmd: int32): seq<byte>
  {
    [ToByte(Shr(cmd, 24)), ToByte(Shr(cmd, 16)), ToByte(Shr(cmd, 8)), ToByte(cmd)]
  }

  /** The command frame, `cmdBytes + data`. */
  function Frame(c: Command): seq<byte>
  {
    Header(c.cmd) + c.data
  }

  /** Reads four bytes back as an unsigned big-endian number. */
  function BigEndianValue(b0: byte, b1: byte, b2: byte, b3: byte): (v: int)
    ensures 0 <= v < 0x1_0000_0000
  {
    ((b0 * 256 + b1) * 256 + b2) * 256 + b3
  }

  /** Reads an unsigned 32-bit number back as a Kotlin `Int` (two's complement). */
  function AsInt32(u: int): int
  {
    if u < 0x8000_0000 then u else u - 0x1_0000_0000
  }

  lemma Pow2Values()
    ensures Pow2(8) == 0x100 && Pow2(16) == 0x1_0000 && Pow2(24) == 0x100_0000
  {
  }

  /** Dividing by 256 three times, then reading the four remainders back big-endian. */
  lemma Reassemble(x: int, q1: int, q2: int, q3: int)
    requires -0x8000_0000 <= x < 0x8000_0000
    requires q1 == x / 256 && q2 == q1 / 256 && q3 == q2 / 256
    ensures BigEndianValue(q3 % 256, q2 % 256, q1 % 256, x % 256) == x % 0x1_0000_0000
    ensures AsInt32(BigEndianValue(q3 % 256, q2 % 256, q1 % 256, x % 256)) == x
  {
    var b3, b2, b1, b0 := x % 256, q1 % 256, q2 % 256, q3 % 256;
    assert x == 256 * q1 + b3;
    assert q1 == 256 * q2 + b2;
    assert q2 == 256 * q3 + b1;
    assert -128 <= q3 < 128;
    var v := BigEndianValue(b0, b1, b2, b3);
    assert x == ((q3 * 256 + b1) * 256 + b2) * 256 + b3;
    if q3 >= 0 {
      assert b0 == q3;
      assert v == x;
    } else {
      assert b0 == q3 + 256;
      assert v == x + 0x1_0000_0000;
    }
  }

  /**
   * Reading the header back big-endian yields the opcode modulo 2^32, and
   * reinterpreting that as a signed `Int` yields the opcode itself.
   */
  lemma HeaderValue(cmd: int32)
    ensures |Header(cmd)| == 4
    ensures BigEndianValue(Header(cmd)[0], Header(cmd)[1], Header(cmd)[2], Header(cmd)[3])
            == cmd % 0x1_0000_0000
    ensures AsInt32(BigEndianValue(Header(cmd)[0], Header(cmd)[1], Header(cmd)[2], Header(cmd)[3])) == cmd
  {
    var x: int := cmd;
    Pow2Values();
    var q1, q2, q3 := x / 256, x / 65536, x / 16777216;
    assert q2 == q1 / 256;
    assert q3 == q2 / 256;
    assert Header(cmd) == [q3 % 256, q2 % 256, q1 % 256, x % 256];
    Reassemble(x, q1, q2, q3);
  }

  /**
   * `Command.toByteArray`: fills a 4-byte buffer with the opcode, most
   * significant byte first, then appends the payload.
   */
  method ToByteArray(c: Command) returns (bytes: seq<byte>)
    ensures bytes == Frame(c)
    ensures |bytes| == 4 + |c.data|
    ensures bytes[4..] == c.data
    ensures BigEndianValue(bytes[0], bytes[1], bytes[2], bytes[3]) == c.cmd % 0x1_0000_0000
  {
    var cmdBytes := new byte[4];
    cmdBytes[0] := ToByte(Shr(c.cmd, 24));
    cmdBytes[1] := ToByte(Shr(c.cmd, 16));
    cmdBytes[2] := ToByte(Shr(c.cmd, 8));
    cmdBytes[3] := ToByte(c.cmd);
    bytes := cmdBytes[..] + c.data;
    HeaderValue(c.cmd);
  }

  /** The frame of every command is its 4-byte header followed by the unchanged payload. */
  lemma FrameLayout(c: Command)
    ensures |Frame(c)| == 4 + |c.data|
    ensures Frame(c)[..4] == Header(c.cmd)
    ensures Frame(c)[4..] == c.data
    ensures AsInt32(BigEndianValue(Frame(c)[0], Frame(c)[1], Frame(c)[2], Frame(c)[3])) == c.cmd
  {
    HeaderValue(c.cmd);
    assert Frame(c)[..4] == Header(c.cmd);
  }

  /** `parseResponse`: null for an empty array, otherwise status byte and the rest. */
  function ParseResponse(raw: seq<byte>): (r: Option<Response>)
    ensures r.None? <==> |raw| == 0
    ensures r.Some? ==> r.value.status == raw[0] && [r.value.status] + r.value.data == raw
  {
    if |raw| == 0 then None
    else
      var status := raw[0];
      var data := if |raw| > 1 then raw[1..] else [];
      Some(Response(status, data))
  }

  /** The reply frame layout the device uses: status byte, then payload. */
  function ResponseFrame(r: Response): (raw: seq<byte>)
    ensures |raw| == 1 + |r.data|
  {
    [r.status] + r.data
  }

  /**
   * `parseResponse` inverts the reply layout, whatever the status byte is
   * (no check against the status registry), and conversely every non-empty
   * array is the layout of the response it parses to.
   */
  lemma ParseResponseRoundTrip(r: Response, raw: seq<byte>)
    ensures ParseResponse(ResponseFrame(r)) == Some(r)
    ensures |raw| > 0 ==> ResponseFrame(ParseResponse(raw).value) == raw
  {
    var f := ResponseFrame(r);
    assert f[0] == r.status;
    assert f[1..] == r.data;
  }

  /** A one-byte reply carries an empty payload, for every status value. */
  lemma ParseSingleByte(s: byte)
    ensures ParseResponse([s]) == Some(Response(s, []))
  {
  }

  function CreateGetVersionCommand(): (c: Command)
    ensures Frame(c) == [0x00, 0x00, 0x10, 0x00]
  {
    Pow2Values();
    Command(CMD_GET_VERSION, [])
  }

  function CreateHf14aScanCommand(): (c: Command)
    ensures Frame(c) == [0x00, 0x00, 0x20, 0x00]
  {
    Pow2Values();
    Command(CMD_HF14A_SCAN, [])
  }

  function CreateSetSlotCommand(slot: byte): (c: Command)
    ensures Frame(c) == [0x00, 0x00, 0x10, 0x01, slot]
  {
    Pow2Values();
    Command(CMD_SET_SLOT, [slot])
  }

  function CreateSetUidCommand(uid: seq<byte>): (c: Command)
    ensures Frame(c) == [0x00, 0x00, 0x30, 0x02] + uid
  {
    Pow2Values();
    Command(CMD_SET_UID, uid)
  }

  function CreateHf14aRawCommand(data: seq<byte>): (c: Command)
    ensures Frame(c) == [0x00, 0x00, 0x20, 0x01] + data
  {
    Pow2Values();
    Command(CMD_HF14A_RAW, data)
  }
}
