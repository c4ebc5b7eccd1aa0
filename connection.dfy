/**
 * `ConnectionManager`: owns at most one device transport (USB serial or
 * Bluetooth SPP), publishes a connection state, and forwards outgoing bytes.
 * The transports themselves are modelled by their observable state: whether
 * the link is open and which byte arrays have been written to it. What the
 * outside world decides (whether a link comes up, whether a write succeeds,
 * whether the app holds the Bluetooth permission) arrives as a parameter.
 */
module Connection {
  import opened Wrappers

  /** The kinds of link; `NONE` when there is no transport. */
  datatype ConnectionType = NONE | USB | BLUETOOTH

  /** The kind of an actual transport. */
  type LinkKind = k: ConnectionType | k != NONE witness USB

  /** `ConnectionManager.ConnectionState`. */
  datatype ConnectionState = Disconnected | Connecting | Connected | Error(message: string)

  /**
   * How an attempt to bring up a transport ends: `connect()` reports the link
   * up or down, or an exception escapes with its message, thrown either by
   * `connect()` (`inConnect`) or by the transport's constructor.
   */
  datatype LinkOutcome = LinkUp | LinkDown | Threw(message: string, inConnect: bool)

  /**
   * A `DeviceConnection`. `open` is the transport's own `isConnected()`: the
   * serial port (USB) or the connected socket (Bluetooth) is present.
   */
  class Transport {
    const kind: LinkKind
    var open: bool
    /** The byte arrays the link accepted, oldest first. */
    var sent: seq<seq<byte>>

    constructor (kind: LinkKind)
      ensures this.kind == kind && !open && sent == []
    {
      this.kind := kind;
      open := false;
      sent := [];
    }

    /** `connect()`: the link is open afterwards exactly when it came up. */
    method Connect(up: bool) returns (ok: bool)
      modifies this
      ensures ok == up && open == up
      ensures sent == old(sent)
    {
      open := up;
      ok := up;
    }

    /** `disconnect()`: closes the port or socket. */
    method Disconnect()
      modifies this
      ensures !open && sent == old(sent)
    {
      open := false;
    }

    /**
     * `sendData(data)`. A write on an open link succeeds when the I/O does.
     * With no open link, USB reports failure, while Bluetooth writes to a
     * null stream, which does nothing and reports success.
     */
    method SendData(data: seq<byte>, ioOk: bool) returns (ok: bool)
      modifies this
      ensures ok == SendResult(kind, open, ioOk)
      ensures open == old(open)
      ensures sent == if open && ioOk then old(sent) + [data] else old(sent)
    {
      if open {
        if ioOk {
          sent := sent + [data];
        }
        ok := ioOk;
      } else {
        ok := kind == BLUETOOTH;
      }
    }

    function IsConnected(): (b: bool)
      reads this
      ensures b == open
    {
      open
    }

    function GetConnectionType(): (t: ConnectionType)
      ensures t == kind
    {
      kind
    }
  }

  /** What a transport's `sendData` returns. */
  function SendResult(kind: LinkKind, open: bool, ioOk: bool): (ok: bool)
    ensures open ==> (ok <==> ioOk)
    ensures !open ==> (ok <==> kind == BLUETOOTH)
  {
    if open then ioOk else kind == BLUETOOTH
  }

  /** Only an open link with a successful write delivers; a Bluetooth success may deliver nothing. */
  lemma SendResultMeaning(kind: LinkKind, open: bool, ioOk: bool)
    ensures kind == USB ==> (SendResult(kind, open, ioOk) <==> open && ioOk)
    ensures kind == BLUETOOTH && !open ==> SendResult(kind, open, ioOk)
  {
  }

  const USB_FAILED := "Failed to connect via USB"
  const USB_ERROR := "USB connection error: "
  const BT_PERMISSION := "Missing Bluetooth permissions"
  const BT_FAILED := "Failed to connect via Bluetooth"
  const BT_ERROR := "Bluetooth connection error: "

  /** The state a connect attempt ends in, given how the transport's `connect()` ended. */
  function ConnectResult(kind: LinkKind, outcome: LinkOutcome): (s: ConnectionState)
    ensures s == Connected <==> outcome == LinkUp
    ensures s.Error? <==> outcome != LinkUp
    ensures outcome.Threw? ==>
              s.message == (if kind == USB then USB_ERROR else BT_ERROR) + outcome.message
  {
    match outcome
    case LinkUp => Connected
    case LinkDown => Error(if kind == USB then USB_FAILED else BT_FAILED)
    case Threw(m, _) => Error((if kind == USB then USB_ERROR else BT_ERROR) + m)
  }

  /** The failure messages of the two link kinds never coincide. */
  lemma ConnectResultDistinguishesKinds(a: LinkOutcome, b: LinkOutcome)
    requires a != LinkUp && b != LinkUp
    ensures ConnectResult(USB, a) != ConnectResult(BLUETOOTH, b)
  {
    var sa, sb := ConnectResult(USB, a).message, ConnectResult(BLUETOOTH, b).message;
    assert sa[0] == 'U' || sa[0] == 'F';
    assert sa[0] == 'F' ==> sa[22] == 'U';
    assert sb[0] == 'B' || sb[0] == 'F';
    assert sb[0] == 'F' ==> sb[22] == 'B';
  }

  /** Whether the new transport object exists and is assigned: all outcomes but a throwing constructor. */
  predicate Installs(outcome: LinkOutcome)
  {
    !(outcome.Threw? && !outcome.inConnect)
  }

  /**
   * `ConnectionManager`. `published` is the sequence of values assigned to
   * the connection-state flow, oldest first.
   */
  class ConnectionManager {
    var current: Transport?
    var state: ConnectionState
    ghost var published: seq<ConnectionState>

    /**
     * The manager never reports `Connected` without an open transport, and
     * the last published state is the current one.
     */
    ghost predicate Valid()
      reads this, current
    {
      (state == Connected ==> current != null && current.open) &&
      |published| >= 1 && published[|published| - 1] == state
    }

    constructor ()
      ensures Valid()
      ensures current == null && state == Disconnected && published == [Disconnected]
    {
      current := null;
      state := Disconnected;
      published := [Disconnected];
    }

    /**
     * `connectUsb`: publishes `Connecting`, installs a fresh USB transport and
     * connects it; publishes `Connected` or an error. The transport it
     * replaces is neither closed nor changed, and stays installed when the
     * new transport's constructor throws.
     */
    method ConnectUsb(outcome: LinkOutcome) returns (ok: bool)
      requires Valid()
      modifies this
      ensures Valid()
      ensures ok <==> outcome == LinkUp
      ensures Installs(outcome) ==> current != null && fresh(current) && current.kind == USB
      ensures Installs(outcome) ==> current.open == ok && current.sent == []
      ensures !Installs(outcome) ==> current == old(current)
      ensures Installs(outcome) ==> GetConnectionType() == USB
      ensures state == ConnectResult(USB, outcome)
      ensures published == old(published) + [Connecting, state]
      ensures old(current) != null ==> unchanged(old(current))
    {
      state := Connecting;
      published := published + [state];
      ok := false;
      if Installs(outcome) {
        var t := new Transport(USB);
        current := t;
        if !outcome.Threw? {
          ok := t.Connect(outcome == LinkUp);
        }
      }
      state := ConnectResult(USB, outcome);
      published := published + [state];
    }

    /**
     * `connectBluetooth`: without the permission, publishes only the
     * permission error and keeps the current transport; otherwise as
     * `connectUsb` with a Bluetooth transport.
     */
    method ConnectBluetooth(permitted: bool, outcome: LinkOutcome) returns (ok: bool)
      requires Valid()
      modifies this
      ensures Valid()
      ensures ok <==> permitted && outcome == LinkUp
      ensures !permitted ==> current == old(current) && state == Error(BT_PERMISSION)
      ensures !permitted ==> published == old(published) + [state]
      ensures permitted && Installs(outcome) ==> current != null && fresh(current) && current.kind == BLUETOOTH
      ensures permitted && Installs(outcome) ==> current.open == ok && current.sent == []
      ensures permitted && !Installs(outcome) ==> current == old(current)
      ensures permitted && Installs(outcome) ==> GetConnectionType() == BLUETOOTH
      ensures permitted ==> state == ConnectResult(BLUETOOTH, outcome)
      ensures permitted ==> published == old(published) + [Connecting, state]
      ensures old(current) != null ==> unchanged(old(current))
    {
      if !permitted {
        state := Error(BT_PERMISSION);
        published := published + [state];
        ok := false;
        return;
      }
      state := Connecting;
      published := published + [state];
      ok := false;
      if Installs(outcome) {
        var t := new Transport(BLUETOOTH);
        current := t;
        if !outcome.Threw? {
          ok := t.Connect(outcome == LinkUp);
        }
      }
      state := ConnectResult(BLUETOOTH, outcome);
      published := published + [state];
    }

    /** `disconnect`: closes the transport, if any, drops it and publishes `Disconnected`. */
    method Disconnect()
      requires Valid()
      modifies this, current
      ensures Valid()
      ensures current == null && state == Disconnected
      ensures published == old(published) + [Disconnected]
      ensures old(current) != null ==> !old(current).open && old(current).sent == old(current.sent)
    {
      if current != null {
        current.Disconnect();
      }
      current := null;
      state := Disconnected;
      published := published + [state];
    }

    /** `sendData`: forwards to the transport; `false` when there is none. */
    method SendData(data: seq<byte>, ioOk: bool) returns (ok: bool)
      requires Valid()
      modifies current
      ensures Valid()
      ensures current == null ==> !ok
      ensures current != null ==> ok == SendResult(current.kind, old(current.open), ioOk)
      ensures current != null ==> current.open == old(current.open)
      ensures current != null ==>
                current.sent == if current.open && ioOk then old(current.sent) + [data] else old(current.sent)
    {
      if current == null {
        ok := false;
      } else {
        ok := current.SendData(data, ioOk);
      }
    }

    /** `sendCommand`: the text's UTF-8 bytes, forwarded as `sendData` does. */
    method SendCommand(command: string, ioOk: bool) returns (ok: bool)
      requires Valid()
      modifies current
      ensures Valid()
      ensures current == null ==> !ok
      ensures current != null ==> ok == SendResult(current.kind, old(current.open), ioOk)
      ensures current != null ==> current.open == old(current.open)
      ensures current != null ==>
                current.sent == if current.open && ioOk then old(current.sent) + [Utf8(command)]
                                else old(current.sent)
    {
      ok := SendData(Utf8(command), ioOk);
    }

    /** `isConnected`: the transport's own answer, `false` without one. */
    function IsConnected(): (b: bool)
      reads this, current
      ensures b <==> current != null && current.open
    {
      current != null && current.IsConnected()
    }

    /** `getConnectionType`: the transport's kind, `NONE` without one. */
    function GetConnectionType(): (t: ConnectionType)
      reads this
      ensures t == NONE <==> current == null
      ensures current != null ==> t == current.kind
    {
      if current == null then NONE else current.GetConnectionType()
    }
  }

  /** The state `Connected` implies that `isConnected()` answers `true`. */
  lemma ConnectedMeansLinkOpen(m: ConnectionManager)
    requires m.Valid() && m.state == Connected
    ensures m.IsConnected()
  {
  }

  // ---------------------------------------------------------------- UTF-8

  /** UTF-8 bytes of one Unicode scalar value. */
  function Utf8Char(c: char): (r: seq<byte>)
    ensures 1 <= |r| <= 4
    ensures (|r| == 1) <==> c as int < 0x80
    ensures forall k :: 1 <= k < |r| ==> 0x80 <= r[k] < 0xC0
  {
    var n := c as int;
    if n < 0x80 then [n]
    else if n < 0x800 then [0xC0 + n / 64, 0x80 + n % 64]
    else if n < 0x1_0000 then [0xE0 + n / 4096, 0x80 + (n / 64) % 64, 0x80 + n % 64]
    else [0xF0 + n / 262144, 0x80 + (n / 4096) % 64, 0x80 + (n / 64) % 64, 0x80 + n % 64]
  }

  /** The scalar value a well-formed 1- to 4-byte UTF-8 sequence stands for. */
  function DecodeScalar(b: seq<byte>): int
    requires 1 <= |b| <= 4
  {
    var b0: int := b[0];
    if |b| == 1 then b0
    else
      var b1: int := b[1];
      if |b| == 2 then (b0 - 0xC0) * 64 + (b1 - 0x80)
      else
        var b2: int := b[2];
        if |b| == 3 then ((b0 - 0xE0) * 64 + (b1 - 0x80)) * 64 + (b2 - 0x80)
        else
          var b3: int := b[3];
          (((b0 - 0xF0) * 64 + (b1 - 0x80)) * 64 + (b2 - 0x80)) * 64 + (b3 - 0x80)
  }

  /** Decoding the bytes of a character gives back its scalar value. */
  lemma Utf8CharRoundTrip(c: char)
    ensures DecodeScalar(Utf8Char(c)) == c as int
  {
    var n := c as int;
    if 0x800 <= n < 0x1_0000 {
      ThreeSixBitDigits(n);
    } else if n >= 0x1_0000 {
      FourSixBitDigits(n);
    }
  }

  lemma ThreeSixBitDigits(n: nat)
    ensures ((n / 4096) * 64 + (n / 64) % 64) * 64 + n % 64 == n
  {
    assert n / 64 == (n / 4096) * 64 + (n / 64) % 64;
  }

  lemma FourSixBitDigits(n: nat)
    ensures (((n / 262144) * 64 + (n / 4096) % 64) * 64 + (n / 64) % 64) * 64 + n % 64 == n
  {
    ThreeSixBitDigits(n);
    assert n / 4096 == (n / 262144) * 64 + (n / 4096) % 64;
  }

  /** `String.toByteArray()`: UTF-8, one character after another. */
  function Utf8(s: string): (r: seq<byte>)
    ensures |s| <= |r| <= 4 * |s|
  {
    if s == [] then [] else Utf8Char(s[0]) + Utf8(s[1..])
  }

  /** ASCII text is sent as its character codes, one byte per character. */
  lemma {:induction false} Utf8Ascii(s: string)
    requires forall k :: 0 <= k < |s| ==> s[k] as int < 0x80
    ensures |Utf8(s)| == |s|
    ensures forall k :: 0 <= k < |s| ==> Utf8(s)[k] == s[k] as int
  {
    if s != [] {
      Utf8Ascii(s[1..]);
    }
  }
}
