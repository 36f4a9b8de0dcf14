/** The radio protocol between the remote and the launchers: the command
    codes, the 4-byte command frame the remote transmits, and the
    classification of the 5-byte ACK and 10-byte STATUS frames it receives. */
module Protocol {

  import opened Wrappers

  /** One octet on the wire. */
  type Byte = b: int | 0 <= b < 256

  /** A buffer as the radio driver hands it over: at most BUFFER_RX_SIZE bytes. */
  const BUFFER_RX_SIZE := 10
  type RxFrame = f: seq<Byte> | |f| <= BUFFER_RX_SIZE

  /** Magic tag of outgoing frames ('C', 'S') and of incoming frames ('c', 's'). */
  const TAG_OUT_0: Byte := 67
  const TAG_OUT_1: Byte := 83
  const TAG_IN_0: Byte := 99
  const TAG_IN_1: Byte := 115

  const COMMAND_FRAME_SIZE := 4
  const ACK_FRAME_SIZE := 5
  const STATUS_FRAME_SIZE := 10

  /** The commands of the protocol; NoCommand is the "nothing in flight" sentinel. */
  datatype Command = NoCommand | Ack | GetStatus | Status | Open | Close

  /** The wire code of each command, fixed by the protocol. */
  function Code(c: Command): (b: Byte)
    ensures b <= 5
    ensures b == 0 <==> c == NoCommand
  {
    match c
    case NoCommand => 0
    case Ack => 1
    case GetStatus => 2
    case Status => 3
    case Open => 4
    case Close => 5
  }

  /** The command a wire code stands for, if any. */
  function CommandOf(b: Byte): (c: Option<Command>)
    ensures c.Some? <==> b <= 5
    ensures c.Some? ==> Code(c.value) == b
  {
    if b == 0 then Some(NoCommand)
    else if b == 1 then Some(Ack)
    else if b == 2 then Some(GetStatus)
    else if b == 3 then Some(Status)
    else if b == 4 then Some(Open)
    else if b == 5 then Some(Close)
    else None
  }

  /** The frame `sendCommand` transmits: tag, launcher index, command code. */
  function CommandFrame(launcher: Byte, c: Command): (f: seq<Byte>)
  {
    [TAG_OUT_0, TAG_OUT_1, launcher, Code(c)]
  }

  /** A launcher's reading of a command frame: the independent decoder that
      CommandFrame is proved against. */
  function ParseCommandFrame(f: seq<Byte>): (r: Option<(Byte, Command)>)
    ensures r.Some? ==> |f| == COMMAND_FRAME_SIZE && f[0] == TAG_OUT_0 && f[1] == TAG_OUT_1
  {
    if |f| == COMMAND_FRAME_SIZE && f[0] == TAG_OUT_0 && f[1] == TAG_OUT_1 && f[3] <= 5 then
      Some((f[2], CommandOf(f[3]).value))
    else
      None
  }

  /** Telemetry carried by a STATUS frame. */
  datatype Telemetry = Telemetry(hatchOpen: bool, altitude: int, temperature: int, batteryPercent: int)

  /** Telemetry values a STATUS frame can carry: two 16-bit words and one byte. */
  predicate Encodable(tel: Telemetry)
  {
    0 <= tel.altitude < 65536 && 0 <= tel.temperature < 65536 && 0 <= tel.batteryPercent < 256
  }

  /** What an inbound frame means to the remote. */
  datatype Inbound = Unrecognized | AckOf(echo: Byte) | StatusOf(telemetry: Telemetry)

  /** The only addressing the channel has: the incoming tag and the selected launcher. */
  predicate Addressed(f: seq<Byte>, launcher: int)
  {
    |f| >= 4 && f[0] == TAG_IN_0 && f[1] == TAG_IN_1 && f[2] == launcher
  }

  /** A big-endian 16-bit word, `hi << 8 | lo`. */
  function Word(hi: Byte, lo: Byte): (w: int)
    ensures 0 <= w < 65536
    ensures w / 256 == hi && w % 256 == lo
  {
    hi * 256 + lo
  }

  /** Classifies a received buffer for the selected launcher. Only the bytes
      that the recognised shape declares are inspected. */
  function Classify(f: seq<Byte>, launcher: int): (r: Inbound)
    ensures r != Unrecognized ==> Addressed(f, launcher)
    ensures r.AckOf? <==> Addressed(f, launcher) && |f| == ACK_FRAME_SIZE && f[3] == Code(Ack)
    ensures r.AckOf? ==> r.echo == f[4]
    ensures r.StatusOf? <==> Addressed(f, launcher) && |f| == STATUS_FRAME_SIZE && f[3] == Code(Status)
    ensures r.StatusOf? ==> Encodable(r.telemetry)
    ensures r.StatusOf? ==> (r.telemetry.hatchOpen <==> f[4] != 0)
  {
    if !Addressed(f, launcher) then Unrecognized
    else if |f| == ACK_FRAME_SIZE && f[3] == Code(Ack) then AckOf(f[4])
    else if |f| == STATUS_FRAME_SIZE && f[3] == Code(Status) then
      StatusOf(Telemetry(f[4] != 0, Word(f[5], f[6]), Word(f[7], f[8]), f[9]))
    else Unrecognized
  }

  /** The ACK frame a launcher sends back, echoing the command it executed. */
  function AckFrame(launcher: Byte, echo: Byte): (f: seq<Byte>)
  {
    [TAG_IN_0, TAG_IN_1, launcher, Code(Ack), echo]
  }

  /** The STATUS frame a launcher sends in answer to GET_STATUS. */
  function StatusFrame(launcher: Byte, tel: Telemetry): (f: seq<Byte>)
    requires Encodable(tel)
  {
    [TAG_IN_0, TAG_IN_1, launcher, Code(Status), if tel.hatchOpen then 1 else 0,
     tel.altitude / 256, tel.altitude % 256,
     tel.temperature / 256, tel.temperature % 256,
     tel.batteryPercent]
  }

  /** Every command frame reads back as the launcher and command it was built from. */
  lemma CommandFrameRoundTrip(launcher: Byte, c: Command)
    ensures |CommandFrame(launcher, c)| == COMMAND_FRAME_SIZE
    ensures ParseCommandFrame(CommandFrame(launcher, c)) == Some((launcher, c))
  {
    var f := CommandFrame(launcher, c);
    assert f[3] == Code(c);
    assert CommandOf(Code(c)) == Some(c) by {
      match c
      case NoCommand =>
      case Ack =>
      case GetStatus =>
      case Status =>
      case Open =>
      case Close =>
    }
  }

  /** ...and a frame a launcher accepts is exactly the one built from what it read. */
  lemma ParseCommandFrameExact(f: seq<Byte>)
    requires ParseCommandFrame(f).Some?
    ensures f == CommandFrame(ParseCommandFrame(f).value.0, ParseCommandFrame(f).value.1)
  {
  }

  /** An ACK for the selected launcher is recognised with its echo; for any
      other launcher it is discarded. */
  lemma AckFrameRoundTrip(launcher: Byte, echo: Byte, selected: int)
    ensures Classify(AckFrame(launcher, echo), selected) ==
              if selected == launcher then AckOf(echo) else Unrecognized
  {
  }

  /** A STATUS frame for the selected launcher decodes to the telemetry it was
      encoded from; for any other launcher it is discarded. */
  lemma StatusFrameRoundTrip(launcher: Byte, tel: Telemetry, selected: int)
    requires Encodable(tel)
    ensures Classify(StatusFrame(launcher, tel), selected) ==
              if selected == launcher then StatusOf(tel) else Unrecognized
  {
    var f := StatusFrame(launcher, tel);
    if selected == launcher {
      assert Word(f[5], f[6]) == tel.altitude;
      assert Word(f[7], f[8]) == tel.temperature;
    }
  }

  /** Conversely, a recognised STATUS frame is the encoding of what it decodes
      to, up to the hatch byte: any non-zero value reads as open, so the
      frame is reproduced exactly when that byte is 0 or 1. */
  lemma StatusFrameExact(f: seq<Byte>, launcher: Byte)
    requires Classify(f, launcher).StatusOf?
    ensures var g := StatusFrame(launcher, Classify(f, launcher).telemetry);
      f[..4] + f[5..] == g[..4] + g[5..]
    ensures f[4] <= 1 ==> f == StatusFrame(launcher, Classify(f, launcher).telemetry)
  {
    var tel := Classify(f, launcher).telemetry;
    var g := StatusFrame(launcher, tel);
    assert g[5] == f[5] && g[6] == f[6] && g[7] == f[7] && g[8] == f[8];
  }

}
