/**
 The panel driver `LCD_1inch14` as a producer of bus traces. Each public
 operation is a pure function from the driver's state to the events it puts on
 the bus; the frame buffer is an opaque byte sequence that drawing code may
 replace between flushes.
 */
module Lcd {
  import opened Options
  import opened Bus

  /** Panel geometry, fixed at construction. */
  const Width: nat := 240
  const Height: nat := 135

  /** RGB565: two bytes per pixel. */
  const BytesPerPixel: nat := 2

  /** Size of the frame buffer, `height * width * 2`. */
  const BufferSize: nat := Height * Width * BytesPerPixel

  /** Hold time after each reset-line transition, in milliseconds. */
  const ResetHoldMs: nat := 10

  /** ST7789 opcodes used by the flush. */
  const ColumnAddressSet: Byte := 0x2A
  const RowAddressSet: Byte := 0x2B
  const MemoryWrite: Byte := 0x2C

  /** The driver's state: only the frame buffer changes after construction. */
  datatype Driver = Driver(buffer: seq<Byte>)

  predicate Valid(d: Driver)
  {
    |d.buffer| == BufferSize
  }

  // ---------------------------------------------------------------------------
  // Command/data framing

  /** `write_cmd`: one command transaction carrying the low byte of `cmd`. */
  function WriteCmd(cmd: int): (t: seq<Event>)
    ensures |t| == 5
    ensures t[0] == CS(High) && t[1] == DC(Low) && t[2] == CS(Low) && t[4] == CS(High)
    ensures t[3].Write? && |t[3].bytes| == 1 && (cmd - t[3].bytes[0]) % 256 == 0
  {
    Frame(Txn(Command, [LowByte(cmd)]))
  }

  /** `write_data`: one data transaction carrying the low byte of `data`. */
  function WriteData(data: int): (t: seq<Event>)
    ensures |t| == 5
    ensures t[0] == CS(High) && t[1] == DC(High) && t[2] == CS(Low) && t[4] == CS(High)
    ensures t[3].Write? && |t[3].bytes| == 1 && (data - t[3].bytes[0]) % 256 == 0
  {
    Frame(Txn(Data, [LowByte(data)]))
  }

  /** The bulk transfer at the end of `show`: the whole payload under one select. */
  function BulkWrite(bytes: seq<Byte>): (t: seq<Event>)
    ensures |t| == 5
    ensures t[0] == CS(High) && t[1] == DC(High) && t[2] == CS(Low) && t[4] == CS(High)
    ensures t[3] == Write(bytes)
    ensures Decode(t) == Some([Txn(Data, bytes)])
    ensures Disciplined(t) && SelectCount(t) == 1
  {
    var x := Txn(Data, bytes);
    var t := Frame(x);
    assert Encode([x]) == t + Encode([]);
    assert Encode([x]) == t;
    DecodeEncode([x]);
    EncodeIsDisciplined([x]);
    SelectCountEncode([x]);
    t
  }

  // ---------------------------------------------------------------------------
  // Reset and initialization

  /** `reset`: reset line high, low, high, each held for the reset hold time. */
  function Reset(): seq<Event>
  {
    [RST(High), Delay(ResetHoldMs), RST(Low), Delay(ResetHoldMs), RST(High), Delay(ResetHoldMs)]
  }

  /** One register write: the opcode, then one data transaction per parameter byte. */
  function Send(c: Cmd): seq<Event>
  {
    WriteCmd(c.op) + SendArgs(c.args)
  }

  function SendArgs(args: seq<Byte>): seq<Event>
  {
    if args == [] then [] else WriteData(args[0]) + SendArgs(args[1..])
  }

  /** A register program sent in order. */
  function SendAll(prog: seq<Cmd>): seq<Event>
  {
    if prog == [] then [] else Send(prog[0]) + SendAll(prog[1..])
  }

  /** Gamma curve tables (positive and negative polarity). */
  const PositiveGamma: seq<Byte> :=
    [0xD0, 0x04, 0x0D, 0x11, 0x13, 0x2B, 0x3F, 0x54, 0x4C, 0x18, 0x0D, 0x0B, 0x1F, 0x23]
  const NegativeGamma: seq<Byte> :=
    [0xD0, 0x04, 0x0C, 0x11, 0x13, 0x2C, 0x3F, 0x44, 0x51, 0x2F, 0x1F, 0x1F, 0x20, 0x23]

  /** The controller initialization program, in the order `init_display` sends it. */
  const InitProgram: seq<Cmd> := [
    Cmd(0x36, [0x70]),                          // memory access control
    Cmd(0x3A, [0x05]),                          // pixel format: 16 bits per pixel
    Cmd(0xB2, [0x0C, 0x0C, 0x00, 0x33, 0x33]),  // porch control
    Cmd(0xB7, [0x35]),                          // gate control
    Cmd(0xBB, [0x19]),                          // VCOM setting
    Cmd(0xC0, [0x2C]),                          // LCM control
    Cmd(0xC2, [0x01]),                          // VDV and VRH enable
    Cmd(0xC3, [0x12]),                          // VRH set
    Cmd(0xC4, [0x20]),                          // VDV set
    Cmd(0xC6, [0x0F]),                          // frame rate control
    Cmd(0xD0, [0xA4, 0xA1]),                    // power control
    Cmd(0xE0, PositiveGamma),
    Cmd(0xE1, NegativeGamma),
    Cmd(0x21, []),                              // display inversion on
    Cmd(0x11, []),                              // sleep out
    Cmd(0x29, [])                               // display on
  ]

  /** `init_display`: a reset pulse, then the initialization program. */
  function InitDisplay(): seq<Event>
  {
    Reset() + SendAll(InitProgram)
  }

  // ---------------------------------------------------------------------------
  // Construction

  /** The line levels the pins are created with: chip-select, reset, data/command all high. */
  function PinSetup(): seq<Event>
  {
    [CS(High), RST(High), DC(High)]
  }

  /**
   `LCD_1inch14()`: a zeroed frame buffer of the panel's size, and the trace of
   creating the pins and running `init_display`.
   */
  function Construct(): (r: (Driver, seq<Event>))
    ensures Valid(r.0)
    ensures forall i | 0 <= i < |r.0.buffer| :: r.0.buffer[i] == 0
  {
    (Driver(seq(BufferSize, _ => 0)), PinSetup() + InitDisplay())
  }

  /** Drawing code replacing the buffer's contents; the buffer never changes size. */
  function Draw(d: Driver, pixels: seq<Byte>): (r: Driver)
    requires |pixels| == |d.buffer|
    ensures Valid(d) ==> Valid(r)
    ensures r.buffer == pixels
  {
    Driver(pixels)
  }

  // ---------------------------------------------------------------------------
  // Flush

  /** Address-window parameter bytes: first and last index, each 16-bit big-endian. */
  function WindowBytes(first: nat, last: nat): (b: seq<Byte>)
    requires first < 0x1_0000 && last < 0x1_0000
    ensures |b| == 4
  {
    [first / 256, first % 256, last / 256, last % 256]
  }

  /** The first and last index a 4-byte address window encodes. */
  function WindowBounds(b: seq<Byte>): (r: (nat, nat))
    requires |b| == 4
    ensures r.0 < 0x1_0000 && r.1 < 0x1_0000
  {
    (b[0] as nat * 256 + b[1], b[2] as nat * 256 + b[3])
  }

  /** Column and row windows `show` programs, as hard-coded literals. */
  const ColumnWindow: seq<Byte> := [0x00, 0x28, 0x01, 0x17]
  const RowWindow: seq<Byte> := [0x00, 0x35, 0x00, 0xBB]

  /** Offsets of the visible area within the controller's memory. */
  const ColumnOffset: nat := 40
  const RowOffset: nat := 53

  /** The commands `show` sends before the pixel data. */
  const FlushProgram: seq<Cmd> := [
    Cmd(ColumnAddressSet, ColumnWindow),
    Cmd(RowAddressSet, RowWindow),
    Cmd(MemoryWrite, [])
  ]

  /** `show`: program the address window, start a memory write, send the buffer. */
  function Show(d: Driver): seq<Event>
  {
    SendAll(FlushProgram) + BulkWrite(d.buffer)
  }
}
