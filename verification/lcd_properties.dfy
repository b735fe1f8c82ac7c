/**
 Properties of the driver's traces: their framing (what a parser of the bus
 recovers), their meaning (what the reference controller receives), and the
 fixed constants of the initialization program and the address window.
 */
module LcdProperties {
  import opened Options
  import opened Bus
  import opened Controller
  import opened Lcd

  // ---------------------------------------------------------------------------
  // Transactions of a register program

  /** One data transaction per parameter byte. */
  function DataTxns(args: seq<Byte>): (r: seq<Txn>)
    ensures |r| == |args|
    ensures forall i | 0 <= i < |args| :: r[i] == Txn(Data, [args[i]])
  {
    seq(|args|, i requires 0 <= i < |args| => Txn(Data, [args[i]]))
  }

  /** The transactions a register program is sent as. */
  function Expand(prog: seq<Cmd>): seq<Txn>
  {
    if prog == [] then [] else [Txn(Command, [prog[0].op])] + DataTxns(prog[0].args) + Expand(prog[1..])
  }

  lemma {:induction false} SendArgsIsEncode(args: seq<Byte>)
    ensures SendArgs(args) == Encode(DataTxns(args))
    decreases |args|
  {
    if args != [] {
      SendArgsIsEncode(args[1..]);
      assert DataTxns(args) == [Txn(Data, [args[0]])] + DataTxns(args[1..]);
      EncodeConcat([Txn(Data, [args[0]])], DataTxns(args[1..]));
      assert Encode([Txn(Data, [args[0]])]) == Frame(Txn(Data, [args[0]])) + Encode([]);
    }
  }

  lemma SendIsEncode(c: Cmd)
    ensures Send(c) == Encode([Txn(Command, [c.op])] + DataTxns(c.args))
  {
    SendArgsIsEncode(c.args);
    EncodeConcat([Txn(Command, [c.op])], DataTxns(c.args));
    assert Encode([Txn(Command, [c.op])]) == Frame(Txn(Command, [c.op])) + Encode([]);
  }

  /** Sending a program is framing the transactions it expands to. */
  lemma {:induction false} SendAllIsEncode(prog: seq<Cmd>)
    ensures SendAll(prog) == Encode(Expand(prog))
    decreases |prog|
  {
    if prog != [] {
      SendIsEncode(prog[0]);
      SendAllIsEncode(prog[1..]);
      EncodeConcat([Txn(Command, [prog[0].op])] + DataTxns(prog[0].args), Expand(prog[1..]));
    }
  }

  lemma {:induction false} SendAllConcat(a: seq<Cmd>, b: seq<Cmd>)
    ensures SendAll(a + b) == SendAll(a) + SendAll(b)
    decreases |a|
  {
    if a == [] {
      assert a + b == b;
    } else {
      assert (a + b)[0] == a[0];
      assert (a + b)[1..] == a[1..] + b;
      SendAllConcat(a[1..], b);
    }
  }

  // ---------------------------------------------------------------------------
  // Command/data framing

  /**
   `write_cmd` is exactly one well-formed command transaction: the data/command
   line is set low before chip-select is asserted, the only byte transferred is
   the low byte of the argument, and chip-select is released at the end.
   */
  lemma WriteCmdTransaction(cmd: int)
    ensures Decode(WriteCmd(cmd)) == Some([Txn(Command, [LowByte(cmd)])])
    ensures Disciplined(WriteCmd(cmd)) && SelectCount(WriteCmd(cmd)) == 1
    ensures WriteCmd(cmd) == WriteCmd(cmd % 256) == WriteCmd(cmd + 256)
  {
    var x := Txn(Command, [LowByte(cmd)]);
    assert Encode([x]) == Frame(x) + Encode([]);
    assert Frame(x) + [] == Frame(x);
    DecodeEncode([x]);
    EncodeIsDisciplined([x]);
    SelectCountEncode([x]);
  }

  /** `write_data` is exactly one well-formed data transaction of one byte. */
  lemma WriteDataTransaction(data: int)
    ensures Decode(WriteData(data)) == Some([Txn(Data, [LowByte(data)])])
    ensures Disciplined(WriteData(data)) && SelectCount(WriteData(data)) == 1
  {
    var x := Txn(Data, [LowByte(data)]);
    assert Encode([x]) == Frame(x) + Encode([]);
    assert Frame(x) + [] == Frame(x);
    DecodeEncode([x]);
    EncodeIsDisciplined([x]);
    SelectCountEncode([x]);
  }

  /** The controller receives exactly the opcode `write_cmd` sends, as a new command. */
  lemma WriteCmdReceived(p: Panel, cmd: int)
    requires p.rst == High
    ensures Run(p, WriteCmd(cmd)) == p.(cs := High, dc := Low, log := p.log + [Cmd(LowByte(cmd), [])])
  {
    RunFrame(p, Txn(Command, [LowByte(cmd)]));
    assert Opcodes([LowByte(cmd)]) == [Cmd(LowByte(cmd), [])];
  }

  lemma AppendArgsConcat(log: seq<Cmd>, a: seq<Byte>, b: seq<Byte>)
    requires log != []
    ensures AppendArgs(AppendArgs(log, a), b) == AppendArgs(log, a + b)
  {
    var n := |log| - 1;
    var l1 := AppendArgs(log, a);
    assert l1[..n] == log[..n];
    assert (log[n].args + a) + b == log[n].args + (a + b);
  }

  /** Parameter bytes sent one transaction each arrive, in order, as parameters of the current command. */
  lemma {:induction false} SendArgsReceived(p: Panel, args: seq<Byte>)
    requires p.rst == High && p.log != []
    ensures Run(p, SendArgs(args)).log == AppendArgs(p.log, args)
    ensures Run(p, SendArgs(args)).rst == High
    ensures Run(p, SendArgs(args)).cs == if args == [] then p.cs else High
    decreases |args|
  {
    if args == [] {
      var n := |p.log| - 1;
      assert p.log[n].args + [] == p.log[n].args;
      assert p.log == p.log[..n] + [p.log[n]];
    } else {
      var x := Txn(Data, [args[0]]);
      RunConcat(p, WriteData(args[0]), SendArgs(args[1..]));
      RunFrame(p, x);
      var q := Run(p, WriteData(args[0]));
      SendArgsReceived(q, args[1..]);
      AppendArgsConcat(p.log, [args[0]], args[1..]);
      assert [args[0]] + args[1..] == args;
    }
  }

  /** One register write arrives as exactly that command with its parameters. */
  lemma SendReceived(p: Panel, c: Cmd)
    requires p.rst == High
    ensures Run(p, Send(c)).log == p.log + [c]
    ensures Run(p, Send(c)).rst == High && Run(p, Send(c)).cs == High
  {
    RunConcat(p, WriteCmd(c.op), SendArgs(c.args));
    WriteCmdReceived(p, c.op);
    var q := Run(p, WriteCmd(c.op));
    SendArgsReceived(q, c.args);
    var n := |q.log| - 1;
    assert q.log[..n] == p.log;
    assert [] + c.args == c.args;
  }

  /**
   Sending a register program, out of reset, makes the controller receive exactly
   that program in order, and leaves chip-select released.
   */
  lemma {:induction false} SendAllReceived(p: Panel, prog: seq<Cmd>)
    requires p.rst == High
    ensures Run(p, SendAll(prog)).log == p.log + prog
    ensures Run(p, SendAll(prog)).rst == High
    ensures prog != [] ==> Run(p, SendAll(prog)).cs == High
    decreases |prog|
  {
    if prog == [] {
      assert p.log + prog == p.log;
    } else {
      RunConcat(p, Send(prog[0]), SendAll(prog[1..]));
      SendReceived(p, prog[0]);
      SendAllReceived(Run(p, Send(prog[0])), prog[1..]);
      assert p.log + [prog[0]] + prog[1..] == p.log + prog;
    }
  }

  /** Every register program is sent as well-formed transactions, one select each. */
  lemma SendAllFraming(prog: seq<Cmd>)
    ensures Decode(SendAll(prog)) == Some(Expand(prog))
    ensures Disciplined(SendAll(prog))
    ensures SelectCount(SendAll(prog)) == |Expand(prog)|
  {
    SendAllIsEncode(prog);
    DecodeEncode(Expand(prog));
    EncodeIsDisciplined(Expand(prog));
    SelectCountEncode(Expand(prog));
  }

  // ---------------------------------------------------------------------------
  // Reset and initialization

  /** Levels driven on the reset line, in order. */
  function ResetLevels(t: seq<Event>): seq<Level>
  {
    if t == [] then []
    else (if t[0].RST? then [t[0].level] else []) + ResetLevels(t[1..])
  }

  /** Every reset-line change is immediately followed by a hold of at least `ms`. */
  predicate HeldAfterReset(t: seq<Event>, ms: nat)
  {
    forall i | 0 <= i < |t| && t[i].RST? :: i + 1 < |t| && t[i + 1].Delay? && t[i + 1].ms >= ms
  }

  /**
   `reset` drives the reset line high, low, high with a 10 ms hold after each
   change; whatever the controller held before, it ends out of reset with nothing
   received, and chip-select and data/command untouched.
   */
  lemma ResetPulse(p: Panel)
    ensures ResetLevels(Reset()) == [High, Low, High]
    ensures HeldAfterReset(Reset(), 10)
    ensures Run(p, Reset()) == p.(rst := High, log := [])
  {
    var t := Reset();
    assert t[1..][1..][1..][1..][1..][1..] == [];
  }

  /**
   `init_display` leaves the controller in the same configuration whatever state
   it started in: out of reset, deselected, with exactly the initialization
   program received. Repeating it therefore has the same effect every time.
   */
  lemma InitDisplayConfigures(p: Panel)
    ensures Run(p, InitDisplay()).log == InitProgram
    ensures Run(p, InitDisplay()).rst == High && Run(p, InitDisplay()).cs == High
  {
    RunConcat(p, Reset(), SendAll(InitProgram));
    ResetPulse(p);
    SendAllReceived(Run(p, Reset()), InitProgram);
  }

  /** After the reset pulse, `init_display` is nothing but well-formed transactions. */
  lemma InitDisplayFraming()
    ensures InitDisplay()[..6] == Reset()
    ensures Decode(InitDisplay()[6..]) == Some(Expand(InitProgram))
    ensures Disciplined(InitDisplay()[6..])
  {
    assert InitDisplay()[6..] == SendAll(InitProgram);
    SendAllFraming(InitProgram);
  }

  /**
   The program ends with three bare commands, inversion on, sleep out and display
   on, and the trace ends with their three command transactions and no data.
   */
  lemma InitProgramEnding()
    ensures |InitProgram| >= 3
    ensures InitProgram[|InitProgram| - 3..] == [Cmd(0x21, []), Cmd(0x11, []), Cmd(0x29, [])]
    ensures exists head :: InitDisplay() == head + WriteCmd(0x21) + WriteCmd(0x11) + WriteCmd(0x29)
  {
    var n := |InitProgram| - 3;
    var tail := InitProgram[n..];
    assert InitProgram == InitProgram[..n] + tail;
    SendAllConcat(InitProgram[..n], tail);
    assert SendAll(tail) == WriteCmd(0x21) + WriteCmd(0x11) + WriteCmd(0x29) by {
      assert tail[1..][1..][1..] == [];
      assert SendAll(tail[1..][1..]) == Send(Cmd(0x29, [])) == WriteCmd(0x29);
      assert SendAll(tail[1..]) == Send(Cmd(0x11, [])) + WriteCmd(0x29);
      assert Send(Cmd(0x11, [])) == WriteCmd(0x11);
      assert Send(Cmd(0x21, [])) == WriteCmd(0x21);
    }
    var head := Reset() + SendAll(InitProgram[..n]);
    assert InitDisplay() == head + WriteCmd(0x21) + WriteCmd(0x11) + WriteCmd(0x29);
  }

  /** A register write parses as its opcode transaction, then one data transaction per parameter. */
  lemma SendFraming(c: Cmd)
    ensures Decode(Send(c)) == Some([Txn(Command, [c.op])] + DataTxns(c.args))
  {
    SendIsEncode(c);
    DecodeEncode([Txn(Command, [c.op])] + DataTxns(c.args));
  }

  /**
   The gamma tables are sent under opcodes 0xE0 and 0xE1, each as exactly 14
   parameter bytes with the literal values (so, by `SendFraming`, as 14 one-byte
   data transactions after the opcode).
   */
  lemma GammaTables()
    ensures InitProgram[11] == Cmd(0xE0, PositiveGamma) && InitProgram[12] == Cmd(0xE1, NegativeGamma)
    ensures |PositiveGamma| == 14 && |NegativeGamma| == 14
  {
  }

  // ---------------------------------------------------------------------------
  // Construction

  /**
   Construction creates the pins with chip-select high, then initializes: from
   any prior state, the controller ends deselected, out of reset, and configured
   with the initialization program.
   */
  lemma ConstructReady(p: Panel)
    ensures Construct().1[0] == CS(High)
    ensures Run(p, Construct().1).log == InitProgram
    ensures Run(p, Construct().1).cs == High && Run(p, Construct().1).rst == High
  {
    RunConcat(p, PinSetup(), InitDisplay());
    InitDisplayConfigures(Run(p, PinSetup()));
  }

  // ---------------------------------------------------------------------------
  // Address window

  /** Decoding an encoded window gives back its bounds. */
  lemma WindowRoundTrip(first: nat, last: nat)
    requires first < 0x1_0000 && last < 0x1_0000
    ensures WindowBounds(WindowBytes(first, last)) == (first, last)
  {
  }

  /** Encoding the bounds a window decodes to gives back its bytes. */
  lemma WindowBytesRoundTrip(b: seq<Byte>)
    requires |b| == 4
    ensures WindowBytes(WindowBounds(b).0, WindowBounds(b).1) == b
  {
  }

  /**
   The hard-coded windows are the visible area: columns 40..279, which is 240
   columns, the panel's width; rows 53..187, which is 135 rows, its height.
   */
  lemma WindowMatchesGeometry()
    ensures WindowBounds(ColumnWindow) == (ColumnOffset, ColumnOffset + Width - 1) == (40, 279)
    ensures WindowBounds(RowWindow) == (RowOffset, RowOffset + Height - 1) == (53, 187)
    ensures WindowBounds(ColumnWindow).1 - WindowBounds(ColumnWindow).0 + 1 == Width
    ensures WindowBounds(RowWindow).1 - WindowBounds(RowWindow).0 + 1 == Height
    ensures ColumnWindow == WindowBytes(ColumnOffset, ColumnOffset + Width - 1)
    ensures RowWindow == WindowBytes(RowOffset, RowOffset + Height - 1)
  {
  }

  // ---------------------------------------------------------------------------
  // Flush

  /** The events `show` emits before the pixel data. */
  const WindowEvents: nat := 55

  /**
   The framing of `show`: the column window, row window and memory-write commands,
   then one data transaction whose single transfer is the whole buffer. The
   memory-write command carries no data of its own, and the bulk payload is
   covered by exactly one chip-select assertion.
   */
  lemma ExpandFlushProgram()
    ensures Expand(FlushProgram)
         == [Txn(Command, [ColumnAddressSet])] + DataTxns(ColumnWindow)
          + [Txn(Command, [RowAddressSet])] + DataTxns(RowWindow)
          + [Txn(Command, [MemoryWrite])]
  {
    var f := FlushProgram;
    assert f[1..][1..][1..] == [];
    assert Expand(f[1..][1..]) == [Txn(Command, [MemoryWrite])] + DataTxns([]) + [];
    assert DataTxns([]) == [];
  }

  /** `show` is the frames of the flush program's transactions followed by the bulk one. */
  lemma ShowIsEncode(d: Driver)
    ensures Show(d) == Encode(Expand(FlushProgram) + [Txn(Data, d.buffer)])
  {
    var x := Txn(Data, d.buffer);
    SendAllIsEncode(FlushProgram);
    assert Encode([x]) == Frame(x) + Encode([]);
    assert Frame(x) + [] == Frame(x);
    EncodeConcat(Expand(FlushProgram), [x]);
  }

  lemma ShowFraming(d: Driver)
    ensures Decode(Show(d)) == Some(Expand(FlushProgram) + [Txn(Data, d.buffer)])
    ensures |Expand(FlushProgram)| == 11
    ensures Expand(FlushProgram)[10] == Txn(Command, [MemoryWrite])
    ensures Disciplined(Show(d))
    ensures SelectCount(Show(d)) == 12
    ensures |Show(d)| == WindowEvents + 5 && Show(d)[WindowEvents..] == BulkWrite(d.buffer)
    ensures Valid(d) ==> |d.buffer| == Width * Height * 2 == 64800
  {
    var txs := Expand(FlushProgram) + [Txn(Data, d.buffer)];
    ShowIsEncode(d);
    DecodeEncode(txs);
    EncodeIsDisciplined(txs);
    SelectCountEncode(txs);
    EncodeLength(Expand(FlushProgram));
    ExpandFlushProgram();
    SendAllIsEncode(FlushProgram);
    assert |SendAll(FlushProgram)| == WindowEvents;
    assert Show(d)[WindowEvents..] == BulkWrite(d.buffer);
  }

  /** The address-window part of `show` does not depend on the buffer. */
  lemma ShowWindowIndependent(d1: Driver, d2: Driver)
    ensures |Show(d1)| >= WindowEvents && |Show(d2)| >= WindowEvents
    ensures Show(d1)[..WindowEvents] == Show(d2)[..WindowEvents] == SendAll(FlushProgram)
  {
    ShowFraming(d1);
    ShowFraming(d2);
    SendAllIsEncode(FlushProgram);
    EncodeLength(Expand(FlushProgram));
  }

  /**
   What the controller receives from `show`: the column window, the row window,
   then a memory write whose parameters are literally the current buffer.
   */
  lemma ShowReceived(p: Panel, d: Driver)
    requires p.rst == High
    ensures Run(p, Show(d)).log
         == p.log + [Cmd(ColumnAddressSet, ColumnWindow), Cmd(RowAddressSet, RowWindow), Cmd(MemoryWrite, d.buffer)]
    ensures Run(p, Show(d)).cs == High && Run(p, Show(d)).rst == High
  {
    RunConcat(p, SendAll(FlushProgram), BulkWrite(d.buffer));
    SendAllReceived(p, FlushProgram);
    var q := Run(p, SendAll(FlushProgram));
    RunFrame(q, Txn(Data, d.buffer));
    var n := |q.log| - 1;
    assert q.log[..n] == p.log + FlushProgram[..2];
    assert FlushProgram[..2] == [Cmd(ColumnAddressSet, ColumnWindow), Cmd(RowAddressSet, RowWindow)];
    assert [] + d.buffer == d.buffer;
  }

  /**
   End to end: construct the driver, let drawing code fill the buffer, flush.
   Whatever the panel held before, it receives the initialization program and
   then a memory write of exactly the drawn pixels; filling with white (0xFFFF)
   sends 64800 bytes of 0xFF.
   */
  lemma ConstructDrawShow(p: Panel, pixels: seq<Byte>)
    requires |pixels| == BufferSize
    ensures var (d, t) := Construct();
            Run(p, t + Show(Draw(d, pixels))).log
            == InitProgram + [Cmd(ColumnAddressSet, ColumnWindow), Cmd(RowAddressSet, RowWindow), Cmd(MemoryWrite, pixels)]
    ensures (forall i | 0 <= i < |pixels| :: pixels[i] == 0xFF) ==>
              && |pixels| == 64800
              && |Show(Draw(Construct().0, pixels))| > WindowEvents + 3
              && Show(Draw(Construct().0, pixels))[WindowEvents + 3] == Write(pixels)
  {
    var (d, t) := Construct();
    RunConcat(p, t, Show(Draw(d, pixels)));
    ConstructReady(p);
    ShowReceived(Run(p, t), Draw(d, pixels));
    ShowFraming(Draw(d, pixels));
  }
}
