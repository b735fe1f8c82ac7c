/**
 A reference model of the receiving side of the bus: what an ST7789-style panel
 controller latches from a trace. It is independent of the driver and serves as
 the meaning against which the driver's traces are proved: a byte transferred
 while chip-select is low and the data/command line is low is an opcode that
 starts a new command; bytes transferred with the line high are parameters of
 the most recent command; transfers while deselected or held in reset are
 ignored; pulling reset low discards everything received so far.
 */
module Controller {
  import opened Bus

  /** Line levels as last driven, and the commands received since the last reset. */
  datatype Panel = Panel(cs: Level, dc: Level, rst: Level, log: seq<Cmd>)

  /** Bytes received in command mode: each one is a parameterless opcode. */
  function Opcodes(bytes: seq<Byte>): (cs: seq<Cmd>)
    ensures |cs| == |bytes|
    ensures forall i | 0 <= i < |bytes| :: cs[i].op == bytes[i] && cs[i].args == []
  {
    seq(|bytes|, i requires 0 <= i < |bytes| => Cmd(bytes[i], []))
  }

  /** Bytes received in data mode: parameters of the latest command, if any. */
  function AppendArgs(log: seq<Cmd>, bytes: seq<Byte>): (r: seq<Cmd>)
    ensures |r| == |log|
    ensures log != [] ==>
              && r[..|r| - 1] == log[..|log| - 1]
              && r[|r| - 1] == Cmd(log[|log| - 1].op, log[|log| - 1].args + bytes)
    ensures log == [] ==> r == []
  {
    if log == [] then log
    else log[..|log| - 1] + [log[|log| - 1].(args := log[|log| - 1].args + bytes)]
  }

  /** The effect of one bus event on the controller. */
  function Latch(p: Panel, e: Event): Panel
  {
    match e
    case CS(l) => p.(cs := l)
    case DC(l) => p.(dc := l)
    case RST(l) => if l == Low then p.(rst := l, log := []) else p.(rst := l)
    case Delay(_) => p
    case Write(bytes) =>
      if p.cs == High || p.rst == Low then p
      else if p.dc == Low then p.(log := p.log + Opcodes(bytes))
      else p.(log := AppendArgs(p.log, bytes))
  }

  /** The controller after observing a whole trace, in order. */
  function Run(p: Panel, t: seq<Event>): Panel
    decreases |t|
  {
    if t == [] then p else Run(Latch(p, t[0]), t[1..])
  }

  /** What a transaction of kind `x.kind` adds to the received commands. */
  function Receive(log: seq<Cmd>, x: Txn): seq<Cmd>
  {
    match x.kind
    case Command => log + Opcodes(x.payload)
    case Data => AppendArgs(log, x.payload)
  }

  /** Observing two traces in turn is observing their concatenation. */
  lemma {:induction false} RunConcat(p: Panel, a: seq<Event>, b: seq<Event>)
    ensures Run(p, a + b) == Run(Run(p, a), b)
    decreases |a|
  {
    if a == [] {
      assert a + b == b;
    } else {
      assert (a + b)[0] == a[0];
      assert (a + b)[1..] == a[1..] + b;
      RunConcat(Latch(p, a[0]), a[1..], b);
    }
  }

  /**
   One framed transaction, out of reset, delivers its payload with the mode its
   data/command level announces, and leaves the controller deselected; in reset it
   delivers nothing.
   */
  lemma RunFrame(p: Panel, x: Txn)
    ensures Run(p, Frame(x)).cs == High
    ensures Run(p, Frame(x)).dc == Line(x.kind)
    ensures Run(p, Frame(x)).rst == p.rst
    ensures Run(p, Frame(x)).log == if p.rst == High then Receive(p.log, x) else p.log
  {
    var f := Frame(x);
    var p1 := Latch(p, f[0]);
    var p2 := Latch(p1, f[1]);
    var p3 := Latch(p2, f[2]);
    var p4 := Latch(p3, f[3]);
    var p5 := Latch(p4, f[4]);
    assert f[4..][1..] == [];
    assert Run(p4, f[4..]) == p5;
    assert f[3..][1..] == f[4..];
    assert Run(p3, f[3..]) == p5;
    assert f[2..][1..] == f[3..];
    assert Run(p2, f[2..]) == p5;
    assert f[1..][1..] == f[2..];
    assert Run(p1, f[1..]) == p5;
    assert Run(p, f) == p5;
    match x.kind
    case Command =>
    case Data =>
  }

  /** A trace that ends by releasing chip-select leaves the controller deselected. */
  lemma ReleasedAtEnd(p: Panel, t: seq<Event>)
    requires Disciplined(t) && t != []
    ensures Run(p, t).cs == High
  {
    var n := |t| - 1;
    assert t == t[..n] + [t[n]];
    RunConcat(p, t[..n], [t[n]]);
    assert [t[n]][1..] == [];
  }
}
