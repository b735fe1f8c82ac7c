/** Optional values, used where a trace may fail to parse. */
module Options {

  datatype Option<+T> = None | Some(value: T)
}

/**
 The bus seen by the panel driver: three control lines (chip-select, data/command
 select, reset), a millisecond delay, and byte writes over the serial channel.
 Every driver operation is modelled as the append-only trace of these events that
 it produces; this module defines the events, the single-transaction framing used
 by the driver, and its inverse.
 */
module Bus {
  import opened Options

  /** One byte on the wire. */
  type Byte = x: int | 0 <= x < 256

  /** Logic level of a control line. */
  datatype Level = Low | High

  /** One observable action of the driver on the hardware. */
  datatype Event =
    | CS(level: Level)         // chip-select, active low
    | DC(level: Level)         // data/command select: Low = command, High = data
    | RST(level: Level)        // panel reset, active low
    | Delay(ms: nat)           // blocking sleep
    | Write(bytes: seq<Byte>)  // one serial transfer

  /** Whether a transaction carries a command opcode or command arguments. */
  datatype Kind = Command | Data

  /** One chip-select-gated transfer: its kind and the bytes it carries. */
  datatype Txn = Txn(kind: Kind, payload: seq<Byte>)

  /** A controller command: its opcode and its parameter bytes. */
  datatype Cmd = Cmd(op: Byte, args: seq<Byte>)

  /** Level the data/command line must take for a transaction of kind `k`. */
  function Line(k: Kind): Level
  {
    match k
    case Command => Low
    case Data => High
  }

  /** Kind of transaction announced by a data/command level. */
  function KindOf(l: Level): (k: Kind)
    ensures Line(k) == l
  {
    match l
    case Low => Command
    case High => Data
  }

  /**
   Truncation of an arbitrary integer to its low byte, as `v & 0xFF` does on a
   (two's-complement, unbounded) integer. The result is the unique byte congruent
   to `v` modulo 256.
   */
  function LowByte(v: int): (r: Byte)
    ensures (v - r) % 256 == 0
    ensures 0 <= v < 256 ==> r == v
  {
    v % 256
  }

  /**
   The framing of one transaction: deselect, set the data/command line, select,
   transfer, deselect.
   */
  function Frame(x: Txn): (t: seq<Event>)
    ensures |t| == 5
  {
    [CS(High), DC(Line(x.kind)), CS(Low), Write(x.payload), CS(High)]
  }

  /** The trace of a sequence of transactions sent back to back. */
  function Encode(txs: seq<Txn>): seq<Event>
  {
    if txs == [] then [] else Frame(txs[0]) + Encode(txs[1..])
  }

  /**
   Parses a trace back into transactions; `None` when the trace is not exactly a
   concatenation of well-formed frames.
   */
  function Decode(t: seq<Event>): Option<seq<Txn>>
    decreases |t|
  {
    if t == [] then Some([])
    else if |t| >= 5 && t[0] == CS(High) && t[1].DC? && t[2] == CS(Low)
            && t[3].Write? && t[4] == CS(High) then
      match Decode(t[5..])
      case None => None
      case Some(rest) => Some([Txn(KindOf(t[1].level), t[3].bytes)] + rest)
    else None
  }

  /** Number of chip-select assertions in a trace. */
  function SelectCount(t: seq<Event>): nat
  {
    if t == [] then 0
    else (if t[0] == CS(Low) then 1 else 0) + SelectCount(t[1..])
  }

  /**
   The bus discipline every driver transaction keeps: chip-select is asserted only
   right after the data/command line has been set, every transfer happens inside
   one select interval (chip-select low just before, released just after), and the
   trace ends with chip-select released.
   */
  predicate Disciplined(t: seq<Event>)
  {
    && (forall i | 0 <= i < |t| && t[i] == CS(Low) :: 0 < i && t[i - 1].DC?)
    && (forall i | 0 <= i < |t| && t[i].Write? ::
          0 < i < |t| - 1 && t[i - 1] == CS(Low) && t[i + 1] == CS(High))
    && (|t| > 0 ==> t[|t| - 1] == CS(High))
  }

  lemma {:induction false} EncodeConcat(a: seq<Txn>, b: seq<Txn>)
    ensures Encode(a + b) == Encode(a) + Encode(b)
    decreases |a|
  {
    if a == [] {
      assert a + b == b;
    } else {
      assert (a + b)[1..] == a[1..] + b;
      EncodeConcat(a[1..], b);
    }
  }

  lemma {:induction false} EncodeLength(txs: seq<Txn>)
    ensures |Encode(txs)| == 5 * |txs|
    decreases |txs|
  {
    if txs != [] {
      EncodeLength(txs[1..]);
    }
  }

  /** Parsing inverts framing: every transaction sequence is recovered from its trace. */
  lemma {:induction false} DecodeEncode(txs: seq<Txn>)
    ensures Decode(Encode(txs)) == Some(txs)
    decreases |txs|
  {
    if txs != [] {
      var t := Encode(txs);
      assert t[5..] == Encode(txs[1..]);
      DecodeEncode(txs[1..]);
      assert KindOf(Line(txs[0].kind)) == txs[0].kind by {
        match txs[0].kind
        case Command =>
        case Data =>
      }
      assert txs == [txs[0]] + txs[1..];
    }
  }

  /** Framing inverts parsing: a trace that parses is exactly the frames of its parse. */
  lemma {:induction false} EncodeDecode(t: seq<Event>)
    requires Decode(t).Some?
    ensures Encode(Decode(t).value) == t
    decreases |t|
  {
    if t != [] {
      EncodeDecode(t[5..]);
      var txs := Decode(t).value;
      assert txs[1..] == Decode(t[5..]).value;
      assert Frame(txs[0]) == t[..5];
      assert t == t[..5] + t[5..];
    }
  }

  /** Every trace that parses keeps the bus discipline. */
  lemma {:induction false} DecodedIsDisciplined(t: seq<Event>)
    requires Decode(t).Some?
    ensures Disciplined(t)
    decreases |t|
  {
    if t != [] {
      var r := t[5..];
      DecodedIsDisciplined(r);
      forall i | 0 <= i < |t| && t[i] == CS(Low)
        ensures 0 < i && t[i - 1].DC?
      {
        if i >= 5 {
          assert r[i - 5] == t[i];
          assert i - 5 != 0 by { assert r[0] == CS(High); }
          assert t[i - 1] == r[i - 6];
        }
      }
      forall i | 0 <= i < |t| && t[i].Write?
        ensures 0 < i < |t| - 1 && t[i - 1] == CS(Low) && t[i + 1] == CS(High)
      {
        if i >= 5 {
          assert r[i - 5] == t[i];
          assert t[i - 1] == r[i - 6] && t[i + 1] == r[i - 4];
        }
      }
      if |r| > 0 {
        assert t[|t| - 1] == r[|r| - 1];
      }
    }
  }

  /** Every trace of back-to-back transactions keeps the bus discipline. */
  lemma EncodeIsDisciplined(txs: seq<Txn>)
    ensures Disciplined(Encode(txs))
  {
    DecodeEncode(txs);
    DecodedIsDisciplined(Encode(txs));
  }

  lemma {:induction false} SelectCountConcat(a: seq<Event>, b: seq<Event>)
    ensures SelectCount(a + b) == SelectCount(a) + SelectCount(b)
    decreases |a|
  {
    if a == [] {
      assert a + b == b;
    } else {
      assert (a + b)[1..] == a[1..] + b;
      SelectCountConcat(a[1..], b);
    }
  }

  /** Each transaction asserts chip-select exactly once. */
  lemma {:induction false} SelectCountEncode(txs: seq<Txn>)
    ensures SelectCount(Encode(txs)) == |txs|
    decreases |txs|
  {
    if txs != [] {
      var f := Frame(txs[0]);
      SelectCountConcat(f, Encode(txs[1..]));
      assert SelectCount(f) == 1 by {
        assert f[4..][1..] == [];
        assert SelectCount(f[4..]) == 0;
        assert f[3..][1..] == f[4..];
        assert SelectCount(f[3..]) == 0;
        assert f[2..][1..] == f[3..];
        assert SelectCount(f[2..]) == 1;
        assert f[1..][1..] == f[2..];
        assert SelectCount(f[1..]) == 1;
      }
      SelectCountEncode(txs[1..]);
    }
  }
}
