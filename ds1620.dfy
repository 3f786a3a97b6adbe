/**
 * DS1620.cs: the DS1620 digital thermometer on a three-wire interface (DQ, CLK, RST).
 * A reading configures the chip for CPU mode, starts a conversion and reads the
 * nine-bit temperature register, each exchange framed by RST high.
 */
module Thermometer {
  import opened Wire

  /** `_dq`, `_clk`, `_rst`. */
  datatype Line = Dq | Clk | Rst

  type Sig = Signal<Line>

  /** The protocol bytes `GetTemperature` sends. */
  const WriteConfig: byte := 0x0C
  const CpuMode: byte := 0x02
  const StartConvert: byte := 0xEE
  const ReadTemperature: byte := 0xAA

  /** One bit of `SendCommand`: DQ set, clock low, clock high. */
  function CommandCycles(bits: seq<bool>): seq<Sig>
  {
    if bits == [] then []
    else CommandCycles(bits[..|bits| - 1]) + [Drive(Dq, bits[|bits| - 1]), Drive(Clk, false), Drive(Clk, true)]
  }

  /** `SendCommand(command)`: its eight bits, least significant first. */
  function CommandSignals(command: byte): seq<Sig>
  {
    CommandCycles(Bits(command, 8))
  }

  /** `n` bits of `ReadData` from position `start` of the input: clock low, sample DQ, clock high. */
  function ReadCycles(input: nat -> bool, start: nat, n: nat): seq<Sig>
  {
    if n == 0 then []
    else ReadCycles(input, start, n - 1) + [Drive(Clk, false), Sample(Dq, input(start + n - 1)), Drive(Clk, true)]
  }

  /** An exchange with the chip: clock high, RST high, the exchange, RST low. */
  function Frame(body: seq<Sig>): seq<Sig>
  {
    [Drive(Clk, true), Drive(Rst, true)] + body + [Drive(Rst, false)]
  }

  /** RST low, then the configuration register set to CPU mode, then a 200 ms wait. */
  function ConfigureSignals(): seq<Sig>
  {
    [Drive(Rst, false)] + Frame(CommandSignals(WriteConfig) + CommandSignals(CpuMode)) + [Pause(200)]
  }

  /** A conversion started, then a 200 ms wait. */
  function ConvertSignals(): seq<Sig>
  {
    Frame(CommandSignals(StartConvert)) + [Pause(200)]
  }

  /** The temperature register read: the command, then nine bits from the chip. */
  function ReadOutSignals(input: nat -> bool, start: nat): seq<Sig>
  {
    Frame(CommandSignals(ReadTemperature) + ReadCycles(input, start, 9))
  }

  /** Everything one `GetTemperature` puts on the lines. */
  function TemperatureSignals(input: nat -> bool, start: nat): seq<Sig>
  {
    ConfigureSignals() + ConvertSignals() + ReadOutSignals(input, start)
  }

  /** The signals on the data line. */
  predicate DqSignal(e: Sig)
  {
    (e.Drive? || e.Sample?) && e.line == Dq
  }

  /** RST driven high: the start of an exchange. */
  predicate RstRise(e: Sig)
  {
    e == Drive(Rst, true)
  }

  /** `raw_data | (bit << n)` with `raw_data` below `2^n` adds bit n. */
  lemma OrInBit(s: seq<bool>, x: bool)
    ensures Or(Value(s), Shl(if x then 1 else 0, |s|)) == Value(s + [x])
  {
    ShlOneBit(x, |s|);
    OrDisjoint(if x then 1 else 0, |s|, Value(s));
    OrCommutes(Value(s), Shl(if x then 1 else 0, |s|));
    ValueAppend(s, x);
  }

  lemma {:induction false} ShlOneBit(x: bool, k: nat)
    ensures Shl(if x then 1 else 0, k) == if x then Pow2(k) else 0
  {
    if k > 0 {
      ShlOneBit(x, k - 1);
    }
  }

  lemma {:induction false} CommandCyclesLevels(bits: seq<bool>)
    ensures Levels(CommandCycles(bits), Dq) == bits
  {
    if bits != [] {
      CommandCyclesLevels(bits[..|bits| - 1]);
      CycleLevels(CommandCycles(bits[..|bits| - 1]), Drive(Dq, bits[|bits| - 1]), Drive(Clk, false), Drive(Clk, true), Dq);
    }
  }

  lemma {:induction false} CommandCyclesSamples(bits: seq<bool>)
    ensures Samples(CommandCycles(bits), Dq) == []
  {
    if bits != [] {
      CommandCyclesSamples(bits[..|bits| - 1]);
      CycleSamples(CommandCycles(bits[..|bits| - 1]), Drive(Dq, bits[|bits| - 1]), Drive(Clk, false), Drive(Clk, true), Dq);
    }
  }

  lemma {:induction false} CommandCyclesQuiet(bits: seq<bool>)
    ensures Quiet(CommandCycles(bits), Rst)
  {
    if bits != [] {
      CommandCyclesQuiet(bits[..|bits| - 1]);
      QuietAppend(CommandCycles(bits[..|bits| - 1]), [Drive(Dq, bits[|bits| - 1]), Drive(Clk, false), Drive(Clk, true)], Rst);
    }
  }

  lemma {:induction false} ReadCyclesLevels(input: nat -> bool, start: nat, n: nat)
    ensures Levels(ReadCycles(input, start, n), Dq) == []
  {
    if n > 0 {
      ReadCyclesLevels(input, start, n - 1);
      CycleLevels(ReadCycles(input, start, n - 1), Drive(Clk, false), Sample(Dq, input(start + n - 1)), Drive(Clk, true), Dq);
    }
  }

  lemma {:induction false} ReadCyclesSamples(input: nat -> bool, start: nat, n: nat)
    ensures Samples(ReadCycles(input, start, n), Dq) == Window(input, start, n)
  {
    if n > 0 {
      var level := input(start + n - 1);
      ReadCyclesSamples(input, start, n - 1);
      CycleSamples(ReadCycles(input, start, n - 1), Drive(Clk, false), Sample(Dq, level), Drive(Clk, true), Dq);
      assert Samples(ReadCycles(input, start, n), Dq) == Window(input, start, n - 1) + [level];
      WindowSnoc(input, start, n - 1);
    }
  }

  lemma {:induction false} ReadCyclesQuiet(input: nat -> bool, start: nat, n: nat)
    ensures Quiet(ReadCycles(input, start, n), Rst)
  {
    if n > 0 {
      ReadCyclesQuiet(input, start, n - 1);
      QuietAppend(ReadCycles(input, start, n - 1), [Drive(Clk, false), Sample(Dq, input(start + n - 1)), Drive(Clk, true)], Rst);
    }
  }

  /** A command puts its byte on DQ, least significant bit first, and reads nothing. */
  lemma CommandOnDq(command: byte)
    ensures Levels(CommandSignals(command), Dq) == Bits(command, 8)
    ensures Value(Levels(CommandSignals(command), Dq)) == command
    ensures Samples(CommandSignals(command), Dq) == []
  {
    CommandCyclesLevels(Bits(command, 8));
    CommandCyclesSamples(Bits(command, 8));
    assert Pow2(8) == 256;
    ValueOfBits(command, 8);
  }

  /** The framing signals carry nothing on DQ. */
  lemma FrameData(body: seq<Sig>)
    ensures Levels(Frame(body), Dq) == Levels(body, Dq)
    ensures Samples(Frame(body), Dq) == Samples(body, Dq)
  {
    var o: seq<Sig> := [Drive(Clk, true), Drive(Rst, true)];
    var c: seq<Sig> := [Drive(Rst, false)];
    assert Quiet(o, Dq) && Quiet(c, Dq);
    QuietLevels(o, Dq);
    QuietLevels(c, Dq);
    LevelsAppend(o, body, Dq);
    LevelsAppend(o + body, c, Dq);
    SamplesAppend(o, body, Dq);
    SamplesAppend(o + body, c, Dq);
  }

  /** Two exchanges in a row: what each carries on DQ, in order. */
  lemma PairData(a: seq<Sig>, b: seq<Sig>)
    ensures Levels(a + b, Dq) == Levels(a, Dq) + Levels(b, Dq)
    ensures Samples(a + b, Dq) == Samples(a, Dq) + Samples(b, Dq)
  {
    LevelsAppend(a, b, Dq);
    SamplesAppend(a, b, Dq);
  }

  /** A pause or a lone RST change carries nothing on DQ. */
  lemma WrappedData(a: seq<Sig>, b: seq<Sig>, c: seq<Sig>)
    requires Quiet(a, Dq) && Quiet(c, Dq)
    ensures Levels(a + b + c, Dq) == Levels(b, Dq)
    ensures Samples(a + b + c, Dq) == Samples(b, Dq)
  {
    QuietLevels(a, Dq);
    QuietLevels(c, Dq);
    LevelsAppend(a, b, Dq);
    LevelsAppend(a + b, c, Dq);
    SamplesAppend(a, b, Dq);
    SamplesAppend(a + b, c, Dq);
  }

  lemma ConfigureData()
    ensures Levels(ConfigureSignals(), Dq) == Bits(WriteConfig, 8) + Bits(CpuMode, 8)
    ensures Samples(ConfigureSignals(), Dq) == []
  {
    var body := CommandSignals(WriteConfig) + CommandSignals(CpuMode);
    CommandOnDq(WriteConfig);
    CommandOnDq(CpuMode);
    PairData(CommandSignals(WriteConfig), CommandSignals(CpuMode));
    FrameData(body);
    assert Quiet([Drive(Rst, false)], Dq) && Quiet([Pause(200)], Dq);
    WrappedData([Drive(Rst, false)], Frame(body), [Pause(200)]);
  }

  lemma ConvertData()
    ensures Levels(ConvertSignals(), Dq) == Bits(StartConvert, 8)
    ensures Samples(ConvertSignals(), Dq) == []
  {
    CommandOnDq(StartConvert);
    FrameData(CommandSignals(StartConvert));
    assert Quiet([Pause(200)], Dq);
    QuietLevels([Pause(200)], Dq);
    PairData(Frame(CommandSignals(StartConvert)), [Pause(200)]);
  }

  lemma ReadOutData(input: nat -> bool, start: nat)
    ensures Levels(ReadOutSignals(input, start), Dq) == Bits(ReadTemperature, 8)
    ensures Samples(ReadOutSignals(input, start), Dq) == Window(input, start, 9)
  {
    var r := ReadCycles(input, start, 9);
    CommandOnDq(ReadTemperature);
    ReadCyclesLevels(input, start, 9);
    ReadCyclesSamples(input, start, 9);
    PairData(CommandSignals(ReadTemperature), r);
    FrameData(CommandSignals(ReadTemperature) + r);
  }

  /**
   * What the chip sees on DQ during one reading: the bytes 0x0C, 0x02, 0xEE, 0xAA, least
   * significant bit first, and nothing read back but the nine bits of the temperature.
   */
  lemma TemperatureData(input: nat -> bool, start: nat)
    ensures Levels(TemperatureSignals(input, start), Dq)
         == Bits(WriteConfig, 8) + Bits(CpuMode, 8) + Bits(StartConvert, 8) + Bits(ReadTemperature, 8)
    ensures Samples(TemperatureSignals(input, start), Dq) == Window(input, start, 9)
  {
    ConfigureData();
    ConvertData();
    ReadOutData(input, start);
    PairData(ConfigureSignals(), ConvertSignals());
    PairData(ConfigureSignals() + ConvertSignals(), ReadOutSignals(input, start));
  }

  /** An exchange after `p`: its DQ traffic happens while RST is high, and RST is low after it. */
  lemma FrameSelects(p: seq<Sig>, body: seq<Sig>)
    requires Framed(p, Rst, true, DqSignal) && Quiet(body, Rst)
    ensures Framed(p + Frame(body), Rst, true, DqSignal)
    ensures Holds(p + Frame(body), Rst, false)
  {
    var q := p + [Drive(Clk, true), Drive(Rst, true)];
    FramedIdle(p, [Drive(Clk, true), Drive(Rst, true)], Rst, true, DqSignal);
    assert q == p + [Drive(Clk, true)] + [Drive(Rst, true)];
    HoldsAfter(p + [Drive(Clk, true)], Rst, true);
    FramedBody(q, body, Rst, true, DqSignal);
    FramedIdle(q + body, [Drive(Rst, false)], Rst, true, DqSignal);
    HoldsAfter(q + body, Rst, false);
    assert p + Frame(body) == q + body + [Drive(Rst, false)];
  }

  /** An exchange after `p`: RST rises only while the clock is high. */
  lemma FrameRises(p: seq<Sig>, body: seq<Sig>)
    requires Framed(p, Clk, true, RstRise) && Quiet(body, Rst)
    ensures Framed(p + Frame(body), Clk, true, RstRise)
  {
    FramedIdle(p, [Drive(Clk, true)], Clk, true, RstRise);
    HoldsAfter(p, Clk, true);
    FramedBody(p + [Drive(Clk, true)], [Drive(Rst, true)], Clk, true, RstRise);
    var q := p + [Drive(Clk, true)] + [Drive(Rst, true)];
    assert forall k :: 0 <= k < |body + [Drive(Rst, false)]| ==> !RstRise((body + [Drive(Rst, false)])[k]);
    FramedIdle(q, body + [Drive(Rst, false)], Clk, true, RstRise);
    assert p + Frame(body) == q + (body + [Drive(Rst, false)]);
  }

  /** Appending a pause or RST low changes no framing. */
  lemma Idle(p: seq<Sig>, s: seq<Sig>)
    requires s == [Pause(200)] || s == [Drive(Rst, false)]
    ensures Framed(p, Rst, true, DqSignal) ==> Framed(p + s, Rst, true, DqSignal)
    ensures Framed(p, Clk, true, RstRise) ==> Framed(p + s, Clk, true, RstRise)
  {
    if Framed(p, Rst, true, DqSignal) {
      FramedIdle(p, s, Rst, true, DqSignal);
    }
    if Framed(p, Clk, true, RstRise) {
      FramedIdle(p, s, Clk, true, RstRise);
    }
  }

  lemma ConfigureFramed()
    ensures Framed(ConfigureSignals(), Rst, true, DqSignal)
    ensures Framed(ConfigureSignals(), Clk, true, RstRise)
  {
    var body := CommandSignals(WriteConfig) + CommandSignals(CpuMode);
    CommandCyclesQuiet(Bits(WriteConfig, 8));
    CommandCyclesQuiet(Bits(CpuMode, 8));
    QuietAppend(CommandSignals(WriteConfig), CommandSignals(CpuMode), Rst);
    Idle([], [Drive(Rst, false)]);
    assert [] + [Drive(Rst, false)] == [Drive(Rst, false)];
    FrameSelects([Drive(Rst, false)], body);
    FrameRises([Drive(Rst, false)], body);
    Idle([Drive(Rst, false)] + Frame(body), [Pause(200)]);
  }

  lemma ConvertFramed(p: seq<Sig>)
    requires Framed(p, Rst, true, DqSignal) && Framed(p, Clk, true, RstRise)
    ensures Framed(p + ConvertSignals(), Rst, true, DqSignal)
    ensures Framed(p + ConvertSignals(), Clk, true, RstRise)
  {
    var body := CommandSignals(StartConvert);
    CommandCyclesQuiet(Bits(StartConvert, 8));
    FrameSelects(p, body);
    FrameRises(p, body);
    Idle(p + Frame(body), [Pause(200)]);
    assert p + ConvertSignals() == p + Frame(body) + [Pause(200)];
  }

  lemma ReadOutFramed(p: seq<Sig>, input: nat -> bool, start: nat)
    requires Framed(p, Rst, true, DqSignal) && Framed(p, Clk, true, RstRise)
    ensures Framed(p + ReadOutSignals(input, start), Rst, true, DqSignal)
    ensures Framed(p + ReadOutSignals(input, start), Clk, true, RstRise)
    ensures Holds(p + ReadOutSignals(input, start), Rst, false)
  {
    var body := CommandSignals(ReadTemperature) + ReadCycles(input, start, 9);
    CommandCyclesQuiet(Bits(ReadTemperature, 8));
    ReadCyclesQuiet(input, start, 9);
    QuietAppend(CommandSignals(ReadTemperature), ReadCycles(input, start, 9), Rst);
    FrameSelects(p, body);
    FrameRises(p, body);
  }

  /**
   * The framing of one reading: every DQ signal happens while RST is high, RST rises only
   * while the clock is high, and RST is low again at the end.
   */
  lemma TemperatureFramed(input: nat -> bool, start: nat)
    ensures Framed(TemperatureSignals(input, start), Rst, true, DqSignal)
    ensures Framed(TemperatureSignals(input, start), Clk, true, RstRise)
    ensures Holds(TemperatureSignals(input, start), Rst, false)
  {
    ConfigureFramed();
    ConvertFramed(ConfigureSignals());
    ReadOutFramed(ConfigureSignals() + ConvertSignals(), input, start);
  }

  class Ds1620 {
    const bus: Bus<Line>

    /** `DS1620(dq, clk, rst)`. */
    constructor (bus: Bus<Line>)
      ensures this.bus == bus
    {
      this.bus := bus;
    }

    /** `SendCommand`: bit n of the command on DQ, clock low, clock high, for n from 0 to 7. */
    method SendCommand(command: byte)
      modifies bus
      ensures bus.trace == old(bus.trace) + CommandSignals(command)
      ensures bus.consumed == old(bus.consumed)
    {
      ghost var t0 := bus.trace;
      ghost var bits := Bits(command, 8);
      var n := 0;
      while n < 8
        invariant 0 <= n <= 8
        invariant bus.trace == t0 + CommandCycles(bits[..n]) && bus.consumed == old(bus.consumed)
      {
        var bit := Bit(command, n);
        bus.Write(Dq, bit);
        bus.Write(Clk, false);
        bus.Write(Clk, true);
        assert bits[..n + 1][..n] == bits[..n] && bits[n] == bit;
        Regroup(t0, CommandCycles(bits[..n]), [Drive(Dq, bit), Drive(Clk, false), Drive(Clk, true)]);
        n := n + 1;
      }
      assert bits[..8] == bits;
    }

    /** `ReadData`: nine bits, bit n read while the clock is low and ORed in at position n. */
    method ReadData() returns (raw: nat)
      modifies bus
      ensures raw == Value(Window(bus.input, old(bus.consumed), 9)) && raw < 512
      ensures bus.trace == old(bus.trace) + ReadCycles(bus.input, old(bus.consumed), 9)
      ensures bus.consumed == old(bus.consumed) + 9
    {
      ghost var t0 := bus.trace;
      ghost var start := bus.consumed;
      raw := 0;
      var n := 0;
      while n < 9
        invariant 0 <= n <= 9 && raw == Value(Window(bus.input, start, n))
        invariant bus.trace == t0 + ReadCycles(bus.input, start, n) && bus.consumed == start + n
      {
        raw := ReadDataBit(raw, n, start, t0);
        n := n + 1;
      }
      assert Pow2(9) == 512;
    }

    /** One round of `ReadData`: clock low, read DQ, clock high, `raw_data |= bit << n`. */
    method ReadDataBit(raw: nat, n: nat, ghost start: nat, ghost t0: seq<Sig>) returns (next: nat)
      requires raw == Value(Window(bus.input, start, n))
      requires bus.trace == t0 + ReadCycles(bus.input, start, n) && bus.consumed == start + n
      modifies bus
      ensures next == Value(Window(bus.input, start, n + 1))
      ensures bus.trace == t0 + ReadCycles(bus.input, start, n + 1) && bus.consumed == start + n + 1
    {
      bus.Write(Clk, false);
      var high := bus.Read(Dq);
      var bit := if high then 1 else 0;
      bus.Write(Clk, true);
      next := Or(raw, Shl(bit, n));
      OrInBit(Window(bus.input, start, n), high);
      WindowSnoc(bus.input, start, n);
      Regroup(t0, ReadCycles(bus.input, start, n), [Drive(Clk, false), Sample(Dq, high), Drive(Clk, true)]);
    }

    /** The first part of `GetTemperature`: RST low, then write the configuration, then wait. */
    method Configure()
      modifies bus
      ensures bus.trace == old(bus.trace) + ConfigureSignals()
      ensures bus.consumed == old(bus.consumed)
    {
      ghost var t0 := bus.trace;
      bus.Write(Rst, false);
      bus.Write(Clk, true);
      bus.Write(Rst, true);
      ghost var t1 := bus.trace;
      SendCommand(WriteConfig);
      SendCommand(CpuMode);
      Regroup(t1, CommandSignals(WriteConfig), CommandSignals(CpuMode));
      bus.Write(Rst, false);
      bus.Sleep(200);
      assert bus.trace == t0 + [Drive(Rst, false)] + [Drive(Clk, true), Drive(Rst, true)]
        + (CommandSignals(WriteConfig) + CommandSignals(CpuMode)) + [Drive(Rst, false)] + [Pause(200)];
    }

    /** The second part: start a conversion, then wait. */
    method Convert()
      modifies bus
      ensures bus.trace == old(bus.trace) + ConvertSignals()
      ensures bus.consumed == old(bus.consumed)
    {
      ghost var t0 := bus.trace;
      bus.Write(Clk, true);
      bus.Write(Rst, true);
      SendCommand(StartConvert);
      bus.Write(Rst, false);
      bus.Sleep(200);
      assert bus.trace == t0 + [Drive(Clk, true), Drive(Rst, true)] + CommandSignals(StartConvert)
        + [Drive(Rst, false)] + [Pause(200)];
    }

    /** The last part: read the temperature register. */
    method ReadOut() returns (raw: nat)
      modifies bus
      ensures raw == Value(Window(bus.input, old(bus.consumed), 9)) && raw < 512
      ensures bus.trace == old(bus.trace) + ReadOutSignals(bus.input, old(bus.consumed))
      ensures bus.consumed == old(bus.consumed) + 9
    {
      ghost var t0 := bus.trace;
      ghost var start := bus.consumed;
      bus.Write(Clk, true);
      bus.Write(Rst, true);
      ghost var t1 := bus.trace;
      assert t1 == t0 + [Drive(Clk, true), Drive(Rst, true)];
      SendCommand(ReadTemperature);
      raw := ReadData();
      ghost var body := CommandSignals(ReadTemperature) + ReadCycles(bus.input, start, 9);
      Regroup(t1, CommandSignals(ReadTemperature), ReadCycles(bus.input, start, 9));
      bus.Write(Rst, false);
      assert t0 + [Drive(Clk, true), Drive(Rst, true)] + body + [Drive(Rst, false)] == t0 + Frame(body);
    }

    /**
     * `GetTemperature`, behind the `Temperature` getter: the nine bits read, least significant
     * first, as a count of half degrees with no sign applied.
     */
    method GetTemperature() returns (halfDegrees: nat)
      modifies bus
      ensures halfDegrees == Value(Window(bus.input, old(bus.consumed), 9)) && halfDegrees < 512
      ensures bus.trace == old(bus.trace) + TemperatureSignals(bus.input, old(bus.consumed))
      ensures bus.consumed == old(bus.consumed) + 9
    {
      ghost var t0 := bus.trace;
      Configure();
      Convert();
      halfDegrees := ReadOut();
      Regroup(t0, ConfigureSignals(), ConvertSignals());
      Regroup(t0, ConfigureSignals() + ConvertSignals(), ReadOutSignals(bus.input, old(bus.consumed)));
    }
  }
}
