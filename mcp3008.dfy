/**
 * MCP3008.cs: the eight-channel MCP3008 analog-to-digital converter driven over
 * four bit-banged SPI lines. A conversion selects the chip, clocks out a five-bit
 * command (start bit, single-ended bit, channel number) and clocks in twelve bits.
 */
module Adc {
  import opened Faults
  import opened Wire

  /** `clockpin`, `mosipin`, `misopin`, `cspin`. */
  datatype Line = Clock | Mosi | Miso | Cs

  type Sig = Signal<Line>

  /** The command the chip expects: start bit, single-ended bit, then the channel number most significant bit first. */
  function CommandBits(channel: int): (bits: seq<bool>)
    requires 0 <= channel <= 7
    ensures |bits| == 5
  {
    [true, true, Bit(channel, 2), Bit(channel, 1), Bit(channel, 0)]
  }

  /** The number whose bits, most significant first, are `s`. */
  function MsbValue(s: seq<bool>): (v: nat)
    ensures v < Pow2(|s|)
  {
    if s == [] then 0 else 2 * MsbValue(s[..|s| - 1]) + (if s[|s| - 1] then 1 else 0)
  }

  lemma MsbValueOfThree(a: bool, b: bool, c: bool)
    ensures MsbValue([a, b, c]) == 4 * (if a then 1 else 0) + 2 * (if b then 1 else 0) + (if c then 1 else 0)
  {
    assert [a][..0] == [];
    assert MsbValue([a]) == (if a then 1 else 0);
    assert [a, b][..1] == [a];
    assert MsbValue([a, b]) == 2 * MsbValue([a]) + (if b then 1 else 0);
    assert [a, b, c][..2] == [a, b];
  }

  /** The three bits of a channel number. */
  lemma ChannelBits(n: nat)
    requires n <= 7
    ensures n == 4 * (if Bit(n, 2) then 1 else 0) + 2 * (if Bit(n, 1) then 1 else 0) + (if Bit(n, 0) then 1 else 0)
  {
    assert Bit(n, 2) == Bit(n / 2, 1) == Bit(n / 2 / 2, 0);
    assert Bit(n, 1) == Bit(n / 2, 0);
  }

  /** The channel can be read back from the last three command bits: different channels send different commands. */
  lemma ChannelFromCommand(channel: int, other: int)
    requires 0 <= channel <= 7 && 0 <= other <= 7
    ensures MsbValue(CommandBits(channel)[2..]) == channel
    ensures CommandBits(channel) == CommandBits(other) <==> channel == other
  {
    assert CommandBits(channel)[2..] == [Bit(channel, 2), Bit(channel, 1), Bit(channel, 0)];
    MsbValueOfThree(Bit(channel, 2), Bit(channel, 1), Bit(channel, 0));
    ChannelBits(channel);
    ChannelBits(other);
  }

  /** Dropping the last bit of an MSB-first number halves it. */
  lemma DropLastBit(s: seq<bool>)
    requires s != []
    ensures MsbValue(s) / 2 == MsbValue(s[..|s| - 1])
  {
  }

  /** `adcout <<= 1`, then `adcout |= 0x1` for a high level, appends that level as the new lowest bit. */
  lemma ShiftInBit(s: seq<bool>, x: bool)
    ensures (if x then Or(Shl(MsbValue(s), 1), 1) else Shl(MsbValue(s), 1)) == MsbValue(s + [x])
  {
    assert Shl(MsbValue(s), 0) == MsbValue(s) && Pow2(1) == 2;
    OrDisjoint(MsbValue(s), 1, 1);
    assert (s + [x])[..|s|] == s;
  }

  /** Shifting in the next level of the input extends the window read so far by one bit. */
  lemma ShiftInLevel(input: nat -> bool, start: nat, i: nat)
    ensures var v := MsbValue(Window(input, start, i));
      (if input(start + i) then Or(Shl(v, 1), 1) else Shl(v, 1)) == MsbValue(Window(input, start, i + 1))
  {
    ShiftInBit(Window(input, start, i), input(start + i));
    WindowSnoc(input, start, i);
  }

  /** `adcout / 2` on the twelve bits read is the number the first eleven make, below 2048. */
  lemma DropNullBit(input: nat -> bool, start: nat)
    ensures MsbValue(Window(input, start, 12)) / 2 == MsbValue(Window(input, start, 11)) < 2048
  {
    DropLastBit(Window(input, start, 12));
    assert Window(input, start, 12)[..11] == Window(input, start, 11);
    assert Pow2(11) == 2048;
  }

  /** One command bit: MOSI set, clock high, clock low. */
  function CommandCycles(bits: seq<bool>): seq<Sig>
  {
    if bits == [] then []
    else CommandCycles(bits[..|bits| - 1]) + [Drive(Mosi, bits[|bits| - 1]), Drive(Clock, true), Drive(Clock, false)]
  }

  /** `n` response bits from position `start` of the input: clock high, clock low, sample MISO. */
  function ReadCycles(input: nat -> bool, start: nat, n: nat): seq<Sig>
  {
    if n == 0 then []
    else ReadCycles(input, start, n - 1) + [Drive(Clock, true), Drive(Clock, false), Sample(Miso, input(start + n - 1))]
  }

  /** CS high, clock low, CS low: the chip is selected with the clock idle low. */
  const Select: seq<Sig> := [Drive(Cs, true), Drive(Clock, false), Drive(Cs, false)]

  /** Everything one conversion puts on the lines. */
  function ConversionSignals(channel: int, input: nat -> bool, start: nat): seq<Sig>
    requires 0 <= channel <= 7
  {
    Select + CommandCycles(CommandBits(channel)) + ReadCycles(input, start, 12) + [Drive(Cs, true)]
  }

  /** The signals on the data lines, MOSI and MISO. */
  predicate DataSignal(e: Sig)
  {
    (e.Drive? || e.Sample?) && (e.line == Mosi || e.line == Miso)
  }

  predicate MosiDrive(e: Sig)
  {
    e.Drive? && e.line == Mosi
  }

  /** `commandout` once `sent` bits are out: `(channel | 0x18) << 3`, shifted left once per bit. */
  function CommandWord(channel: nat, sent: nat): nat
  {
    Shl(Or(channel, 0x18), 3 + sent)
  }

  /** `channel | 0x18` puts the start and single-ended bits above the three channel bits. */
  lemma OrStartBits(channel: nat)
    requires channel <= 7
    ensures Or(channel, 0x18) == 0x18 + channel
  {
    assert Shl(3, 3) == 0x18 && Pow2(3) == 8;
    OrDisjoint(3, 3, channel);
    OrCommutes(0x18, channel);
  }

  lemma ChannelBitsKept(channel: nat, k: nat)
    requires channel <= 7 && k < 3
    ensures Bit(0x18 + channel, k) == Bit(channel, k)
  {
    assert Pow2(3) == 8 && (0x18 + channel) % Pow2(3) == channel;
    BitMod(0x18 + channel, 3, k);
  }

  lemma StartBits(x: nat)
    requires 0x18 <= x < 0x20
    ensures Bit(x, 4) && Bit(x, 3)
  {
    assert x / 2 / 2 / 2 == 3;
    assert Bit(x, 3) == Bit(x / 2, 2) == Bit(x / 2 / 2, 1) == Bit(x / 2 / 2 / 2, 0);
    assert Bit(x, 4) == Bit(x / 2, 3) == Bit(x / 2 / 2, 2) == Bit(x / 2 / 2 / 2, 1) == Bit(x / 2 / 2 / 2 / 2, 0);
  }

  /** Testing `commandout & 0x80` before each shift yields the command bits in order. */
  lemma CommandWordBit(channel: nat, i: nat)
    requires channel <= 7 && i < 5
    ensures Bit(CommandWord(channel, i), 7) == CommandBits(channel)[i]
  {
    OrStartBits(channel);
    ShlBit(0x18 + channel, 3 + i, 7);
    if i < 2 {
      StartBits(0x18 + channel);
    } else {
      ChannelBitsKept(channel, 4 - i);
    }
  }

  lemma {:induction false} CommandCyclesLevels(bits: seq<bool>)
    ensures Levels(CommandCycles(bits), Mosi) == bits
  {
    if bits != [] {
      CommandCyclesLevels(bits[..|bits| - 1]);
      CycleLevels(CommandCycles(bits[..|bits| - 1]), Drive(Mosi, bits[|bits| - 1]), Drive(Clock, true), Drive(Clock, false), Mosi);
    }
  }

  /** The command cycles neither touch CS nor read MISO. */
  lemma {:induction false} CommandCyclesQuiet(bits: seq<bool>)
    ensures Quiet(CommandCycles(bits), Cs) && Quiet(CommandCycles(bits), Miso)
  {
    if bits != [] {
      var cycle := [Drive(Mosi, bits[|bits| - 1]), Drive(Clock, true), Drive(Clock, false)];
      CommandCyclesQuiet(bits[..|bits| - 1]);
      QuietAppend(CommandCycles(bits[..|bits| - 1]), cycle, Cs);
      QuietAppend(CommandCycles(bits[..|bits| - 1]), cycle, Miso);
    }
  }

  lemma {:induction false} ReadCyclesLevels(input: nat -> bool, start: nat, n: nat)
    ensures Samples(ReadCycles(input, start, n), Miso) == Window(input, start, n)
  {
    if n > 0 {
      var front := ReadCycles(input, start, n - 1);
      var level := input(start + n - 1);
      ReadCyclesLevels(input, start, n - 1);
      CycleSamples(front, Drive(Clock, true), Drive(Clock, false), Sample(Miso, level), Miso);
      assert Samples(ReadCycles(input, start, n), Miso) == Window(input, start, n - 1) + [level];
      WindowSnoc(input, start, n - 1);
    }
  }

  /** The response cycles touch neither CS nor MOSI. */
  lemma {:induction false} ReadCyclesQuiet(input: nat -> bool, start: nat, n: nat)
    ensures Quiet(ReadCycles(input, start, n), Cs) && Quiet(ReadCycles(input, start, n), Mosi)
  {
    if n > 0 {
      var cycle := [Drive(Clock, true), Drive(Clock, false), Sample(Miso, input(start + n - 1))];
      ReadCyclesQuiet(input, start, n - 1);
      QuietAppend(ReadCycles(input, start, n - 1), cycle, Cs);
      QuietAppend(ReadCycles(input, start, n - 1), cycle, Mosi);
    }
  }

  /** Each command bit is put on MOSI while the clock is low, so it is stable at the rising edge that latches it. */
  lemma {:induction false} MosiSetWhileClockLow(p: seq<Sig>, bits: seq<bool>)
    requires Framed(p, Clock, false, MosiDrive) && Holds(p, Clock, false)
    ensures Framed(p + CommandCycles(bits), Clock, false, MosiDrive)
    ensures Holds(p + CommandCycles(bits), Clock, false)
  {
    if bits == [] {
      assert p + CommandCycles(bits) == p;
    } else {
      var q := p + CommandCycles(bits[..|bits| - 1]);
      MosiSetWhileClockLow(p, bits[..|bits| - 1]);
      var b := bits[|bits| - 1];
      FramedBody(q, [Drive(Mosi, b)], Clock, false, MosiDrive);
      FramedIdle(q + [Drive(Mosi, b)], [Drive(Clock, true), Drive(Clock, false)], Clock, false, MosiDrive);
      assert q + [Drive(Mosi, b)] + [Drive(Clock, true), Drive(Clock, false)]
          == p + CommandCycles(bits)
          == q + [Drive(Mosi, b), Drive(Clock, true)] + [Drive(Clock, false)];
      HoldsAfter(q + [Drive(Mosi, b), Drive(Clock, true)], Clock, false);
    }
  }

  /** The command bits on MOSI and the twelve levels read from MISO, in order. */
  lemma ConversionData(channel: int, input: nat -> bool, start: nat)
    requires 0 <= channel <= 7
    ensures Levels(ConversionSignals(channel, input, start), Mosi) == CommandBits(channel)
    ensures Samples(ConversionSignals(channel, input, start), Miso) == Window(input, start, 12)
  {
    var c := CommandCycles(CommandBits(channel));
    var r := ReadCycles(input, start, 12);
    CommandCyclesLevels(CommandBits(channel));
    CommandCyclesQuiet(CommandBits(channel));
    ReadCyclesLevels(input, start, 12);
    ReadCyclesQuiet(input, start, 12);
    FramedLines(c, r);
  }

  /** Selecting and deselecting the chip put nothing on the data lines. */
  lemma FramedLines(c: seq<Sig>, r: seq<Sig>)
    requires Quiet(c, Miso) && Quiet(r, Mosi)
    ensures Levels(Select + c + r + [Drive(Cs, true)], Mosi) == Levels(c, Mosi)
    ensures Samples(Select + c + r + [Drive(Cs, true)], Miso) == Samples(r, Miso)
  {
    QuietLevels(c, Miso);
    QuietLevels(r, Mosi);
    assert Quiet(Select, Mosi) && Quiet(Select, Miso) && Quiet([Drive(Cs, true)], Mosi) && Quiet([Drive(Cs, true)], Miso);
    QuietLevels(Select, Mosi);
    QuietLevels(Select, Miso);
    QuietLevels([Drive(Cs, true)], Mosi);
    QuietLevels([Drive(Cs, true)], Miso);
    LevelsInside(Select, c, r, [Drive(Cs, true)], Mosi);
    SamplesInside(Select, c, r, [Drive(Cs, true)], Miso);
  }

  /** Every MOSI and MISO signal happens while CS is low, and CS is high again at the end. */
  lemma ConversionSelected(channel: int, input: nat -> bool, start: nat)
    requires 0 <= channel <= 7
    ensures Framed(ConversionSignals(channel, input, start), Cs, false, DataSignal)
    ensures Holds(ConversionSignals(channel, input, start), Cs, true)
  {
    var c := CommandCycles(CommandBits(channel));
    var r := ReadCycles(input, start, 12);
    CommandCyclesQuiet(CommandBits(channel));
    ReadCyclesQuiet(input, start, 12);
    FramedIdle([], Select, Cs, false, DataSignal);
    assert [] + Select == Select == [Drive(Cs, true), Drive(Clock, false)] + [Drive(Cs, false)];
    HoldsAfter([Drive(Cs, true), Drive(Clock, false)], Cs, false);
    QuietAppend(c, r, Cs);
    FramedBody(Select, c + r, Cs, false, DataSignal);
    assert Select + (c + r) == Select + c + r;
    FramedIdle(Select + c + r, [Drive(Cs, true)], Cs, false, DataSignal);
    HoldsAfter(Select + c + r, Cs, true);
  }

  /** Each command bit is put on MOSI while the clock is low. */
  lemma ConversionClocked(channel: int, input: nat -> bool, start: nat)
    requires 0 <= channel <= 7
    ensures Framed(ConversionSignals(channel, input, start), Clock, false, MosiDrive)
  {
    ReadCyclesQuiet(input, start, 12);
    SelectLeavesClockLow();
    MosiSetWhileClockLow(Select, CommandBits(channel));
    NoMosiAfter(Select + CommandCycles(CommandBits(channel)), ReadCycles(input, start, 12));
  }

  lemma SelectLeavesClockLow()
    ensures Framed(Select, Clock, false, MosiDrive) && Holds(Select, Clock, false)
  {
    var p := [Drive(Cs, true), Drive(Clock, false)];
    FramedIdle([], p, Clock, false, MosiDrive);
    assert [] + p == p;
    HoldsAfter([Drive(Cs, true)], Clock, false);
    HoldsThrough(p, [Drive(Cs, false)], Clock, false);
    FramedIdle(p, [Drive(Cs, false)], Clock, false, MosiDrive);
    assert p + [Drive(Cs, false)] == Select;
  }

  lemma NoMosiAfter(p: seq<Sig>, r: seq<Sig>)
    requires Framed(p, Clock, false, MosiDrive) && Quiet(r, Mosi)
    ensures Framed(p + r + [Drive(Cs, true)], Clock, false, MosiDrive)
  {
    QuietAppend(r, [Drive(Cs, true)], Mosi);
    FramedIdle(p, r + [Drive(Cs, true)], Clock, false, MosiDrive);
    assert p + (r + [Drive(Cs, true)]) == p + r + [Drive(Cs, true)];
  }

  class Mcp3008 {
    const bus: Bus<Line>
    /** `adcnum`: the channel converted. */
    const channel: int

    /** The field assignments of `MCP3008(adc_channel, SPICLK, SPIMOSI, SPIMISO, SPICS)`. */
    constructor (channel: int, bus: Bus<Line>)
      ensures this.channel == channel && this.bus == bus
    {
      this.channel := channel;
      this.bus := bus;
    }

    /** `MCP3008(...)`: the channel must be 0 to 7, or the constructor throws. */
    static method Create(channel: int, bus: Bus<Line>) returns (r: Result<Mcp3008>)
      ensures r.Failure? <==> !(0 <= channel <= 7)
      ensures r.Failure? ==> r.fault == IndexOutOfRange
      ensures r.Success? ==> fresh(r.value) && r.value.channel == channel && r.value.bus == bus
    {
      var adc := new Mcp3008(channel, bus);
      if 0 <= channel <= 7 {
        r := Success(adc);
      } else {
        r := Failure(IndexOutOfRange);
      }
    }

    /**
     * `readadc`, behind the `AnalogToDigital` getter: -1 for a channel out of range
     * (which `Create` never lets through), otherwise one conversion whose result is the
     * first eleven bits read, most significant first.
     */
    method ReadAdc() returns (v: int)
      modifies bus
      ensures !(0 <= channel <= 7) ==> v == -1 && bus.trace == old(bus.trace) && bus.consumed == old(bus.consumed)
      ensures 0 <= channel <= 7 ==>
        && bus.trace == old(bus.trace) + ConversionSignals(channel, bus.input, old(bus.consumed))
        && bus.consumed == old(bus.consumed) + 12
        && v == MsbValue(Window(bus.input, old(bus.consumed), 11))
        && 0 <= v < 2048
    {
      if channel > 7 || channel < 0 {
        return -1;
      }
      ghost var t0 := bus.trace;
      ghost var start := bus.consumed;
      bus.Write(Cs, true);
      bus.Write(Clock, false);
      bus.Write(Cs, false);
      assert bus.trace == t0 + Select;
      SendCommand();
      var adcout := ReadResponse();
      bus.Write(Cs, true);
      v := adcout / 2;
      Regroup(t0, Select, CommandCycles(CommandBits(channel)));
      Regroup(t0, Select + CommandCycles(CommandBits(channel)), ReadCycles(bus.input, start, 12));
      Regroup(t0, Select + CommandCycles(CommandBits(channel)) + ReadCycles(bus.input, start, 12), [Drive(Cs, true)]);
      DropNullBit(bus.input, start);
    }

    /** The first loop of `readadc`: the five command bits, most significant first. */
    method SendCommand()
      requires 0 <= channel <= 7
      modifies bus
      ensures bus.trace == old(bus.trace) + CommandCycles(CommandBits(channel))
      ensures bus.consumed == old(bus.consumed)
    {
      ghost var t0 := bus.trace;
      ghost var bits := CommandBits(channel);
      var commandout: nat := channel;
      commandout := Or(commandout, 0x18);
      commandout := Shl(commandout, 3);
      var i := 0;
      while i < 5
        invariant 0 <= i <= 5 && commandout == CommandWord(channel, i)
        invariant bus.trace == t0 + CommandCycles(bits[..i]) && bus.consumed == old(bus.consumed)
      {
        commandout := SendCommandBit(commandout, i, t0);
        i := i + 1;
      }
      assert bits[..5] == bits;
    }

    /** One round of the command loop: MOSI from bit 7 of `commandout`, shift, clock high, clock low. */
    method SendCommandBit(commandout: nat, i: nat, ghost t0: seq<Sig>) returns (next: nat)
      requires 0 <= channel <= 7 && i < 5 && commandout == CommandWord(channel, i)
      requires bus.trace == t0 + CommandCycles(CommandBits(channel)[..i])
      modifies bus
      ensures next == CommandWord(channel, i + 1)
      ensures bus.trace == t0 + CommandCycles(CommandBits(channel)[..i + 1])
      ensures bus.consumed == old(bus.consumed)
    {
      ghost var bits := CommandBits(channel);
      CommandWordBit(channel, i);
      if Bit(commandout, 7) {
        bus.Write(Mosi, true);
      } else {
        bus.Write(Mosi, false);
      }
      next := Shl(commandout, 1);
      assert Shl(commandout, 0) == commandout;
      assert next == 2 * commandout == CommandWord(channel, i + 1);
      bus.Write(Clock, true);
      bus.Write(Clock, false);
      assert bits[..i + 1][..i] == bits[..i];
      Regroup(t0, CommandCycles(bits[..i]), [Drive(Mosi, bits[i]), Drive(Clock, true), Drive(Clock, false)]);
    }

    /** The second loop of `readadc`: twelve bits, each shifted in at the low end of `adcout`. */
    method ReadResponse() returns (adcout: nat)
      modifies bus
      ensures adcout == MsbValue(Window(bus.input, old(bus.consumed), 12))
      ensures bus.trace == old(bus.trace) + ReadCycles(bus.input, old(bus.consumed), 12)
      ensures bus.consumed == old(bus.consumed) + 12
    {
      ghost var t0 := bus.trace;
      ghost var start := bus.consumed;
      adcout := 0;
      var i := 0;
      while i < 12
        invariant 0 <= i <= 12 && adcout == MsbValue(Window(bus.input, start, i))
        invariant bus.trace == t0 + ReadCycles(bus.input, start, i) && bus.consumed == start + i
      {
        adcout := ReadResponseBit(adcout, i, start, t0);
        i := i + 1;
      }
    }

    /** One round of the response loop: clock high, clock low, shift `adcout`, OR in MISO. */
    method ReadResponseBit(adcout: nat, i: nat, ghost start: nat, ghost t0: seq<Sig>) returns (next: nat)
      requires adcout == MsbValue(Window(bus.input, start, i))
      requires bus.trace == t0 + ReadCycles(bus.input, start, i) && bus.consumed == start + i
      modifies bus
      ensures next == MsbValue(Window(bus.input, start, i + 1))
      ensures bus.trace == t0 + ReadCycles(bus.input, start, i + 1) && bus.consumed == start + i + 1
    {
      bus.Write(Clock, true);
      bus.Write(Clock, false);
      next := Shl(adcout, 1);
      var high := bus.Read(Miso);
      assert high == bus.input(start + i);
      if high {
        next := Or(next, 1);
      }
      ShiftInLevel(bus.input, start, i);
      Regroup(t0, ReadCycles(bus.input, start, i), [Drive(Clock, true), Drive(Clock, false), Sample(Miso, high)]);
    }
  }
}
