/**
 * The TM16XX family of LED/key driver chips (TM1638, TM1640), driven over three
 * lines: data, clock and strobe. A byte goes out least significant bit first,
 * one bit per clock cycle; a transfer is framed by strobe low ... strobe high.
 */
module Tm16xx {
  import opened Faults
  import opened Wire

  datatype Line = Data | Clock | Strobe

  /** Commands: write with auto-increment, write to a fixed address, read the keys, set address 0. */
  const AutoWrite: byte := 0x40
  const FixedWrite: byte := 0x44
  const ReadKeys: byte := 0x42
  const Address0: byte := 0xC0
  const Blank: byte := 0x00
  type Sig = Signal<Line>

  /**
   * The segment patterns of `charMap`, sixteen characters per row, from ' ' (0x20)
   * to '~' (0x7E) in order (bit 0 top, 1 upper right, 2 lower right, 3 bottom,
   * 4 lower left, 5 upper left, 6 middle, 7 the dot).
   */
  function GlyphRow(r: nat): (row: seq<byte>)
    ensures |row| == if r < 5 then 16 else 15
  {
    match r
    case 0 => [0x00, 0x86, 0x22, 0x7E, 0x6D, 0x00, 0x00, 0x02, 0x30, 0x06, 0x63, 0x00, 0x04, 0x40, 0x80, 0x52]
    case 1 => [0x3F, 0x06, 0x5B, 0x4F, 0x66, 0x6D, 0x7D, 0x27, 0x7F, 0x6F, 0x00, 0x00, 0x00, 0x48, 0x00, 0x53]
    case 2 => [0x5F, 0x77, 0x7F, 0x39, 0x3F, 0x79, 0x71, 0x3D, 0x76, 0x06, 0x1F, 0x69, 0x38, 0x15, 0x37, 0x3F]
    case 3 => [0x73, 0x67, 0x31, 0x6D, 0x78, 0x3E, 0x2A, 0x1D, 0x76, 0x6E, 0x5B, 0x39, 0x64, 0x0F, 0x00, 0x08]
    case 4 => [0x20, 0x5F, 0x7C, 0x58, 0x5E, 0x7B, 0x31, 0x6F, 0x74, 0x04, 0x0E, 0x75, 0x30, 0x55, 0x54, 0x5C]
    case _ => [0x73, 0x67, 0x50, 0x6D, 0x78, 0x1C, 0x2A, 0x1D, 0x76, 0x6E, 0x47, 0x46, 0x06, 0x70, 0x01]
  }

  /** The pattern of the character with code 0x20 + k. */
  function Glyph(k: nat): byte
    requires k < 95
  {
    GlyphRow(k / 16)[k % 16]
  }

  /** The keys of `charMap`: printable ASCII, space to tilde. */
  predicate Mapped(c: char)
  {
    ' ' <= c <= '~'
  }

  /** `charMap[c]`: the dictionary holds exactly the printable ASCII characters; its indexer throws for any other key. */
  function CharMap(c: char): (r: Result<byte>)
    ensures r.Success? <==> Mapped(c)
    ensures r.Failure? ==> r.fault == KeyNotFound
  {
    if Mapped(c) then Success(Glyph(c as int - 0x20)) else Failure(KeyNotFound)
  }

  /** The character `digit.ToString()` gives for a single digit. */
  function DigitChar(d: nat): char
    requires d < 10
  {
    ('0' as int + d) as char
  }

  /** The glyphs `setDisplayDigit` draws for 0..9. */
  const DigitFont: seq<byte> := [0x3F, 0x06, 0x5B, 0x4F, 0x66, 0x6D, 0x7D, 0x27, 0x7F, 0x6F]

  /** They are charMap's patterns of the digit characters, and each reads back as its digit. */
  lemma DigitFontFromCharMap(d: nat)
    requires d < 10
    ensures CharMap(DigitChar(d)) == Success(DigitFont[d])
    ensures GlyphDigit(DigitFont[d]) == d
  {
    assert DigitChar(d) as int == 0x30 + d;
  }

  /**
   * Which hexadecimal digit a pattern shows, reading charMap's '0'..'9' and
   * lower-case 'a'..'f'; 16 for a pattern that is none of them.
   */
  function GlyphDigit(g: byte): nat
  {
    match g
    case 0x3F => 0  case 0x06 => 1  case 0x5B => 2  case 0x4F => 3
    case 0x66 => 4  case 0x6D => 5  case 0x7D => 6  case 0x27 => 7
    case 0x7F => 8  case 0x6F => 9  case 0x5F => 10  case 0x7C => 11
    case 0x58 => 12  case 0x5E => 13  case 0x7B => 14  case 0x31 => 15
    case _ => 16
  }

  /** `send`'s clock cycles: per bit, clock low, data = the bit, clock high. */
  function SendCycles(bits: seq<bool>): seq<Sig>
  {
    if bits == [] then []
    else SendCycles(bits[..|bits| - 1]) + [Drive(Clock, false), Drive(Data, bits[|bits| - 1]), Drive(Clock, true)]
  }

  function SendSignals(b: byte): seq<Sig>
  {
    SendCycles(Bits(b, 8))
  }

  /** One cycle of `receive`: clock low, sample data, clock high. */
  function ReceiveCycle(level: bool): seq<Sig>
  {
    [Drive(Clock, false), Sample(Data, level), Drive(Clock, true)]
  }

  /** `receive`'s first n clock cycles, sampling the input levels from position `start` on. */
  function ReceiveCycles(input: nat -> bool, start: nat, n: nat): seq<Sig>
  {
    if n == 0 then [] else ReceiveCycles(input, start, n - 1) + ReceiveCycle(input(start + n - 1))
  }

  /** The whole of `receive`: data released high, eight cycles, data low. */
  function ReceiveSignals(input: nat -> bool, start: nat): seq<Sig>
  {
    [Drive(Data, true)] + ReceiveCycles(input, start, 8) + [Drive(Data, false)]
  }

  function CommandSignals(cmd: byte): seq<Sig>
  {
    [Drive(Strobe, false)] + SendSignals(cmd) + [Drive(Strobe, true)]
  }

  /** The address command `0xC0 | address`, written as the sum it amounts to. */
  function AddressCommand(address: byte): byte
  {
    if address < 0x40 then address + 0xC0
    else if address < 0x80 then address + 0x80
    else if address < 0xC0 then address + 0x40
    else address
  }

  lemma AddressCommandIsOr(address: byte)
    ensures AddressCommand(address) == OrByte(Address0, address)
  {
    assert OrByte(Address0, address) == Or(Address0, address);
    assert Shl(3, 6) == 0xC0 && Pow2(6) == 0x40 && Bit(0xC0, 6) && Bit(0xC0, 7);
    OrWithHigh(address, 3, 6);
    OrCommutes(address, 0xC0);
    if address < 0x40 {
      DivModUnique(address, 0x40, 0, address);
    } else if address < 0x80 {
      DivModUnique(address, 0x40, 1, address - 0x40);
    } else if address < 0xC0 {
      DivModUnique(address, 0x40, 2, address - 0x80);
    } else {
      DivModUnique(address, 0x40, 3, address - 0xC0);
    }
  }

  /** `sendData`: the fixed-address write command 0x44, then one frame holding the address command and the byte. */
  function DataSignals(address: byte, data: byte): seq<Sig>
  {
    CommandSignals(FixedWrite) + [Drive(Strobe, false)] + SendSignals(AddressCommand(address)) + SendSignals(data)
      + [Drive(Strobe, true)]
  }

  /** What `sendChar(pos, segments, dot)` asks for: one digit position's segments and dot. */
  datatype Cell = Cell(pos: byte, segments: byte, dot: bool)

  /** `sendChar` of the TM1638: the pattern, with bit 7 set for the dot, goes to the even address `pos << 1`. */
  function CellSignals(c: Cell): seq<Sig>
  {
    DataSignals(Double(c.pos), OrTop(c.segments, c.dot))
  }

  function CellsSignals(cs: seq<Cell>): seq<Sig>
  {
    if cs == [] then [] else CellsSignals(cs[..|cs| - 1]) + CellSignals(cs[|cs| - 1])
  }

  /** `(dots & (1 << k)) != 0` for a byte `dots` and an int `k`: C# takes the shift count modulo 32. */
  predicate DotBit(dots: byte, k: int)
  {
    Bit(dots, k % 32)
  }

  /** The display-control command: 0x80, 0x08 for "on", and `Math.Min(7, intensity)` cast to a byte. */
  function ControlByte(active: bool, intensity: int): byte
  {
    OrByte(OrByte(0x80, if active then 0x08 else 0x00), Byte(if intensity < 7 then intensity else 7))
  }

  /** For a non-negative intensity the command is 0x80 + 8 * on + brightness, the brightness clamped to 7. */
  lemma ControlByteValue(active: bool, intensity: int)
    requires 0 <= intensity
    ensures ControlByte(active, intensity) == 0x80 + (if active then 8 else 0) + (if intensity < 7 then intensity else 7)
  {
    var on: nat := if active then 8 else 0;
    var level: nat := if intensity < 7 then intensity else 7;
    assert Shl(1, 7) == 0x80;
    OrDisjoint(1, 7, on);
    assert Byte(level) == level;
    if active {
      assert Shl(17, 3) == 0x88;
      OrDisjoint(17, 3, level);
    } else {
      assert Shl(16, 3) == 0x80;
      OrDisjoint(16, 3, level);
    }
  }

  function ZeroBytes(n: nat): seq<Sig>
  {
    if n == 0 then [] else ZeroBytes(n - 1) + SendSignals(Blank)
  }

  /** The constructor: strobe and clock high, command 0x40, display control, then 0xC0 and sixteen zero bytes in one frame. */
  function InitSignals(active: bool, intensity: int): seq<Sig>
  {
    [Drive(Strobe, true), Drive(Clock, true)]
      + CommandSignals(AutoWrite) + CommandSignals(ControlByte(active, intensity))
      + [Drive(Strobe, false)] + SendSignals(Address0) + ZeroBytes(16) + [Drive(Strobe, true)]
  }

  /** `setupDisplay`: the control command, then one extra clock pulse inside a strobe frame (for the TM1640). */
  function SetupSignals(active: bool, intensity: int): seq<Sig>
  {
    CommandSignals(ControlByte(active, intensity))
      + [Drive(Strobe, false), Drive(Clock, false), Drive(Clock, true), Drive(Strobe, true)]
  }

  /** The register `receive` shifts into: per level, `temp >>= 1`, then `temp |= 0x80` when the level is high. */
  function ShiftIn(input: nat -> bool, start: nat, n: nat): byte
  {
    if n == 0 then 0 else OrTop(ShiftIn(input, start, n - 1) / 2, input(start + n - 1))
  }

  function Falses(n: nat): (s: seq<bool>)
    ensures |s| == n && forall i :: 0 <= i < n ==> !s[i]
  {
    seq(n, _ => false)
  }

  lemma {:induction false} ValueOfFalses(n: nat)
    ensures Value(Falses(n)) == 0
  {
    if n > 0 {
      ValueOfFalses(n - 1);
      assert Falses(n)[1..] == Falses(n - 1);
    }
  }

  /** After up to eight steps the register holds the levels in its top bits, the first sampled lowest. */
  lemma {:induction false} ShiftInValue(input: nat -> bool, start: nat, n: nat)
    requires n <= 8
    ensures ShiftIn(input, start, n) == Value(Falses(8 - n) + Window(input, start, n))
  {
    if n == 0 {
      ValueOfFalses(8);
      assert Falses(8) + Window(input, start, 0) == Falses(8);
    } else {
      var front := Window(input, start, n - 1);
      var x := input(start + n - 1);
      var r := Falses(8 - n) + front;
      ShiftInValue(input, start, n - 1);
      FalsesCons(8 - n, front);
      HalfDropsLow(r);
      assert Pow2(7) == 0x80;
      ValueAppend(r, x);
      WindowSnoc(input, start, n - 1);
      Regroup(Falses(8 - n), front, [x]);
    }
  }

  lemma FalsesCons(k: nat, s: seq<bool>)
    ensures Falses(k + 1) + s == [false] + (Falses(k) + s)
  {
  }

  /** Halving drops the lowest bit. */
  lemma HalfDropsLow(r: seq<bool>)
    ensures Value([false] + r) / 2 == Value(r)
  {
    assert ([false] + r)[1..] == r;
  }

  /** After eight steps the register holds the byte whose bits are the levels read. */
  lemma ShiftInEight(input: nat -> bool, start: nat)
    ensures ShiftIn(input, start, 8) == Value(Window(input, start, 8))
    ensures Bits(ShiftIn(input, start, 8), 8) == Window(input, start, 8)
  {
    ShiftInValue(input, start, 8);
    assert Falses(0) + Window(input, start, 8) == Window(input, start, 8);
    BitsOfValue(Window(input, start, 8));
  }

  lemma CellsStep(cs: seq<Cell>, i: nat)
    requires i < |cs|
    ensures CellsSignals(cs[..i + 1]) == CellsSignals(cs[..i]) + CellSignals(cs[i])
  {
    assert cs[..i + 1][..i] == cs[..i];
  }

  /** One more `sendChar` extends a trace of cells by the next one. */
  lemma TraceStep(t: seq<Sig>, cs: seq<Cell>, i: nat)
    requires i < |cs|
    ensures t + CellsSignals(cs[..i]) + CellSignals(cs[i]) == t + CellsSignals(cs[..i + 1])
  {
    CellsStep(cs, i);
    Regroup(t, CellsSignals(cs[..i]), CellSignals(cs[i]));
  }

  /** Sending one more cell extends the trace by that cell's signals. */
  lemma TraceSnoc(t: seq<Sig>, cs: seq<Cell>, c: Cell)
    ensures t + CellsSignals(cs) + CellSignals(c) == t + CellsSignals(cs + [c])
  {
    assert (cs + [c])[..|cs|] == cs;
    Regroup(t, CellsSignals(cs), CellSignals(c));
  }

  /** Two runs of `sendChar` one after the other send the concatenated cells. */
  lemma {:induction false} CellsAppend(a: seq<Cell>, b: seq<Cell>)
    ensures CellsSignals(a + b) == CellsSignals(a) + CellsSignals(b)
  {
    if b != [] {
      var front := b[..|b| - 1];
      CellsAppend(a, front);
      assert (a + b)[..|a + b| - 1] == a + front;
      Regroup(CellsSignals(a), CellsSignals(front), CellSignals(b[|b| - 1]));
    } else {
      assert a + b == a;
    }
  }

  /** `setDisplay(values, size)` sends value i to position i, without dot, while `i < size` and `values[i]` exists. */
  function ValueCells(values: seq<byte>, n: nat): (cs: seq<Cell>)
    requires n <= |values|
    ensures |cs| == n
    ensures forall i :: 0 <= i < n ==> cs[i] == Cell(Byte(i), values[i], false)
  {
    seq(n, i requires 0 <= i < n => Cell(Byte(i), values[i], false))
  }

  /** One more value adds one cell. */
  lemma ValueCellsStep(values: seq<byte>, n: nat)
    requires n < |values|
    ensures ValueCells(values, n + 1) == ValueCells(values, n) + [Cell(Byte(n), values[n], false)]
  {
  }

  /** The patterns of 'E', 'r', 'r', 'o', 'r'. */
  const ErrorGlyphs: seq<byte> := [0x79, 0x50, 0x50, 0x5C, 0x50]

  lemma ErrorGlyphsFromCharMap()
    ensures ErrorGlyphs == [CharMap('E').value, CharMap('r').value, CharMap('r').value, CharMap('o').value, CharMap('r').value]
  {
    assert 'E' as int - 0x20 == 0x25 && 0x25 / 16 == 2 && 0x25 % 16 == 5;
    assert 'r' as int - 0x20 == 0x52 && 0x52 / 16 == 5 && 0x52 % 16 == 2;
    assert 'o' as int - 0x20 == 0x4F && 0x4F / 16 == 4 && 0x4F % 16 == 15;
  }

  /** Positions 8 and up cleared, without dot, for a display with more than 8 positions. */
  function BlankCellsFrom(first: nat, n: int): (cs: seq<Cell>)
    ensures |cs| == if n <= first then 0 else n - first
    ensures forall j :: 0 <= j < |cs| ==> cs[j] == Cell(Byte(first + j), 0, false)
  {
    if n <= first then [] else seq(n - first, j => Cell(Byte(first + j), 0, false))
  }

  /** `setDisplayToError`: "Error" on positions 0..4, positions 8 and up blanked; 5..7 are not sent at all. */
  function ErrorCells(displays: int): (cs: seq<Cell>)
    ensures |cs| >= 5 && cs[..5] == ValueCells(ErrorGlyphs, 5)
    ensures forall j :: 5 <= j < |cs| ==> cs[j].pos == Byte(j + 3) && cs[j].segments == 0
    ensures displays <= 256 ==> forall j :: 0 <= j < |cs| ==> !(5 <= cs[j].pos <= 7)
  {
    ValueCells(ErrorGlyphs, 5) + BlankCellsFrom(8, displays)
  }

  /** The positions `setDisplayToString(str, dots, pos)` writes: while `i < displays - pos` and `i < str.Length`. */
  function Shown(len: nat, displays: int, pos: byte): (n: nat)
    ensures n <= len && n <= if displays - pos < 0 then 0 else displays - pos
  {
    if displays - pos <= 0 then 0 else if len < displays - pos then len else displays - pos
  }

  /** A character both inside the string and before the last position is shown. */
  lemma ShownAtLeast(len: nat, displays: int, pos: byte, i: nat)
    requires i < len && i < displays - pos
    ensures i + 1 <= Shown(len, displays, pos)
  {
  }

  /** The first of the first n characters charMap has no entry for, or n when there is none. */
  function FirstUnmapped(s: seq<char>, n: nat): (k: nat)
    requires n <= |s|
    ensures k <= n
    ensures forall i :: 0 <= i < k ==> Mapped(s[i])
    ensures k < n ==> !Mapped(s[k])
  {
    if n == 0 then 0
    else if FirstUnmapped(s, n - 1) < n - 1 then FirstUnmapped(s, n - 1)
    else if Mapped(s[n - 1]) then n else n - 1
  }

  /** Character i of the string at position i + pos, its dot taken from bit displays - i - 1. */
  function StringCell(s: seq<char>, dots: byte, pos: byte, displays: int, i: nat): Cell
    requires i < |s| && Mapped(s[i])
  {
    Cell(Byte(i + pos), CharMap(s[i]).value, DotBit(dots, displays - i - 1))
  }

  function StringCells(s: seq<char>, dots: byte, pos: byte, displays: int, n: nat): (cs: seq<Cell>)
    requires n <= |s| && forall i :: 0 <= i < n ==> Mapped(s[i])
    ensures |cs| == n
    ensures forall i :: 0 <= i < n ==> cs[i] == StringCell(s, dots, pos, displays, i)
  {
    seq(n, i requires 0 <= i < n => StringCell(s, dots, pos, displays, i))
  }

  /** One more mapped character adds one cell. */
  lemma StringCellsStep(s: seq<char>, dots: byte, pos: byte, displays: int, n: nat)
    requires n < |s| && FirstUnmapped(s, n) == n && Mapped(s[n])
    ensures FirstUnmapped(s, n + 1) == n + 1
    ensures StringCells(s, dots, pos, displays, n + 1)
      == StringCells(s, dots, pos, displays, n) + [StringCell(s, dots, pos, displays, n)]
  {
  }

  /** The first unmapped character among the first m is the first among the first n, when it comes before both. */
  lemma {:induction false} FirstUnmappedStops(s: seq<char>, k: nat, n: nat)
    requires k < n <= |s| && FirstUnmapped(s, k) == k && !Mapped(s[k])
    ensures FirstUnmapped(s, n) == k
  {
    if n > k + 1 {
      FirstUnmappedStops(s, k, n - 1);
    }
  }

  /** `clearDisplay`: address 2i gets 0 for every position i. */
  function ClearFrames(n: nat): seq<Sig>
  {
    if n == 0 then [] else ClearFrames(n - 1) + DataSignals(Byte(2 * (n - 1)), 0)
  }

  /** One more blanked position extends the trace by its frame. */
  lemma ClearFramesStep(t: seq<Sig>, i: nat)
    ensures t + ClearFrames(i) + DataSignals(Byte(2 * i), 0) == t + ClearFrames(i + 1)
  {
    Regroup(t, ClearFrames(i), DataSignals(Byte(2 * i), 0));
  }

  /** Clearing the display sends what blanking each position without its dot would. */
  lemma {:induction false} ClearFramesAreBlankCells(n: nat)
    ensures ClearFrames(n) == CellsSignals(BlankCellsFrom(0, n))
  {
    if n > 0 {
      ClearFramesAreBlankCells(n - 1);
      var cs := BlankCellsFrom(0, n);
      assert cs[..n - 1] == BlankCellsFrom(0, n - 1);
      DoubleIsCast(n - 1);
    }
  }

  class Chip {
    const bus: Bus<Line>
    /** `_displays`: the number of digit positions. */
    const displays: int

    /** The constructor's loop clearing the sixteen display registers. */
    method SendZeroBytes()
      modifies bus
      ensures bus.trace == old(bus.trace) + ZeroBytes(16)
      ensures bus.consumed == old(bus.consumed)
    {
      var i := 0;
      while i < 16
        invariant 0 <= i <= 16
        invariant bus.trace == old(bus.trace) + ZeroBytes(i) && bus.consumed == old(bus.consumed)
      {
        Send(Blank);
        Regroup(old(bus.trace), ZeroBytes(i), SendSignals(Blank));
        i := i + 1;
      }
    }

    /** TM16XX(data, clock, strobe, displays, activateDisplay, intensity). */
    constructor (bus: Bus<Line>, displays: int, activateDisplay: bool, intensity: int)
      modifies bus
      ensures this.bus == bus && this.displays == displays
      ensures bus.trace == old(bus.trace) + InitSignals(activateDisplay, intensity)
      ensures bus.consumed == old(bus.consumed)
    {
      this.bus := bus;
      this.displays := displays;
      new;
      ghost var t := bus.trace;
      bus.Write(Strobe, true);
      bus.Write(Clock, true);
      ghost var p: seq<Sig> := [Drive(Strobe, true), Drive(Clock, true)];
      assert bus.trace == t + p;
      SendCommand(AutoWrite);
      Regroup(t, p, CommandSignals(AutoWrite));
      p := p + CommandSignals(AutoWrite);
      SendCommand(ControlByte(activateDisplay, intensity));
      Regroup(t, p, CommandSignals(ControlByte(activateDisplay, intensity)));
      p := p + CommandSignals(ControlByte(activateDisplay, intensity));
      bus.Write(Strobe, false);
      Regroup(t, p, [Drive(Strobe, false)]);
      p := p + [Drive(Strobe, false)];
      Send(Address0);
      Regroup(t, p, SendSignals(Address0));
      p := p + SendSignals(Address0);
      SendZeroBytes();
      Regroup(t, p, ZeroBytes(16));
      p := p + ZeroBytes(16);
      bus.Write(Strobe, true);
      Regroup(t, p, [Drive(Strobe, true)]);
    }

    /** The `ActivateDisplay` setter. */
    method SetActivateDisplay(value: bool)
      modifies bus
      ensures bus.trace == old(bus.trace) + CommandSignals(if value then 0x88 else 0x80)
      ensures bus.consumed == old(bus.consumed)
    {
      if value {
        SendCommand(0x88);
      } else {
        SendCommand(0x80);
      }
    }

    method SetupDisplay(active: bool, intensity: int)
      modifies bus
      ensures bus.trace == old(bus.trace) + SetupSignals(active, intensity)
      ensures bus.consumed == old(bus.consumed)
    {
      ghost var t := bus.trace;
      SendCommand(ControlByte(active, intensity));
      bus.Write(Strobe, false);
      bus.Write(Clock, false);
      bus.Write(Clock, true);
      bus.Write(Strobe, true);
      assert bus.trace == t + CommandSignals(ControlByte(active, intensity))
        + [Drive(Strobe, false), Drive(Clock, false), Drive(Clock, true), Drive(Strobe, true)];
      Regroup(t, CommandSignals(ControlByte(active, intensity)),
        [Drive(Strobe, false), Drive(Clock, false), Drive(Clock, true), Drive(Strobe, true)]);
    }

    method SendCommand(cmd: byte)
      modifies bus
      ensures bus.trace == old(bus.trace) + CommandSignals(cmd)
      ensures bus.consumed == old(bus.consumed)
    {
      ghost var t := bus.trace;
      bus.Write(Strobe, false);
      Send(cmd);
      Regroup(t, [Drive(Strobe, false)], SendSignals(cmd));
      bus.Write(Strobe, true);
      Regroup(t, [Drive(Strobe, false)] + SendSignals(cmd), [Drive(Strobe, true)]);
    }

    method SendData(address: byte, data: byte)
      modifies bus
      ensures bus.trace == old(bus.trace) + DataSignals(address, data)
      ensures bus.consumed == old(bus.consumed)
    {
      ghost var t := bus.trace;
      SendCommand(FixedWrite);
      ghost var p := CommandSignals(FixedWrite);
      bus.Write(Strobe, false);
      Regroup(t, p, [Drive(Strobe, false)]);
      p := p + [Drive(Strobe, false)];
      Send(AddressCommand(address));
      Regroup(t, p, SendSignals(AddressCommand(address)));
      p := p + SendSignals(AddressCommand(address));
      Send(data);
      Regroup(t, p, SendSignals(data));
      p := p + SendSignals(data);
      bus.Write(Strobe, true);
      Regroup(t, p, [Drive(Strobe, true)]);
    }

    /** `send`: puts the low bit of `data` on the data line and shifts `data` right, eight times. */
    method Send(b: byte)
      modifies bus
      ensures bus.trace == old(bus.trace) + SendSignals(b)
      ensures bus.consumed == old(bus.consumed)
    {
      var data: nat := b;
      var i := 0;
      ghost var bits := Bits(b, 8);
      ghost var t0 := bus.trace;
      assert bits[0..] == bits;
      while i < 8
        invariant 0 <= i <= 8
        invariant bus.trace == t0 + SendCycles(bits[..i])
        invariant bits[i..] == Bits(data, 8 - i)
        invariant bus.consumed == old(bus.consumed)
      {
        data := SendBit(data, bits, i, t0);
        i := i + 1;
      }
      assert bits[..8] == bits;
    }

    /** One round of the `send` loop: clock low, the low bit of `data` on the data line, clock high; `data` shifts right. */
    method SendBit(data: nat, ghost bits: seq<bool>, i: nat, ghost t0: seq<Sig>) returns (next: nat)
      requires i < 8 && |bits| == 8 && bits[i..] == Bits(data, 8 - i) && bus.trace == t0 + SendCycles(bits[..i])
      modifies bus
      ensures next == data / 2 && bits[i + 1..] == Bits(next, 8 - (i + 1))
      ensures bus.trace == t0 + SendCycles(bits[..i + 1])
      ensures bus.consumed == old(bus.consumed)
    {
      BitsHalf(data, 8 - i);
      assert bits[i + 1..] == bits[i..][1..];
      assert bits[i] == bits[i..][0];
      assert bits[..i + 1][..i] == bits[..i];
      bus.Write(Clock, false);
      bus.Write(Data, data % 2 == 1);
      next := data / 2;
      bus.Write(Clock, true);
      Regroup(t0, SendCycles(bits[..i]), [Drive(Clock, false), Drive(Data, bits[i]), Drive(Clock, true)]);
    }

    /** One cycle of `receive`: shift right, clock low, sample into bit 7, clock high. */
    method ClockIn(temp: byte) returns (next: byte)
      modifies bus
      ensures next == OrTop(temp / 2, bus.input(old(bus.consumed)))
      ensures bus.trace == old(bus.trace) + ReceiveCycle(bus.input(old(bus.consumed)))
      ensures bus.consumed == old(bus.consumed) + 1
    {
      next := temp / 2;
      bus.Write(Clock, false);
      var high := bus.Read(Data);
      if high {
        next := OrTop(next, true);
      }
      bus.Write(Clock, true);
    }

    /** The eight clock cycles of `receive`, least significant bit first. */
    method ClockInByte() returns (r: byte)
      modifies bus
      ensures r == ShiftIn(bus.input, old(bus.consumed), 8)
      ensures bus.trace == old(bus.trace) + ReceiveCycles(bus.input, old(bus.consumed), 8)
      ensures bus.consumed == old(bus.consumed) + 8
    {
      ghost var start := bus.consumed;
      r := 0;
      var i := 0;
      while i < 8
        invariant 0 <= i <= 8
        invariant r == ShiftIn(bus.input, start, i)
        invariant bus.trace == old(bus.trace) + ReceiveCycles(bus.input, start, i)
        invariant bus.consumed == start + i
      {
        r := ClockIn(r);
        Regroup(old(bus.trace), ReceiveCycles(bus.input, start, i), ReceiveCycle(bus.input(start + i)));
        i := i + 1;
      }
    }

    /** `receive`: the level sampled in cycle i ends up at bit i of the result. */
    method Receive() returns (r: byte)
      modifies bus
      ensures r == ShiftIn(bus.input, old(bus.consumed), 8)
      ensures r == Value(Window(bus.input, old(bus.consumed), 8))
      ensures Bits(r, 8) == Window(bus.input, old(bus.consumed), 8)
      ensures bus.trace == old(bus.trace) + ReceiveSignals(bus.input, old(bus.consumed))
      ensures bus.consumed == old(bus.consumed) + 8
    {
      ghost var start := bus.consumed;
      bus.Write(Data, true);
      r := ClockInByte();
      bus.Write(Data, false);
      ShiftInEight(bus.input, start);
    }

    /** The TM1638's `sendChar`, the only implementation of the abstract member in this model. */
    method SendChar(pos: byte, data: byte, dot: bool)
      modifies bus
      ensures bus.trace == old(bus.trace) + CellSignals(Cell(pos, data, dot))
      ensures bus.consumed == old(bus.consumed)
    {
      SendData(Double(pos), OrTop(data, dot));
    }

    /**
     * `setDisplayDigit`: `Char.Parse(digit.ToString())` throws a FormatException for a
     * two- or three-digit number; a single digit is always a charMap key.
     */
    method SetDisplayDigit(digit: byte, pos: byte, dot: bool) returns (o: Outcome)
      modifies bus
      ensures o == if digit < 10 then Ok else Throws(Format)
      ensures digit < 10 ==> bus.trace == old(bus.trace) + CellSignals(Cell(pos, DigitFont[digit], dot))
      ensures digit >= 10 ==> bus.trace == old(bus.trace)
      ensures bus.consumed == old(bus.consumed)
    {
      if digit >= 10 {
        return Throws(Format);
      }
      var chr := DigitChar(digit);
      DigitFontFromCharMap(digit);
      var glyph := CharMap(chr);
      if glyph.Success? {
        SendChar(pos, glyph.value, dot);
      }
      return Ok;
    }

    method ClearDisplayDigit(pos: byte, dot: bool)
      modifies bus
      ensures bus.trace == old(bus.trace) + CellSignals(Cell(pos, 0, dot))
      ensures bus.consumed == old(bus.consumed)
    {
      SendChar(pos, 0, dot);
    }

    /** `setDisplay`: `values[i]` throws IndexOutOfRange once i reaches the array's length before `size`. */
    method SetDisplay(values: seq<byte>, size: int) returns (o: Outcome)
      modifies bus
      ensures size <= |values| ==> o == Ok && bus.trace == old(bus.trace) + CellsSignals(ValueCells(values, if size < 0 then 0 else size))
      ensures size > |values| ==> o == Throws(IndexOutOfRange) && bus.trace == old(bus.trace) + CellsSignals(ValueCells(values, |values|))
      ensures bus.consumed == old(bus.consumed)
    {
      var i := 0;
      while i < size
        invariant 0 <= i <= |values| && (i <= size || i == 0)
        invariant bus.trace == old(bus.trace) + CellsSignals(ValueCells(values, i))
        invariant bus.consumed == old(bus.consumed)
      {
        if i >= |values| {
          return Throws(IndexOutOfRange);
        }
        SendChar(Byte(i), values[i], false);
        ValueCellsStep(values, i);
        TraceSnoc(old(bus.trace), ValueCells(values, i), Cell(Byte(i), values[i], false));
        i := i + 1;
      }
      return Ok;
    }

    method SetDisplayToError()
      modifies bus
      ensures bus.trace == old(bus.trace) + CellsSignals(ErrorCells(displays))
      ensures bus.consumed == old(bus.consumed)
    {
      var error := ErrorGlyphs;  // charMap['E'], ['r'], ['r'], ['o'], ['r'] (ErrorGlyphsFromCharMap)
      var o := SetDisplay(error, 5);
      ClearDigitsFrom(8);
      CellsAppend(ValueCells(ErrorGlyphs, 5), BlankCellsFrom(8, displays));
      Regroup(old(bus.trace), CellsSignals(ValueCells(ErrorGlyphs, 5)), CellsSignals(BlankCellsFrom(8, displays)));
    }

    /** The loop closing `setDisplayToError`: `clearDisplayDigit((byte)i, false)` for i from `first` to `displays - 1`. */
    method ClearDigitsFrom(first: nat)
      modifies bus
      ensures bus.trace == old(bus.trace) + CellsSignals(BlankCellsFrom(first, displays))
      ensures bus.consumed == old(bus.consumed)
    {
      ghost var blanks := BlankCellsFrom(first, displays);
      var i := first;
      while i < displays
        invariant first <= i && (i <= displays || i == first)
        invariant bus.trace == old(bus.trace) + CellsSignals(blanks[..i - first])
        invariant bus.consumed == old(bus.consumed)
      {
        CellsStep(blanks, i - first);
        ClearDisplayDigit(Byte(i), false);
        Regroup(old(bus.trace), CellsSignals(blanks[..i - first]), CellSignals(blanks[i - first]));
        i := i + 1;
      }
      assert blanks[..i - first] == blanks;
    }

    method ClearDisplay()
      modifies bus
      ensures bus.trace == old(bus.trace) + ClearFrames(if displays < 0 then 0 else displays)
      ensures bus.consumed == old(bus.consumed)
    {
      var i := 0;
      while i < displays
        invariant 0 <= i && (i <= displays || i == 0)
        invariant bus.trace == old(bus.trace) + ClearFrames(i)
        invariant bus.consumed == old(bus.consumed)
      {
        SendData(Byte(2 * i), 0);
        ClearFramesStep(old(bus.trace), i);
        i := i + 1;
      }
      assert i == if displays < 0 then 0 else displays;
    }

    /** One step of the string loop: character i, already looked up, at position i + pos, after the i cells before it. */
    method SendStringChar(str: seq<char>, dots: byte, pos: byte, i: nat, glyph: byte, ghost t0: seq<Sig>)
      requires i < |str| && CharMap(str[i]) == Success(glyph) && FirstUnmapped(str, i) == i
      requires bus.trace == t0 + CellsSignals(StringCells(str, dots, pos, displays, i))
      modifies bus
      ensures FirstUnmapped(str, i + 1) == i + 1
      ensures bus.trace == t0 + CellsSignals(StringCells(str, dots, pos, displays, i + 1))
      ensures bus.consumed == old(bus.consumed)
    {
      assert Mapped(str[i]);
      SendChar(Byte(i + pos), glyph, DotBit(dots, displays - i - 1));
      StringCellsStep(str, dots, pos, displays, i);
      TraceSnoc(t0, StringCells(str, dots, pos, displays, i), StringCell(str, dots, pos, displays, i));
    }

    /** `setDisplayToString(str, dots, pos)`: stops with KeyNotFound at the first character charMap lacks. */
    method SetDisplayToStringAt(str: seq<char>, dots: byte, pos: byte) returns (o: Outcome)
      modifies bus
      ensures bus.trace == old(bus.trace)
        + CellsSignals(StringCells(str, dots, pos, displays, FirstUnmapped(str, Shown(|str|, displays, pos))))
      ensures o == if FirstUnmapped(str, Shown(|str|, displays, pos)) < Shown(|str|, displays, pos) then Throws(KeyNotFound) else Ok
      ensures bus.consumed == old(bus.consumed)
    {
      ghost var n := Shown(|str|, displays, pos);
      ghost var t0 := bus.trace;
      var stringLength := |str|;
      var i, limit := 0, displays - pos;
      while i < limit
        invariant 0 <= i <= n && FirstUnmapped(str, i) == i
        invariant bus.trace == t0 + CellsSignals(StringCells(str, dots, pos, displays, i))
        invariant bus.consumed == old(bus.consumed)
      {
        if i >= stringLength {
          break;
        }
        var glyph := CharMap(str[i]);
        if glyph.Failure? {
          FirstUnmappedStops(str, i, n);
          return Throws(glyph.fault);
        }
        SendStringChar(str, dots, pos, i, glyph.value, t0);
        ShownAtLeast(|str|, displays, pos, i);
        i := i + 1;
      }
      assert i == n;
      return Ok;
    }

    method SetDisplayToString(str: seq<char>) returns (o: Outcome)
      modifies bus
      ensures bus.trace == old(bus.trace)
        + CellsSignals(StringCells(str, 0, 0, displays, FirstUnmapped(str, Shown(|str|, displays, 0))))
      ensures o == if FirstUnmapped(str, Shown(|str|, displays, 0)) < Shown(|str|, displays, 0) then Throws(KeyNotFound) else Ok
      ensures bus.consumed == old(bus.consumed)
    {
      o := SetDisplayToStringAt(str, 0, 0);
    }
  }
}
