/**
 * The TM1638 board of the current library: eight seven-segment digits, eight
 * two-colour LEDs and eight keys behind one TM16XX chip. Numbers are drawn from
 * the right (digit i of a number at position 7 - i); bit i of `dots` lights the
 * dot of that digit.
 */
module Tm1638 {
  import opened Faults
  import opened Wire
  import opened Tm16xx

  /** `TM1638_LED_COLOR`. */
  const Red: byte := 1
  const Green: byte := 2

  /** The largest `ulong` plus one, and the range of a `long`. */
  const ULongRange: nat := 0x1_0000_0000_0000_0000
  const LongMin: int := -0x8000_0000_0000_0000
  const LongMax: int := 0x7FFF_FFFF_FFFF_FFFF

  // ---------------------------------------------------------------- decimal

  function Pow10(i: nat): (p: nat)
    ensures p >= 1
  {
    if i == 0 then 1 else 10 * Pow10(i - 1)
  }

  /** `number` after i rounds of `number /= 10`. */
  function Shift10(n: nat, i: nat): nat
  {
    if i == 0 then n else Shift10(n, i - 1) / 10
  }

  lemma {:induction false} Shift10Front(n: nat, i: nat)
    ensures Shift10(n, i + 1) == Shift10(n / 10, i)
  {
    if i > 0 {
      Shift10Front(n, i - 1);
    }
  }

  /** Nothing is left after i divisions exactly when the number has at most i digits. */
  lemma {:induction false} Shift10Zero(n: nat, i: nat)
    ensures Shift10(n, i) == 0 <==> n < Pow10(i)
  {
    if i > 0 {
      Shift10Front(n, i - 1);
      Shift10Zero(n / 10, i - 1);
    }
  }

  /** The decimal digits of n, least significant first. */
  function DigitsOf(n: nat, k: nat): (ds: seq<nat>)
    ensures |ds| == k && forall i :: 0 <= i < k ==> ds[i] == Shift10(n, i) % 10
  {
    seq(k, i requires 0 <= i < k => Shift10(n, i) % 10)
  }

  /** The number whose decimal digits, least significant first, are ds. */
  function DecValue(ds: seq<nat>): nat
  {
    if ds == [] then 0 else ds[0] + 10 * DecValue(ds[1..])
  }

  /** Reading the digits back gives the number, when it has at most k digits. */
  lemma {:induction false} DigitsRoundTrip(n: nat, k: nat)
    requires n < Pow10(k)
    ensures DecValue(DigitsOf(n, k)) == n
  {
    if k > 0 {
      var ds := DigitsOf(n, k);
      forall i | 0 <= i < k - 1
        ensures ds[1..][i] == DigitsOf(n / 10, k - 1)[i]
      {
        Shift10Front(n, i);
      }
      assert ds[1..] == DigitsOf(n / 10, k - 1);
      DigitsRoundTrip(n / 10, k - 1);
    }
  }

  /** Step i of `setDisplayToDecNumberAt`: a digit while something is left or leading zeros are wanted, else a blank. */
  function DecCell(n: nat, dots: byte, leadingZeros: bool, i: nat): Cell
    requires i < 8
  {
    var rest := Shift10(n, i);
    Cell(7 - i, if rest != 0 || leadingZeros then DigitFont[rest % 10] else 0, DotBit(dots, i))
  }

  /** The positions the loop visits: `i < _displays - startingPos`. */
  function DecCount(startingPos: byte): nat
  {
    if startingPos >= 8 then 0 else 8 - startingPos
  }

  function DecCells(n: nat, dots: byte, startingPos: byte, leadingZeros: bool): (cs: seq<Cell>)
    ensures |cs| == DecCount(startingPos)
    ensures forall i :: 0 <= i < |cs| ==> cs[i] == DecCell(n, dots, leadingZeros, i)
  {
    seq(DecCount(startingPos), i requires 0 <= i < DecCount(startingPos) => DecCell(n, dots, leadingZeros, i))
  }

  /** What `setDisplayToDecNumberAt` sends: the error text above 99999999. */
  function DecAtCells(n: nat, dots: byte, startingPos: byte, leadingZeros: bool): seq<Cell>
  {
    if n > 99999999 then ErrorCells(8) else DecCells(n, dots, startingPos, leadingZeros)
  }

  /**
   * With leading zeros, all eight positions show digits, right to left, and the
   * digits read back as the number.
   */
  lemma DecShowsNumber(n: nat, dots: byte)
    requires n <= 99999999
    ensures var cs := DecAtCells(n, dots, 0, true);
      |cs| == 8
      && (forall i :: 0 <= i < 8 ==> cs[i].pos == 7 - i)
      && DecValue(seq(8, i requires 0 <= i < 8 => GlyphDigit(cs[i].segments))) == n
  {
    var cs := DecAtCells(n, dots, 0, true);
    forall i | 0 <= i < 8
      ensures GlyphDigit(cs[i].segments) == DigitsOf(n, 8)[i]
    {
      DigitFontFromCharMap(Shift10(n, i) % 10);
    }
    assert seq(8, i requires 0 <= i < 8 => GlyphDigit(cs[i].segments)) == DigitsOf(n, 8);
    assert Pow10(8) == 100000000;
    DigitsRoundTrip(n, 8);
  }

  /** Without leading zeros, a position is blank exactly when the number has no digit there; so 0 shows nothing. */
  lemma DecBlanks(n: nat, dots: byte, startingPos: byte, i: nat)
    requires n <= 99999999 && i < DecCount(startingPos)
    ensures DecAtCells(n, dots, startingPos, false)[i].segments == 0 <==> n < Pow10(i)
  {
    Shift10Zero(n, i);
    var cs := DecCells(n, dots, startingPos, false);
    assert cs[i] == DecCell(n, dots, false, i);
    assert forall d :: 0 <= d < 10 ==> DigitFont[d] != 0;
  }

  // ---------------------------------------------------------------- signed

  /** The unchecked `-number` of a `long`: negating the minimum wraps to itself. */
  function Neg64(x: int): (r: int)
    requires LongMin <= x <= LongMax
    ensures LongMin <= r <= LongMax
    ensures x != LongMin ==> r == -x
  {
    if x == LongMin then x else -x
  }

  /** The `(ulong)` cast of a `long`. */
  function ULong(x: int): (u: nat)
    ensures u == x % ULongRange
  {
    if 0 <= x < ULongRange then x else x % ULongRange
  }

  /** `setDisplayToSignedDecNumber` as written: after the negative branch, '-' goes to position 0 with the dot of bit 7. */
  function SignedCells(number: int, dots: byte, leadingZeros: bool): seq<Cell>
    requires LongMin <= number <= LongMax
  {
    if number >= 0 then DecAtCells(number, dots, 0, leadingZeros)
    else if Neg64(number) > 9999999 then ErrorCells(8)
    else DecAtCells(ULong(Neg64(number)), dots, 1, leadingZeros) + [Cell(0, CharMap('-').value, Bit(dots, 7))]
  }

  /** A negative number of up to seven digits: its digits on positions 7..1, then '-' on position 0. */
  lemma SignedShowsMinus(number: int, dots: byte, leadingZeros: bool)
    requires -9999999 <= number < 0
    ensures SignedCells(number, dots, leadingZeros)
      == DecCells(-number, dots, 1, leadingZeros) + [Cell(0, 0x40, Bit(dots, 7))]
  {
    assert CharMap('-') == Success(0x40);
  }

  /** `long.MinValue` slips past the range test, so the error text gets a '-' over its 'E'. */
  lemma SignedMinValueShowsDashRror(dots: byte, leadingZeros: bool)
    ensures SignedCells(LongMin, dots, leadingZeros) == ErrorCells(8) + [Cell(0, 0x40, Bit(dots, 7))]
    ensures SignedCells(LongMin, dots, leadingZeros) != SignedCellsIntended(LongMin, dots, leadingZeros)
  {
    assert CharMap('-') == Success(0x40);
    assert ULong(LongMin) == 0x8000_0000_0000_0000;
    assert |SignedCells(LongMin, dots, leadingZeros)| == 6;
  }

  /** The evident intent: every negative number below -9999999 shows the error text alone. */
  function SignedCellsIntended(number: int, dots: byte, leadingZeros: bool): seq<Cell>
    requires LongMin <= number <= LongMax
  {
    if number >= 0 then DecAtCells(number, dots, 0, leadingZeros)
    else if number < -9999999 then ErrorCells(8)
    else DecAtCells(-number, dots, 1, leadingZeros) + [Cell(0, CharMap('-').value, Bit(dots, 7))]
  }

  lemma SignedIntendedErrors(number: int, dots: byte, leadingZeros: bool)
    requires LongMin <= number < -9999999
    ensures SignedCellsIntended(number, dots, leadingZeros) == ErrorCells(8)
    ensures number != LongMin ==> SignedCells(number, dots, leadingZeros) == SignedCellsIntended(number, dots, leadingZeros)
  {
  }

  // ---------------------------------------------------------------- binary

  /** Step i of `setDisplayToBinNumber`: a 1 or a 0 for bit i, at position 7 - i. */
  function BinCell(number: byte, dots: byte, i: nat): Cell
    requires i < 8
  {
    Cell(7 - i, DigitFont[if Bit(number, i) then 1 else 0], DotBit(dots, i))
  }

  function BinCells(number: byte, dots: byte): (cs: seq<Cell>)
    ensures |cs| == 8
    ensures forall i :: 0 <= i < 8 ==> cs[i] == BinCell(number, dots, i)
  {
    seq(8, i requires 0 <= i < 8 => BinCell(number, dots, i))
  }

  /** Reading the ones back, position 7 first, gives the number. */
  lemma BinShowsNumber(number: byte, dots: byte)
    ensures Value(seq(8, i requires 0 <= i < 8 => BinCells(number, dots)[i].segments == DigitFont[1])) == number
  {
    var read := seq(8, i requires 0 <= i < 8 => BinCells(number, dots)[i].segments == DigitFont[1]);
    forall i | 0 <= i < 8
      ensures read[i] == Bits(number, 8)[i]
    {
      BitsAt(number, 8, i);
    }
    assert read == Bits(number, 8);
    assert Pow2(8) == 256;
    ValueOfBits(number, 8);
  }

  // ---------------------------------------------------------------- hexadecimal

  function HexChar(d: nat): char
    requires d < 16
  {
    if d < 10 then ('0' as int + d) as char else ('a' as int + d - 10) as char
  }

  /** `number.ToString("x")`: lower-case hexadecimal without leading zeros. */
  function Hex(n: nat): (s: seq<char>)
    ensures |s| >= 1
  {
    if n < 16 then [HexChar(n)] else Hex(n / 16) + [HexChar(n % 16)]
  }

  /** `ToUpper` on the characters that occur here. */
  function Upper(c: char): char
  {
    if 'a' <= c <= 'z' then (c as int - 0x20) as char else c
  }

  function ToUpper(s: seq<char>): (u: seq<char>)
    ensures |u| == |s| && forall i :: 0 <= i < |s| ==> u[i] == Upper(s[i])
  {
    seq(|s|, i requires 0 <= i < |s| => Upper(s[i]))
  }

  function HexValue(c: char): nat
  {
    if '0' <= c <= '9' then c as int - '0' as int
    else if 'A' <= c <= 'F' then c as int - 'A' as int + 10
    else if 'a' <= c <= 'f' then c as int - 'a' as int + 10
    else 0
  }

  /** Parsing hexadecimal text, either case. */
  function ParseHex(s: seq<char>): nat
  {
    if s == [] then 0 else 16 * ParseHex(s[..|s| - 1]) + HexValue(s[|s| - 1])
  }

  /** The text sent for a number parses back to it, and every character of it is a charMap key. */
  lemma {:induction false} HexRoundTrip(n: nat)
    ensures ParseHex(ToUpper(Hex(n))) == n
    ensures forall i :: 0 <= i < |Hex(n)| ==> Mapped(ToUpper(Hex(n))[i])
  {
    if n >= 16 {
      HexRoundTrip(n / 16);
      var u := ToUpper(Hex(n));
      assert u[..|u| - 1] == ToUpper(Hex(n / 16));
    }
  }

  function Pow16(k: nat): (p: nat)
    ensures p >= 1
  {
    if k == 0 then 1 else 16 * Pow16(k - 1)
  }

  /** A number has at most k hexadecimal digits exactly when it is below 16^k. */
  lemma {:induction false} HexLength(n: nat, k: nat)
    requires k >= 1
    ensures |Hex(n)| <= k <==> n < Pow16(k)
  {
    if n >= 16 && k > 1 {
      HexLength(n / 16, k - 1);
    }
  }

  /** `setDisplayToHexNumber`: the upper-cased text from position 0; beyond eight digits, the low ones are cut. */
  function HexCells(n: nat): seq<Cell>
  {
    HexRoundTrip(n);
    StringCells(ToUpper(Hex(n)), 0, 0, 8, Shown(|Hex(n)|, 8, 0))
  }

  /** Every digit fits exactly when the number is below 2^32. */
  lemma HexShowsAll(n: nat)
    ensures |HexCells(n)| == |Hex(n)| <==> n < 0x1_0000_0000
  {
    assert Pow16(8) == 0x1_0000_0000;
    HexLength(n, 8);
  }

  /** Upper-casing makes 'B' look like '8' and 'D' like '0': eleven and eight light the same segments. */
  lemma HexUpperAmbiguous()
    ensures HexCells(0xB) == HexCells(0x8)
    ensures HexCells(0xD) == HexCells(0x0)
  {
    assert Hex(0xB) == ['b'] && Hex(0x8) == ['8'] && Hex(0xD) == ['d'] && Hex(0) == ['0'];
    assert ToUpper(['b']) == ['B'] && ToUpper(['8']) == ['8'] && ToUpper(['d']) == ['D'] && ToUpper(['0']) == ['0'];
    assert CharMap('B') == CharMap('8') && CharMap('D') == CharMap('0');
  }

  /** The evident intent: the lower-case text `ToString("x")` already gives, whose sixteen digit glyphs all differ. */
  function HexCellsIntended(n: nat): seq<Cell>
  {
    HexMapped(n);
    StringCells(Hex(n), 0, 0, 8, Shown(|Hex(n)|, 8, 0))
  }

  lemma {:induction false} HexMapped(n: nat)
    ensures forall i :: 0 <= i < |Hex(n)| ==> Mapped(Hex(n)[i])
  {
    if n >= 16 {
      HexMapped(n / 16);
    }
  }

  /** The glyph of each lower-case hexadecimal digit reads back as that digit. */
  lemma LowerHexGlyphsRead(d: nat)
    requires d < 16
    ensures GlyphDigit(CharMap(HexChar(d)).value) == d
  {
    assert HexChar(d) as int == if d < 10 then 0x30 + d else 0x61 + d - 10;
  }

  /** With lower-case glyphs, any two different one-digit numbers look different. */
  lemma HexIntendedDistinguishes(d: nat, e: nat)
    requires d < 16 && e < 16 && d != e
    ensures HexCellsIntended(d) != HexCellsIntended(e)
  {
    LowerHexGlyphsRead(d);
    LowerHexGlyphsRead(e);
    assert HexCellsIntended(d)[0].segments == CharMap(HexChar(d)).value;
    assert HexCellsIntended(e)[0].segments == CharMap(HexChar(e)).value;
  }

  // ---------------------------------------------------------------- LEDs and keys

  /** `setLED`: the colour goes to the odd address `(pos << 1) + 1`. */
  function LedSignals(color: byte, pos: byte): seq<Sig>
  {
    DataSignals(Byte(2 * pos + 1), color)
  }

  /** LED addresses are odd and digit addresses even, so an LED write never lands on a digit. */
  lemma LedAndDigitAddressesDiffer(p: byte, q: byte)
    ensures Byte(2 * p + 1) % 2 == 1 && Byte(2 * q) % 2 == 0
    ensures Byte(2 * p + 1) != Byte(2 * q)
  {
  }

  /** The four key bytes `getButtons` reads, byte j from the levels sampled in its 8 clock cycles. */
  function KeyBytes(input: nat -> bool, start: nat, n: nat): (rs: seq<byte>)
    ensures |rs| == n && forall j :: 0 <= j < n ==> rs[j] == Value(Window(input, start + 8 * j, 8))
  {
    seq(n, j requires 0 <= j < n => (assert Pow2(8) == 256; Value(Window(input, start + 8 * j, 8))))
  }

  /** `keys |= (byte)(receive() << i)`, over the bytes read so far. */
  function Keys(rs: seq<byte>): byte
  {
    if rs == [] then 0 else OrByte(Keys(rs[..|rs| - 1]), ShlByte(rs[|rs| - 1], |rs| - 1))
  }

  /** Key bit k is set exactly when some byte j has bit k - j set. */
  lemma {:induction false} KeysBit(rs: seq<byte>, k: nat)
    requires k < 8
    ensures Bit(Keys(rs), k) <==> exists j :: 0 <= j < |rs| && j <= k && Bit(rs[j], k - j)
  {
    if rs == [] {
      ZeroBit(k);
    } else {
      var front := rs[..|rs| - 1];
      var n := |rs| - 1;
      KeysBit(front, k);
      ShlByteIsCast(rs[n], n);
      BitOfByte(Shl(rs[n], n), k);
      ShlBit(rs[n], n, k);
      if Bit(Keys(rs), k) && !(exists j :: 0 <= j < n && j <= k && Bit(front[j], k - j)) {
        assert n <= k && Bit(rs[n], k - n);
      }
      if exists j :: 0 <= j < |rs| && j <= k && Bit(rs[j], k - j) {
        var j :| 0 <= j < |rs| && j <= k && Bit(rs[j], k - j);
        if j < n {
          assert front[j] == rs[j];
        }
      }
    }
  }

  function ReceiveAll(input: nat -> bool, start: nat, n: nat): seq<Sig>
  {
    if n == 0 then [] else ReceiveAll(input, start, n - 1) + ReceiveSignals(input, start + 8 * (n - 1))
  }

  /** One more `receive` extends the frame's trace by its signals. */
  lemma ReceiveAllStep(t: seq<Sig>, input: nat -> bool, start: nat, i: nat)
    ensures t + ReceiveAll(input, start, i) + ReceiveSignals(input, start + 8 * i) == t + ReceiveAll(input, start, i + 1)
  {
    assert start + 8 * (i + 1 - 1) == start + 8 * i;
    Regroup(t, ReceiveAll(input, start, i), ReceiveSignals(input, start + 8 * i));
  }

  /** `Keys` over the bytes as `receive` assembles them, read i starting at input position start + 8i. */
  function KeysFrom(input: nat -> bool, start: nat, n: nat): byte
  {
    if n == 0 then 0 else OrByte(KeysFrom(input, start, n - 1), ShlByte(ShiftIn(input, start + 8 * (n - 1), 8), n - 1))
  }

  lemma KeysFromStep(input: nat -> bool, start: nat, i: nat)
    ensures KeysFrom(input, start, i + 1) == OrByte(KeysFrom(input, start, i), ShlByte(ShiftIn(input, start + 8 * i, 8), i))
  {
    assert start + 8 * (i + 1 - 1) == start + 8 * i;
  }

  lemma {:induction false} KeysFromBytes(input: nat -> bool, start: nat, n: nat)
    ensures KeysFrom(input, start, n) == Keys(KeyBytes(input, start, n))
  {
    if n > 0 {
      var b := ShiftIn(input, start + 8 * (n - 1), 8);
      KeysFromBytes(input, start, n - 1);
      ShiftInEight(input, start + 8 * (n - 1));
      KeyBytesSnoc(input, start, n);
      KeysSnoc(KeyBytes(input, start, n - 1), b);
    }
  }

  /** Reading one more byte appends it to the bytes read. */
  lemma KeyBytesSnoc(input: nat -> bool, start: nat, n: nat)
    requires n > 0
    ensures KeyBytes(input, start, n) == KeyBytes(input, start, n - 1) + [Value(Window(input, start + 8 * (n - 1), 8)) as byte]
  {
  }

  /** One more byte ORs its shifted value into the keys. */
  lemma KeysSnoc(rs: seq<byte>, b: byte)
    ensures Keys(rs + [b]) == OrByte(Keys(rs), ShlByte(b, |rs|))
  {
    assert (rs + [b])[..|rs|] == rs;
  }

  /** `getButtons`: one strobe frame holding the read command 0x42 and four received bytes. */
  function ButtonSignals(input: nat -> bool, start: nat): seq<Sig>
  {
    [Drive(Strobe, false)] + SendSignals(ReadKeys) + ReceiveAll(input, start, 4) + [Drive(Strobe, true)]
  }

  class Board {
    const chip: Chip

    predicate Valid()
    {
      chip.displays == 8
    }

    /** TM1638(data, clock, strobe, activateDisplay, intensity): a TM16XX with eight positions. */
    constructor (bus: Bus<Line>, activateDisplay: bool, intensity: byte)
      modifies bus
      ensures Valid() && chip.bus == bus
      ensures bus.trace == old(bus.trace) + InitSignals(activateDisplay, intensity)
      ensures bus.consumed == old(bus.consumed)
    {
      chip := new Chip(bus, 8, activateDisplay, intensity);
    }

    /** `setDisplayToHexNumber`: `dots` and `leadingZeros` are not used. */
    method SetDisplayToHexNumber(number: nat, dots: byte, leadingZeros: bool)
      requires Valid() && number < ULongRange
      modifies chip.bus
      ensures chip.bus.trace == old(chip.bus.trace) + CellsSignals(HexCells(number))
      ensures chip.bus.consumed == old(chip.bus.consumed)
    {
      HexRoundTrip(number);
      var text := ToUpper(Hex(number));
      var n := Shown(|text|, 8, 0);
      assert FirstUnmapped(text, n) == n;
      var o := chip.SetDisplayToString(text);
    }

    /** One step of the decimal loop: a digit, a zero, or a blank. */
    method ShowDecDigit(rest: nat, i: nat, dots: byte, leadingZeros: bool, ghost number: nat) returns (next: nat)
      requires Valid() && i < 8 && rest == Shift10(number, i)
      modifies chip.bus
      ensures next == Shift10(number, i + 1)
      ensures chip.bus.trace == old(chip.bus.trace) + CellSignals(DecCell(number, dots, leadingZeros, i))
      ensures chip.bus.consumed == old(chip.bus.consumed)
    {
      var pos := Byte(chip.displays - i - 1);
      var dot := DotBit(dots, i);
      next := rest;
      if rest != 0 {
        var o := chip.SetDisplayDigit(Byte(rest % 10), pos, dot);
        next := rest / 10;
      } else if leadingZeros {
        var o := chip.SetDisplayDigit(0, pos, dot);
      } else {
        chip.ClearDisplayDigit(pos, dot);
      }
    }

    method SetDisplayToDecNumberAt(number: nat, dots: byte, startingPos: byte, leadingZeros: bool)
      requires Valid() && number < ULongRange
      modifies chip.bus
      ensures chip.bus.trace == old(chip.bus.trace) + CellsSignals(DecAtCells(number, dots, startingPos, leadingZeros))
      ensures chip.bus.consumed == old(chip.bus.consumed)
    {
      if number > 99999999 {
        chip.SetDisplayToError();
      } else {
        ShowDecDigits(number, dots, startingPos, leadingZeros);
      }
    }

    /** The loop of `setDisplayToDecNumberAt`, for numbers that fit. */
    method ShowDecDigits(number: nat, dots: byte, startingPos: byte, leadingZeros: bool)
      requires Valid()
      modifies chip.bus
      ensures chip.bus.trace == old(chip.bus.trace) + CellsSignals(DecCells(number, dots, startingPos, leadingZeros))
      ensures chip.bus.consumed == old(chip.bus.consumed)
    {
      ghost var cells := DecCells(number, dots, startingPos, leadingZeros);
      var rest := number;
      var i, n := 0, chip.displays - startingPos;
      while i < n
        invariant 0 <= i <= |cells| && rest == Shift10(number, i)
        invariant chip.bus.trace == old(chip.bus.trace) + CellsSignals(cells[..i])
        invariant chip.bus.consumed == old(chip.bus.consumed)
      {
        rest := ShowDecDigit(rest, i, dots, leadingZeros, number);
        TraceStep(old(chip.bus.trace), cells, i);
        i := i + 1;
      }
      assert cells[..i] == cells;
    }

    method SetDisplayToDecNumber(number: nat, dots: byte, leadingZeros: bool)
      requires Valid() && number < ULongRange
      modifies chip.bus
      ensures chip.bus.trace == old(chip.bus.trace) + CellsSignals(DecAtCells(number, dots, 0, leadingZeros))
      ensures chip.bus.consumed == old(chip.bus.consumed)
    {
      SetDisplayToDecNumberAt(number, dots, 0, leadingZeros);
    }

    method SetDisplayToSignedDecNumber(number: int, dots: byte, leadingZeros: bool)
      requires Valid() && LongMin <= number <= LongMax
      modifies chip.bus
      ensures chip.bus.trace == old(chip.bus.trace) + CellsSignals(SignedCells(number, dots, leadingZeros))
      ensures chip.bus.consumed == old(chip.bus.consumed)
    {
      if number >= 0 {
        SetDisplayToDecNumberAt(number, dots, 0, leadingZeros);
      } else {
        var negated := Neg64(number);
        if negated > 9999999 {
          chip.SetDisplayToError();
        } else {
          SetDisplayToDecNumberAt(ULong(negated), dots, 1, leadingZeros);
          ghost var t := chip.bus.trace;
          chip.SendChar(0, CharMap('-').value, Bit(dots, 7));
          ghost var digits := DecAtCells(ULong(negated), dots, 1, leadingZeros);
          ghost var minus := [Cell(0, CharMap('-').value, Bit(dots, 7))];
          assert CellsSignals(minus) == CellSignals(minus[0]);
          CellsAppend(digits, minus);
          Regroup(old(chip.bus.trace), CellsSignals(digits), CellsSignals(minus));
        }
      }
    }

    /** One step of the binary loop: bit i of the number as a 1 or a 0. */
    method ShowBinDigit(number: byte, dots: byte, i: nat)
      requires Valid() && i < 8
      modifies chip.bus
      ensures chip.bus.trace == old(chip.bus.trace) + CellSignals(BinCell(number, dots, i))
      ensures chip.bus.consumed == old(chip.bus.consumed)
    {
      var digit: byte := if Bit(number, i) then 1 else 0;
      var o := chip.SetDisplayDigit(digit, Byte(chip.displays - i - 1), DotBit(dots, i));
    }

    method SetDisplayToBinNumber(number: byte, dots: byte)
      requires Valid()
      modifies chip.bus
      ensures chip.bus.trace == old(chip.bus.trace) + CellsSignals(BinCells(number, dots))
      ensures chip.bus.consumed == old(chip.bus.consumed)
    {
      ghost var cells := BinCells(number, dots);
      ghost var t0 := chip.bus.trace;
      var i, n := 0, chip.displays;
      while i < n
        invariant 0 <= i <= n == 8
        invariant chip.bus.trace == t0 + CellsSignals(cells[..i])
        invariant chip.bus.consumed == old(chip.bus.consumed)
      {
        ShowBinDigit(number, dots, i);
        TraceStep(t0, cells, i);
        i := i + 1;
      }
      assert cells[..8] == cells;
    }

    method SetLed(color: byte, pos: byte)
      requires Valid()
      modifies chip.bus
      ensures chip.bus.trace == old(chip.bus.trace) + LedSignals(color, pos)
      ensures chip.bus.consumed == old(chip.bus.consumed)
    {
      chip.SendData(Byte(2 * pos + 1), color);
    }

    /** `getButtons`: reads four bytes inside one frame and merges byte i shifted left by i. */
    method GetButtons() returns (keys: byte)
      requires Valid()
      modifies chip.bus
      ensures keys == Keys(KeyBytes(chip.bus.input, old(chip.bus.consumed), 4))
      ensures chip.bus.trace == old(chip.bus.trace) + ButtonSignals(chip.bus.input, old(chip.bus.consumed))
      ensures chip.bus.consumed == old(chip.bus.consumed) + 32
    {
      ghost var start := chip.bus.consumed;
      chip.bus.Write(Strobe, false);
      chip.Send(ReadKeys);
      ghost var head := [Drive(Strobe, false)] + SendSignals(ReadKeys);
      Regroup(old(chip.bus.trace), [Drive(Strobe, false)], SendSignals(ReadKeys));
      keys := ReceiveKeys();
      KeysFromBytes(chip.bus.input, start, 4);
      Regroup(old(chip.bus.trace), head, ReceiveAll(chip.bus.input, start, 4));
      chip.bus.Write(Strobe, true);
      Regroup(old(chip.bus.trace), head + ReceiveAll(chip.bus.input, start, 4), [Drive(Strobe, true)]);
    }

    /** One round of the `getButtons` loop: `keys |= (byte)(receive() << i)`. */
    method ReceiveKey(keys: byte, i: nat) returns (next: byte)
      modifies chip.bus
      ensures next == OrByte(keys, ShlByte(ShiftIn(chip.bus.input, old(chip.bus.consumed), 8), i))
      ensures chip.bus.trace == old(chip.bus.trace) + ReceiveSignals(chip.bus.input, old(chip.bus.consumed))
      ensures chip.bus.consumed == old(chip.bus.consumed) + 8
    {
      var r := chip.Receive();
      next := OrByte(keys, ShlByte(r, i));
    }

    /** The loop of `getButtons`: `keys |= (byte)(receive() << i)` for i from 0 to 3. */
    method ReceiveKeys() returns (keys: byte)
      modifies chip.bus
      ensures keys == KeysFrom(chip.bus.input, old(chip.bus.consumed), 4)
      ensures chip.bus.trace == old(chip.bus.trace) + ReceiveAll(chip.bus.input, old(chip.bus.consumed), 4)
      ensures chip.bus.consumed == old(chip.bus.consumed) + 32
    {
      ghost var start := chip.bus.consumed;
      keys := 0;
      var i := 0;
      while i < 4
        invariant 0 <= i <= 4
        invariant keys == KeysFrom(chip.bus.input, start, i)
        invariant chip.bus.consumed == start + 8 * i
        invariant chip.bus.trace == old(chip.bus.trace) + ReceiveAll(chip.bus.input, start, i)
      {
        keys := ReceiveKey(keys, i);
        ReceiveAllStep(old(chip.bus.trace), chip.bus.input, start, i);
        KeysFromStep(chip.bus.input, start, i);
        i := i + 1;
      }
    }
  }
}
