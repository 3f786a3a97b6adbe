/**
 * The TM1638 board of the older library snapshot. Its numbers are drawn through a
 * caller-supplied font (`byte[] numberFont`, one pattern per digit value), the
 * hexadecimal rendering shifts nibbles instead of formatting text, and `setLEDs`
 * composes the colour of each LED from a 16-bit mask.
 *
 * The snapshot's own TM16XX base class is not part of this model; its members are
 * taken to behave as the current TM16XX's, and the font overload of
 * `setDisplayDigit` as `sendChar(pos, numberFont[digit], dot)`, which throws
 * IndexOutOfRange for a digit the font has no entry for.
 */
module Tm1638Legacy {
  import opened Faults
  import opened Wire
  import opened Tm16xx
  import opened Tm1638

  /** What one pass of a rendering loop does at its position: draw a digit value through the font, or clear. */
  datatype Step = Draw(digit: nat) | Clear

  predicate Drawable(s: Step, font: seq<byte>)
  {
    s.Clear? || s.digit < |font|
  }

  /** Pass i writes position 7 - i, its dot taken from bit i of `dots`. */
  function StepCell(s: Step, font: seq<byte>, dots: byte, i: nat): Cell
    requires i < 8 && Drawable(s, font)
  {
    Cell(7 - i, if s.Draw? then font[s.digit] else 0, DotBit(dots, i))
  }

  /** The first of the first n passes whose digit the font lacks, or n when there is none. */
  function FirstMissing(steps: seq<Step>, font: seq<byte>, n: nat): (k: nat)
    requires n <= |steps|
    ensures k <= n
    ensures forall i :: 0 <= i < k ==> Drawable(steps[i], font)
    ensures k < n ==> !Drawable(steps[k], font)
  {
    if n == 0 then 0
    else if FirstMissing(steps, font, n - 1) < n - 1 then FirstMissing(steps, font, n - 1)
    else if Drawable(steps[n - 1], font) then n else n - 1
  }

  lemma {:induction false} FirstMissingStops(steps: seq<Step>, font: seq<byte>, k: nat, n: nat)
    requires k < n <= |steps| && FirstMissing(steps, font, k) == k && !Drawable(steps[k], font)
    ensures FirstMissing(steps, font, n) == k
  {
    if n > k + 1 {
      FirstMissingStops(steps, font, k, n - 1);
    }
  }

  /** The cells of the first n passes, all drawable. */
  function StepCells(steps: seq<Step>, font: seq<byte>, dots: byte, n: nat): (cs: seq<Cell>)
    requires n <= |steps| <= 8 && forall i :: 0 <= i < n ==> Drawable(steps[i], font)
    ensures |cs| == n
    ensures forall i :: 0 <= i < n ==> cs[i] == StepCell(steps[i], font, dots, i)
  {
    seq(n, i requires 0 <= i < n => StepCell(steps[i], font, dots, i))
  }

  lemma StepCellsStep(steps: seq<Step>, font: seq<byte>, dots: byte, n: nat)
    requires n < |steps| <= 8 && FirstMissing(steps, font, n) == n && Drawable(steps[n], font)
    ensures FirstMissing(steps, font, n + 1) == n + 1
    ensures StepCells(steps, font, dots, n + 1) == StepCells(steps, font, dots, n) + [StepCell(steps[n], font, dots, n)]
  {
  }

  /** What a rendering loop sends: its passes up to the first one the font cannot draw. */
  function Rendered(steps: seq<Step>, font: seq<byte>, dots: byte): seq<Cell>
    requires |steps| <= 8
  {
    StepCells(steps, font, dots, FirstMissing(steps, font, |steps|))
  }

  /** ... and how it ends: IndexOutOfRange exactly when some pass has a digit the font lacks. */
  function RenderOutcome(steps: seq<Step>, font: seq<byte>): Outcome
  {
    if FirstMissing(steps, font, |steps|) < |steps| then Throws(IndexOutOfRange) else Ok
  }

  /** A font with an entry for every digit value a rendering uses draws all of it. */
  lemma {:induction false} FullFontDrawsAll(steps: seq<Step>, font: seq<byte>, n: nat)
    requires n <= |steps|
    requires forall i :: 0 <= i < n ==> Drawable(steps[i], font)
    ensures FirstMissing(steps, font, n) == n
  {
    if n > 0 {
      FullFontDrawsAll(steps, font, n - 1);
    }
  }

  // ---------------------------------------------------------------- hexadecimal

  /** `number` after i rounds of `number >>= 4`. */
  function Shift16(n: nat, i: nat): nat
  {
    if i == 0 then n else Shift16(n, i - 1) / 16
  }

  /** i shifts by four bits divide by 16^i. */
  lemma {:induction false} Shift16Div(n: nat, i: nat)
    ensures Shift16(n, i) == n / Pow16(i)
  {
    if i > 0 {
      Shift16Div(n, i - 1);
      DivDiv(n, Pow16(i - 1), 16);
    }
  }

  lemma DivDiv(n: nat, a: nat, b: nat)
    requires a > 0 && b > 0
    ensures n / a / b == n / (a * b)
  {
    var q := n / a / b;
    var r := n / a % b;
    assert n / a == b * q + r;
    assert n == a * (n / a) + n % a;
    assert n == (a * b) * q + (a * r + n % a) by {
      assert a * (b * q + r) == (a * b) * q + a * r;
    }
    assert a * r + n % a < a * b by {
      assert r <= b - 1;
      assert a * r <= a * (b - 1);
    }
    DivModUnique(n, a * b, q, a * r + n % a);
  }

  /** Pass i of the nibble loop: clear once nothing is left and leading zeros are not wanted, else nibble i. */
  function HexStep(n: nat, leadingZeros: bool, i: nat): Step
  {
    var rest := Shift16(n, i);
    if !leadingZeros && rest == 0 then Clear else Draw(rest % 16)
  }

  function HexSteps(n: nat, leadingZeros: bool): (steps: seq<Step>)
    ensures |steps| == 8 && forall i :: 0 <= i < 8 ==> steps[i] == HexStep(n, leadingZeros, i)
  {
    seq(8, i requires 0 <= i < 8 => HexStep(n, leadingZeros, i))
  }

  /**
   * Position 7 - i shows nibble i, the low nibble rightmost; without leading zeros
   * it is cleared exactly when the number has no nibble there. A sixteen-entry
   * font draws all eight positions.
   */
  lemma HexShowsNibbles(n: nat, leadingZeros: bool, font: seq<byte>, i: nat)
    requires i < 8
    ensures HexSteps(n, leadingZeros)[i] == Clear <==> !leadingZeros && n < Pow16(i)
    ensures HexSteps(n, leadingZeros)[i].Draw? ==> HexSteps(n, leadingZeros)[i].digit == n / Pow16(i) % 16
    ensures |font| >= 16 ==> RenderOutcome(HexSteps(n, leadingZeros), font) == Ok
  {
    Shift16Div(n, i);
    DivBelow(n, Pow16(i));
    if |font| >= 16 {
      FullFontDrawsAll(HexSteps(n, leadingZeros), font, 8);
    }
  }

  lemma DivBelow(n: nat, d: nat)
    requires d > 0
    ensures n / d == 0 <==> n < d
  {
    if n >= d {
      assert n == d * (n / d) + n % d;
    }
  }

  // ---------------------------------------------------------------- decimal and binary

  /** Pass i of the decimal loop: a digit while something is left, then a zero or a blank. */
  function DecStep(n: nat, leadingZeros: bool, i: nat): Step
  {
    var rest := Shift10(n, i);
    if rest != 0 then Draw(rest % 10) else if leadingZeros then Draw(0) else Clear
  }

  function DecSteps(n: nat, startingPos: byte, leadingZeros: bool): (steps: seq<Step>)
    ensures |steps| == DecCount(startingPos)
    ensures forall i :: 0 <= i < |steps| ==> steps[i] == DecStep(n, leadingZeros, i)
  {
    seq(DecCount(startingPos), i requires 0 <= i < DecCount(startingPos) => DecStep(n, leadingZeros, i))
  }

  /** Above 99999999 the error text; the font is not consulted then. */
  function DecAtOutcome(n: nat, startingPos: byte, leadingZeros: bool, font: seq<byte>): Outcome
  {
    if n > 99999999 then Ok else RenderOutcome(DecSteps(n, startingPos, leadingZeros), font)
  }

  function DecAtRendered(n: nat, dots: byte, startingPos: byte, leadingZeros: bool, font: seq<byte>): seq<Cell>
  {
    if n > 99999999 then ErrorCells(8) else Rendered(DecSteps(n, startingPos, leadingZeros), font, dots)
  }

  /** Through the digit patterns of charMap, the snapshot draws exactly what the current library draws. */
  lemma DecMatchesCurrent(n: nat, dots: byte, startingPos: byte, leadingZeros: bool)
    ensures DecAtOutcome(n, startingPos, leadingZeros, DigitFont) == Ok
    ensures DecAtRendered(n, dots, startingPos, leadingZeros, DigitFont) == DecAtCells(n, dots, startingPos, leadingZeros)
  {
    var steps := DecSteps(n, startingPos, leadingZeros);
    FullFontDrawsAll(steps, DigitFont, |steps|);
    if n <= 99999999 {
      var cs := Rendered(steps, DigitFont, dots);
      var ds := DecCells(n, dots, startingPos, leadingZeros);
      forall i | 0 <= i < |cs|
        ensures cs[i] == ds[i]
      {
      }
    }
  }

  /** The signed rendering through a font: as the current one, with the digits drawn through the font. */
  function SignedRendered(number: int, dots: byte, leadingZeros: bool, font: seq<byte>): seq<Cell>
    requires LongMin <= number <= LongMax
  {
    if number >= 0 then DecAtRendered(number, dots, 0, leadingZeros, font)
    else if Neg64(number) > 9999999 then ErrorCells(8)
    else if DecAtOutcome(ULong(Neg64(number)), 1, leadingZeros, font).Throws? then
      DecAtRendered(ULong(Neg64(number)), dots, 1, leadingZeros, font)
    else DecAtRendered(ULong(Neg64(number)), dots, 1, leadingZeros, font) + [Cell(0, CharMap('-').value, Bit(dots, 7))]
  }

  function SignedOutcome(number: int, leadingZeros: bool, font: seq<byte>): Outcome
    requires LongMin <= number <= LongMax
  {
    if number >= 0 then DecAtOutcome(number, 0, leadingZeros, font)
    else if Neg64(number) > 9999999 then Ok
    else DecAtOutcome(ULong(Neg64(number)), 1, leadingZeros, font)
  }

  /** Through the digit patterns of charMap, the signed rendering is the current library's, `long.MinValue` included. */
  lemma {:induction false} SignedMatchesCurrent(number: int, dots: byte, leadingZeros: bool)
    requires LongMin <= number <= LongMax
    ensures SignedOutcome(number, leadingZeros, DigitFont) == Ok
    ensures SignedRendered(number, dots, leadingZeros, DigitFont) == SignedCells(number, dots, leadingZeros)
  {
    if number >= 0 {
      DecMatchesCurrent(number, dots, 0, leadingZeros);
    } else if Neg64(number) <= 9999999 {
      DecMatchesCurrent(ULong(Neg64(number)), dots, 1, leadingZeros);
    }
  }

  /** Bit i of the number as the digit value 1 or 0. */
  function BinSteps(number: byte): (steps: seq<Step>)
    ensures |steps| == 8 && forall i :: 0 <= i < 8 ==> steps[i] == Draw(if Bit(number, i) then 1 else 0)
  {
    seq(8, i requires 0 <= i < 8 => Draw(if Bit(number, i) then 1 else 0))
  }

  /** Through the digit patterns of charMap, the binary rendering is the current library's. */
  lemma BinMatchesCurrent(number: byte, dots: byte)
    ensures RenderOutcome(BinSteps(number), DigitFont) == Ok
    ensures Rendered(BinSteps(number), DigitFont, dots) == BinCells(number, dots)
  {
    FullFontDrawsAll(BinSteps(number), DigitFont, 8);
  }

  /** A font of fewer than two patterns cannot draw a binary number: the first pass already throws or the second does. */
  lemma BinShortFontThrows(number: byte, font: seq<byte>)
    requires |font| < 2 && (|font| == 0 || Bit(number, 0))
    ensures RenderOutcome(BinSteps(number), font) == Throws(IndexOutOfRange)
    ensures Rendered(BinSteps(number), font, 0) == []
  {
    assert FirstMissing(BinSteps(number), font, 1) == 0;
    FirstMissingStops(BinSteps(number), font, 0, 8);
  }

  // ---------------------------------------------------------------- LEDs

  /** `setLEDs`: the colour of LED i, RED for bit i of the mask, GREEN for bit i + 8. */
  function LedColor(leds: nat, i: nat): byte
  {
    (if Bit(leds, i) then Red else 0) + (if Bit(leds, i + 8) then Green else 0)
  }

  /** The colour is the OR the loop builds: RED iff bit i, GREEN iff bit i + 8, nothing else. */
  lemma LedColorBits(leds: nat, i: nat)
    ensures Bit(LedColor(leds, i), 0) <==> Bit(leds, i)
    ensures Bit(LedColor(leds, i), 1) <==> Bit(leds, i + 8)
    ensures LedColor(leds, i) < 4
    ensures LedColor(leds, i) == OrByte(OrByte(0, if Bit(leds, i) then Red else 0), if Bit(leds, i + 8) then Green else 0)
  {
    var r: byte := if Bit(leds, i) then Red else 0;
    assert OrByte(0, r) == Or(0, r) == r;
    var g: byte := if Bit(leds, i + 8) then Green else 0;
    assert OrByte(r, g) == Or(r, g);
    assert Or(r, g) == r + g by {
      if r == 1 && g == 2 {
        assert Or(1, 2) == 2 * Or(0, 1) + 1;
      }
    }
    assert Bit(r + g, 1) == Bit((r + g) / 2, 0);
  }

  /** One `setLED` per position 0..n-1, in order. */
  function LedsSignals(leds: nat, n: nat): seq<Sig>
  {
    if n == 0 then [] else LedsSignals(leds, n - 1) + LedSignals(LedColor(leds, n - 1), Byte(n - 1))
  }

  lemma LedsSignalsStep(leds: nat, i: nat)
    ensures LedsSignals(leds, i + 1) == LedsSignals(leds, i) + LedSignals(LedColor(leds, i), Byte(i))
  {
  }

  class Board {
    const chip: Chip

    predicate Valid()
    {
      chip.displays == 8
    }

    constructor (bus: Bus<Line>, activateDisplay: bool, intensity: byte)
      modifies bus
      ensures Valid() && chip.bus == bus
      ensures bus.trace == old(bus.trace) + InitSignals(activateDisplay, intensity)
      ensures bus.consumed == old(bus.consumed)
    {
      chip := new Chip(bus, 8, activateDisplay, intensity);
    }

    /** `setDisplayDigit(digit, pos, dot, numberFont)`: the font's pattern for the digit. */
    method SetDisplayDigit(digit: byte, pos: byte, dot: bool, font: seq<byte>) returns (o: Outcome)
      modifies chip.bus
      ensures o == if digit < |font| then Ok else Throws(IndexOutOfRange)
      ensures digit < |font| ==> chip.bus.trace == old(chip.bus.trace) + CellSignals(Cell(pos, font[digit], dot))
      ensures digit >= |font| ==> chip.bus.trace == old(chip.bus.trace)
      ensures chip.bus.consumed == old(chip.bus.consumed)
    {
      if digit >= |font| {
        return Throws(IndexOutOfRange);
      }
      chip.SendChar(pos, font[digit], dot);
      return Ok;
    }

    /** Performs one pass: draw through the font, or clear. */
    method Show(s: Step, font: seq<byte>, dots: byte, i: nat) returns (o: Outcome)
      requires Valid() && i < 8 && (s.Draw? ==> s.digit < 256)
      modifies chip.bus
      ensures o == if Drawable(s, font) then Ok else Throws(IndexOutOfRange)
      ensures Drawable(s, font) ==> chip.bus.trace == old(chip.bus.trace) + CellSignals(StepCell(s, font, dots, i))
      ensures !Drawable(s, font) ==> chip.bus.trace == old(chip.bus.trace)
      ensures chip.bus.consumed == old(chip.bus.consumed)
    {
      var pos := Byte(chip.displays - i - 1);
      var dot := DotBit(dots, i);
      if s.Clear? {
        chip.ClearDisplayDigit(pos, dot);
        o := Ok;
      } else {
        o := SetDisplayDigit(s.digit, pos, dot, font);
      }
    }

    /** One pass of the nibble loop. */
    method ShowHexDigit(rest: nat, i: nat, dots: byte, leadingZeros: bool, font: seq<byte>, ghost number: nat)
      returns (o: Outcome, next: nat)
      requires Valid() && i < 8 && rest == Shift16(number, i)
      modifies chip.bus
      ensures next == Shift16(number, i + 1)
      ensures o == if Drawable(HexStep(number, leadingZeros, i), font) then Ok else Throws(IndexOutOfRange)
      ensures o.Ok? ==> chip.bus.trace == old(chip.bus.trace) + CellSignals(StepCell(HexStep(number, leadingZeros, i), font, dots, i))
      ensures o.Throws? ==> chip.bus.trace == old(chip.bus.trace)
      ensures chip.bus.consumed == old(chip.bus.consumed)
    {
      next := rest;
      if !leadingZeros && rest == 0 {
        o := Show(Clear, font, dots, i);
      } else {
        o := Show(Draw(rest % 16), font, dots, i);
        next := rest / 16;
      }
    }

    /** `setDisplayToHexNumber(number, dots, leadingZeros, numberFont)`: nibble i on position 7 - i. */
    method SetDisplayToHexNumber(number: nat, dots: byte, leadingZeros: bool, font: seq<byte>) returns (o: Outcome)
      requires Valid() && number < ULongRange
      modifies chip.bus
      ensures o == RenderOutcome(HexSteps(number, leadingZeros), font)
      ensures chip.bus.trace == old(chip.bus.trace) + CellsSignals(Rendered(HexSteps(number, leadingZeros), font, dots))
      ensures chip.bus.consumed == old(chip.bus.consumed)
    {
      ghost var steps := HexSteps(number, leadingZeros);
      var rest := number;
      var i, n := 0, chip.displays;
      while i < n
        invariant 0 <= i <= n == 8 && rest == Shift16(number, i) && FirstMissing(steps, font, i) == i
        invariant chip.bus.trace == old(chip.bus.trace) + CellsSignals(StepCells(steps, font, dots, i))
        invariant chip.bus.consumed == old(chip.bus.consumed)
      {
        o, rest := ShowHexDigit(rest, i, dots, leadingZeros, font, number);
        if o.Throws? {
          FirstMissingStops(steps, font, i, 8);
          return;
        }
        StepCellsStep(steps, font, dots, i);
        TraceSnoc(old(chip.bus.trace), StepCells(steps, font, dots, i), StepCell(steps[i], font, dots, i));
        i := i + 1;
      }
      o := Ok;
    }

    /** One pass of the decimal loop. */
    method ShowDecDigit(rest: nat, i: nat, dots: byte, leadingZeros: bool, font: seq<byte>, ghost number: nat)
      returns (o: Outcome, next: nat)
      requires Valid() && i < 8 && rest == Shift10(number, i)
      modifies chip.bus
      ensures next == Shift10(number, i + 1)
      ensures o == if Drawable(DecStep(number, leadingZeros, i), font) then Ok else Throws(IndexOutOfRange)
      ensures o.Ok? ==> chip.bus.trace == old(chip.bus.trace) + CellSignals(StepCell(DecStep(number, leadingZeros, i), font, dots, i))
      ensures o.Throws? ==> chip.bus.trace == old(chip.bus.trace)
      ensures chip.bus.consumed == old(chip.bus.consumed)
    {
      next := rest;
      if rest != 0 {
        o := Show(Draw(rest % 10), font, dots, i);
        next := rest / 10;
      } else if leadingZeros {
        o := Show(Draw(0), font, dots, i);
      } else {
        o := Show(Clear, font, dots, i);
      }
    }

    /** The loop of `setDisplayToDecNumberAt`, for numbers that fit. */
    method ShowDecDigits(number: nat, dots: byte, startingPos: byte, leadingZeros: bool, font: seq<byte>) returns (o: Outcome)
      requires Valid()
      modifies chip.bus
      ensures o == RenderOutcome(DecSteps(number, startingPos, leadingZeros), font)
      ensures chip.bus.trace == old(chip.bus.trace) + CellsSignals(Rendered(DecSteps(number, startingPos, leadingZeros), font, dots))
      ensures chip.bus.consumed == old(chip.bus.consumed)
    {
      ghost var steps := DecSteps(number, startingPos, leadingZeros);
      var rest := number;
      var i, n := 0, chip.displays - startingPos;
      while i < n
        invariant 0 <= i <= |steps| && rest == Shift10(number, i) && FirstMissing(steps, font, i) == i
        invariant chip.bus.trace == old(chip.bus.trace) + CellsSignals(StepCells(steps, font, dots, i))
        invariant chip.bus.consumed == old(chip.bus.consumed)
      {
        o, rest := ShowDecDigit(rest, i, dots, leadingZeros, font, number);
        if o.Throws? {
          FirstMissingStops(steps, font, i, |steps|);
          return;
        }
        StepCellsStep(steps, font, dots, i);
        TraceSnoc(old(chip.bus.trace), StepCells(steps, font, dots, i), StepCell(steps[i], font, dots, i));
        i := i + 1;
      }
      o := Ok;
    }

    method SetDisplayToDecNumberAt(number: nat, dots: byte, startingPos: byte, leadingZeros: bool, font: seq<byte>)
      returns (o: Outcome)
      requires Valid() && number < ULongRange
      modifies chip.bus
      ensures o == DecAtOutcome(number, startingPos, leadingZeros, font)
      ensures chip.bus.trace == old(chip.bus.trace) + CellsSignals(DecAtRendered(number, dots, startingPos, leadingZeros, font))
      ensures chip.bus.consumed == old(chip.bus.consumed)
    {
      if number > 99999999 {
        chip.SetDisplayToError();
        o := Ok;
      } else {
        o := ShowDecDigits(number, dots, startingPos, leadingZeros, font);
      }
    }

    method SetDisplayToDecNumber(number: nat, dots: byte, leadingZeros: bool, font: seq<byte>) returns (o: Outcome)
      requires Valid() && number < ULongRange
      modifies chip.bus
      ensures o == DecAtOutcome(number, 0, leadingZeros, font)
      ensures chip.bus.trace == old(chip.bus.trace) + CellsSignals(DecAtRendered(number, dots, 0, leadingZeros, font))
      ensures chip.bus.consumed == old(chip.bus.consumed)
    {
      o := SetDisplayToDecNumberAt(number, dots, 0, leadingZeros, font);
    }

    method SetDisplayToSignedDecNumber(number: int, dots: byte, leadingZeros: bool, font: seq<byte>) returns (o: Outcome)
      requires Valid() && LongMin <= number <= LongMax
      modifies chip.bus
      ensures o == SignedOutcome(number, leadingZeros, font)
      ensures chip.bus.trace == old(chip.bus.trace) + CellsSignals(SignedRendered(number, dots, leadingZeros, font))
      ensures chip.bus.consumed == old(chip.bus.consumed)
    {
      if number >= 0 {
        o := SetDisplayToDecNumberAt(number, dots, 0, leadingZeros, font);
      } else {
        var negated := Neg64(number);
        if negated > 9999999 {
          chip.SetDisplayToError();
          o := Ok;
        } else {
          o := SetDisplayToDecNumberAt(ULong(negated), dots, 1, leadingZeros, font);
          if o.Throws? {
            return;
          }
          chip.SendChar(0, CharMap('-').value, Bit(dots, 7));
          ghost var digits := DecAtRendered(ULong(negated), dots, 1, leadingZeros, font);
          ghost var minus := [Cell(0, CharMap('-').value, Bit(dots, 7))];
          assert CellsSignals(minus) == CellSignals(minus[0]);
          CellsAppend(digits, minus);
          Regroup(old(chip.bus.trace), CellsSignals(digits), CellsSignals(minus));
        }
      }
    }

    /** `setDisplayToBinNumber(number, dots, numberFont)`: bit i as the digit value 1 or 0 on position 7 - i. */
    method SetDisplayToBinNumber(number: byte, dots: byte, font: seq<byte>) returns (o: Outcome)
      requires Valid()
      modifies chip.bus
      ensures o == RenderOutcome(BinSteps(number), font)
      ensures chip.bus.trace == old(chip.bus.trace) + CellsSignals(Rendered(BinSteps(number), font, dots))
      ensures chip.bus.consumed == old(chip.bus.consumed)
    {
      ghost var steps := BinSteps(number);
      ghost var t0 := chip.bus.trace;
      var i, n := 0, chip.displays;
      while i < n
        invariant 0 <= i <= n == 8 && FirstMissing(steps, font, i) == i
        invariant chip.bus.trace == t0 + CellsSignals(StepCells(steps, font, dots, i))
        invariant chip.bus.consumed == old(chip.bus.consumed)
      {
        o := ShowPass(Draw(if Bit(number, i) then 1 else 0), steps, font, dots, i, t0);
        if o.Throws? {
          return;
        }
        i := i + 1;
      }
      o := Ok;
    }

    /** Pass i of a rendering loop whose earlier passes all drew: either the cell is sent, or the loop ends here. */
    method ShowPass(s: Step, ghost steps: seq<Step>, font: seq<byte>, dots: byte, i: nat, ghost t0: seq<Sig>) returns (o: Outcome)
      requires Valid() && i < |steps| <= 8 && s == steps[i] && (s.Draw? ==> s.digit < 256)
      requires FirstMissing(steps, font, i) == i && chip.bus.trace == t0 + CellsSignals(StepCells(steps, font, dots, i))
      modifies chip.bus
      ensures o.Throws? ==> o == RenderOutcome(steps, font) && chip.bus.trace == t0 + CellsSignals(Rendered(steps, font, dots))
      ensures o.Ok? ==> FirstMissing(steps, font, i + 1) == i + 1
      ensures o.Ok? ==> chip.bus.trace == t0 + CellsSignals(StepCells(steps, font, dots, i + 1))
      ensures chip.bus.consumed == old(chip.bus.consumed)
    {
      o := Show(s, font, dots, i);
      if o.Throws? {
        FirstMissingStops(steps, font, i, |steps|);
        return;
      }
      StepCellsStep(steps, font, dots, i);
      TraceSnoc(t0, StepCells(steps, font, dots, i), StepCell(steps[i], font, dots, i));
    }

    /** `setLED(color, pos)`: the colour to the odd address `(pos << 1) + 1`. */
    method SetLed(color: byte, pos: byte)
      modifies chip.bus
      ensures chip.bus.trace == old(chip.bus.trace) + LedSignals(color, pos)
      ensures chip.bus.consumed == old(chip.bus.consumed)
    {
      chip.SendData(Byte(2 * pos + 1), color);
    }

    /** One pass of `setLEDs`: `color |= RED` for bit i, `color |= GREEN` for bit i + 8, then `setLED`. */
    method SetLedFromMask(leds: nat, i: nat)
      requires i < 8
      modifies chip.bus
      ensures chip.bus.trace == old(chip.bus.trace) + LedSignals(LedColor(leds, i), Byte(i))
      ensures chip.bus.consumed == old(chip.bus.consumed)
    {
      var color: byte := 0;
      if Bit(leds, i) {
        color := OrByte(color, Red);
      }
      if Bit(leds, i + 8) {
        color := OrByte(color, Green);
      }
      LedColorBits(leds, i);
      SetLed(color, Byte(i));
    }

    /** `setLEDs(leds)`: exactly one `setLED` per position, in order. */
    method SetLeds(leds: nat)
      requires Valid() && leds < 0x1_0000
      modifies chip.bus
      ensures chip.bus.trace == old(chip.bus.trace) + LedsSignals(leds, 8)
      ensures chip.bus.consumed == old(chip.bus.consumed)
    {
      var i, n := 0, chip.displays;
      while i < n
        invariant 0 <= i <= n == 8
        invariant chip.bus.trace == old(chip.bus.trace) + LedsSignals(leds, i)
        invariant chip.bus.consumed == old(chip.bus.consumed)
      {
        SetLedFromMask(leds, i);
        Regroup(old(chip.bus.trace), LedsSignals(leds, i), LedSignals(LedColor(leds, i), Byte(i)));
        LedsSignalsStep(leds, i);
        i := i + 1;
      }
    }
  }
}
