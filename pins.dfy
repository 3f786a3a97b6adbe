/**
 * The pin names of GPIOPins.cs: the `GPIOPins` enum (a pin number per name) and the
 * `GPIOPinMask` enum (a bit mask per name), for board revisions 1 and 2, and the mask
 * a live handle computes for its own pin (`GPIO.Mask`).
 */
module Pins {
  import opened Wire

  /** A `GPIOPins` value: the enum's underlying `uint`. */
  type Pin = x: int | 0 <= x < 0x1_0000_0000

  /** `GPIO_NONE = uint.MaxValue`, the "no pin" sentinel. */
  const NoPin: Pin := 0xFFFF_FFFF

  /** The header pins that have a name: on plug P1 of both revisions, and on plug P5 of revision 2. */
  datatype Header =
    | P1_03 | P1_05 | P1_07 | P1_08 | P1_10 | P1_11 | P1_12 | P1_13 | P1_15
    | P1_16 | P1_18 | P1_19 | P1_21 | P1_22 | P1_23 | P1_24 | P1_26
    | P5_03 | P5_04 | P5_05 | P5_06

  predicate OnP1(h: Header)
  {
    !(h.P5_03? || h.P5_04? || h.P5_05? || h.P5_06?)
  }

  /** The members of both enums, grouped the way they are declared. */
  datatype Name =
    | GPIO_NONE
    | GPIO(n: nat)          // GPIO_nn, revision 1
    | Pin_(h: Header)       // Pin_P1_xx, revision 1
    | LED
    | V2_GPIO(n: nat)       // V2_GPIO_nn, revision 2 (P1 and P5)
    | V2_Pin(h: Header)     // V2_Pin_P1_xx and V2_Pin_P5_xx
    | V2_LED

  /** The GPIO numbers with a `GPIO_nn` name on a revision 1 board, and with a `V2_GPIO_nn` name on revision 2. */
  const Rev1Gpios: set<nat> := {0, 1, 4, 7, 8, 9, 10, 11, 14, 15, 17, 18, 21, 22, 23, 24, 25}
  const Rev2Gpios: set<nat> := {0, 2, 3, 1, 4, 7, 8, 9, 10, 11, 14, 15, 17, 18, 21, 22, 23, 24, 25, 27, 28, 29, 30, 31}

  /** The names the enums declare. */
  predicate Declared(name: Name)
  {
    match name
    case GPIO(n) => n in Rev1Gpios
    case Pin_(h) => OnP1(h)
    case V2_GPIO(n) => n in Rev2Gpios
    case _ => true
  }

  /**
   * The header table of the enum's doc comment: P1 pin to GPIO number, and the P5 pins.
   * It is kept apart from `Rev1Header` on purpose: the source writes the table and the
   * enum values separately, and `Rev1HeaderMatchesDoc` checks that they agree.
   */
  function DocGpio(h: Header): Pin
  {
    match h
    case P1_03 => 0  case P1_05 => 1  case P1_07 => 4  case P1_08 => 14 case P1_10 => 15
    case P1_11 => 17 case P1_12 => 18 case P1_13 => 21 case P1_15 => 22 case P1_16 => 23
    case P1_18 => 24 case P1_19 => 10 case P1_21 => 9  case P1_22 => 25 case P1_23 => 11
    case P1_24 => 8  case P1_26 => 7
    case P5_03 => 28 case P5_04 => 29 case P5_05 => 30 case P5_06 => 31
  }

  /** `Pin_P1_xx` of `GPIOPins`, revision 1. */
  function Rev1Header(h: Header): Pin
    requires OnP1(h)
  {
    match h
    case P1_03 => 0  case P1_05 => 1  case P1_07 => 4  case P1_08 => 14 case P1_10 => 15
    case P1_11 => 17 case P1_12 => 18 case P1_13 => 21 case P1_15 => 22 case P1_16 => 23
    case P1_18 => 24 case P1_19 => 10 case P1_21 => 9  case P1_22 => 25 case P1_23 => 11
    case P1_24 => 8  case P1_26 => 7
  }

  /** `V2_Pin_P1_xx` and `V2_Pin_P5_xx` of `GPIOPins`. */
  function Rev2Header(h: Header): Pin
  {
    match h
    case P1_03 => 2  case P1_05 => 3  case P1_07 => 4  case P1_08 => 14 case P1_10 => 15
    case P1_11 => 17 case P1_12 => 18 case P1_13 => 27 case P1_15 => 22 case P1_16 => 23
    case P1_18 => 24 case P1_19 => 10 case P1_21 => 9  case P1_22 => 25 case P1_23 => 11
    case P1_24 => 8  case P1_26 => 7
    case P5_03 => 28 case P5_04 => 29 case P5_05 => 30 case P5_06 => 31
  }

  /** The value of a `GPIOPins` member. */
  function PinValue(name: Name): (p: Pin)
    requires Declared(name)
    ensures name != GPIO_NONE ==> p < 32
  {
    match name
    case GPIO_NONE => NoPin
    case GPIO(n) => n
    case Pin_(h) => Rev1Header(h)
    case LED => 16
    case V2_GPIO(n) => n
    case V2_Pin(h) => Rev2Header(h)
    case V2_LED => 16
  }

  /** The shift counts of the `Pin_P1_xx = 1 << k` members of `GPIOPinMask`. */
  function Rev1MaskShift(h: Header): nat
    requires OnP1(h)
  {
    match h
    case P1_03 => 0  case P1_05 => 1  case P1_07 => 4  case P1_08 => 14 case P1_10 => 15
    case P1_11 => 17 case P1_12 => 18 case P1_13 => 21 case P1_15 => 22 case P1_16 => 23
    case P1_18 => 24 case P1_19 => 10 case P1_21 => 9  case P1_22 => 25 case P1_23 => 11
    case P1_24 => 8  case P1_26 => 7
  }

  /** The shift counts of the `V2_Pin_xx = 1 << k` members of `GPIOPinMask`. */
  function Rev2MaskShift(h: Header): nat
  {
    match h
    case P1_03 => 2  case P1_05 => 3  case P1_07 => 4  case P1_08 => 14 case P1_10 => 15
    case P1_11 => 17 case P1_12 => 18 case P1_13 => 27 case P1_15 => 22 case P1_16 => 23
    case P1_18 => 24 case P1_19 => 10 case P1_21 => 9  case P1_22 => 25 case P1_23 => 11
    case P1_24 => 8  case P1_26 => 7
    case P5_03 => 28 case P5_04 => 29 case P5_05 => 30 case P5_06 => 31
  }

  /**
   * The value of a `GPIOPinMask` member as declared: `1 << n` everywhere except
   * `GPIO_00 = 0` and `GPIO_01 = 1`, which are written as pin numbers.
   */
  function MaskValue(name: Name): nat
    requires Declared(name)
  {
    match name
    case GPIO_NONE => NoPin
    case GPIO(n) => if n == 0 then 0 else if n == 1 then 1 else Pow2(n)
    case Pin_(h) => Pow2(Rev1MaskShift(h))
    case LED => Pow2(16)
    case V2_GPIO(n) => Pow2(n)
    case V2_Pin(h) => Pow2(Rev2MaskShift(h))
    case V2_LED => Pow2(16)
  }

  /**
   * `GPIO.Mask`: `(GPIOPinMask)(1 << (ushort)Pin)`. The shift is on an `int`, so its
   * count is taken modulo 32; `1 << 31` is negative as an `int` and `2^31` once cast back.
   */
  function MaskOfPin(p: Pin): (m: nat)
    ensures p < 32 ==> m == Pow2(p)
  {
    Pow2(p % 0x1_0000 % 32)
  }

  /** The sentinel is no GPIO number: every other declared name stands for a pin in 0..31. */
  lemma NoneIsNoPin(name: Name)
    requires Declared(name) && name != GPIO_NONE
    ensures PinValue(GPIO_NONE) == 0xFFFF_FFFF
    ensures PinValue(name) < 32 && PinValue(name) != NoPin
  {
  }

  /** Each revision 1 header name is the GPIO number the doc comment gives for that header pin. */
  lemma Rev1HeaderMatchesDoc(h: Header)
    requires OnP1(h)
    ensures PinValue(Pin_(h)) == DocGpio(h)
  {
  }

  /**
   * Revision 2 moves three P1 header pins and keeps the rest: P1-03 to GPIO 2, P1-05 to
   * GPIO 3, P1-13 to GPIO 27. The P5 pins are those of the doc comment.
   */
  lemma Rev2DiffersOnlyAt(h: Header)
    ensures OnP1(h) ==> (PinValue(V2_Pin(h)) != PinValue(Pin_(h)) <==> h == P1_03 || h == P1_05 || h == P1_13)
    ensures h == P1_03 ==> PinValue(V2_Pin(h)) == 2
    ensures h == P1_05 ==> PinValue(V2_Pin(h)) == 3
    ensures h == P1_13 ==> PinValue(V2_Pin(h)) == 27
    ensures !OnP1(h) ==> PinValue(V2_Pin(h)) == DocGpio(h)
  {
  }

  /** Every mask but `GPIO_00` and `GPIO_01` is the bit of its own pin, the mask a handle on that pin reports. */
  lemma MaskAgreesWithPin(name: Name)
    requires Declared(name) && name != GPIO_NONE && name != GPIO(0) && name != GPIO(1)
    ensures MaskValue(name) == Pow2(PinValue(name)) == MaskOfPin(PinValue(name))
  {
    match name
    case GPIO(n) =>
    case Pin_(h) => assert Rev1MaskShift(h) == Rev1Header(h);
    case LED =>
    case V2_GPIO(n) =>
    case V2_Pin(h) => assert Rev2MaskShift(h) == Rev2Header(h);
    case V2_LED =>
  }

  /**
   * `GPIOPinMask.GPIO_00` is 0, the empty mask, and `GPIO_01` is bit 0, while pins 0 and 1
   * are bits 0 and 1: both disagree with `Pin_P1_03`/`Pin_P1_05`, which name the same pins,
   * and with `GPIO.Mask`.
   */
  lemma MaskDisagreesAtGpio00And01()
    ensures PinValue(GPIO(0)) == PinValue(Pin_(P1_03)) && MaskValue(GPIO(0)) == 0
    ensures MaskValue(GPIO(0)) != MaskValue(Pin_(P1_03)) && MaskValue(GPIO(0)) != MaskOfPin(0)
    ensures PinValue(GPIO(1)) == PinValue(Pin_(P1_05)) && MaskValue(GPIO(1)) == MaskOfPin(0)
    ensures MaskValue(GPIO(1)) != MaskValue(Pin_(P1_05)) && MaskValue(GPIO(1)) != MaskOfPin(1)
  {
  }

  /** The masks as evidently intended: `GPIO_00 = 1 << 0` and `GPIO_01 = 1 << 1`, the rest as declared. */
  function IntendedMask(name: Name): nat
    requires Declared(name)
  {
    match name
    case GPIO(n) => Pow2(n)
    case _ => MaskValue(name)
  }

  /** With the intended masks, every name's mask is the bit of its pin, and names of one pin share one mask. */
  lemma IntendedMaskAgrees(name: Name, other: Name)
    requires Declared(name) && name != GPIO_NONE && Declared(other) && other != GPIO_NONE
    ensures IntendedMask(name) == MaskOfPin(PinValue(name))
    ensures PinValue(name) == PinValue(other) ==> IntendedMask(name) == IntendedMask(other)
  {
    if name.GPIO? && name.n <= 1 {
    } else {
      MaskAgreesWithPin(name);
    }
    if other.GPIO? && other.n <= 1 {
    } else {
      MaskAgreesWithPin(other);
    }
  }
}
