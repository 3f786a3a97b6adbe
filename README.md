# RaspberryPi.Net core in Dafny

This project models the core of RaspberryPi.Net, a C# library that drives the
Raspberry Pi's GPIO header and a few devices attached to it. It covers:

- **Pin names** (`Pins`): the `GPIOPins` enum, which gives each name a GPIO number on
  board revisions 1 and 2, and the `GPIOPinMask` enum, which gives each name a bit mask.
- **Pin handles** (`Gpio`):
  - the abstract `GPIO` class with its GPIOMem (bcm2835 library), GPIOFile (sysfs) and
    GPIODebug back ends;
  - the static registry of exported pins, which allows one live handle per pin;
  - the `CreatePin` fallback from one back end to the next;
  - the static `Write` and `Read`.
- **TM16XX and TM1638 display and key boards**:
  - `Tm16xx` covers the base class: the character map, the serial protocol over the
    data, clock and strobe lines, and the display helpers.
  - `Tm1638` covers the current TM1638 board: hexadecimal, decimal, signed and binary
    numbers, LEDs and keys.
  - `Tm1638Legacy` covers the older TM1638 snapshot, which draws digits through a
    caller-supplied font.
- **HD44780 character LCD driver** (`LiquidCrystal`): every instruction and data byte
  the `Lcd` class hands to its transfer provider, and the waits between them.
- **GPIOMem LCD transfer provider** (`LcdProvider`):
  - which pins it opens and releases;
  - the `gpio_write` calls one `Send` makes in 8-bit and 4-bit mode;
  - what the controller latches at each enable pulse.
- **MCP3008 analogue-to-digital converter** (`Adc`): the bit-banged SPI conversion.
- **DS1620 digital thermometer** (`Thermometer`): the three-wire exchange.

The device drivers talk to their pins through `Wire.Bus`. A bus is a trace of signals:
- a level driven on a line;
- a level sampled from a line;
- a pause.

The levels the hardware returns come from an input function. The number of levels
consumed so far is part of the bus state. Each driver method is proved to append a
trace given by a specification function. Lemmas then state what that trace means, such
as the bits that appear on a data line or the lines that are framed by a select line.

The pin handles keep the source's object structure. A `Registry` object stands for the
static dictionary `_exportedPins`. A `Handle` class carries a back-end tag, and each
virtual member branches on that tag. What a back end does outside the process is
recorded as `Gpio.Event`s on a `Host`: the bcm2835 calls and the sysfs writes. Whether
the library initialised, whether sysfs works and whether the build is a DEBUG build are
constants of the host.

Where the code and its documentation differ, the model follows the code:
- A handle constructed with direction In ends with direction Out. The constructor
  always calls `Write(initialValue)`, and `Write` switches the direction to Out.
- The static `GPIO.Read` leaves a newly created pin set to Out for the same reason.
- The LCD provider's constructor leaves every pin it already opened registered when a
  later pin fails.
- The provider's `Dispose` with no RW pin throws a NullReferenceException after RS is
  closed. The provider is not marked disposed, so a second call throws at RS.
- The DS1620 driver returns the raw nine-bit register without sign handling.
- `Lcd.SetCursorPosition` replaces only a row *greater* than the line count. A row equal
  to the line count is kept.

## Model

| member | source | states |
|---|---|---|
| Pins.PinValue | src/RaspberryPiDotNet/GPIOPins.cs:32-130 | every `GPIOPins` name except `GPIO_NONE` is a GPIO number below 32 |
| Pins.NoneIsNoPin | src/RaspberryPiDotNet/GPIOPins.cs:35-128 | `GPIO_NONE` is `uint.MaxValue`, and no other declared name has that value |
| Pins.Rev1HeaderMatchesDoc | src/RaspberryPiDotNet/GPIOPins.cs:3-73 | each revision 1 `Pin_P1_xx` name is the GPIO number that the enum's header table gives for that pin |
| Pins.Rev2DiffersOnlyAt | src/RaspberryPiDotNet/GPIOPins.cs:57-128 | revision 2 names differ from revision 1 exactly at P1-03 (GPIO 2), P1-05 (GPIO 3) and P1-13 (GPIO 27); the P5 pins are the table's |
| Pins.MaskOfPin | src/RaspberryPiDotNet/GPIO.cs:55-59 | a handle's mask for a pin below 32 is `1 << pin` |
| Pins.MaskAgreesWithPin | src/RaspberryPiDotNet/GPIOPins.cs:132-233 | every `GPIOPinMask` member except `GPIO_00` and `GPIO_01` is the bit of its own pin, which is the mask a handle on that pin reports |
| Pins.MaskDisagreesAtGpio00And01 | src/RaspberryPiDotNet/GPIOPins.cs:139-157 | as written, `GPIO_00` is 0 and `GPIO_01` is bit 0; both differ from `Pin_P1_03` and `Pin_P1_05`, which name the same pins, and from the handle's mask |
| Pins.IntendedMaskAgrees | src/RaspberryPiDotNet/GPIOPins.cs:132-233 | with `GPIO_00 = 1 << 0` and `GPIO_01 = 1 << 1`, every mask is its pin's bit, and names of one pin share one mask |
| Gpio.PudCode | src/RaspberryPiDotNet/GPIOMem.cs:80-91 | the pull-up/down code is below 3 and is 0 exactly for OFF |
| Gpio.StateOf | src/RaspberryPiDotNet/GPIOMem.cs:117-121 | a high level reads as `PinState.High` and a low level as `Low` |
| Gpio.DirectionEvents | src/RaspberryPiDotNet/GPIOMem.cs:62-75 | no back-end call when the direction stays the same; GPIOMem starts a change with `fsel`; GPIODebug makes no call |
| Gpio.FallbackBackend | src/RaspberryPiDotNet/GPIO.cs:166-205 | `CreatePin` on a free pin ends with a back end whose constructor succeeds; it fails only when GPIOMem, GPIOFile and (in a DEBUG build) GPIODebug all fail |
| Gpio.Host.constructor | src/RaspberryPiDotNet/GPIOMem.cs:22-26 | the host starts with no back-end calls; whether the library initialised is fixed |
| Gpio.Registry.constructor | src/RaspberryPiDotNet/GPIO.cs:16 | the registry of exported pins starts empty and valid |
| Gpio.Handle.constructor | src/RaspberryPiDotNet/GPIO.cs:21-39 | a new handle is not disposed, has direction In and resistor OFF, and (for GPIODebug) current value false |
| Gpio.Handle.PinOf | src/RaspberryPiDotNet/GPIO.cs:44-50 | the pin, or ObjectDisposedException once disposed |
| Gpio.Handle.Mask | src/RaspberryPiDotNet/GPIO.cs:55-59 | `1 << pin` for a pin below 32, or ObjectDisposedException once disposed |
| Gpio.Handle.DirectionOf | src/RaspberryPiDotNet/GPIO.cs:64-69 | the direction, or ObjectDisposedException once disposed |
| Gpio.Handle.ResistorOf | src/RaspberryPiDotNet/GPIO.cs:80-87 | the resistor, or ObjectDisposedException once disposed |
| Gpio.Handle.SetResistor | src/RaspberryPiDotNet/GPIOMem.cs:80-91 | stores the value; GPIOMem calls `set_pud` only when the value changes; a disposed handle throws and nothing changes |
| Gpio.Handle.SetDirection | src/RaspberryPiDotNet/GPIOMem.cs:62-75 | stores the value; on a change, GPIOMem calls `fsel` and resets the resistor to OFF when switching to In, and GPIOFile writes the direction file or throws; a disposed handle throws and nothing changes |
| Gpio.Handle.Write | src/RaspberryPiDotNet/GPIO.cs:211-216 | throws once disposed; otherwise switches to Out, then `gpio_write`, the value file, or GPIODebug's remembered value |
| Gpio.Handle.WriteState | src/RaspberryPiDotNet/GPIOMem.cs:108-111 | writing a `PinState` is writing `state == High` |
| Gpio.Handle.Read | src/RaspberryPiDotNet/GPIO.cs:222-226 | throws once disposed; GPIOMem reports the hardware level after one `gpio_lev`; GPIOFile reports it or throws when sysfs fails; GPIODebug reports the last value written |
| Gpio.Handle.Dispose | src/RaspberryPiDotNet/GPIO.cs:231-239 | a second call throws; the first marks the handle disposed, removes exactly its pin from the registry and keeps the registry valid; GPIOFile unexports |
| Gpio.Handle.Construct | src/RaspberryPiDotNet/GPIO.cs:111-128 | fails with LibraryInit, InvalidArgument (`GPIO_NONE`) or PinInUse, each exactly in its case; on success the pin maps to the fresh handle, whose direction is Out; a failure leaves the registry as it was |
| Gpio.Handle.Register | src/RaspberryPiDotNet/GPIO.cs:116-126 | registers, sets the direction and writes the initial value; if one of them throws, the handle is disposed and the registry is restored |
| Gpio.Handle.Configure | src/RaspberryPiDotNet/GPIO.cs:119-122 | from In, the direction change and the initial write together make exactly one switch to Out, then the write |
| Gpio.Handle.CreatePin | src/RaspberryPiDotNet/GPIO.cs:166-205 | a held pin returns its own handle with the new direction, its value and live state kept, and its resistor reset to Off only when a GPIOMem pin turns to In; a free pin gets a fresh handle from the first back end that constructs, with resistor Off and that back end's open calls appended to the host log; a failure keeps the registered pins as they were, and for a free pin logs nothing; every other registered handle keeps its state; the registry stays valid |
| Gpio.Handle.WritePin | src/RaspberryPiDotNet/GPIO.cs:145-147 | succeeds exactly when the held pin's back end can write (a GPIOFile needs sysfs) or, for a free pin, when a back end constructs; on success the pin is held with direction Out, the host log gains the direction change (or the open) and then the write, so its last call is `gpio_write` of the value for GPIOMem and the sysfs value write for GPIOFile, and a GPIODebug handle holds the value; a failure leaves the registry as it was; every handle on another pin keeps its state |
| Gpio.Handle.ReadPin | src/RaspberryPiDotNet/GPIO.cs:156-158 | succeeds under the same condition as `WritePin`; a held pin is turned to In and reads the level on the line, or the value a GPIODebug handle holds; a pin nobody held is opened as an output and reads the line's level, or Low for a GPIODebug fallback; the host log gains exactly the direction change or open, then `gpio_lev` for GPIOMem; every handle on another pin keeps its state |
| Tm16xx.CharMap | src/RaspberryPiDotNet/TM16XX/TM16XX.cs:30-127 | a pattern exactly for printable ASCII; KeyNotFoundException for any other character |
| Tm16xx.DigitFontFromCharMap | src/RaspberryPiDotNet/TM16XX/TM16XX.cs:174-179 | `setDisplayDigit` draws `charMap[digit.ToString()]`, and each digit's pattern reads back as that digit |
| Tm16xx.AddressCommandIsOr | src/RaspberryPiDotNet/TM16XX/TM16XX.cs:246 | the address byte `sendData` sends, given by ranges of the address, equals the bitwise OR of 0xC0 with the address |
| Tm16xx.ControlByteValue | src/RaspberryPiDotNet/TM16XX/TM16XX.cs:163-172 | the display control command is 0x80, plus 8 when on, plus the brightness clamped to 7 |
| Tm16xx.ShiftInValue | src/RaspberryPiDotNet/TM16XX/TM16XX.cs:262-283 | after up to eight rounds of `receive`, the register holds the levels read in its top bits, the first level lowest |
| Tm16xx.ShiftInEight | src/RaspberryPiDotNet/TM16XX/TM16XX.cs:262-283 | after eight rounds the byte's bits are exactly the eight levels read, in order |
| Tm16xx.CellsAppend | src/RaspberryPiDotNet/TM16XX/TM1638.cs:107-110 | two runs of `sendChar` in a row send the concatenated cells |
| Tm16xx.ValueCells | src/RaspberryPiDotNet/TM16XX/TM16XX.cs:203-209 | value i goes to position i without its dot |
| Tm16xx.ErrorGlyphsFromCharMap | src/RaspberryPiDotNet/TM16XX/TM16XX.cs:181-196 | the error text is the `charMap` patterns of 'E', 'r', 'r', 'o', 'r' |
| Tm16xx.BlankCellsFrom | src/RaspberryPiDotNet/TM16XX/TM16XX.cs:192-195 | positions from `first` up to the display count are cleared without their dot |
| Tm16xx.ErrorCells | src/RaspberryPiDotNet/TM16XX/TM16XX.cs:181-196 | "Error" on positions 0..4 and blanks from position 8 up; positions 5..7 are never sent |
| Tm16xx.Shown | src/RaspberryPiDotNet/TM16XX/TM16XX.cs:224-233 | the string loop shows at most the string's length and at most `displays - pos` characters |
| Tm16xx.FirstUnmapped | src/RaspberryPiDotNet/TM16XX/TM16XX.cs:228-231 | every earlier character is a `charMap` key, and the one found is not |
| Tm16xx.StringCells | src/RaspberryPiDotNet/TM16XX/TM16XX.cs:224-233 | character i goes to position `pos + i`, with its dot taken from bit `displays - i - 1` |
| Tm16xx.ClearFramesAreBlankCells | src/RaspberryPiDotNet/TM16XX/TM16XX.cs:211-217 | `clearDisplay` sends what blanking each position without its dot would send |
| Tm16xx.Chip.constructor | src/RaspberryPiDotNet/TM16XX/TM16XX.cs:129-150 | strobe and clock high, command 0x40, display control, then 0xC0 and sixteen zero bytes in one strobe frame |
| Tm16xx.Chip.SetActivateDisplay | src/RaspberryPiDotNet/TM16XX/TM16XX.cs:152-161 | sends 0x88 for on and 0x80 for off |
| Tm16xx.Chip.SetupDisplay | src/RaspberryPiDotNet/TM16XX/TM16XX.cs:163-172 | the display control command, then one extra clock pulse inside a strobe frame |
| Tm16xx.Chip.SendCommand | src/RaspberryPiDotNet/TM16XX/TM16XX.cs:235-240 | one byte inside a strobe frame |
| Tm16xx.Chip.SendData | src/RaspberryPiDotNet/TM16XX/TM16XX.cs:242-249 | the fixed-address command, then the address command and the byte in one frame |
| Tm16xx.Chip.Send | src/RaspberryPiDotNet/TM16XX/TM16XX.cs:251-260 | the byte's eight bits, least significant first, each put on data while the clock is low |
| Tm16xx.Chip.Receive | src/RaspberryPiDotNet/TM16XX/TM16XX.cs:262-283 | the byte read has as bits the eight levels sampled, in order, and eight levels are consumed |
| Tm16xx.Chip.SendChar | src/RaspberryPiDotNet/TM16XX/TM1638.cs:107-110 | the pattern, with bit 7 set for the dot, goes to the even address `pos << 1` |
| Tm16xx.Chip.SetDisplayDigit | src/RaspberryPiDotNet/TM16XX/TM16XX.cs:174-179 | digits 0..9 are drawn with their `charMap` pattern; from 10 up `Char.Parse` of the two- or three-character text throws FormatException and nothing is sent |
| Tm16xx.Chip.ClearDisplayDigit | src/RaspberryPiDotNet/TM16XX/TM16XX.cs:198-201 | sends an empty pattern, keeping the dot |
| Tm16xx.Chip.SetDisplay | src/RaspberryPiDotNet/TM16XX/TM16XX.cs:203-209 | values 0..size-1 on positions 0..size-1; a size beyond the array sends the whole array, then throws IndexOutOfRange |
| Tm16xx.Chip.SetDisplayToError | src/RaspberryPiDotNet/TM16XX/TM16XX.cs:181-196 | sends exactly the error cells |
| Tm16xx.Chip.ClearDisplay | src/RaspberryPiDotNet/TM16XX/TM16XX.cs:211-217 | one zero byte to address `2i` for every position i |
| Tm16xx.Chip.SetDisplayToStringAt | src/RaspberryPiDotNet/TM16XX/TM16XX.cs:224-233 | the characters before the first one missing from `charMap` are sent; KeyNotFound exactly when a shown character is missing |
| Tm16xx.Chip.SetDisplayToString | src/RaspberryPiDotNet/TM16XX/TM16XX.cs:219-222 | the same with no dots and position 0 |
| Tm1638.Shift10Zero | src/RaspberryPiDotNet/TM16XX/TM1638.cs:36-49 | nothing is left after i divisions by ten exactly when the number is below 10^i |
| Tm1638.DigitsOf | src/RaspberryPiDotNet/TM16XX/TM1638.cs:38-49 | digit i is `number % 10` after i divisions by ten |
| Tm1638.DigitsRoundTrip | src/RaspberryPiDotNet/TM16XX/TM1638.cs:36-49 | the k digits of a number below 10^k read back as the number |
| Tm1638.DecCells | src/RaspberryPiDotNet/TM16XX/TM1638.cs:36-50 | one cell per position the loop visits, step i as described |
| Tm1638.DecShowsNumber | src/RaspberryPiDotNet/TM16XX/TM1638.cs:26-57 | with leading zeros, a number up to 99999999 fills positions 7..0, and the glyphs read back as the number |
| Tm1638.DecBlanks | src/RaspberryPiDotNet/TM16XX/TM1638.cs:40-47 | without leading zeros, a position is blank exactly when the number has no digit there |
| Tm1638.Neg64 | src/RaspberryPiDotNet/TM16XX/TM1638.cs:65 | unchecked `-number` stays a `long` and is the negation for every value except `long.MinValue` |
| Tm1638.ULong | src/RaspberryPiDotNet/TM16XX/TM1638.cs:65-71 | the `(ulong)` cast is the value modulo 2^64 |
| Tm1638.SignedShowsMinus | src/RaspberryPiDotNet/TM16XX/TM1638.cs:59-77 | a negative number of up to seven digits shows its digits from position 1 on, then '-' on position 0 |
| Tm1638.SignedMinValueShowsDashRror | src/RaspberryPiDotNet/TM16XX/TM1638.cs:65-76 | `long.MinValue` shows the error text with '-' written over its 'E' |
| Tm1638.SignedIntendedErrors | src/RaspberryPiDotNet/TM16XX/TM1638.cs:65-76 | with the correction, every number below -9999999 shows the error text alone; the code as written agrees except at `long.MinValue` |
| Tm1638.BinCells | src/RaspberryPiDotNet/TM16XX/TM1638.cs:79-85 | eight cells; step i writes bit i as a 1 or a 0 |
| Tm1638.BinShowsNumber | src/RaspberryPiDotNet/TM16XX/TM1638.cs:79-85 | reading the ones back, position 7 first, gives the number |
| Tm1638.ToUpper | src/RaspberryPiDotNet/TM16XX/TM1638.cs:23 | upper-casing keeps the length and maps each character |
| Tm1638.HexRoundTrip | src/RaspberryPiDotNet/TM16XX/TM1638.cs:21-24 | the upper-cased text `ToString("x")` sends parses back to the number, and each of its characters is a `charMap` key |
| Tm1638.HexLength | src/RaspberryPiDotNet/TM16XX/TM1638.cs:23 | a number has at most k hexadecimal digits exactly when it is below 16^k |
| Tm1638.HexShowsAll | src/RaspberryPiDotNet/TM16XX/TM1638.cs:21-24 | every hexadecimal digit fits on the display exactly when the number is below 2^32 |
| Tm1638.HexUpperAmbiguous | src/RaspberryPiDotNet/TM16XX/TM1638.cs:23 | as written, 0xB looks like 0x8 and 0xD looks like 0x0 |
| Tm1638.HexIntendedDistinguishes | src/RaspberryPiDotNet/TM16XX/TM1638.cs:21-24 | with lower-case text, any two different one-digit numbers look different |
| Tm1638.LowerHexGlyphsRead | src/RaspberryPiDotNet/TM16XX/TM16XX.cs:30-127 | the pattern of each lower-case hexadecimal digit reads back as that digit |
| Tm1638.LedAndDigitAddressesDiffer | src/RaspberryPiDotNet/TM16XX/TM1638.cs:87-110 | LED addresses are odd and digit addresses are even, so an LED write never lands on a digit |
| Tm1638.KeyBytes | src/RaspberryPiDotNet/TM16XX/TM1638.cs:97-101 | byte j is the value of the eight levels sampled from input position `start + 8j` |
| Tm1638.KeysBit | src/RaspberryPiDotNet/TM16XX/TM1638.cs:97-101 | key bit k is set exactly when some byte j has bit `k - j` set |
| Tm1638.KeysFromBytes | src/RaspberryPiDotNet/TM16XX/TM1638.cs:97-101 | the loop's accumulated OR is `Keys` over the bytes read |
| Tm1638.Board.constructor | src/RaspberryPiDotNet/TM16XX/TM1638.cs:10-13 | a TM16XX with eight positions, sending its initialisation |
| Tm1638.Board.SetDisplayToHexNumber | src/RaspberryPiDotNet/TM16XX/TM1638.cs:21-24 | sends the hexadecimal cells; dots and leading zeros are not used |
| Tm1638.Board.SetDisplayToDecNumberAt | src/RaspberryPiDotNet/TM16XX/TM1638.cs:26-52 | the error text above 99999999, otherwise the decimal cells |
| Tm1638.Board.SetDisplayToDecNumber | src/RaspberryPiDotNet/TM16XX/TM1638.cs:54-57 | the same from position 0 |
| Tm1638.Board.SetDisplayToSignedDecNumber | src/RaspberryPiDotNet/TM16XX/TM1638.cs:59-77 | sends the signed cells, including the `long.MinValue` case |
| Tm1638.Board.SetDisplayToBinNumber | src/RaspberryPiDotNet/TM16XX/TM1638.cs:79-85 | sends the binary cells |
| Tm1638.Board.SetLed | src/RaspberryPiDotNet/TM16XX/TM1638.cs:87-90 | the colour goes to the odd address `(pos << 1) + 1` |
| Tm1638.Board.GetButtons | src/RaspberryPiDotNet/TM16XX/TM1638.cs:92-105 | the keys byte is `Keys` of the four bytes read; one frame with command 0x42; 32 levels consumed |
| Tm1638Legacy.FirstMissing | RaspberryPiDotNet/TM16XX/TM1638.cs:18-91 | every earlier pass can be drawn with the font, and the one found cannot |
| Tm1638Legacy.StepCells | RaspberryPiDotNet/TM16XX/TM1638.cs:18-91 | pass i writes position `7 - i`, with the dot from bit i |
| Tm1638Legacy.FullFontDrawsAll | RaspberryPiDotNet/TM16XX/TM1638.cs:18-91 | a font with every digit value used draws every pass |
| Tm1638Legacy.Shift16Div | RaspberryPiDotNet/TM16XX/TM1638.cs:20-28 | i shifts right by four divide by 16^i |
| Tm1638Legacy.HexSteps | RaspberryPiDotNet/TM16XX/TM1638.cs:20-28 | eight passes, nibble i at pass i |
| Tm1638Legacy.HexShowsNibbles | RaspberryPiDotNet/TM16XX/TM1638.cs:18-30 | pass i clears exactly when no leading zeros are wanted and nothing is left; otherwise it draws nibble i; a font of 16 draws everything |
| Tm1638Legacy.DecSteps | RaspberryPiDotNet/TM16XX/TM1638.cs:42-55 | one pass per position the loop visits |
| Tm1638Legacy.DecMatchesCurrent | RaspberryPiDotNet/TM16XX/TM1638.cs:32-58 | drawn through the `charMap` digit patterns, the legacy decimal output is the current library's and never throws |
| Tm1638Legacy.BinSteps | RaspberryPiDotNet/TM16XX/TM1638.cs:85-91 | pass i draws digit value 1 or 0 for bit i |
| Tm1638Legacy.SignedMatchesCurrent | RaspberryPiDotNet/TM16XX/TM1638.cs:65-83 | drawn through the `charMap` digit patterns, the legacy signed output is the current library's, `long.MinValue` included, and never throws |
| Tm1638Legacy.BinMatchesCurrent | RaspberryPiDotNet/TM16XX/TM1638.cs:85-91 | drawn through the `charMap` digit patterns, the legacy binary output is the current library's |
| Tm1638Legacy.BinShortFontThrows | RaspberryPiDotNet/TM16XX/TM1638.cs:85-91 | a font of fewer than two patterns throws IndexOutOfRange before anything is drawn |
| Tm1638Legacy.LedColorBits | RaspberryPiDotNet/TM16XX/TM1638.cs:98-116 | LED i is RED exactly for bit i and GREEN exactly for bit i + 8 of the mask, and nothing else |
| Tm1638Legacy.Board.constructor | RaspberryPiDotNet/TM16XX/TM1638.cs:13-16 | a TM16XX with eight positions, sending its initialisation |
| Tm1638Legacy.Board.SetDisplayDigit | RaspberryPiDotNet/TM16XX/TM1638.cs:25 | the font's pattern for the digit, or IndexOutOfRange with nothing sent |
| Tm1638Legacy.Board.SetDisplayToHexNumber | RaspberryPiDotNet/TM16XX/TM1638.cs:18-30 | sends the passes up to the first one the font cannot draw; throws exactly when there is one |
| Tm1638Legacy.Board.SetDisplayToDecNumberAt | RaspberryPiDotNet/TM16XX/TM1638.cs:32-58 | the error text above 99999999, otherwise the decimal passes through the font |
| Tm1638Legacy.Board.SetDisplayToDecNumber | RaspberryPiDotNet/TM16XX/TM1638.cs:60-63 | the same from position 0 |
| Tm1638Legacy.Board.SetDisplayToSignedDecNumber | RaspberryPiDotNet/TM16XX/TM1638.cs:65-83 | the signed rendering through the font, and the outcome it throws; `SignedMatchesCurrent` ties both to the current library's signed output |
| Tm1638Legacy.Board.SetDisplayToBinNumber | RaspberryPiDotNet/TM16XX/TM1638.cs:85-91 | the binary passes through the font |
| Tm1638Legacy.Board.SetLed | RaspberryPiDotNet/TM16XX/TM1638.cs:93-96 | the colour goes to the odd address `(pos << 1) + 1` |
| Tm1638Legacy.Board.SetLeds | RaspberryPiDotNet/TM16XX/TM1638.cs:98-116 | exactly one `setLED` per position 0..7, in order, with the colour from the mask |
| LiquidCrystal.Channel.Send | src/RaspberryPiDotNet/MicroLiquidCrystal/ILcdTransferProvider.cs:9 | the provider receives the byte, the register select and the backlight flag |
| LiquidCrystal.DisplayControlBits | src/RaspberryPiDotNet/MicroLiquidCrystal/Lcd.cs:397-406 | the display control command is 0x08 with visible, cursor and blink as bits 2, 1 and 0, each readable back |
| LiquidCrystal.BeginFunctionFlags | src/RaspberryPiDotNet/MicroLiquidCrystal/Lcd.cs:190-201 | `Begin` only sets flags: 2-line for more than one line, 5x10 for one line with tall dots, other bits kept |
| LiquidCrystal.CommandsAppend | src/RaspberryPiDotNet/MicroLiquidCrystal/Lcd.cs:188-260 | the commands of two transfer runs are the commands of each, in order |
| LiquidCrystal.FourBitResetCommands | src/RaspberryPiDotNet/MicroLiquidCrystal/Lcd.cs:207-224 | the 4-bit reset sends 0x03 three times, then 0x02 |
| LiquidCrystal.EightBitResetCommands | src/RaspberryPiDotNet/MicroLiquidCrystal/Lcd.cs:226-241 | the 8-bit reset sends function set three times |
| LiquidCrystal.StartCommands | src/RaspberryPiDotNet/MicroLiquidCrystal/Lcd.cs:247-259 | display on (0x0C), clear (0x01), entry mode 0x06 or 0x04 |
| LiquidCrystal.BeginCommandBytes | src/RaspberryPiDotNet/MicroLiquidCrystal/Lcd.cs:188-260 | the whole command sequence of `Begin` in 4-bit and 8-bit mode |
| LiquidCrystal.DataTransfers | src/RaspberryPiDotNet/MicroLiquidCrystal/Lcd.cs:353-356 | each byte is sent as data (RS high), in order |
| LiquidCrystal.Wrap32 | src/RaspberryPiDotNet/MicroLiquidCrystal/Lcd.cs:342 | `offset + count` wraps to a 32-bit `int`, and is unchanged when it fits |
| LiquidCrystal.CopyStops | src/RaspberryPiDotNet/MicroLiquidCrystal/Lcd.cs:340-347 | a copy that meets an index outside the buffer has sent the part before it and throws IndexOutOfRange |
| LiquidCrystal.CopyDone | src/RaspberryPiDotNet/MicroLiquidCrystal/Lcd.cs:340-347 | a copy that reaches its end has sent every byte and succeeds |
| LiquidCrystal.CopiedInRange | src/RaspberryPiDotNet/MicroLiquidCrystal/Lcd.cs:340-347 | a range inside the buffer goes out whole and in order |
| LiquidCrystal.CursorCommandValue | src/RaspberryPiDotNet/MicroLiquidCrystal/Lcd.cs:287-294 | on rows 0..3 the command is 0x80 plus the DDRAM address `column + RowOffsets[row]` |
| LiquidCrystal.CgramCommandValue | src/RaspberryPiDotNet/MicroLiquidCrystal/Lcd.cs:379-387 | the CGRAM command is 0x40 plus eight times the slot `location & 7` |
| LiquidCrystal.Lcd.constructor | src/RaspberryPiDotNet/MicroLiquidCrystal/Lcd.cs:71-84 | the function byte follows the provider's bus width; then `Begin(16, 1)` leaves the display on, the cursor off and one line of 16 columns |
| LiquidCrystal.Lcd.Create | src/RaspberryPiDotNet/MicroLiquidCrystal/Lcd.cs:71-84 | ArgumentNullException for a null provider; otherwise a fresh driver whose provider received the whole `Begin` sequence |
| LiquidCrystal.Lcd.SendCommand | src/RaspberryPiDotNet/MicroLiquidCrystal/Lcd.cs:362-365 | one instruction with RS low and the current backlight flag |
| LiquidCrystal.Lcd.WriteByte | src/RaspberryPiDotNet/MicroLiquidCrystal/Lcd.cs:353-356 | one data byte with RS high and the current backlight flag |
| LiquidCrystal.Lcd.UpdateDisplayControl | src/RaspberryPiDotNet/MicroLiquidCrystal/Lcd.cs:397-406 | one display control command from the three flags |
| LiquidCrystal.Lcd.SetShowCursor | src/RaspberryPiDotNet/MicroLiquidCrystal/Lcd.cs:94-104 | the flag takes the value; one display control command when it changes, none otherwise; nothing else changes |
| LiquidCrystal.Lcd.SetBlinkCursor | src/RaspberryPiDotNet/MicroLiquidCrystal/Lcd.cs:109-120 | the same for blinking |
| LiquidCrystal.Lcd.SetVisible | src/RaspberryPiDotNet/MicroLiquidCrystal/Lcd.cs:125-136 | the same for visibility |
| LiquidCrystal.Lcd.SetBacklight | src/RaspberryPiDotNet/MicroLiquidCrystal/Lcd.cs:142-153 | the same for the backlight |
| LiquidCrystal.Lcd.Begin | src/RaspberryPiDotNet/MicroLiquidCrystal/Lcd.cs:188-260 | the new function byte, line and column counts; display on, cursor off, backlight on; the provider receives the `Begin` sequence |
| LiquidCrystal.Lcd.WarmUp | src/RaspberryPiDotNet/MicroLiquidCrystal/Lcd.cs:204-244 | the 50 ms wait, the reset for the bus width, then function set |
| LiquidCrystal.Lcd.Start | src/RaspberryPiDotNet/MicroLiquidCrystal/Lcd.cs:247-259 | display on without cursor, then clear and entry mode; the other settings are kept |
| LiquidCrystal.Lcd.SendReset | src/RaspberryPiDotNet/MicroLiquidCrystal/Lcd.cs:207-241 | the reset transfers for the provider's bus width |
| LiquidCrystal.Lcd.Clear | src/RaspberryPiDotNet/MicroLiquidCrystal/Lcd.cs:265-269 | instruction 0x01, then a 2 ms wait |
| LiquidCrystal.Lcd.Home | src/RaspberryPiDotNet/MicroLiquidCrystal/Lcd.cs:276-280 | instruction 0x02, then a 2 ms wait |
| LiquidCrystal.Lcd.ScrollDisplayLeft | src/RaspberryPiDotNet/MicroLiquidCrystal/Lcd.cs:299-303 | instruction 0x18 |
| LiquidCrystal.Lcd.ScrollDisplayRight | src/RaspberryPiDotNet/MicroLiquidCrystal/Lcd.cs:308-312 | instruction 0x1C |
| LiquidCrystal.Lcd.MoveCursor | src/RaspberryPiDotNet/MicroLiquidCrystal/Lcd.cs:318-322 | instruction 0x14 to the right, 0x10 to the left |
| LiquidCrystal.Lcd.SetCursorPosition | src/RaspberryPiDotNet/MicroLiquidCrystal/Lcd.cs:287-294 | a row beyond the line count becomes the last line; rows 0..3 send the set-DDRAM command; any other row throws IndexOutOfRange and sends nothing |
| LiquidCrystal.Lcd.Write | src/RaspberryPiDotNet/MicroLiquidCrystal/Lcd.cs:340-347 | data bytes from `offset` up to the wrapped `offset + count`, stopping with IndexOutOfRange at the first index outside the buffer |
| LiquidCrystal.Lcd.CreateChar | src/RaspberryPiDotNet/MicroLiquidCrystal/Lcd.cs:379-387 | the CGRAM address command, then the eight rows from `offset`, stopping at the first index outside the array |
| LiquidCrystal.Lcd.WriteRange | src/RaspberryPiDotNet/MicroLiquidCrystal/Lcd.cs:342-346 | the copy loop sends exactly `Copied` and ends with `CopyOutcome` |
| LcdProvider.Given | src/RaspberryPiDotNet/MicroLiquidCrystal/RaspPiGPIOMemLcdTransferProvider.cs:69-75 | only data pins other than GPIO_NONE are opened |
| LcdProvider.GivenAppend | src/RaspberryPiDotNet/MicroLiquidCrystal/RaspPiGPIOMemLcdTransferProvider.cs:69-75 | the given pins of two runs of lines are those of each, in order |
| LcdProvider.GivenAll | src/RaspberryPiDotNet/MicroLiquidCrystal/RaspPiGPIOMemLcdTransferProvider.cs:69-75 | with every pin given, every line is opened |
| LcdProvider.PlanSnoc | src/RaspberryPiDotNet/MicroLiquidCrystal/RaspPiGPIOMemLcdTransferProvider.cs:60-75 | opening one more pin succeeds exactly when that pin is new and not held |
| LcdProvider.LastWriteFrom | src/RaspberryPiDotNet/MicroLiquidCrystal/RaspPiGPIOMemLcdTransferProvider.cs:147-168 | a write to a pin that no later event touches decides the pin's level |
| LcdProvider.Then | src/RaspberryPiDotNet/MicroLiquidCrystal/RaspPiGPIOMemLcdTransferProvider.cs:121-145 | a step after one that threw does not run |
| LcdProvider.Writes | src/RaspberryPiDotNet/MicroLiquidCrystal/RaspPiGPIOMemLcdTransferProvider.cs:147-168 | line j gets bit j of the value |
| LcdProvider.FirstAbsent | src/RaspberryPiDotNet/MicroLiquidCrystal/RaspPiGPIOMemLcdTransferProvider.cs:147-168 | every earlier line has a port, and the one found has none |
| LcdProvider.DataRunOk | src/RaspberryPiDotNet/MicroLiquidCrystal/RaspPiGPIOMemLcdTransferProvider.cs:147-155 | the data writes succeed exactly when every line has a port, and then every line gets its bit |
| LcdProvider.DataRunStops | src/RaspberryPiDotNet/MicroLiquidCrystal/RaspPiGPIOMemLcdTransferProvider.cs:147-155 | at the first line without a port, the writes stop with NullReferenceException |
| LcdProvider.PlanApart | src/RaspberryPiDotNet/MicroLiquidCrystal/RaspPiGPIOMemLcdTransferProvider.cs:53-76 | the pins of a constructed provider are pairwise different |
| LcdProvider.GivenDistinct | src/RaspberryPiDotNet/MicroLiquidCrystal/RaspPiGPIOMemLcdTransferProvider.cs:69-75 | two lines with distinct given pins never share a pin |
| LcdProvider.EightBitLatchesValue | src/RaspberryPiDotNet/MicroLiquidCrystal/RaspPiGPIOMemLcdTransferProvider.cs:121-155 | in 8-bit mode the transfer ends with one pulse; when E falls, RS shows the mode and the data lines show exactly the byte |
| LcdProvider.EightBitShape | src/RaspberryPiDotNet/MicroLiquidCrystal/RaspPiGPIOMemLcdTransferProvider.cs:136-155 | an 8-bit transfer is select, eight writes and a pulse |
| LcdProvider.FourBitLatchesValue | src/RaspberryPiDotNet/MicroLiquidCrystal/RaspPiGPIOMemLcdTransferProvider.cs:121-168 | in 4-bit mode there are two pulses; lines 4..7 show the high nibble at the first and the low nibble at the second, with RS at the mode; together they make the byte |
| LcdProvider.FourBitShape | src/RaspberryPiDotNet/MicroLiquidCrystal/RaspPiGPIOMemLcdTransferProvider.cs:142-168 | a 4-bit transfer is select, high nibble, pulse, low nibble, pulse |
| LcdProvider.FourBitRsHeld | src/RaspberryPiDotNet/MicroLiquidCrystal/RaspPiGPIOMemLcdTransferProvider.cs:128-168 | RS is not touched again before either pulse |
| LcdProvider.LowNibble | src/RaspberryPiDotNet/MicroLiquidCrystal/RaspPiGPIOMemLcdTransferProvider.cs:142-143 | the low four bits of a byte are the byte modulo 16, and with the high nibble they rebuild the byte |
| LcdProvider.MissingPortNoPulse | src/RaspberryPiDotNet/MicroLiquidCrystal/RaspPiGPIOMemLcdTransferProvider.cs:147-155 | in 8-bit mode a missing data port stops the transfer before E is pulsed |
| LcdProvider.ClashOpens | src/RaspberryPiDotNet/MicroLiquidCrystal/RaspPiGPIOMemLcdTransferProvider.cs:53-76 | the plan has no clash exactly when its pins are distinct and free; the pins before the clash are distinct and free; the pin at the clash is held or repeats an earlier one |
| LcdProvider.ClashNone | src/RaspberryPiDotNet/MicroLiquidCrystal/RaspPiGPIOMemLcdTransferProvider.cs:53-76 | a plan of distinct free pins is opened whole |
| LcdProvider.ClashPrefix | src/RaspberryPiDotNet/MicroLiquidCrystal/RaspPiGPIOMemLcdTransferProvider.cs:53-76 | a clash inside a prefix is where every longer plan that starts so stops |
| LcdProvider.ClashAt | src/RaspberryPiDotNet/MicroLiquidCrystal/RaspPiGPIOMemLcdTransferProvider.cs:53-76 | a pin that is held or repeats the openable pins before it is where the plan stops |
| LcdProvider.SelectClash | src/RaspberryPiDotNet/MicroLiquidCrystal/RaspPiGPIOMemLcdTransferProvider.cs:60-64 | opening RS then RW stops at RS when RS is held, after RS when RW is missing, held or equal to RS, and after both otherwise |
| LcdProvider.ControlClash | src/RaspberryPiDotNet/MicroLiquidCrystal/RaspPiGPIOMemLcdTransferProvider.cs:59-67 | with RS and RW clashing, the constructor ends with their openable prefix and PinInUse; with E missing after them, ArgumentException; the head of the plan opens whole exactly when RS and RW do and E is new and free |
| LcdProvider.PlanClash | src/RaspberryPiDotNet/MicroLiquidCrystal/RaspPiGPIOMemLcdTransferProvider.cs:59-75 | with E given, a clash among RS, RW and E is where the whole construction stops, and a plan of distinct free pins is opened whole |
| LcdProvider.LineClash | src/RaspberryPiDotNet/MicroLiquidCrystal/RaspPiGPIOMemLcdTransferProvider.cs:69-75 | a given data pin extends the pins opened so far, and one that is held or repeated is where the whole plan stops |
| LcdProvider.DataPrefix | src/RaspberryPiDotNet/MicroLiquidCrystal/RaspPiGPIOMemLcdTransferProvider.cs:69-75 | a given data line comes right after the given lines before it in the plan |
| LcdProvider.OpensCalls | src/RaspberryPiDotNet/MicroLiquidCrystal/RaspPiGPIOMemLcdTransferProvider.cs:60-74 | opening pin i of a plan makes library calls 2i (`fsel` to output) and 2i + 1 (`gpio_write` low) |
| LcdProvider.OpensSnoc | src/RaspberryPiDotNet/MicroLiquidCrystal/RaspPiGPIOMemLcdTransferProvider.cs:60-74 | opening one more pin appends its two calls |
| LcdProvider.GpioProvider.Build | src/RaspberryPiDotNet/MicroLiquidCrystal/RaspPiGPIOMemLcdTransferProvider.cs:53-76 | a provider over handles opened on a distinct plan is fresh and valid, reports that plan, and holds only those handles |
| LcdProvider.GpioProvider.Create | src/RaspberryPiDotNet/MicroLiquidCrystal/RaspPiGPIOMemLcdTransferProvider.cs:53-76 | succeeds exactly when the library works, RS and E are given, and every planned pin is distinct and free, and then the host log gains the `fsel` and `gpio_write` of every planned pin in order; with RS missing or the library down nothing is opened or called; otherwise the pins opened before the failure (`Opening`) stay registered, their calls are logged, and the exception is ArgumentException for a missing E after RS and RW opened, else PinInUse |
| LcdProvider.GpioProvider.OpenControl | src/RaspberryPiDotNet/MicroLiquidCrystal/RaspPiGPIOMemLcdTransferProvider.cs:59-67 | opens RS, RW when given, and E; on failure the pins up to the first clash stay open with their calls logged and the fault is `OpeningFault` (ArgumentException for a missing E that leaves RS open); on success the calls of RS, RW and E are logged |
| LcdProvider.GpioProvider.OpenSelect | src/RaspberryPiDotNet/MicroLiquidCrystal/RaspPiGPIOMemLcdTransferProvider.cs:60-64 | opens RS, then RW when given; succeeds exactly when they are distinct and free; the pins before the first clash are registered and their calls logged; the fault is PinInUse |
| LcdProvider.GpioProvider.OpenData | src/RaspberryPiDotNet/MicroLiquidCrystal/RaspPiGPIOMemLcdTransferProvider.cs:69-75 | opens every given data pin; succeeds exactly when the whole plan is distinct and free; whatever the outcome, the plan's pins up to its first clash are registered and their calls logged; the fault is PinInUse |
| LcdProvider.GpioProvider.OpenLine | src/RaspberryPiDotNet/MicroLiquidCrystal/RaspPiGPIOMemLcdTransferProvider.cs:69-75 | line i is opened if its pin is given; a failure means the whole plan cannot be opened, and leaves the plan's pins up to its first clash registered with their calls logged |
| LcdProvider.GpioProvider.OpenPort | src/RaspberryPiDotNet/MicroLiquidCrystal/RaspPiGPIOMemLcdTransferProvider.cs:60-74 | one GPIOMem output; succeeds exactly when the pin is new and not held, and then appends its `fsel` and `gpio_write` calls; a failure calls nothing and is PinInUse once the library works |
| LcdProvider.GpioProvider.Dispose | src/RaspberryPiDotNet/MicroLiquidCrystal/RaspPiGPIOMemLcdTransferProvider.cs:88-108 | releases RS, RW, E and the data pins, then marks the provider disposed; without RW it throws after releasing RS; a disposed provider is left alone |
| LcdProvider.GpioProvider.ReleaseRest | src/RaspberryPiDotNet/MicroLiquidCrystal/RaspPiGPIOMemLcdTransferProvider.cs:96-97 | RW, then E, are disposed and their pins released |
| LcdProvider.GpioProvider.DisposeData | src/RaspberryPiDotNet/MicroLiquidCrystal/RaspPiGPIOMemLcdTransferProvider.cs:98-104 | every data port that exists is disposed, and its pin released |
| LcdProvider.GpioProvider.DisposeLine | src/RaspberryPiDotNet/MicroLiquidCrystal/RaspPiGPIOMemLcdTransferProvider.cs:98-104 | port i, if it exists, is disposed |
| LcdProvider.GpioProvider.Release | src/RaspberryPiDotNet/GPIO.cs:231-239 | disposing an open GPIOMem handle frees its pin and calls nothing in the library |
| LcdProvider.GpioProvider.Send | src/RaspberryPiDotNet/MicroLiquidCrystal/RaspPiGPIOMemLcdTransferProvider.cs:121-145 | throws once disposed; otherwise the `gpio_write` calls of select and transfer, with the transfer's outcome; the backlight is ignored |
| LcdProvider.GpioProvider.Transfer | src/RaspberryPiDotNet/MicroLiquidCrystal/RaspPiGPIOMemLcdTransferProvider.cs:136-143 | `Write8Bits(value)`, or the two nibbles in 4-bit mode |
| LcdProvider.GpioProvider.WriteNibbles | src/RaspberryPiDotNet/MicroLiquidCrystal/RaspPiGPIOMemLcdTransferProvider.cs:142-143 | the high nibble, then the low one unless the first threw |
| LcdProvider.GpioProvider.SelectRegister | src/RaspberryPiDotNet/MicroLiquidCrystal/RaspPiGPIOMemLcdTransferProvider.cs:128-134 | RS gets the mode and RW, when wired, goes low; a disposed RS handle throws |
| LcdProvider.GpioProvider.Drive | src/RaspberryPiDotNet/GPIOMem.cs:99-102 | one `gpio_write` on an open output |
| LcdProvider.GpioProvider.Write8Bits | src/RaspberryPiDotNet/MicroLiquidCrystal/RaspPiGPIOMemLcdTransferProvider.cs:147-155 | line i gets bit i, then a pulse; a missing port throws |
| LcdProvider.GpioProvider.Write4Bits | src/RaspberryPiDotNet/MicroLiquidCrystal/RaspPiGPIOMemLcdTransferProvider.cs:157-168 | line 4 + i gets bit i, then a pulse |
| LcdProvider.GpioProvider.PulseEnable | src/RaspberryPiDotNet/MicroLiquidCrystal/RaspPiGPIOMemLcdTransferProvider.cs:170-175 | E low, high, low |
| Adc.CommandBits | src/RaspberryPiDotNet/MCP3008.cs:69-86 | five command bits |
| Adc.MsbValue | src/RaspberryPiDotNet/MCP3008.cs:88-97 | the number made from n bits is below 2^n |
| Adc.ChannelFromCommand | src/RaspberryPiDotNet/MCP3008.cs:69-86 | the channel can be read back from the last three command bits, so different channels send different commands |
| Adc.CommandWordBit | src/RaspberryPiDotNet/MCP3008.cs:69-86 | testing bit 7 of `commandout` before each shift gives the start bit, the single-ended bit and the channel bits in order |
| Adc.ShiftInBit | src/RaspberryPiDotNet/MCP3008.cs:88-97 | shifting left and ORing in a high level appends that level as the new lowest bit |
| Adc.DropNullBit | src/RaspberryPiDotNet/MCP3008.cs:100-101 | `adcout / 2` on the twelve bits read is the number the first eleven make, below 2048 |
| Adc.CommandCyclesLevels | src/RaspberryPiDotNet/MCP3008.cs:69-86 | the command cycles put exactly the command bits on MOSI |
| Adc.ReadCyclesLevels | src/RaspberryPiDotNet/MCP3008.cs:88-97 | the response cycles sample exactly the input window from MISO |
| Adc.ConversionData | src/RaspberryPiDotNet/MCP3008.cs:58-102 | a conversion sends the command bits on MOSI and samples twelve levels from MISO, in order |
| Adc.ConversionSelected | src/RaspberryPiDotNet/MCP3008.cs:64-99 | every MOSI and MISO signal happens while CS is low, and CS is high at the end |
| Adc.ConversionClocked | src/RaspberryPiDotNet/MCP3008.cs:64-86 | each command bit is put on MOSI while the clock is low |
| Adc.Mcp3008.constructor | src/RaspberryPiDotNet/MCP3008.cs:29-36 | the fields are set |
| Adc.Mcp3008.Create | src/RaspberryPiDotNet/MCP3008.cs:29-45 | IndexOutOfRange exactly when the channel is outside 0..7 |
| Adc.Mcp3008.ReadAdc | src/RaspberryPiDotNet/MCP3008.cs:58-102 | -1 with nothing sent for a channel outside 0..7; otherwise one conversion, and the result is the number the first eleven of the twelve levels read make, most significant first (`adcout /= 2` drops the last level read), below 2048 |
| Adc.Mcp3008.SendCommand | src/RaspberryPiDotNet/MCP3008.cs:69-86 | the command loop sends the five command bits |
| Adc.Mcp3008.ReadResponse | src/RaspberryPiDotNet/MCP3008.cs:88-97 | the response loop returns the twelve levels read as a number, most significant first |
| Thermometer.OrInBit | src/RaspberryPiDotNet/DS1620.cs:53-67 | ORing `bit << n` into `raw_data` adds bit n to a number below 2^n |
| Thermometer.CommandOnDq | src/RaspberryPiDotNet/DS1620.cs:36-47 | a command puts its eight bits on DQ, least significant first, and reads nothing |
| Thermometer.ReadCyclesSamples | src/RaspberryPiDotNet/DS1620.cs:53-67 | the read cycles sample exactly the input window from DQ |
| Thermometer.TemperatureData | src/RaspberryPiDotNet/DS1620.cs:73-93 | one temperature read sends 0x0C, 0x02, 0xEE and 0xAA on DQ and reads nine bits |
| Thermometer.TemperatureFramed | src/RaspberryPiDotNet/DS1620.cs:73-93 | all DQ traffic happens while RST is high; RST rises only while the clock is high; RST is low at the end |
| Thermometer.Ds1620.constructor | src/RaspberryPiDotNet/DS1620.cs:14-19 | the fields are set |
| Thermometer.Ds1620.SendCommand | src/RaspberryPiDotNet/DS1620.cs:36-47 | the command's eight bits, least significant first, each with a clock pulse |
| Thermometer.Ds1620.ReadData | src/RaspberryPiDotNet/DS1620.cs:53-67 | the nine levels read as a number, least significant first, below 512 |
| Thermometer.Ds1620.Configure | src/RaspberryPiDotNet/DS1620.cs:75-82 | RST low, write config with CPU mode, then a 200 ms wait |
| Thermometer.Ds1620.Convert | src/RaspberryPiDotNet/DS1620.cs:83-87 | start conversion, then a 200 ms wait |
| Thermometer.Ds1620.ReadOut | src/RaspberryPiDotNet/DS1620.cs:88-92 | read temperature: the command, then nine bits, in one RST frame |
| Thermometer.Ds1620.GetTemperature | src/RaspberryPiDotNet/DS1620.cs:73-93 | the raw register (half degrees) is the nine levels read, below 512, after the full exchange |

## Left out

- GPIOFile's file I/O is not modelled. Only whether sysfs works decides whether a GPIOFile handle succeeds. Its export step and the `Write(PinState)` overload are covered by the shared members.
- GPIOMem's `SetMulti`, `ClearMulti` and `WriteMulti` are not modelled: they are static pass-throughs to the bcm2835 library with no logic of their own.
- Finalizers, the `IsDisposed` getter and the convenience constructors are not modelled separately. The constructors are folded into `Construct` and `Create`, with their default arguments.
- Thread sleeps are recorded as pauses in the drivers' traces and as waits in the LCD transfer log. Their real time is not modelled.
- The provider's `Write4Bits` sleep of 1 ms does not appear in the event log.
- Debug and console output is not modelled. This includes `Console.WriteLine` in DS1620's `ReadData`.
- Thermometer.Ds1620.GetTemperature: returns the half-degree count, because the division `raw / 2.0` to a `double` is floating point. The `Temperature` getter is that value.
- Adc.Mcp3008.ReadAdc: the `AnalogToDigital` getter is this method.
- Adc.Mcp3008.ReadAdc: the chip's side of the exchange is not modelled, so the model does not say which of the twelve levels are the null bit and the ten data bits. The comments at src/RaspberryPiDotNet/MCP3008.cs:89 and :100 say that an empty bit and a null bit come first and that the division drops the null bit. The code, which the model follows, keeps the first eleven levels and drops the twelfth.
- The drivers (TM16XX, MCP3008, DS1620) assume their GPIO handles are live. A disposed handle throwing inside a driver is not modelled.
- `Lcd.Write(string)` and the `Encoding` property are not modelled: the method encodes the text with that settable property, UTF-8 by default, and the model starts from bytes.
- The TM16XX base class of the legacy TM1638 is not part of this model. The legacy board is modelled over the current `Tm16xx` base class. Its font-based `setDisplayDigit` is modelled as the font's pattern sent with `sendChar`, and an index outside the font throws IndexOutOfRange.
- The legacy `getButtons` and `sendChar` are not modelled a second time. Their text is identical to the current file's, so `Tm1638.Board.GetButtons` and `Tm16xx.Chip.SendChar` cover them.
- LcdProvider.GpioProvider.Send: the `backlight` argument is accepted and ignored, as in the source.
- Only the MCP3008's single-ended conversion the source uses is modelled. Concurrency and locking are not modelled.

## Findings

| source | as written | input that shows it | evidently intended | confidence | as-written member | corrected member |
|---|---|---|---|---|---|---|
| src/RaspberryPiDotNet/TM16XX/TM1638.cs:65-76 | `-number` on `long.MinValue` stays negative, so the range test passes, the error text is shown and then '-' overwrites position 0 | `setDisplayToSignedDecNumber(long.MinValue, 0, false)` | every number below -9999999 shows the error text alone | not executed | Tm1638.SignedMinValueShowsDashRror | Tm1638.SignedIntendedErrors |
| src/RaspberryPiDotNet/TM16XX/TM1638.cs:23 | the hexadecimal text is upper-cased, and `charMap` draws 'B' like '8' and 'D' like '0' | `setDisplayToHexNumber(0xB, 0, false)` and `setDisplayToHexNumber(0x8, 0, false)` light the same segments | the lower-case digits `ToString("x")` already gives, whose sixteen glyphs all differ | not executed | Tm1638.HexUpperAmbiguous | Tm1638.HexIntendedDistinguishes |
| src/RaspberryPiDotNet/GPIOPins.cs:139-140 | `GPIOPinMask.GPIO_00 = 0` and `GPIO_01 = 1`, written as pin numbers | `GPIO_00` is the empty mask, and `GPIO_01` selects pin 0 | `1 << 0` and `1 << 1`, like every other member | not executed | Pins.MaskDisagreesAtGpio00And01 | Pins.IntendedMaskAgrees |
