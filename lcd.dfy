/**
 * The HD44780 character display driver (MicroLiquidCrystal/Lcd.cs): display-control
 * attributes, the initialisation sequence of figures 23 and 24 of the Hitachi HD44780
 * datasheet, cursor addressing, custom characters and data writes.
 *
 * The driver only talks to its transfer provider (`ILcdTransferProvider`), so the
 * provider here is a `Channel` that records each `Send(data, mode, backlight)`; the
 * driver's own `Thread.Sleep` calls go into the same record as `Delay`s, so the order
 * of commands and waits is visible. LcdProvider shows what one `Send` does on the pins.
 */
module LiquidCrystal {
  import opened Faults
  import opened Wire

  /** DDRAM address of the first column of rows 0..3. */
  const RowOffsets: seq<byte> := [0x00, 0x40, 0x14, 0x54]

  // Instructions.
  const ClearDisplayCmd: byte := 0x01
  const ReturnHomeCmd: byte := 0x02
  const EntryModeSet: byte := 0x04
  const DisplayControlCmd: byte := 0x08
  const CursorShift: byte := 0x10
  const FunctionSet: byte := 0x20
  const SetCgramAddr: byte := 0x40
  const SetDdramAddr: byte := 0x80

  // Flags of the entry mode, display control and function set instructions.
  const EntryLeft: byte := 0x02
  const EntryRight: byte := 0x00
  const EntryShiftDecrement: byte := 0x00
  const DisplayOn: byte := 0x04
  const CursorOn: byte := 0x02
  const BlinkOn: byte := 0x01
  const FourBitMode: byte := 0x00
  const EightBitMode: byte := 0x10
  const TwoLine: byte := 0x08
  const Dots5x10: byte := 0x04

  /** What the driver hands to its provider, or a wait. */
  datatype Transfer = Send(data: byte, mode: bool, backlight: bool) | Delay(ms: nat)

  /** An instruction (RS low). */
  function Command(c: byte, backlight: bool): Transfer
  {
    Send(c, false, backlight)
  }

  /** The provider as the driver sees it: its bus width and everything sent to it. */
  class Channel {
    const fourBitMode: bool
    var log: seq<Transfer>

    constructor (fourBitMode: bool)
      ensures this.fourBitMode == fourBitMode && log == []
    {
      this.fourBitMode := fourBitMode;
      log := [];
    }

    /** `ILcdTransferProvider.Send`. */
    method Send(data: byte, mode: bool, backlight: bool)
      modifies this
      ensures log == old(log) + [Transfer.Send(data, mode, backlight)]
    {
      log := log + [Transfer.Send(data, mode, backlight)];
    }

    /** `Thread.Sleep(ms)` in the driver. */
    method Pause(ms: nat)
      modifies this
      ensures log == old(log) + [Delay(ms)]
    {
      log := log + [Delay(ms)];
    }
  }

  /** `UpdateDisplayControl`'s command: `0x08 | visible·0x04 | cursor·0x02 | blink·0x01`. */
  function DisplayControl(visible: bool, cursor: bool, blink: bool): byte
  {
    OrByte(OrByte(OrByte(DisplayControlCmd, if visible then DisplayOn else 0), if cursor then CursorOn else 0),
      if blink then BlinkOn else 0)
  }

  /** The command is the instruction 0x08 with the three flags as its low bits, so each flag can be read back. */
  lemma DisplayControlBits(visible: bool, cursor: bool, blink: bool)
    ensures DisplayControl(visible, cursor, blink) == 8 + (if visible then 4 else 0) + (if cursor then 2 else 0) + (if blink then 1 else 0)
    ensures var c := DisplayControl(visible, cursor, blink);
      c / 8 == 1 && (Bit(c, 2) <==> visible) && (Bit(c, 1) <==> cursor) && (Bit(c, 0) <==> blink)
  {
    DisplayControlValue(visible, cursor, blink);
    var c := DisplayControl(visible, cursor, blink);
    assert Bit(c, 2) <==> c / 4 % 2 == 1;
  }

  lemma DisplayControlValue(visible: bool, cursor: bool, blink: bool)
    ensures DisplayControl(visible, cursor, blink) == 8 + (if visible then 4 else 0) + (if cursor then 2 else 0) + (if blink then 1 else 0)
  {
    var v: byte := if visible then 4 else 0;
    var c: byte := if cursor then 2 else 0;
    var b: byte := if blink then 1 else 0;
    assert Or(8, v) == 8 + v;
    assert Or(8 + v, c) == 8 + v + c;
    assert Or(8 + v + c, b) == 8 + v + c + b;
  }

  /** `_displayFunction` after `Begin`: the 2-line flag for more than one line, the 5x10 flag for a 1-line display that asks for it. */
  function BeginFunction(displayFunction: byte, lines: byte, dotSize: bool): byte
  {
    var f := if lines > 1 then OrByte(displayFunction, TwoLine) else displayFunction;
    if dotSize && lines == 1 then OrByte(f, Dots5x10) else f
  }

  /** `Begin` only sets flags: bit 3 iff more than one line, bit 2 iff 5x10 dots on one line, every other bit kept. */
  lemma BeginFunctionFlags(displayFunction: byte, lines: byte, dotSize: bool, k: nat)
    requires k < 8
    ensures Bit(displayFunction, k) ==> Bit(BeginFunction(displayFunction, lines, dotSize), k)
    ensures k != 2 && k != 3 ==> (Bit(BeginFunction(displayFunction, lines, dotSize), k) <==> Bit(displayFunction, k))
    ensures lines > 1 ==> Bit(BeginFunction(displayFunction, lines, dotSize), 3)
    ensures dotSize && lines == 1 ==> Bit(BeginFunction(displayFunction, lines, dotSize), 2)
  {
    var f := if lines > 1 then OrByte(displayFunction, TwoLine) else displayFunction;
    assert Bit(TwoLine, k) <==> k == 3 by { FlagBit(k); }
    assert Bit(Dots5x10, k) <==> k == 2 by { FlagBit(k); }
    assert Bit(f, k) <==> Bit(displayFunction, k) || (lines > 1 && k == 3);
  }

  lemma FlagBit(k: nat)
    requires k < 8
    ensures Bit(TwoLine, k) <==> k == 3
    ensures Bit(Dots5x10, k) <==> k == 2
  {
    if k == 0 {} else if k == 1 {} else if k == 2 {} else if k == 3 {}
    else if k == 4 {} else if k == 5 {} else if k == 6 {} else {}
  }

  /** The entry mode instruction: left to right sets I/D, the display never shifts. */
  function EntryMode(leftToRight: bool): byte
  {
    OrByte(EntryModeSet, OrByte(if leftToRight then EntryLeft else EntryRight, EntryShiftDecrement))
  }

  /**
   * The first commands of `Begin`, before "function set": the 4-bit reset of figure 24
   * (0x03 three times, then 0x02), or function set three times as in figure 23.
   */
  function ResetTransfers(fourBit: bool, flags: byte, backlight: bool): seq<Transfer>
  {
    var fs := OrByte(FunctionSet, flags);
    if fourBit then
      [Command(0x03, backlight), Delay(5), Command(0x03, backlight), Delay(5), Command(0x03, backlight), Delay(5), Command(0x02, backlight)]
    else
      [Command(fs, backlight), Delay(5), Command(fs, backlight), Delay(1), Command(fs, backlight)]
  }

  /**
   * Everything `Begin` sends: warm-up, reset, function set (all with the backlight flag
   * as it was), then display on without cursor, clear and entry mode with the backlight on.
   */
  function BeginTransfers(fourBit: bool, flags: byte, backlight: bool, leftToRight: bool): seq<Transfer>
  {
    WarmUpTransfers(fourBit, flags, backlight) + StartTransfers(leftToRight)
  }

  /** The start of `Begin`: a 50 ms wait, the reset, then function set. */
  function WarmUpTransfers(fourBit: bool, flags: byte, backlight: bool): seq<Transfer>
  {
    [Delay(50)] + ResetTransfers(fourBit, flags, backlight) + [Command(OrByte(FunctionSet, flags), backlight)]
  }

  /** The end of `Begin`: display on without cursor, clear and entry mode, with the backlight on. */
  function StartTransfers(leftToRight: bool): seq<Transfer>
  {
    [Command(DisplayControl(true, false, false), true), Command(ClearDisplayCmd, true), Delay(2),
     Command(EntryMode(leftToRight), true)]
  }

  /** The commands alone, in order. */
  function Commands(ts: seq<Transfer>): seq<byte>
  {
    if ts == [] then []
    else (if ts[0].Send? && !ts[0].mode then [ts[0].data] else []) + Commands(ts[1..])
  }

  lemma {:induction false} CommandsAppend(a: seq<Transfer>, b: seq<Transfer>)
    ensures Commands(a + b) == Commands(a) + Commands(b)
  {
    if a == [] {
      assert a + b == b;
    } else {
      assert (a + b)[0] == a[0];
      assert (a + b)[1..] == a[1..] + b;
      CommandsAppend(a[1..], b);
      Regroup(if a[0].Send? && !a[0].mode then [a[0].data] else [], Commands(a[1..]), Commands(b));
    }
  }

  /**
   * The command bytes of `Begin` on a fresh driver (whose function byte has no bit 5):
   * 4-bit: 0x03, 0x03, 0x03, 0x02, then function set; 8-bit: function set four times;
   * then 0x0C (display on), 0x01 (clear), and 0x06 or 0x04 (entry mode).
   */
  lemma BeginCommandBytes(fourBit: bool, flags: byte, backlight: bool, leftToRight: bool)
    requires flags < 0x20
    ensures var fs := 0x20 + flags;
      Commands(BeginTransfers(fourBit, flags, backlight, leftToRight))
      == (if fourBit then [0x03, 0x03, 0x03, 0x02, fs] else [fs, fs, fs, fs])
         + [0x0C, 0x01, if leftToRight then 0x06 else 0x04]
  {
    var fs := OrByte(FunctionSet, flags);
    FunctionSetValue(flags);
    var reset := ResetTransfers(fourBit, flags, backlight);
    CommandsAppend([Delay(50)], reset);
    CommandsAppend([Delay(50)] + reset, [Command(fs, backlight)]);
    CommandsAppend(WarmUpTransfers(fourBit, flags, backlight), StartTransfers(leftToRight));
    assert Commands([Delay(50)]) == [] by { CommandsUnfold([Delay(50)], 0); }
    assert Commands([Command(fs, backlight)]) == [fs] by { CommandsUnfold([Command(fs, backlight)], 0); }
    ResetCommands(fourBit, flags, backlight);
    StartCommands(leftToRight);
  }

  lemma ResetCommands(fourBit: bool, flags: byte, backlight: bool)
    ensures var fs := OrByte(FunctionSet, flags);
      Commands(ResetTransfers(fourBit, flags, backlight)) == if fourBit then [0x03, 0x03, 0x03, 0x02] else [fs, fs, fs]
  {
    if fourBit {
      FourBitResetCommands(flags, backlight);
    } else {
      EightBitResetCommands(flags, backlight);
    }
  }

  lemma FourBitResetCommands(flags: byte, backlight: bool)
    ensures Commands(ResetTransfers(true, flags, backlight)) == [0x03, 0x03, 0x03, 0x02]
  {
    var r := ResetTransfers(true, flags, backlight);
    CommandsUnfold(r, 6);
    CommandsUnfold(r, 5);
    assert Commands(r[5..]) == [0x02];
    CommandsUnfold(r, 4);
    CommandsUnfold(r, 3);
    assert Commands(r[3..]) == [0x03, 0x02];
    CommandsUnfold(r, 2);
    CommandsUnfold(r, 1);
    assert Commands(r[1..]) == [0x03, 0x03, 0x02];
    CommandsUnfold(r, 0);
    assert r[0..] == r;
  }

  lemma EightBitResetCommands(flags: byte, backlight: bool)
    ensures var fs := OrByte(FunctionSet, flags);
      Commands(ResetTransfers(false, flags, backlight)) == [fs, fs, fs]
  {
    var fs := OrByte(FunctionSet, flags);
    var r := ResetTransfers(false, flags, backlight);
    CommandsUnfold(r, 4);
    CommandsUnfold(r, 3);
    assert Commands(r[3..]) == [fs];
    CommandsUnfold(r, 2);
    CommandsUnfold(r, 1);
    assert Commands(r[1..]) == [fs, fs];
    CommandsUnfold(r, 0);
    assert r[0..] == r;
  }

  lemma StartCommands(leftToRight: bool)
    ensures Commands(StartTransfers(leftToRight)) == [0x0C, 0x01, if leftToRight then 0x06 else 0x04]
  {
    DisplayControlBits(true, false, false);
    EntryModeValue(leftToRight);
    var tail := StartTransfers(leftToRight);
    assert tail[0..] == tail;
    CommandsUnfold(tail, 0);
    CommandsUnfold(tail, 1);
    CommandsUnfold(tail, 2);
    CommandsUnfold(tail, 3);
  }

  /** One step of `Commands` along a suffix. */
  lemma CommandsUnfold(ts: seq<Transfer>, k: nat)
    requires k < |ts|
    ensures Commands(ts[k..]) == (if ts[k].Send? && !ts[k].mode then [ts[k].data] else []) + Commands(ts[k + 1..])
    ensures k + 1 == |ts| ==> Commands(ts[k + 1..]) == []
  {
    assert ts[k..][0] == ts[k];
    assert ts[k..][1..] == ts[k + 1..];
  }

  /** Function set on a function byte below 0x20 is their sum. */
  lemma FunctionSetValue(flags: byte)
    requires flags < 0x20
    ensures OrByte(FunctionSet, flags) == 0x20 + flags
  {
    assert Shl(1, 5) == 0x20 && Pow2(5) == 0x20;
    OrDisjoint(1, 5, flags);
  }

  lemma EntryModeValue(leftToRight: bool)
    ensures EntryMode(leftToRight) == if leftToRight then 0x06 else 0x04
  {
    assert OrByte(0x02, 0x00) == 0x02 && OrByte(0x00, 0x00) == 0x00;
    assert Or(0x04, 0x02) == 0x06;
  }

  /** `DataTransfers(bs)`: the bytes sent as data (RS high). */
  function DataTransfers(bytes: seq<byte>, backlight: bool): (ts: seq<Transfer>)
    ensures |ts| == |bytes| && forall i :: 0 <= i < |bytes| ==> ts[i] == Send(bytes[i], true, backlight)
  {
    seq(|bytes|, i requires 0 <= i < |bytes| => Send(bytes[i], true, backlight))
  }

  lemma DataTransfersSnoc(t: seq<Transfer>, bytes: seq<byte>, b: byte, backlight: bool)
    ensures t + DataTransfers(bytes, backlight) + [Send(b, true, backlight)] == t + DataTransfers(bytes + [b], backlight)
  {
    assert DataTransfers(bytes, backlight) + [Send(b, true, backlight)] == DataTransfers(bytes + [b], backlight);
  }

  /** A C# `int`. */
  predicate IsInt32(x: int)
  {
    -0x8000_0000 <= x < 0x8000_0000
  }

  /** `int` addition, which wraps around. */
  function Wrap32(x: int): (r: int)
    ensures IsInt32(r) && (IsInt32(x) ==> r == x)
  {
    (x + 0x8000_0000) % 0x1_0000_0000 - 0x8000_0000
  }

  /**
   * The bytes a loop `for (i = lo; i < hi; i++) send(buffer[i])` gets out before it
   * stops: none when it starts outside the buffer, else up to `hi` or the buffer's end.
   */
  function Copied(buffer: seq<byte>, lo: int, hi: int): seq<byte>
  {
    if 0 <= lo < hi && lo <= |buffer| then buffer[lo..if hi <= |buffer| then hi else |buffer|] else []
  }

  /** ... and whether it ends with an IndexOutOfRangeException. */
  function CopyOutcome(n: nat, lo: int, hi: int): Outcome
  {
    if lo < hi && (lo < 0 || hi > n) then Throws(IndexOutOfRange) else Ok
  }

  /** What a copy loop from `lo` has sent before index `i`. */
  function Sent(buffer: seq<byte>, lo: int, i: int): seq<byte>
    requires i > lo ==> 0 <= lo && i <= |buffer|
  {
    if i > lo then buffer[lo..i] else []
  }

  lemma SentSnoc(buffer: seq<byte>, lo: int, i: int)
    requires lo <= i && 0 <= i < |buffer| && (i > lo ==> 0 <= lo)
    ensures Sent(buffer, lo, i + 1) == Sent(buffer, lo, i) + [buffer[i]]
  {
  }

  /** A copy loop that meets an index outside the buffer has sent the copied part and throws. */
  lemma CopyStops(buffer: seq<byte>, lo: int, hi: int, i: int)
    requires lo <= i < hi && (i > lo ==> 0 <= lo && i <= |buffer|) && !(0 <= i < |buffer|)
    ensures Copied(buffer, lo, hi) == Sent(buffer, lo, i) && CopyOutcome(|buffer|, lo, hi) == Throws(IndexOutOfRange)
  {
  }

  /** A copy loop that reaches `hi` has sent the copied part and succeeds. */
  lemma CopyDone(buffer: seq<byte>, lo: int, hi: int, i: int)
    requires lo <= i && (i > lo ==> 0 <= lo && i <= |buffer| && i == hi) && i >= hi
    ensures Copied(buffer, lo, hi) == Sent(buffer, lo, i) && CopyOutcome(|buffer|, lo, hi) == Ok
  {
  }

  /** A range inside the buffer goes out whole and in order. */
  lemma CopiedInRange(buffer: seq<byte>, offset: int, count: int)
    requires 0 <= offset && 0 <= count && offset + count <= |buffer|
    ensures Copied(buffer, offset, offset + count) == buffer[offset..offset + count]
    ensures CopyOutcome(|buffer|, offset, offset + count) == Ok
  {
  }

  /** `(byte)(0x80 | address)`: an `int` OR whose low byte is the OR of the low bytes. */
  function CursorCommand(address: int): byte
  {
    OrByte(SetDdramAddr, Byte(address))
  }

  /** On rows 0..3 and columns that stay below the next row's offset, the command is 0x80 + the DDRAM address. */
  lemma CursorCommandValue(column: int, row: nat)
    requires row < 4 && 0 <= column < 0x14
    ensures CursorCommand(column + RowOffsets[row]) == 0x80 + column + RowOffsets[row]
  {
    var a := column + RowOffsets[row];
    assert Shl(1, 7) == 0x80 && Pow2(7) == 0x80;
    OrDisjoint(1, 7, a);
  }

  /** `location &= 0x7` on an `int` (two's complement), then `(byte)(0x40 | (location << 3))`. */
  function CgramCommand(location: int): byte
  {
    OrByte(SetCgramAddr, 8 * (location % 8))
  }

  /** The command is 0x40 plus the slot times 8, the slot being the location's low three bits. */
  lemma CgramCommandValue(location: int)
    ensures CgramCommand(location) == 0x40 + 8 * (location % 8)
  {
    var s := 8 * (location % 8);
    assert Shl(1, 6) == 0x40 && Pow2(6) == 0x40;
    OrDisjoint(1, 6, s);
  }

  class Lcd {
    const provider: Channel
    var showCursor: bool
    var blinkCursor: bool
    var visible: bool
    var backlight: bool
    var numLines: byte
    var numColumns: byte
    var currLine: byte
    var displayFunction: byte

    /**
     * The constructor: 4- or 8-bit function byte from the provider, then `Begin(16, 1)`.
     * The null check lives in `Create`.
     */
    constructor (provider: Channel)
      modifies provider
      ensures this.provider == provider
      ensures displayFunction == BeginFunction(if provider.fourBitMode then FourBitMode else EightBitMode, 1, false)
      ensures visible && !showCursor && !blinkCursor && backlight && currLine == 0 && numLines == 1 && numColumns == 16
      ensures provider.log == old(provider.log)
        + BeginTransfers(provider.fourBitMode, if provider.fourBitMode then FourBitMode else EightBitMode, true, true)
    {
      this.provider := provider;
      displayFunction := if provider.fourBitMode then FourBitMode else EightBitMode;
      visible := true;
      backlight := true;
      showCursor := false;
      blinkCursor := false;
      numLines := 0;
      numColumns := 0;
      currLine := 0;
      new;
      Begin(16, 1, true, false);
    }

    /** `new Lcd(provider)`, which throws ArgumentNullException for a null provider. */
    static method Create(provider: Channel?) returns (r: Result<Lcd>)
      modifies provider
      ensures provider == null ==> r == Failure(ArgumentNull)
      ensures provider != null ==> (r.Success? && fresh(r.value) && r.value.provider == provider
        && provider.log == old(provider.log)
           + BeginTransfers(provider.fourBitMode, if provider.fourBitMode then FourBitMode else EightBitMode, true, true))
    {
      if provider == null {
        return Failure(ArgumentNull);
      }
      var lcd := new Lcd(provider);
      r := Success(lcd);
    }

    /** `SendCommand`: RS low, with the current backlight flag. */
    method SendCommand(data: byte)
      modifies provider
      ensures provider.log == old(provider.log) + [Command(data, backlight)]
    {
      provider.Send(data, false, backlight);
    }

    /** `WriteByte`: RS high, with the current backlight flag. */
    method WriteByte(data: byte)
      modifies provider
      ensures provider.log == old(provider.log) + [Send(data, true, backlight)]
    {
      provider.Send(data, true, backlight);
    }

    /** `UpdateDisplayControl`: one display control command from the three flags. */
    method UpdateDisplayControl()
      modifies provider
      ensures provider.log == old(provider.log) + [Command(DisplayControl(visible, showCursor, blinkCursor), backlight)]
    {
      var command := DisplayControlCmd;
      command := OrByte(command, if visible then DisplayOn else 0);
      command := OrByte(command, if showCursor then CursorOn else 0);
      command := OrByte(command, if blinkCursor then BlinkOn else 0);
      SendCommand(command);
    }

    /** The `ShowCursor` setter: one display control command if the value changes, none otherwise. */
    method SetShowCursor(value: bool)
      modifies this, provider
      ensures showCursor == value && blinkCursor == old(blinkCursor) && visible == old(visible) && backlight == old(backlight)
      ensures numLines == old(numLines) && numColumns == old(numColumns) && displayFunction == old(displayFunction)
      ensures currLine == old(currLine)
      ensures provider.log == old(provider.log)
        + if old(showCursor) != value then [Command(DisplayControl(visible, value, blinkCursor), backlight)] else []
    {
      if showCursor != value {
        showCursor := value;
        UpdateDisplayControl();
      }
    }

    /** The `BlinkCursor` setter. */
    method SetBlinkCursor(value: bool)
      modifies this, provider
      ensures blinkCursor == value && showCursor == old(showCursor) && visible == old(visible) && backlight == old(backlight)
      ensures numLines == old(numLines) && numColumns == old(numColumns) && displayFunction == old(displayFunction)
      ensures currLine == old(currLine)
      ensures provider.log == old(provider.log)
        + if old(blinkCursor) != value then [Command(DisplayControl(visible, showCursor, value), backlight)] else []
    {
      if blinkCursor != value {
        blinkCursor := value;
        UpdateDisplayControl();
      }
    }

    /** The `Visible` setter. */
    method SetVisible(value: bool)
      modifies this, provider
      ensures visible == value && showCursor == old(showCursor) && blinkCursor == old(blinkCursor) && backlight == old(backlight)
      ensures numLines == old(numLines) && numColumns == old(numColumns) && displayFunction == old(displayFunction)
      ensures currLine == old(currLine)
      ensures provider.log == old(provider.log)
        + if old(visible) != value then [Command(DisplayControl(value, showCursor, blinkCursor), backlight)] else []
    {
      if visible != value {
        visible := value;
        UpdateDisplayControl();
      }
    }

    /**
     * The `Backlight` setter: the command it sends is the same display control, the
     * backlight travelling only as the third argument of `Send`.
     */
    method SetBacklight(value: bool)
      modifies this, provider
      ensures backlight == value && showCursor == old(showCursor) && blinkCursor == old(blinkCursor) && visible == old(visible)
      ensures numLines == old(numLines) && numColumns == old(numColumns) && displayFunction == old(displayFunction)
      ensures currLine == old(currLine)
      ensures provider.log == old(provider.log)
        + if old(backlight) != value then [Command(DisplayControl(visible, showCursor, blinkCursor), value)] else []
    {
      if backlight != value {
        backlight := value;
        UpdateDisplayControl();
      }
    }

    /** `Begin(columns, lines, leftToRight, dotSize)`. */
    method Begin(columns: byte, lines: byte, leftToRight: bool, dotSize: bool)
      modifies this, provider
      ensures displayFunction == BeginFunction(old(displayFunction), lines, dotSize)
      ensures visible && !showCursor && !blinkCursor && backlight
      ensures currLine == 0 && numLines == lines && numColumns == columns
      ensures provider.log == old(provider.log) + BeginTransfers(provider.fourBitMode, displayFunction, old(backlight), leftToRight)
    {
      if lines > 1 {
        displayFunction := OrByte(displayFunction, TwoLine);
      }
      currLine := 0;
      numLines := lines;
      numColumns := columns;
      if dotSize && lines == 1 {
        displayFunction := OrByte(displayFunction, Dots5x10);
      }
      ghost var log0 := provider.log;
      WarmUp();
      Start(leftToRight);
      Regroup(log0, WarmUpTransfers(provider.fourBitMode, displayFunction, old(backlight)), StartTransfers(leftToRight));
    }

    /** The start of `Begin`, with the function byte already set. */
    method WarmUp()
      modifies provider
      ensures provider.log == old(provider.log) + WarmUpTransfers(provider.fourBitMode, displayFunction, backlight)
    {
      provider.Pause(50);
      SendReset();
      SendCommand(OrByte(FunctionSet, displayFunction));
    }

    /** The end of `Begin`: display on, no cursor, backlight on, then clear and entry mode. */
    method Start(leftToRight: bool)
      modifies this, provider
      ensures visible && !showCursor && !blinkCursor && backlight
      ensures currLine == old(currLine) && numLines == old(numLines) && numColumns == old(numColumns)
      ensures displayFunction == old(displayFunction)
      ensures provider.log == old(provider.log) + StartTransfers(leftToRight)
    {
      visible := true;
      showCursor := false;
      blinkCursor := false;
      backlight := true;
      UpdateDisplayControl();
      Clear();
      var displayMode := if leftToRight then EntryLeft else EntryRight;
      displayMode := OrByte(displayMode, EntryShiftDecrement);
      SendCommand(OrByte(EntryModeSet, displayMode));
    }

    /** The reset part of `Begin`, for the provider's bus width. */
    method SendReset()
      modifies provider
      ensures provider.log == old(provider.log) + ResetTransfers(provider.fourBitMode, displayFunction, backlight)
    {
      if provider.fourBitMode {
        SendCommand(0x03);
        provider.Pause(5);
        SendCommand(0x03);
        provider.Pause(5);
        SendCommand(0x03);
        provider.Pause(5);
        SendCommand(0x02);
      } else {
        var fs := OrByte(FunctionSet, displayFunction);
        SendCommand(fs);
        provider.Pause(5);
        SendCommand(fs);
        provider.Pause(1);
        SendCommand(fs);
      }
    }

    /** `Clear`: instruction 0x01, then a 2 ms wait. */
    method Clear()
      modifies provider
      ensures provider.log == old(provider.log) + [Command(ClearDisplayCmd, backlight), Delay(2)]
    {
      SendCommand(ClearDisplayCmd);
      provider.Pause(2);
    }

    /** `Home`: instruction 0x02, then a 2 ms wait. */
    method Home()
      modifies provider
      ensures provider.log == old(provider.log) + [Command(ReturnHomeCmd, backlight), Delay(2)]
    {
      SendCommand(ReturnHomeCmd);
      provider.Pause(2);
    }

    /** `ScrollDisplayLeft`: cursor-shift instruction with S/C set and R/L clear. */
    method ScrollDisplayLeft()
      modifies provider
      ensures provider.log == old(provider.log) + [Command(0x18, backlight)]
    {
      SendCommand(0x18);
    }

    /** `ScrollDisplayRight`: S/C and R/L set. */
    method ScrollDisplayRight()
      modifies provider
      ensures provider.log == old(provider.log) + [Command(0x1C, backlight)]
    {
      SendCommand(OrByte(0x18, 0x04));
      assert Or(0x18, 0x04) == 0x1C;
    }

    /** `MoveCursor(right)`: cursor-shift instruction with R/L from `right`. */
    method MoveCursor(right: bool)
      modifies provider
      ensures provider.log == old(provider.log) + [Command(if right then 0x14 else 0x10, backlight)]
    {
      SendCommand(OrByte(CursorShift, if right then 0x04 else 0x00));
      assert Or(0x10, 0x04) == 0x14 && Or(0x10, 0) == 0x10;
    }

    /**
     * `SetCursorPosition(column, row)`: a row beyond the line count becomes the last
     * line (a row equal to it is kept), and a row outside 0..3 fails the table lookup.
     */
    method SetCursorPosition(column: int, row: int) returns (o: Outcome)
      requires IsInt32(column) && IsInt32(row)
      modifies provider
      ensures var r := if row > numLines then numLines - 1 else row;
        && (0 <= r < 4 ==> o == Ok && provider.log == old(provider.log) + [Command(CursorCommand(column + RowOffsets[r]), backlight)])
        && (!(0 <= r < 4) ==> o == Throws(IndexOutOfRange) && provider.log == old(provider.log))
    {
      var r := row;
      if r > numLines {
        r := numLines - 1;
      }
      if !(0 <= r < |RowOffsets|) {
        return Throws(IndexOutOfRange);
      }
      var address := column + RowOffsets[r];
      SendCommand(OrByte(SetDdramAddr, Byte(address)));
      o := Ok;
    }

    /**
     * `Write(buffer, offset, count)`: data bytes from `offset` while `i < offset + count`
     * (an `int` sum, so it can wrap), failing at the first index outside the buffer.
     */
    method Write(buffer: seq<byte>, offset: int, count: int) returns (o: Outcome)
      requires IsInt32(offset) && IsInt32(count)
      modifies provider
      ensures o == CopyOutcome(|buffer|, offset, Wrap32(offset + count))
      ensures provider.log == old(provider.log) + DataTransfers(Copied(buffer, offset, Wrap32(offset + count)), backlight)
    {
      o := WriteRange(buffer, offset, Wrap32(offset + count));
    }

    /**
     * `CreateChar(location, charmap, offset)`: the CGRAM address of slot `location & 7`,
     * then the eight rows `charmap[offset..offset + 8]`, failing at the first index
     * outside the array.
     */
    method CreateChar(location: int, charmap: seq<byte>, offset: int) returns (o: Outcome)
      requires IsInt32(location) && IsInt32(offset)
      modifies provider
      ensures o == CopyOutcome(|charmap|, offset, offset + 8)
      ensures provider.log == old(provider.log) + [Command(CgramCommand(location), backlight)]
        + DataTransfers(Copied(charmap, offset, offset + 8), backlight)
    {
      var slot := location % 8;
      SendCommand(OrByte(SetCgramAddr, 8 * slot));
      o := WriteRange(charmap, offset, offset + 8);
    }

    /** The loop of `Write` and `CreateChar`: `WriteByte(buffer[i])` for `lo <= i < hi`, stopping at the first index outside the buffer. */
    method WriteRange(buffer: seq<byte>, lo: int, hi: int) returns (o: Outcome)
      modifies provider
      ensures o == CopyOutcome(|buffer|, lo, hi)
      ensures provider.log == old(provider.log) + DataTransfers(Copied(buffer, lo, hi), backlight)
    {
      var i := lo;
      while i < hi
        invariant lo <= i && (i > lo ==> 0 <= lo && i <= |buffer| && i <= hi)
        invariant provider.log == old(provider.log) + DataTransfers(Sent(buffer, lo, i), backlight)
      {
        if !(0 <= i < |buffer|) {
          CopyStops(buffer, lo, hi, i);
          return Throws(IndexOutOfRange);
        }
        WriteByte(buffer[i]);
        DataTransfersSnoc(old(provider.log), Sent(buffer, lo, i), buffer[i], backlight);
        SentSnoc(buffer, lo, i);
        i := i + 1;
      }
      CopyDone(buffer, lo, hi, i);
      o := Ok;
    }
  }
}
