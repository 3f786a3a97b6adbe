/**
 * The pins of a bit-banged device, seen from its driver: every level the driver
 * writes is appended to a trace, and every read takes the next level of an input
 * stream (what the device, or the world, puts on the line). Also the byte and bit
 * arithmetic the drivers share.
 */
module Wire {
  /** One event on the lines of a device (`L` names the lines). */
  datatype Signal<L> =
    | Drive(line: L, level: bool)    // GPIO.Write(level) on that line
    | Sample(line: L, level: bool)   // GPIO.Read() on that line returned this level
    | Pause(ms: nat)                 // Thread.Sleep(ms)

  class Bus<L> {
    /** Everything the driver did on the lines, oldest first. */
    var trace: seq<Signal<L>>
    /** How many levels have been read so far. */
    var consumed: nat
    /** The levels the reads return, in order. */
    const input: nat -> bool

    constructor (input: nat -> bool)
      ensures trace == [] && consumed == 0 && this.input == input
    {
      trace := [];
      consumed := 0;
      this.input := input;
    }

    method Write(line: L, level: bool)
      modifies this
      ensures trace == old(trace) + [Drive(line, level)] && consumed == old(consumed)
    {
      trace := trace + [Drive(line, level)];
    }

    method Read(line: L) returns (level: bool)
      modifies this
      ensures level == input(old(consumed)) && consumed == old(consumed) + 1
      ensures trace == old(trace) + [Sample(line, level)]
    {
      level := input(consumed);
      consumed := consumed + 1;
      trace := trace + [Sample(line, level)];
    }

    method Sleep(ms: nat)
      modifies this
      ensures trace == old(trace) + [Pause(ms)] && consumed == old(consumed)
    {
      trace := trace + [Pause(ms)];
    }
  }

  /** The `n` levels of `input` from position `k` on. */
  function Window(input: nat -> bool, k: nat, n: nat): (w: seq<bool>)
    ensures |w| == n && forall i :: 0 <= i < n ==> w[i] == input(k + i)
  {
    seq(n, i requires 0 <= i < n => input(k + i))
  }

  lemma WindowSnoc(input: nat -> bool, start: nat, n: nat)
    ensures Window(input, start, n + 1) == Window(input, start, n) + [input(start + n)]
  {
  }

  /** A C# `byte`. */
  type byte = x: nat | x < 256

  /** The C# `(byte)` cast of an int: its low eight bits in two's complement. */
  function Byte(x: int): (b: byte)
    ensures b == x % 256
  {
    if 0 <= x < 256 then x else x % 256
  }

  function Pow2(k: nat): (p: nat)
    ensures p >= 1
  {
    if k == 0 then 1 else 2 * Pow2(k - 1)
  }

  /** Bit `i` of `n`, that is `((n >> i) & 1) != 0`. */
  predicate Bit(n: nat, i: nat)
  {
    if i == 0 then n % 2 == 1 else Bit(n / 2, i - 1)
  }

  /** The low `k` bits of `n`, least significant first. */
  function Bits(n: nat, k: nat): (s: seq<bool>)
    ensures |s| == k
  {
    seq(k, i requires 0 <= i < k => Bit(n, i))
  }

  /** The number whose bits, least significant first, are `s`. */
  function Value(s: seq<bool>): (v: nat)
    ensures v < Pow2(|s|)
  {
    if s == [] then 0 else (if s[0] then 1 else 0) + 2 * Value(s[1..])
  }

  lemma BitsAt(n: nat, k: nat, i: nat)
    requires i < k
    ensures Bits(n, k)[i] == Bit(n, i)
  {
  }

  /** Dropping the lowest bit of n shifts its bits down by one. */
  lemma BitsHalf(n: nat, k: nat)
    requires k > 0
    ensures Bits(n, k)[0] == (n % 2 == 1) && Bits(n, k)[1..] == Bits(n / 2, k - 1)
  {
    assert forall i :: 0 <= i < k - 1 ==> Bits(n, k)[1..][i] == Bit(n, i + 1);
  }

  lemma {:induction false} BitOfValue(s: seq<bool>, i: nat)
    requires i < |s|
    ensures Bit(Value(s), i) == s[i]
  {
    if i > 0 {
      BitOfValue(s[1..], i - 1);
      assert Value(s) / 2 == Value(s[1..]);
    }
  }

  /** Reading the bits back gives the sequence: `Bits` inverts `Value`. */
  lemma BitsOfValue(s: seq<bool>)
    ensures Bits(Value(s), |s|) == s
  {
    forall i | 0 <= i < |s|
      ensures Bits(Value(s), |s|)[i] == s[i]
    {
      BitOfValue(s, i);
    }
  }

  /** ... and `Value` inverts `Bits` on numbers that fit. */
  lemma {:induction false} ValueOfBits(n: nat, k: nat)
    requires n < Pow2(k)
    ensures Value(Bits(n, k)) == n
  {
    if k > 0 {
      ValueOfBits(n / 2, k - 1);
      BitsHalf(n, k);
    }
  }

  /** Two numbers below 2^k with the same low k bits are equal. */
  lemma BitsInjective(a: nat, b: nat, k: nat)
    requires a < Pow2(k) && b < Pow2(k)
    ensures Bits(a, k) == Bits(b, k) <==> a == b
  {
    ValueOfBits(a, k);
    ValueOfBits(b, k);
  }

  /** Appending a bit on the most significant end adds its weight. */
  lemma {:induction false} ValueAppend(s: seq<bool>, x: bool)
    ensures Value(s + [x]) == Value(s) + (if x then Pow2(|s|) else 0)
  {
    if s != [] {
      assert (s + [x])[1..] == s[1..] + [x];
      ValueAppend(s[1..], x);
    }
  }

  /** Bitwise OR, `a | b`. */
  function Or(a: nat, b: nat): nat
    decreases a + b
  {
    if a == 0 then b
    else if b == 0 then a
    else 2 * Or(a / 2, b / 2) + (if a % 2 == 1 || b % 2 == 1 then 1 else 0)
  }

  lemma {:induction false} OrBit(a: nat, b: nat, i: nat)
    ensures Bit(Or(a, b), i) == (Bit(a, i) || Bit(b, i))
    decreases i
  {
    if a != 0 && b != 0 && i > 0 {
      OrBit(a / 2, b / 2, i - 1);
    } else if a == 0 {
      ZeroBit(i);
    } else if b == 0 {
      ZeroBit(i);
    }
  }

  lemma {:induction false} ZeroBit(i: nat)
    ensures !Bit(0, i)
  {
    if i > 0 {
      ZeroBit(i - 1);
    }
  }

  lemma {:induction false} OrBound(a: nat, b: nat, k: nat)
    requires a < Pow2(k) && b < Pow2(k)
    ensures Or(a, b) < Pow2(k)
    decreases a + b
  {
    if a != 0 && b != 0 {
      OrBound(a / 2, b / 2, k - 1);
    }
  }

  /** `m << k` without truncation. */
  function Shl(m: nat, k: nat): nat
  {
    if k == 0 then m else 2 * Shl(m, k - 1)
  }

  /** OR of a number with one whose set bits all lie above it is their sum. */
  lemma {:induction false} OrDisjoint(m: nat, k: nat, low: nat)
    requires low < Pow2(k)
    ensures Or(Shl(m, k), low) == Shl(m, k) + low
    decreases k
  {
    if Shl(m, k) != 0 && low != 0 {
      OrDisjoint(m, k - 1, low / 2);
    }
  }

  lemma {:induction false} OrCommutes(a: nat, b: nat)
    ensures Or(a, b) == Or(b, a)
    decreases a + b
  {
    if a != 0 && b != 0 {
      OrCommutes(a / 2, b / 2);
    }
  }

  /** Regrouping a trace: what was appended in steps equals one appended piece. */
  lemma Regroup<T>(t: seq<T>, a: seq<T>, b: seq<T>)
    ensures t + a + b == t + (a + b)
  {
  }

  /** `a | b` on two bytes is a byte. */
  function OrByte(a: byte, b: byte): (r: byte)
    ensures forall i :: Bit(r, i) <==> Bit(a, i) || Bit(b, i)
  {
    OrBound(a, b, 8);
    forall i {
      OrBit(a, b, i);
    }
    Or(a, b)
  }

  /** Two bytes with the same eight bits are equal. */
  lemma SameBits(x: nat, y: nat)
    requires x < 256 && y < 256
    requires forall i :: 0 <= i < 8 ==> (Bit(x, i) <==> Bit(y, i))
    ensures x == y
  {
    assert Pow2(8) == 256;
    assert Bits(x, 8) == Bits(y, 8);
    BitsInjective(x, y, 8);
  }

  /**
   * OR with a mask that sets every bit from k up to 7 keeps the bits below k
   * and sets the rest: `a | mask == a % 2^k + mask`.
   */
  lemma OrWithHigh(a: nat, h: nat, k: nat)
    requires a < 256 && k <= 8 && Shl(h, k) + Pow2(k) == 256
    requires forall i :: k <= i < 8 ==> Bit(Shl(h, k), i)
    ensures Or(a, Shl(h, k)) == a % Pow2(k) + Shl(h, k)
  {
    var mask := Shl(h, k);
    var low := a % Pow2(k);
    OrDisjoint(h, k, low);
    OrCommutes(mask, low);
    OrBound(a, mask, 8);
    assert Pow2(8) == 256;
    forall i | 0 <= i < 8
      ensures Bit(Or(a, mask), i) <==> Bit(Or(low, mask), i)
    {
      OrBit(a, mask, i);
      OrBit(low, mask, i);
      if i < k {
        BitMod(a, k, i);
        ShlBit(h, k, i);
      }
    }
    SameBits(Or(a, mask), Or(low, mask));
  }

  /** `(byte)(b << 1)` for a byte `b`. */
  function Double(b: byte): (r: byte)
  {
    if b < 128 then 2 * b else 2 * b - 256
  }

  lemma DoubleIsCast(x: int)
    ensures Double(Byte(x)) == Byte(2 * x)
  {
    var q := x / 256;
    assert x == 256 * q + Byte(x);
    assert 2 * x == 256 * (2 * q) + 2 * Byte(x);
  }

  /** `(byte)(b << k)`, one doubling at a time. */
  function ShlByte(b: byte, k: nat): byte
  {
    if k == 0 then b else Double(ShlByte(b, k - 1))
  }

  lemma {:induction false} ShlByteIsCast(b: byte, k: nat)
    ensures ShlByte(b, k) == Byte(Shl(b, k))
  {
    if k > 0 {
      ShlByteIsCast(b, k - 1);
      DoubleIsCast(Shl(b, k - 1));
    }
  }

  /** `b | (on ? 0x80 : 0)` on a byte, written as the sum it amounts to. */
  function OrTop(b: byte, on: bool): byte
  {
    if on && b < 0x80 then b + 0x80 else b
  }

  lemma OrTopIsOr(b: byte, on: bool)
    ensures OrTop(b, on) == OrByte(b, if on then 0x80 else 0x00)
  {
    if on {
      OrHighBit(b);
      if b < 0x80 {
        DivModUnique(b, 0x80, 0, b);
      } else {
        DivModUnique(b, 0x80, 1, b - 0x80);
      }
    } else {
      assert OrByte(b, 0x00) == Or(b, 0) == b;
    }
  }

  /** Setting the top bit of a byte adds 0x80 unless it is already set. */
  lemma OrHighBit(b: byte)
    ensures OrByte(b, 0x80) == b % 0x80 + 0x80
  {
    assert OrByte(b, 0x80) == Or(b, 0x80);
    assert Shl(1, 7) == 0x80 && Pow2(7) == 0x80 && Bit(0x80, 7);
    OrWithHigh(b, 1, 7);
  }

  /** A positive multiple of d is at least d. */
  lemma {:induction false} MulAtLeast(d: nat, k: int)
    ensures k >= 1 ==> d * k >= d
  {
    if k > 1 {
      MulAtLeast(d, k - 1);
      assert d * k == d * (k - 1) + d;
    }
  }

  /** Euclidean division has one quotient and one remainder. */
  lemma DivModUnique(x: int, d: int, q: int, r: int)
    requires d > 0 && x == d * q + r && 0 <= r < d
    ensures x / d == q && x % d == r
  {
    var q' := x / d;
    var r' := x % d;
    assert x == d * q' + r';
    MulAtLeast(d, q - q');
    MulAtLeast(d, q' - q);
    assert d * q == d * (q - q') + d * q';
    assert d * q' == d * (q' - q) + d * q;
  }

  lemma ModHalving(x: nat, m: nat)
    requires m >= 1
    ensures (x % (2 * m)) % 2 == x % 2 && (x % (2 * m)) / 2 == (x / 2) % m
  {
    var q := (x / 2) / m;
    var r := (x / 2) % m;
    assert x / 2 == m * q + r;
    assert x == (2 * m) * q + (2 * r + x % 2);
    DivModUnique(x, 2 * m, q, 2 * r + x % 2);
  }

  /** Reducing modulo 2^j keeps the bits below j. */
  lemma {:induction false} BitMod(x: nat, j: nat, k: nat)
    requires k < j
    ensures Bit(x % Pow2(j), k) == Bit(x, k)
  {
    ModHalving(x, Pow2(j - 1));
    if k > 0 {
      BitMod(x / 2, j - 1, k - 1);
    }
  }

  /** The `(byte)` cast keeps bits 0..7. */
  lemma BitOfByte(x: nat, k: nat)
    requires k < 8
    ensures Bit(Byte(x), k) == Bit(x, k)
  {
    assert Pow2(8) == 256;
    BitMod(x, 8, k);
  }

  /** Bit k of `m << j` is bit k - j of m, and clear below j. */
  lemma {:induction false} ShlBit(m: nat, j: nat, k: nat)
    ensures Bit(Shl(m, j), k) <==> k >= j && Bit(m, k - j)
  {
    if j > 0 {
      if k == 0 {
        assert Shl(m, j) % 2 == 0;
      } else {
        assert Shl(m, j) / 2 == Shl(m, j - 1);
        ShlBit(m, j - 1, k - 1);
      }
    }
  }

  /** The level `e` drives on `line`, if it drives that line. */
  function Driven<L(==)>(e: Signal<L>, line: L): seq<bool>
  {
    if e.Drive? && e.line == line then [e.level] else []
  }

  /** The level `e` read from `line`, if it is a read of that line. */
  function Sampled<L(==)>(e: Signal<L>, line: L): seq<bool>
  {
    if e.Sample? && e.line == line then [e.level] else []
  }

  /** The levels driven on `line` by the first `n` signals of `t`, oldest first. */
  function LevelsTo<L(==)>(t: seq<Signal<L>>, n: nat, line: L): seq<bool>
    requires n <= |t|
  {
    if n == 0 then [] else LevelsTo(t, n - 1, line) + Driven(t[n - 1], line)
  }

  /** The levels read from `line` by the first `n` signals of `t`, oldest first. */
  function SamplesTo<L(==)>(t: seq<Signal<L>>, n: nat, line: L): seq<bool>
    requires n <= |t|
  {
    if n == 0 then [] else SamplesTo(t, n - 1, line) + Sampled(t[n - 1], line)
  }

  /** The levels the driver put on `line` during `t`, oldest first. */
  function Levels<L(==)>(t: seq<Signal<L>>, line: L): seq<bool>
  {
    LevelsTo(t, |t|, line)
  }

  /** The levels the driver read from `line` during `t`, oldest first. */
  function Samples<L(==)>(t: seq<Signal<L>>, line: L): seq<bool>
  {
    SamplesTo(t, |t|, line)
  }

  lemma {:induction false} LevelsToPrefix<L>(a: seq<Signal<L>>, b: seq<Signal<L>>, n: nat, line: L)
    requires n <= |a|
    ensures LevelsTo(a + b, n, line) == LevelsTo(a, n, line)
  {
    if n > 0 {
      LevelsToPrefix(a, b, n - 1, line);
    }
  }

  lemma {:induction false} LevelsToSuffix<L>(a: seq<Signal<L>>, b: seq<Signal<L>>, n: nat, line: L)
    requires n <= |b|
    ensures LevelsTo(a + b, |a| + n, line) == Levels(a, line) + LevelsTo(b, n, line)
  {
    if n == 0 {
      LevelsToPrefix(a, b, |a|, line);
    } else {
      LevelsToSuffix(a, b, n - 1, line);
    }
  }

  lemma LevelsAppend<L>(a: seq<Signal<L>>, b: seq<Signal<L>>, line: L)
    ensures Levels(a + b, line) == Levels(a, line) + Levels(b, line)
  {
    LevelsToSuffix(a, b, |b|, line);
  }

  lemma {:induction false} SamplesToPrefix<L>(a: seq<Signal<L>>, b: seq<Signal<L>>, n: nat, line: L)
    requires n <= |a|
    ensures SamplesTo(a + b, n, line) == SamplesTo(a, n, line)
  {
    if n > 0 {
      SamplesToPrefix(a, b, n - 1, line);
    }
  }

  lemma {:induction false} SamplesToSuffix<L>(a: seq<Signal<L>>, b: seq<Signal<L>>, n: nat, line: L)
    requires n <= |b|
    ensures SamplesTo(a + b, |a| + n, line) == Samples(a, line) + SamplesTo(b, n, line)
  {
    if n == 0 {
      SamplesToPrefix(a, b, |a|, line);
    } else {
      SamplesToSuffix(a, b, n - 1, line);
    }
  }

  lemma SamplesAppend<L>(a: seq<Signal<L>>, b: seq<Signal<L>>, line: L)
    ensures Samples(a + b, line) == Samples(a, line) + Samples(b, line)
  {
    SamplesToSuffix(a, b, |b|, line);
  }

  /** The levels driven in a three-signal clock cycle appended to a trace. */
  lemma CycleLevels<L>(t: seq<Signal<L>>, x: Signal<L>, y: Signal<L>, z: Signal<L>, line: L)
    ensures Levels(t + [x, y, z], line) == Levels(t, line) + Driven(x, line) + Driven(y, line) + Driven(z, line)
  {
    var c := [x, y, z];
    assert LevelsTo(c, 0, line) == [];
    assert LevelsTo(c, 1, line) == Driven(x, line);
    assert LevelsTo(c, 2, line) == Driven(x, line) + Driven(y, line);
    assert LevelsTo(c, 3, line) == Driven(x, line) + Driven(y, line) + Driven(z, line);
    LevelsAppend(t, c, line);
  }

  /** The levels read in a three-signal clock cycle appended to a trace. */
  lemma CycleSamples<L>(t: seq<Signal<L>>, x: Signal<L>, y: Signal<L>, z: Signal<L>, line: L)
    ensures Samples(t + [x, y, z], line) == Samples(t, line) + Sampled(x, line) + Sampled(y, line) + Sampled(z, line)
  {
    var c := [x, y, z];
    assert SamplesTo(c, 0, line) == [];
    assert SamplesTo(c, 1, line) == Sampled(x, line);
    assert SamplesTo(c, 2, line) == Sampled(x, line) + Sampled(y, line);
    assert SamplesTo(c, 3, line) == Sampled(x, line) + Sampled(y, line) + Sampled(z, line);
    SamplesAppend(t, c, line);
  }

  /** After `t`, the last level driven on `line` is `v`. */
  predicate Holds<L(==)>(t: seq<Signal<L>>, line: L, v: bool)
  {
    var d := Levels(t, line);
    |d| > 0 && d[|d| - 1] == v
  }

  /** `t` neither drives nor reads `line`. */
  predicate Quiet<L(==)>(t: seq<Signal<L>>, line: L)
  {
    forall k :: 0 <= k < |t| ==> t[k].Pause? || t[k].line != line
  }

  lemma QuietAppend<L>(a: seq<Signal<L>>, b: seq<Signal<L>>, line: L)
    requires Quiet(a, line) && Quiet(b, line)
    ensures Quiet(a + b, line)
  {
    assert forall k :: |a| <= k < |a + b| ==> (a + b)[k] == b[k - |a|];
  }

  lemma {:induction false} QuietLevelsTo<L>(t: seq<Signal<L>>, n: nat, line: L)
    requires n <= |t| && Quiet(t, line)
    ensures LevelsTo(t, n, line) == [] && SamplesTo(t, n, line) == []
  {
    if n > 0 {
      QuietLevelsTo(t, n - 1, line);
    }
  }

  lemma QuietLevels<L>(t: seq<Signal<L>>, line: L)
    requires Quiet(t, line)
    ensures Levels(t, line) == [] && Samples(t, line) == []
  {
    QuietLevelsTo(t, |t|, line);
  }

  /** Driving a line sets its level. */
  lemma HoldsAfter<L>(t: seq<Signal<L>>, line: L, v: bool)
    ensures Holds(t + [Drive(line, v)], line, v)
  {
    var d := [Drive(line, v)];
    assert LevelsTo(d, 0, line) == [];
    assert LevelsTo(d, 1, line) == [v];
    LevelsAppend(t, d, line);
  }

  /** A line keeps its level through signals that do not touch it. */
  lemma HoldsThrough<L>(a: seq<Signal<L>>, b: seq<Signal<L>>, line: L, v: bool)
    requires Holds(a, line, v) && Quiet(b, line)
    ensures Holds(a + b, line, v)
  {
    QuietLevels(b, line);
    LevelsAppend(a, b, line);
  }

  /**
   * Every signal of `t` that `watched` picks out happens while `sel` holds `v`:
   * the select line of a device brackets its traffic.
   */
  ghost predicate Framed<L>(t: seq<Signal<L>>, sel: L, v: bool, watched: Signal<L> -> bool)
  {
    forall j :: 0 <= j < |t| && watched(t[j]) ==> Holds(t[..j], sel, v)
  }

  /** Appending signals none of which is watched keeps a trace framed. */
  lemma FramedIdle<L>(a: seq<Signal<L>>, b: seq<Signal<L>>, sel: L, v: bool, watched: Signal<L> -> bool)
    requires Framed(a, sel, v, watched)
    requires forall k :: 0 <= k < |b| ==> !watched(b[k])
    ensures Framed(a + b, sel, v, watched)
  {
    assert forall j :: 0 <= j < |a| ==> (a + b)[j] == a[j] && (a + b)[..j] == a[..j];
    assert forall j :: |a| <= j < |a + b| ==> (a + b)[j] == b[j - |a|];
  }

  /** Appending signals that leave `sel` alone, after `sel` was set to `v`, keeps a trace framed. */
  lemma FramedBody<L>(a: seq<Signal<L>>, b: seq<Signal<L>>, sel: L, v: bool, watched: Signal<L> -> bool)
    requires Framed(a, sel, v, watched) && Holds(a, sel, v) && Quiet(b, sel)
    ensures Framed(a + b, sel, v, watched)
  {
    forall j | |a| <= j <= |a + b|
      ensures Holds((a + b)[..j], sel, v)
    {
      assert (a + b)[..j] == a + b[..j - |a|];
      HoldsThrough(a, b[..j - |a|], sel, v);
    }
    assert forall j :: 0 <= j < |a| ==> (a + b)[j] == a[j] && (a + b)[..j] == a[..j];
  }

  /** The levels driven in a trace made of four parts, the outer two of which drive nothing on `line`. */
  lemma LevelsInside<L>(a: seq<Signal<L>>, b: seq<Signal<L>>, c: seq<Signal<L>>, d: seq<Signal<L>>, line: L)
    requires Levels(a, line) == [] && Levels(d, line) == []
    ensures Levels(a + b + c + d, line) == Levels(b, line) + Levels(c, line)
  {
    LevelsAppend(a, b, line);
    LevelsAppend(a + b, c, line);
    LevelsAppend(a + b + c, d, line);
  }

  /** The levels read in a trace made of four parts, the outer two of which read nothing from `line`. */
  lemma SamplesInside<L>(a: seq<Signal<L>>, b: seq<Signal<L>>, c: seq<Signal<L>>, d: seq<Signal<L>>, line: L)
    requires Samples(a, line) == [] && Samples(d, line) == []
    ensures Samples(a + b + c + d, line) == Samples(b, line) + Samples(c, line)
  {
    SamplesAppend(a, b, line);
    SamplesAppend(a + b, c, line);
    SamplesAppend(a + b + c, d, line);
  }
}
