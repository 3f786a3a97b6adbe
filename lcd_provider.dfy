/**
 * The transfer provider that drives an HD44780 through GPIOMem handles
 * (MicroLiquidCrystal/RaspPiGPIOMemLcdTransferProvider.cs): which pins it opens, what
 * one `Send` writes to them, and how it lets them go.
 *
 * Every pin write is a `GpioWrite` event on the host (the bcm2835 `gpio_write` call of
 * a GPIOMem handle). The display side is modelled by `LastWrite`: the level a line
 * shows is the last value written to its pin, and the controller reads RS and the data
 * lines when E falls at the end of a pulse.
 */
module LcdProvider {
  import opened Faults
  import opened Wire
  import opened Pins
  import opened Gpio

  /** The data pins that are given (not GPIO_NONE), in order. */
  function Given(d: seq<Pin>): (g: seq<Pin>)
    ensures |g| <= |d|
    ensures forall j :: 0 <= j < |g| ==> g[j] != NoPin
  {
    if d == [] then []
    else Given(d[..|d| - 1]) + (if d[|d| - 1] != NoPin then [d[|d| - 1]] else [])
  }

  lemma {:induction false} GivenAppend(a: seq<Pin>, b: seq<Pin>)
    ensures Given(a + b) == Given(a) + Given(b)
    decreases |b|
  {
    if b == [] {
      assert a + b == a;
    } else {
      var b' := b[..|b| - 1];
      assert (a + b)[..|a + b| - 1] == a + b';
      GivenAppend(a, b');
    }
  }

  /** One more line adds its pin when it is given. */
  lemma GivenSnoc(d: seq<Pin>, i: nat)
    requires i < |d|
    ensures d[i] == NoPin ==> Given(d[..i + 1]) == Given(d[..i])
    ensures d[i] != NoPin ==> Given(d[..i + 1]) == Given(d[..i]) + [d[i]]
  {
    assert d[..i + 1][..i] == d[..i];
  }

  /** A sequence is its prefix followed by its suffix. */
  lemma SplitAt(d: seq<Pin>, k: nat)
    requires k <= |d|
    ensures d[..k] + d[k..] == d
  {
  }

  /** With every pin given, nothing is dropped. */
  lemma {:induction false} GivenAll(d: seq<Pin>)
    requires forall j :: 0 <= j < |d| ==> d[j] != NoPin
    ensures Given(d) == d
  {
    if d != [] {
      GivenAll(d[..|d| - 1]);
    }
  }

  /** The register-select pins: RS, and RW if given. */
  function Selected(rs: Pin, rw: Pin): seq<Pin>
  {
    [rs] + (if rw != NoPin then [rw] else [])
  }

  /** The pins the constructor opens, in the order it opens them: RS, RW if given, E, the given data pins. */
  function Plan(rs: Pin, rw: Pin, enable: Pin, d: seq<Pin>): seq<Pin>
  {
    [rs] + (if rw != NoPin then [rw] else []) + [enable] + Given(d)
  }

  predicate AllDifferent(ps: seq<Pin>)
  {
    forall i, j :: 0 <= i < j < |ps| ==> ps[i] != ps[j]
  }

  /** The pins of a plan, as a set. */
  function PinSet(ps: seq<Pin>): set<Pin>
  {
    set p | p in ps
  }

  /** Releasing one more pin of a plan releases the plan extended by that pin. */
  lemma ReleaseSnoc(m: map<Pin, Handle>, s: seq<Pin>, p: Pin)
    ensures m - PinSet(s) - {p} == m - PinSet(s + [p])
  {
    assert PinSet(s + [p]) == PinSet(s) + {p};
  }

  /** None of the pins is held already. */
  predicate Free(ps: seq<Pin>, held: set<Pin>)
  {
    forall i :: 0 <= i < |ps| ==> ps[i] !in held
  }

  /** A prefix that repeats a pin or takes a held one cannot be extended into a plan that can be opened. */
  lemma PrefixFails(s: seq<Pin>, t: seq<Pin>, held: set<Pin>)
    requires |s| <= |t| && t[..|s|] == s
    requires !(AllDifferent(s) && Free(s, held))
    ensures !(AllDifferent(t) && Free(t, held))
  {
    assert forall i :: 0 <= i < |s| ==> s[i] == t[i];
  }

  /** A data pin that cannot be opened after the pins before it means the whole plan cannot be opened. */
  lemma DataPrefixFails(head: seq<Pin>, d: seq<Pin>, i: nat, held: set<Pin>)
    requires i < |d| && d[i] != NoPin
    requires !(AllDifferent(head + Given(d[..i]) + [d[i]]) && Free(head + Given(d[..i]) + [d[i]], held))
    ensures !(AllDifferent(head + Given(d)) && Free(head + Given(d), held))
  {
    GivenSnoc(d, i);
    var g, rest := Given(d[..i]), Given(d[i + 1..]);
    GivenAppend(d[..i + 1], d[i + 1..]);
    SplitAt(d, i + 1);
    var s := head + g + [d[i]];
    Regroup(head, g, [d[i]]);
    Regroup(head, g + [d[i]], rest);
    assert head + Given(d) == s + rest;
    assert (s + rest)[..|s|] == s;
    PrefixFails(s, s + rest, held);
  }

  /** Appending one pin keeps a plan openable exactly when the pin is new and not held. */
  lemma PlanSnoc(s: seq<Pin>, p: Pin, held: set<Pin>)
    requires AllDifferent(s) && Free(s, held)
    ensures AllDifferent(s + [p]) && Free(s + [p], held) <==> p !in held && p !in s
  {
    var t := s + [p];
    assert t[|s|] == p;
    if p in s {
      var i :| 0 <= i < |s| && s[i] == p;
      assert t[i] == t[|s|];
    } else if p !in held {
      forall i, j | 0 <= i < j < |t|
        ensures t[i] != t[j]
      {
        assert t[i] == s[i];
      }
      forall i | 0 <= i < |t|
        ensures t[i] !in held
      {
      }
    }
  }

  /**
   * Where opening a plan stops: the index of the first pin that is held already or
   * repeats an earlier pin of the plan, and `|ps|` when there is none.
   */
  function Clash(ps: seq<Pin>, held: set<Pin>): (k: nat)
    ensures k <= |ps|
  {
    if ps == [] then 0
    else
      var s, p := ps[..|ps| - 1], ps[|ps| - 1];
      var k := Clash(s, held);
      if k < |s| then k else if p in held || p in s then |s| else |ps|
  }

  /**
   * Every pin before the clash can be opened, the pin at the clash cannot, and there is
   * no clash exactly when the whole plan can be opened.
   */
  lemma {:induction false} ClashOpens(ps: seq<Pin>, held: set<Pin>)
    ensures Clash(ps, held) == |ps| <==> AllDifferent(ps) && Free(ps, held)
    ensures AllDifferent(ps[..Clash(ps, held)]) && Free(ps[..Clash(ps, held)], held)
    ensures Clash(ps, held) < |ps| ==> ps[Clash(ps, held)] in held || ps[Clash(ps, held)] in ps[..Clash(ps, held)]
  {
    if ps != [] {
      var s, p := ps[..|ps| - 1], ps[|ps| - 1];
      ClashOpens(s, held);
      assert ps == s + [p];
      var k := Clash(s, held);
      if k < |s| {
        assert ps[..k] == s[..k] && ps[k] == s[k];
        PrefixFails(s, ps, held);
      } else {
        assert s[..k] == s && ps[..|s|] == s;
        PlanSnoc(s, p, held);
      }
    }
  }

  /** A plan that can be opened whole has no clash. */
  lemma ClashNone(ps: seq<Pin>, held: set<Pin>)
    requires AllDifferent(ps) && Free(ps, held)
    ensures Clash(ps, held) == |ps| && ps[..|ps|] == ps
  {
    ClashOpens(ps, held);
  }

  /** Where opening RS, then RW when given, stops. */
  lemma SelectClash(rs: Pin, rw: Pin, held: set<Pin>)
    ensures var sel := Selected(rs, rw);
      && (rs in held ==> Clash(sel, held) == 0 && sel[..0] == [])
      && (rs !in held && (rw == NoPin || rw in held || rw == rs) ==> Clash(sel, held) == 1 && sel[..1] == [rs])
      && (rs !in held && rw != NoPin && rw !in held && rw != rs ==> Clash(sel, held) == 2 && sel[..2] == [rs] + [rw])
      && (AllDifferent(sel) && Free(sel, held) <==> rs !in held && (rw != NoPin ==> rw !in held && rw != rs))
      && PinSet([]) == {} && [] + [rs] == [rs] && Opens([]) == []
  {
    var sel := Selected(rs, rw);
    ClashOpens(sel, held);
    if rs in held {
      ClashAt([], rs, sel, held);
    } else if rw == NoPin {
      ClashNone(sel, held);
    } else if rw in held || rw == rs {
      ClashAt([rs], rw, sel, held);
    } else {
      ClashNone(sel, held);
    }
  }

  /** Where opening RS, RW when given, then E stops, and which exception the constructor then raises. */
  lemma ControlClash(rs: Pin, rw: Pin, enable: Pin, held: set<Pin>)
    ensures var sel, head := Selected(rs, rw), Plan(rs, rw, enable, []);
      && head == sel + [enable] && sel[..|sel|] == sel
      && (Clash(sel, held) < |sel| ==>
        Opening(rs, rw, enable, [], held) == sel[..Clash(sel, held)] && OpeningFault(rs, rw, enable, held) == PinInUse)
      && (Clash(sel, held) == |sel| && enable == NoPin ==>
        Opening(rs, rw, enable, [], held) == sel && OpeningFault(rs, rw, enable, held) == InvalidArgument)
      && (Clash(sel, held) == |sel| && enable != NoPin && (enable in held || enable in sel) ==>
        Opening(rs, rw, enable, [], held) == sel && OpeningFault(rs, rw, enable, held) == PinInUse)
      && (AllDifferent(sel) && Free(sel, held) <==> Clash(sel, held) == |sel|)
      && (AllDifferent(head) && Free(head, held) <==> Clash(sel, held) == |sel| && enable !in held && enable !in sel)
      && (Clash(head, held) < |head| <==> !(Clash(sel, held) == |sel| && enable !in held && enable !in sel))
  {
    var sel, head := Selected(rs, rw), Plan(rs, rw, enable, []);
    assert head == sel + [enable];
    ClashOpens(sel, held);
    if Clash(sel, held) < |sel| {
      assert head[..|sel|] == sel;
      PrefixFails(sel, head, held);
      ClashPrefix(sel, head, held);
      assert head[..Clash(head, held)] == sel[..Clash(sel, held)];
    } else {
      PlanSnoc(sel, enable, held);
      if enable != NoPin && (enable in held || enable in sel) {
        ClashAt(sel, enable, head, held);
      }
    }
  }

  /**
   * With E given, the constructor stops inside RS, RW and E exactly where it would stop
   * on the whole plan, and a plan that opens whole is opened whole.
   */
  lemma PlanClash(rs: Pin, rw: Pin, enable: Pin, d: seq<Pin>, held: set<Pin>)
    requires enable != NoPin
    ensures var head, plan := Plan(rs, rw, enable, []), Plan(rs, rw, enable, d);
      && (Clash(head, held) < |head| ==>
        Opening(rs, rw, enable, d, held) == Opening(rs, rw, enable, [], held) && !(AllDifferent(plan) && Free(plan, held)))
      && (AllDifferent(plan) && Free(plan, held) ==> Opening(rs, rw, enable, d, held) == plan)
  {
    var head, plan := Plan(rs, rw, enable, []), Plan(rs, rw, enable, d);
    PlanSplit(rs, rw, enable, d);
    if Clash(head, held) < |head| {
      assert plan[..|head|] == head;
      ClashOpens(head, held);
      PrefixFails(head, plan, held);
      ClashPrefix(head, plan, held);
      assert plan[..Clash(plan, held)] == head[..Clash(head, held)];
    }
    if AllDifferent(plan) && Free(plan, held) {
      ClashNone(plan, held);
    }
  }

  /** A clash inside a prefix is the clash of every extension of it. */
  lemma {:induction false} ClashPrefix(s: seq<Pin>, t: seq<Pin>, held: set<Pin>)
    requires |s| <= |t| && t[..|s|] == s && Clash(s, held) < |s|
    ensures Clash(t, held) == Clash(s, held)
    decreases |t|
  {
    if |t| > |s| {
      var t' := t[..|t| - 1];
      assert t'[..|s|] == s;
      ClashPrefix(s, t', held);
    } else {
      assert t == s;
    }
  }

  /** A pin that cannot follow an openable prefix is where every plan starting so stops. */
  lemma ClashAt(taken: seq<Pin>, p: Pin, t: seq<Pin>, held: set<Pin>)
    requires AllDifferent(taken) && Free(taken, held) && (p in held || p in taken)
    requires |taken| < |t| && t[..|taken| + 1] == taken + [p]
    ensures Clash(t, held) == |taken| && t[..|taken|] == taken
  {
    ClashOpens(taken, held);
    var s := taken + [p];
    assert s[..|taken|] == taken;
    assert Clash(s, held) == |taken|;
    ClashPrefix(s, t, held);
    assert t[..|taken|] == s[..|taken|];
  }

  /**
   * The library calls of opening each pin of `ps` as a GPIOMem output driving low, in
   * order: `fsel` to output, then `gpio_write` of the initial value false.
   */
  function Opens(ps: seq<Pin>): seq<Event>
  {
    if ps == [] then [] else Opens(ps[..|ps| - 1]) + OpenEvents(Mem, ps[|ps| - 1], false)
  }

  /** Pin `i` of the plan makes calls `2i` and `2i + 1`. */
  lemma {:induction false} OpensCalls(ps: seq<Pin>)
    ensures |Opens(ps)| == 2 * |ps|
    ensures forall i :: 0 <= i < |ps| ==> Opens(ps)[2 * i] == Fsel(ps[i], true) && Opens(ps)[2 * i + 1] == GpioWrite(ps[i], false)
  {
    if ps != [] {
      OpensCalls(ps[..|ps| - 1]);
    }
  }

  /** Opening one more pin appends its two calls. */
  lemma OpensSnoc(ps: seq<Pin>, p: Pin)
    ensures Opens(ps + [p]) == Opens(ps) + OpenEvents(Mem, p, false)
  {
    assert (ps + [p])[..|ps|] == ps;
  }

  /**
   * The pins the provider's constructor has opened when it ends, once RS is given and
   * the library is ready: with E missing, RS and RW up to the first clash; otherwise
   * the whole plan up to the first clash.
   */
  function Opening(rs: Pin, rw: Pin, enable: Pin, d: seq<Pin>, held: set<Pin>): seq<Pin>
  {
    var ps := if enable == NoPin then Selected(rs, rw) else Plan(rs, rw, enable, d);
    ps[..Clash(ps, held)]
  }

  /** The exception a failed construction ends with in that case: E missing after RS and RW opened, else a pin in use. */
  function OpeningFault(rs: Pin, rw: Pin, enable: Pin, held: set<Pin>): Fault
  {
    if enable == NoPin && Clash(Selected(rs, rw), held) == |Selected(rs, rw)| then InvalidArgument else PinInUse
  }

  /**
   * Line `i` adds its pin to the pins opened so far when it is given, and a given pin
   * that cannot be opened is where the whole plan stops.
   */
  lemma LineClash(head: seq<Pin>, d: seq<Pin>, i: nat, held: set<Pin>)
    requires i < |d| && AllDifferent(head + Given(d[..i])) && Free(head + Given(d[..i]), held)
    ensures d[i] == NoPin ==> head + Given(d[..i + 1]) == head + Given(d[..i])
    ensures d[i] != NoPin ==> head + Given(d[..i + 1]) == head + Given(d[..i]) + [d[i]]
    ensures d[i] != NoPin && (d[i] in held || d[i] in head + Given(d[..i])) ==>
      var plan, taken := head + Given(d), head + Given(d[..i]);
      !(AllDifferent(plan) && Free(plan, held)) && Clash(plan, held) == |taken| && plan[..|taken|] == taken
  {
    GivenSnoc(d, i);
    var taken := head + Given(d[..i]);
    if d[i] != NoPin {
      Regroup(head, Given(d[..i]), [d[i]]);
      if d[i] in held || d[i] in taken {
        PlanSnoc(taken, d[i], held);
        DataPrefixFails(head, d, i, held);
        DataPrefix(head, d, i);
        ClashAt(taken, d[i], head + Given(d), held);
      }
    }
  }

  /** Line `i` of the data pins comes right after the given lines before it in the plan. */
  lemma DataPrefix(head: seq<Pin>, d: seq<Pin>, i: nat)
    requires i < |d| && d[i] != NoPin
    ensures |head + Given(d[..i])| < |head + Given(d)|
    ensures (head + Given(d))[..|head + Given(d[..i])| + 1] == head + Given(d[..i]) + [d[i]]
  {
    GivenSnoc(d, i);
    var g, rest := Given(d[..i]), Given(d[i + 1..]);
    GivenAppend(d[..i + 1], d[i + 1..]);
    SplitAt(d, i + 1);
    var s := head + g + [d[i]];
    Regroup(head, g, [d[i]]);
    Regroup(head, g + [d[i]], rest);
    assert head + Given(d) == s + rest;
    assert (s + rest)[..|s|] == s;
  }

  /** The level a line shows: the last value written to its pin, if any. */
  datatype Level = Unset | Set(high: bool)

  function LastWrite(es: seq<Event>, p: Pin): Level
  {
    if es == [] then Unset
    else if es[|es| - 1].GpioWrite? && es[|es| - 1].pin == p then Set(es[|es| - 1].value)
    else LastWrite(es[..|es| - 1], p)
  }

  /** A write to `p` that no later event touches decides the level of `p`. */
  lemma {:induction false} LastWriteFrom(es: seq<Event>, j: nat, p: Pin, v: bool)
    requires j < |es| && es[j] == GpioWrite(p, v)
    requires forall m :: j < m < |es| ==> es[m].pin != p
    ensures LastWrite(es, p) == Set(v)
    decreases |es|
  {
    if j < |es| - 1 {
      var es' := es[..|es| - 1];
      assert es'[j] == es[j];
      LastWriteFrom(es', j, p, v);
    }
  }

  /** What the controller reads on the data lines `lines`: high iff last written high. */
  function Sampled(es: seq<Event>, lines: seq<Pin>): (s: seq<bool>)
    ensures |s| == |lines|
  {
    seq(|lines|, j requires 0 <= j < |lines| => LastWrite(es, lines[j]) == Set(true))
  }

  /** The events of a piece of a transfer, and whether it threw. */
  datatype Run = Run(events: seq<Event>, outcome: Outcome)

  /** Run `b` after `a` unless `a` threw. */
  function Then(a: Run, b: Run): (r: Run)
    ensures a.outcome.Throws? ==> r == a
    ensures a.outcome.Ok? ==> r.events == a.events + b.events && r.outcome == b.outcome
  {
    if a.outcome.Throws? then a else Run(a.events + b.events, b.outcome)
  }

  /** Line `lines[j]` gets bit `j` of `v`, for `j < k`. */
  function Writes(lines: seq<Pin>, k: nat, v: nat): (es: seq<Event>)
    requires k <= |lines|
    ensures |es| == k && forall j :: 0 <= j < k ==> es[j] == GpioWrite(lines[j], Bit(v, j))
  {
    seq(k, j requires 0 <= j < k => GpioWrite(lines[j], Bit(v, j)))
  }

  lemma WritesSnoc(lines: seq<Pin>, k: nat, v: nat)
    requires k < |lines|
    ensures Writes(lines, k + 1, v) == Writes(lines, k, v) + [GpioWrite(lines[k], Bit(v, k))]
  {
  }

  /** The first line from `from` on with no port, or `|lines|`. */
  function FirstAbsent(lines: seq<Pin>, from: nat): (n: nat)
    requires from <= |lines|
    ensures from <= n <= |lines| && (n < |lines| ==> lines[n] == NoPin)
    ensures forall m :: from <= m < n ==> lines[m] != NoPin
    decreases |lines| - from
  {
    if from == |lines| then from
    else if lines[from] == NoPin then from
    else FirstAbsent(lines, from + 1)
  }

  /**
   * `Write8Bits`/`Write4Bits` before the pulse: line `j` gets bit `j` of `v` until a
   * line without a port is reached, which is a NullReferenceException.
   */
  function DataRun(lines: seq<Pin>, v: nat): Run
  {
    var n := FirstAbsent(lines, 0);
    Run(Writes(lines, n, v), if n < |lines| then Throws(NullReference) else Ok)
  }

  /** The data writes succeed exactly when every line has a port, and then every line gets its bit. */
  lemma DataRunOk(lines: seq<Pin>, v: nat)
    ensures DataRun(lines, v).outcome == Ok <==> forall j :: 0 <= j < |lines| ==> lines[j] != NoPin
    ensures DataRun(lines, v).outcome.Ok? ==> DataRun(lines, v).events == Writes(lines, |lines|, v)
  {
  }

  /** Where the first missing line is, `DataRun` stops. */
  lemma DataRunStops(lines: seq<Pin>, v: nat, n: nat)
    requires n <= |lines| && FirstAbsent(lines, 0) == n
    ensures DataRun(lines, v) == Run(Writes(lines, n, v), if n < |lines| then Throws(NullReference) else Ok)
  {
  }

  /** `PulseEnable`: E low, high, low. */
  function Pulse(enable: Pin): seq<Event>
  {
    [GpioWrite(enable, false), GpioWrite(enable, true), GpioWrite(enable, false)]
  }

  /** RS gets the mode, then RW (when wired) goes low for a write. */
  function Select(rs: Pin, rw: Pin, mode: bool): seq<Event>
  {
    [GpioWrite(rs, mode)] + (if rw != NoPin then [GpioWrite(rw, false)] else [])
  }

  /**
   * Everything one `Send(value, mode)` writes: RS and RW, then all eight data lines and a
   * pulse, or in 4-bit mode lines 4..7 twice (high nibble, then low nibble), each
   * followed by a pulse.
   */
  function SendRun(fourBit: bool, rs: Pin, rw: Pin, enable: Pin, d: seq<Pin>, value: byte, mode: bool): Run
    requires |d| == 8
  {
    var bus := BusRun(fourBit, enable, d, value);
    Run(Select(rs, rw, mode) + bus.events, bus.outcome)
  }

  /** The data part of a transfer: eight lines and a pulse, or two nibbles on lines 4..7, each with a pulse. */
  function BusRun(fourBit: bool, enable: Pin, d: seq<Pin>, value: byte): Run
    requires |d| == 8
  {
    if !fourBit then Then(DataRun(d, value), Run(Pulse(enable), Ok))
    else Then(NibbleRun(enable, d, value / 16), NibbleRun(enable, d, value))
  }

  /** `Write4Bits(v)`: bits 0..3 of `v` on lines 4..7, then a pulse. */
  function NibbleRun(enable: Pin, d: seq<Pin>, v: byte): Run
    requires |d| == 8
  {
    Then(DataRun(d[4..], v), Run(Pulse(enable), Ok))
  }

  /** Distinct pins stay distinct in any slice. */
  lemma DifferentSlice(ps: seq<Pin>, lo: nat, hi: nat)
    requires lo <= hi <= |ps| && AllDifferent(ps)
    ensures AllDifferent(ps[lo..hi])
  {
    forall i, j | 0 <= i < j < hi - lo
      ensures ps[lo..hi][i] != ps[lo..hi][j]
    {
      assert ps[lo..hi][i] == ps[lo + i] && ps[lo..hi][j] == ps[lo + j];
    }
  }

  /** After distinct lines are written from `at` and nothing later, they show the bits of `v`. */
  lemma WritesLatched(es: seq<Event>, at: nat, lines: seq<Pin>, v: nat)
    requires |es| == at + |lines| && es[at..] == Writes(lines, |lines|, v) && AllDifferent(lines)
    ensures Sampled(es, lines) == Bits(v, |lines|)
  {
    forall j | 0 <= j < |lines|
      ensures Sampled(es, lines)[j] == Bit(v, j)
    {
      assert es[at + j] == es[at..][j];
      forall m | at + j < m < |es|
        ensures es[m].pin != lines[j]
      {
        assert es[m] == es[at..][m - at];
      }
      LastWriteFrom(es, at + j, lines[j], Bit(v, j));
    }
  }

  /** RS is written first; if no later event touches its pin, it still shows the mode. */
  lemma RsHeld(es: seq<Event>, rs: Pin, mode: bool)
    requires |es| >= 1 && es[0] == GpioWrite(rs, mode)
    requires forall m :: 0 < m < |es| ==> es[m].pin != rs
    ensures LastWrite(es, rs) == Set(mode)
  {
    LastWriteFrom(es, 0, rs, mode);
  }

  /** The plan's pins after RS differ from RS. */
  lemma NotRs(rs: Pin, rw: Pin, enable: Pin, d: seq<Pin>, p: Pin)
    requires AllDifferent(Plan(rs, rw, enable, d))
    requires AfterRs(p, rw, enable, d)
    ensures p != rs
  {
    var plan := Plan(rs, rw, enable, d);
    var r := if rw != NoPin then 1 else 0;
    assert plan[0] == rs;
    if p == enable {
      assert plan[1 + r] == enable;
    } else if rw != NoPin && p == rw {
      assert plan[1] == rw;
    } else {
      var i :| 0 <= i < |Given(d)| && Given(d)[i] == p;
      assert plan[2 + r + i] == p;
    }
  }

  /** The given data pins differ from each other. */
  lemma DataDifferent(rs: Pin, rw: Pin, enable: Pin, d: seq<Pin>)
    requires AllDifferent(Plan(rs, rw, enable, d))
    ensures AllDifferent(Given(d))
  {
    var plan := Plan(rs, rw, enable, d);
    var off := |plan| - |Given(d)|;
    assert plan[off..] == Given(d);
    DifferentSlice(plan, off, |plan|);
  }

  /** A pin is among the given data pins exactly when some line has it and it is not GPIO_NONE. */
  lemma {:induction false} GivenElems(d: seq<Pin>, p: Pin)
    ensures p in Given(d) <==> p in d && p != NoPin
    decreases |d|
  {
    if d != [] {
      var pre := d[..|d| - 1];
      GivenElems(pre, p);
      assert d == pre + [d[|d| - 1]];
    }
  }

  /** Two lines with distinct given pins: a given pin occurs on one line only. */
  lemma {:induction false} GivenDistinct(d: seq<Pin>, i: nat, j: nat)
    requires AllDifferent(Given(d)) && i < j < |d| && d[i] != NoPin
    ensures d[i] != d[j]
    decreases |d|
  {
    var n := |d| - 1;
    var pre := d[..n];
    var g := Given(pre);
    assert Given(d)[..|g|] == g;
    DifferentSlice(Given(d), 0, |g|);
    if j < n {
      GivenDistinct(pre, i, j);
    } else if d[n] != NoPin {
      GivenElems(pre, d[i]);
      var k :| 0 <= k < |g| && g[k] == d[i];
      assert Given(d)[k] == d[i] && Given(d)[|g|] == d[n];
    }
  }

  /** The plan is the control pins followed by the given data pins. */
  lemma PlanSplit(rs: Pin, rw: Pin, enable: Pin, d: seq<Pin>)
    ensures Plan(rs, rw, enable, d) == Plan(rs, rw, enable, []) + Given(d)
  {
  }

  /** Distinct plan pins: RS, RW, E and every given data pin are pairwise different. */
  lemma PlanApart(rs: Pin, rw: Pin, enable: Pin, d: seq<Pin>)
    requires AllDifferent(Plan(rs, rw, enable, d))
    ensures rs != enable && (rw != NoPin ==> rw != rs && rw != enable)
    ensures forall j :: 0 <= j < |d| && d[j] != NoPin ==> d[j] != rs && d[j] != enable && d[j] != rw
    ensures forall i, j :: 0 <= i < j < |d| && d[i] != NoPin ==> d[i] != d[j]
  {
    var plan := Plan(rs, rw, enable, d);
    var r := if rw != NoPin then 1 else 0;
    assert plan[0] == rs && plan[1 + r] == enable;
    if rw != NoPin {
      assert plan[1] == rw;
    }
    forall j | 0 <= j < |d| && d[j] != NoPin
      ensures d[j] != rs && d[j] != enable && d[j] != rw
    {
      GivenElems(d, d[j]);
      NotRs(rs, rw, enable, d, d[j]);
      var k :| 0 <= k < |Given(d)| && Given(d)[k] == d[j];
      assert plan[2 + r + k] == d[j];
    }
    DataDifferent(rs, rw, enable, d);
    forall i, j | 0 <= i < j < |d| && d[i] != NoPin
      ensures d[i] != d[j]
    {
      GivenDistinct(d, i, j);
    }
  }

  /**
   * 8-bit mode with all data lines wired, every pin distinct: the transfer succeeds and
   * ends with one pulse on E; when E falls, RS shows the mode and the data lines show
   * exactly the byte sent.
   */
  lemma EightBitLatchesValue(rs: Pin, rw: Pin, enable: Pin, d: seq<Pin>, value: byte, mode: bool)
    requires |d| == 8 && forall j :: 0 <= j < 8 ==> d[j] != NoPin
    requires AllDifferent(Plan(rs, rw, enable, d))
    ensures var r := SendRun(false, rs, rw, enable, d, value, mode);
      var k := |Select(rs, rw, mode)| + 8;
      && r.outcome == Ok && |r.events| == k + 3 && r.events[k..] == Pulse(enable)
      && LastWrite(r.events[..k], rs) == Set(mode)
      && Value(Sampled(r.events[..k], d)) == value
  {
    GivenAll(d);
    DataDifferent(rs, rw, enable, d);
    var sel := Select(rs, rw, mode);
    var w := Writes(d, 8, value);
    EightBitShape(rs, rw, enable, d, value, mode);
    ThreeParts(sel, w, Pulse(enable));
    WritesLatched(sel + w, |sel|, d, value);
    assert Pow2(8) == 256;
    ValueOfBits(value, 8);
    LinesOnPlan(rw, enable, d, d, value);
    SelectThenPlan(rs, rw, enable, d, mode, w);
  }

  /** With all data lines wired, an 8-bit transfer is select, the eight writes, and a pulse. */
  lemma EightBitShape(rs: Pin, rw: Pin, enable: Pin, d: seq<Pin>, value: byte, mode: bool)
    requires |d| == 8 && forall j :: 0 <= j < 8 ==> d[j] != NoPin
    ensures var r := SendRun(false, rs, rw, enable, d, value, mode);
      r.outcome == Ok && r.events == Select(rs, rw, mode) + Writes(d, 8, value) + Pulse(enable)
  {
    DataRunOk(d, value);
  }

  /** The parts of a three-part sequence are its slices. */
  lemma ThreeParts<T>(a: seq<T>, b: seq<T>, c: seq<T>)
    ensures (a + b + c)[..|a| + |b|] == a + b && (a + b + c)[|a| + |b|..] == c
    ensures (a + b)[|a|..] == b
  {
  }

  /**
   * 4-bit mode with lines 4..7 wired, every pin distinct: two pulses; at the first fall
   * the lines show the high nibble, at the second the low nibble, and RS shows the mode
   * at both, so the controller reassembles the byte sent.
   */
  lemma FourBitLatchesValue(rs: Pin, rw: Pin, enable: Pin, d: seq<Pin>, value: byte, mode: bool)
    requires |d| == 8 && forall j :: 4 <= j < 8 ==> d[j] != NoPin
    requires AllDifferent(Plan(rs, rw, enable, d))
    ensures var r := SendRun(true, rs, rw, enable, d, value, mode);
      var k1 := |Select(rs, rw, mode)| + 4;
      var k2 := k1 + 7;
      && r.outcome == Ok && |r.events| == k2 + 3
      && r.events[k1..k1 + 3] == Pulse(enable) && r.events[k2..] == Pulse(enable)
      && LastWrite(r.events[..k1], rs) == Set(mode) && LastWrite(r.events[..k2], rs) == Set(mode)
      && 16 * Value(Sampled(r.events[..k1], d[4..])) + Value(Sampled(r.events[..k2], d[4..])) == value
  {
    var sel := Select(rs, rw, mode);
    var r := SendRun(true, rs, rw, enable, d, value, mode);
    var k1 := |sel| + 4;
    var k2 := k1 + 7;
    var lines := d[4..];
    var hi := Writes(lines, 4, value / 16);
    var lo := Writes(lines, 4, value);
    FourBitShape(rs, rw, enable, d, value, mode);
    HighLinesDifferent(rs, rw, enable, d);
    var e1 := r.events[..k1];
    var e2 := r.events[..k2];
    assert e1 == sel + hi;
    assert e2 == sel + hi + Pulse(enable) + lo;
    assert e1[|sel|..] == hi;
    assert e2[|sel| + 7..] == lo;
    WritesLatched(e1, |sel|, lines, value / 16);
    WritesLatched(e2, |sel| + 7, lines, value);
    assert Pow2(4) == 16;
    ValueOfBits(value / 16, 4);
    LowNibble(value);
    FourBitRsHeld(rs, rw, enable, d, value, mode);
  }

  /** With lines 4..7 wired, a 4-bit transfer is select, high nibble, pulse, low nibble, pulse. */
  lemma FourBitShape(rs: Pin, rw: Pin, enable: Pin, d: seq<Pin>, value: byte, mode: bool)
    requires |d| == 8 && forall j :: 4 <= j < 8 ==> d[j] != NoPin
    ensures var r := SendRun(true, rs, rw, enable, d, value, mode);
      && r.outcome == Ok
      && r.events == Select(rs, rw, mode) + Writes(d[4..], 4, value / 16) + Pulse(enable) + Writes(d[4..], 4, value) + Pulse(enable)
  {
    assert forall j :: 0 <= j < 4 ==> d[4..][j] != NoPin;
    DataRunOk(d[4..], value / 16);
    DataRunOk(d[4..], value);
  }

  /** ... and no write after the first touches RS before either pulse. */
  lemma FourBitRsHeld(rs: Pin, rw: Pin, enable: Pin, d: seq<Pin>, value: byte, mode: bool)
    requires |d| == 8 && forall j :: 4 <= j < 8 ==> d[j] != NoPin
    requires AllDifferent(Plan(rs, rw, enable, d))
    ensures var r := SendRun(true, rs, rw, enable, d, value, mode);
      var k1 := |Select(rs, rw, mode)| + 4;
      LastWrite(r.events[..k1], rs) == Set(mode) && LastWrite(r.events[..k1 + 7], rs) == Set(mode)
  {
    var sel := Select(rs, rw, mode);
    var r := SendRun(true, rs, rw, enable, d, value, mode);
    var k1 := |sel| + 4;
    var hi := Writes(d[4..], 4, value / 16);
    var tail := hi + Pulse(enable) + Writes(d[4..], 4, value);
    FourBitShape(rs, rw, enable, d, value, mode);
    HighLinesDifferent(rs, rw, enable, d);
    assert forall j :: 0 <= j < 4 ==> d[4..][j] == d[4 + j];
    LinesOnPlan(rw, enable, d, d[4..], value / 16);
    LinesOnPlan(rw, enable, d, d[4..], value);
    PulseOnPlan(rw, enable, d);
    OnPlanAppend(hi, Pulse(enable), rw, enable, d);
    OnPlanAppend(hi + Pulse(enable), Writes(d[4..], 4, value), rw, enable, d);
    Regroup(sel, hi, Pulse(enable));
    Regroup(sel, hi + Pulse(enable), Writes(d[4..], 4, value));
    assert r.events == sel + tail + Pulse(enable);
    assert r.events[..k1] == sel + hi;
    assert r.events[..k1 + 7] == sel + tail;
    SelectThenPlan(rs, rw, enable, d, mode, hi);
    SelectThenPlan(rs, rw, enable, d, mode, tail);
  }

  /** Pins of the plan other than RS: enable, RW when wired, and the given data pins. */
  predicate AfterRs(p: Pin, rw: Pin, enable: Pin, d: seq<Pin>)
  {
    p == enable || (rw != NoPin && p == rw) || p in Given(d)
  }

  /** Every event of `es` is on a plan pin other than RS. */
  predicate OnPlan(es: seq<Event>, rw: Pin, enable: Pin, d: seq<Pin>)
  {
    forall m :: 0 <= m < |es| ==> AfterRs(es[m].pin, rw, enable, d)
  }

  lemma OnPlanAppend(a: seq<Event>, b: seq<Event>, rw: Pin, enable: Pin, d: seq<Pin>)
    requires OnPlan(a, rw, enable, d) && OnPlan(b, rw, enable, d)
    ensures OnPlan(a + b, rw, enable, d)
  {
    forall m | 0 <= m < |a + b|
      ensures AfterRs((a + b)[m].pin, rw, enable, d)
    {
      if m >= |a| {
        assert (a + b)[m] == b[m - |a|];
      }
    }
  }

  lemma PulseOnPlan(rw: Pin, enable: Pin, d: seq<Pin>)
    ensures OnPlan(Pulse(enable), rw, enable, d)
  {
  }

  /** Writes to given data lines touch only plan pins other than RS. */
  lemma LinesOnPlan(rw: Pin, enable: Pin, d: seq<Pin>, lines: seq<Pin>, v: nat)
    requires forall j :: 0 <= j < |lines| ==> lines[j] in Given(d)
    ensures OnPlan(Writes(lines, |lines|, v), rw, enable, d)
  {
  }

  /** After the select, events on other plan pins leave RS at the mode. */
  lemma SelectThenPlan(rs: Pin, rw: Pin, enable: Pin, d: seq<Pin>, mode: bool, tail: seq<Event>)
    requires AllDifferent(Plan(rs, rw, enable, d)) && OnPlan(tail, rw, enable, d)
    ensures LastWrite(Select(rs, rw, mode) + tail, rs) == Set(mode)
  {
    var sel := Select(rs, rw, mode);
    var es := sel + tail;
    forall m | 0 < m < |es|
      ensures AfterRs(es[m].pin, rw, enable, d)
    {
      if m >= |sel| {
        assert es[m] == tail[m - |sel|];
      }
    }
    RsHeldPlan(rs, rw, enable, d, es, mode);
  }

  /** Lines 4..7, when all wired, are distinct given pins. */
  lemma HighLinesDifferent(rs: Pin, rw: Pin, enable: Pin, d: seq<Pin>)
    requires |d| == 8 && forall j :: 4 <= j < 8 ==> d[j] != NoPin
    requires AllDifferent(Plan(rs, rw, enable, d))
    ensures AllDifferent(d[4..]) && forall j :: 4 <= j < 8 ==> d[j] in Given(d)
  {
    var g := Given(d);
    GivenSuffix(d);
    DataDifferent(rs, rw, enable, d);
    DifferentSlice(g, |g| - 4, |g|);
    forall j | 4 <= j < 8
      ensures d[j] in g
    {
      assert g[|g| - 4 + (j - 4)] == d[j];
    }
  }

  /** When lines 4..7 are wired they are the last four given pins. */
  lemma GivenSuffix(d: seq<Pin>)
    requires |d| == 8 && forall j :: 4 <= j < 8 ==> d[j] != NoPin
    ensures |Given(d)| >= 4 && Given(d)[|Given(d)| - 4..] == d[4..]
  {
    GivenAll(d[4..]);
    GivenAppend(d[..4], d[4..]);
    SplitAt(d, 4);
  }

  /** A transfer that starts with the RS write and then only touches RW, E and data pins leaves RS at the mode. */
  lemma RsHeldPlan(rs: Pin, rw: Pin, enable: Pin, d: seq<Pin>, es: seq<Event>, mode: bool)
    requires AllDifferent(Plan(rs, rw, enable, d)) && |es| >= 1 && es[0] == GpioWrite(rs, mode)
    requires forall m :: 0 < m < |es| ==> AfterRs(es[m].pin, rw, enable, d)
    ensures LastWrite(es, rs) == Set(mode)
  {
    forall m | 0 < m < |es|
      ensures es[m].pin != rs
    {
      NotRs(rs, rw, enable, d, es[m].pin);
    }
    RsHeld(es, rs, mode);
  }

  /** The low four bits of a byte, read as a number, are the byte modulo 16, and the rest is the high nibble. */
  lemma LowNibble(value: byte)
    ensures Value(Bits(value, 4)) == value % 16 && 16 * (value / 16) + value % 16 == value
  {
    assert Pow2(4) == 16;
    ValueOfBits(value % 16, 4);
    forall j | 0 <= j < 4
      ensures Bits(value, 4)[j] == Bits(value % 16, 4)[j]
    {
      BitMod(value, 4, j);
    }
    assert Bits(value, 4) == Bits(value % 16, 4);
  }

  /** In 8-bit mode a missing data port stops the transfer before E is ever pulsed. */
  lemma MissingPortNoPulse(rs: Pin, rw: Pin, enable: Pin, d: seq<Pin>, value: byte, mode: bool, j: nat)
    requires |d| == 8 && j < 8 && d[j] == NoPin && enable != NoPin
    ensures var r := SendRun(false, rs, rw, enable, d, value, mode);
      && r.outcome == Throws(NullReference) && |r.events| <= |Select(rs, rw, mode)| + j
      && forall m :: |Select(rs, rw, mode)| <= m < |r.events| ==> r.events[m].pin in d[..j]
  {
    var n := FirstAbsent(d, 0);
    assert n <= j;
  }

  class GpioProvider {
    const registry: Registry
    const fourBitMode: bool
    const rs: Handle
    const rw: Handle?
    const enable: Handle
    /** `_dataPorts`: the handle of each of the eight data lines, null where none was given. */
    const data: seq<Handle?>
    var disposed: bool

    constructor (registry: Registry, fourBitMode: bool, rs: Handle, rw: Handle?, enable: Handle, data: seq<Handle?>)
      ensures this.registry == registry && this.fourBitMode == fourBitMode && this.rs == rs && this.rw == rw
      ensures this.enable == enable && this.data == data && !disposed
    {
      this.registry := registry;
      this.fourBitMode := fourBitMode;
      this.rs := rs;
      this.rw := rw;
      this.enable := enable;
      this.data := data;
      disposed := false;
    }

    /** Every handle the provider holds. */
    function Ports(): set<Handle?>
    {
      {rs, enable, rw} + set h | h in data
    }

    /** The RW pin, GPIO_NONE when it is not wired. */
    function RwPin(): Pin
    {
      if rw == null then NoPin else rw.pin
    }

    /** The data pins, GPIO_NONE for a line with no handle. */
    function DataPins(): (d: seq<Pin>)
      ensures |d| == |data| && forall j :: 0 <= j < |data| ==> d[j] == if data[j] == null then NoPin else data[j].pin
    {
      seq(|data|, j requires 0 <= j < |data| => if data[j] == null then NoPin else data[j].pin)
    }

    /** The provider's pins in the order they were opened. */
    function PinPlan(): seq<Pin>
      requires |data| == 8
    {
      Plan(rs.pin, RwPin(), enable.pin, DataPins())
    }

    /** The handles are distinct objects. */
    predicate Distinct()
      requires |data| == 8
    {
      && rs != enable && rw != rs && rw != enable
      && (forall j :: 0 <= j < 8 ==> data[j] == null || (data[j] != rs && data[j] != rw && data[j] != enable))
      && (forall i, j :: 0 <= i < j < 8 && data[i] != null ==> data[i] != data[j])
    }

    /**
     * Eight data lines, every handle a GPIOMem handle of this registry on its own real
     * pin. Until the provider is disposed every handle is open and driving, except that
     * a `Dispose` that stopped at the missing RW port has already closed RS; once it is
     * disposed, so are all its handles.
     */
    ghost predicate Valid()
      reads this, Ports()
    {
      Wired() && Open()
    }

    /** What construction fixed: the handles, their pins and their back end. */
    predicate Wired()
    {
      && |data| == 8
      && rs.pin != NoPin && enable.pin != NoPin && (rw != null ==> rw.pin != NoPin)
      && (forall j :: 0 <= j < 8 && data[j] != null ==> data[j].pin != NoPin)
      && Distinct()
      && (forall h :: h in Ports() && h != null ==> h.registry == registry && h.backend == Mem)
    }

    /** Which handles are still open. */
    ghost predicate Open()
      reads this, Ports()
      requires |data| == 8
    {
      && (!disposed ==>
            && Live(enable) && (rw != null ==> Live(rw))
            && (forall j :: 0 <= j < 8 && data[j] != null ==> Live(data[j]))
            && (Live(rs) || (rs.disposed && rw == null)))
      && (disposed ==> forall h :: h in Ports() && h != null ==> h.disposed)
    }

    /** A freshly opened GPIOMem output of `registry` on pin `p`. */
    static predicate Opened(h: Handle, p: Pin, registry: Registry)
      reads h
    {
      Live(h) && h.pin == p && h.registry == registry && h.backend == Mem
    }

    /** An open handle driving its pin. */
    static predicate Live(h: Handle)
      reads h
    {
      !h.disposed && h.direction == Out
    }

    /**
     * The constructor `(fourBitMode, rs, rw, enable, d0..d7)`: GPIO_NONE for RS is an
     * ArgumentException before anything is opened; RS, then RW when given, are opened as
     * GPIOMem outputs; GPIO_NONE for E is an ArgumentException that leaves them open;
     * then E and every given data pin. Any failing GPIOMem constructor ends construction,
     * and nothing opened before it is released.
     */
    static method Create(registry: Registry, fourBitMode: bool, rs: Pin, rw: Pin, enable: Pin, d: seq<Pin>)
      returns (r: Result<GpioProvider>)
      requires |d| == 8 && registry.Valid()
      modifies registry, registry.host
      ensures registry.Valid()
      ensures r.Success? <==> (registry.host.libraryReady && rs != NoPin && enable != NoPin
        && AllDifferent(Plan(rs, rw, enable, d)) && Free(Plan(rs, rw, enable, d), old(registry.exported).Keys))
      ensures rs == NoPin ==> r == Failure(InvalidArgument) && registry.exported == old(registry.exported)
      ensures rs != NoPin && !registry.host.libraryReady ==> r == Failure(LibraryInit) && registry.exported == old(registry.exported)
      ensures r.Failure? ==> old(registry.exported).Keys <= registry.exported.Keys
      ensures (registry.host.libraryReady && rs != NoPin && rs !in old(registry.exported) && rw == NoPin && enable == NoPin)
        ==> r == Failure(InvalidArgument) && rs in registry.exported
      ensures r.Success? ==> (fresh(r.value) && r.value.Valid() && !r.value.disposed && Live(r.value.rs)
        && r.value.registry == registry && r.value.fourBitMode == fourBitMode
        && r.value.rs.pin == rs && r.value.RwPin() == rw && r.value.enable.pin == enable && r.value.DataPins() == d
        && (forall h :: h in r.value.Ports() && h != null ==> fresh(h))
        && registry.exported.Keys == old(registry.exported).Keys + PinSet(Plan(rs, rw, enable, d)))
      ensures r.Success? ==> registry.host.events == old(registry.host.events) + Opens(Plan(rs, rw, enable, d))
      ensures rs == NoPin || !registry.host.libraryReady ==> registry.host.events == old(registry.host.events)
      ensures rs != NoPin && registry.host.libraryReady ==> (var o := Opening(rs, rw, enable, d, old(registry.exported).Keys);
        registry.exported.Keys == old(registry.exported).Keys + PinSet(o)
        && registry.host.events == old(registry.host.events) + Opens(o)
        && (r.Failure? ==> r.fault == OpeningFault(rs, rw, enable, old(registry.exported).Keys)))
    {
      if rs == NoPin {
        return Failure(InvalidArgument);
      }
      ghost var held := registry.exported.Keys;
      ghost var head := Plan(rs, rw, enable, []);
      PlanSplit(rs, rw, enable, d);
      if enable != NoPin {
        PlanClash(rs, rw, enable, d, held);
      }
      var control := OpenControl(registry, rs, rw, enable, held);
      if control.Failure? {
        return Failure(control.fault);
      }
      var rsPort, rwPort, enablePort := control.value.0, control.value.1, control.value.2;
      var portsResult := OpenData(registry, d, head, held, old(registry.host.events));
      if portsResult.Failure? {
        return Failure(portsResult.fault);
      }
      var provider := Build(registry, fourBitMode, rsPort, rwPort, enablePort, portsResult.value, rs, rw, enable, d);
      r := Success(provider);
    }

    /**
     * The first part of the constructor: RS and RW (see `OpenSelect`), the
     * ArgumentException for a missing E, then E. What was opened stays open on failure.
     */
    static method OpenControl(registry: Registry, rs: Pin, rw: Pin, enable: Pin, ghost held: set<Pin>)
      returns (r: Result<(Handle, Handle?, Handle)>)
      requires registry.Valid() && rs != NoPin && registry.exported.Keys == held
      modifies registry, registry.host
      ensures registry.Valid()
      ensures !registry.host.libraryReady ==> r == Failure(LibraryInit) && registry.exported == old(registry.exported)
      ensures r.Failure? ==> held <= registry.exported.Keys
      ensures (registry.host.libraryReady && rs !in held && rw == NoPin && enable == NoPin)
        ==> r == Failure(InvalidArgument) && rs in registry.exported
      ensures registry.host.libraryReady ==>
        (r.Success? <==> enable != NoPin && AllDifferent(Plan(rs, rw, enable, [])) && Free(Plan(rs, rw, enable, []), held))
      ensures r.Success? ==> (registry.exported.Keys == held + PinSet(Plan(rs, rw, enable, []))
        && fresh(r.value.0) && Opened(r.value.0, rs, registry)
        && (r.value.1 == null <==> rw == NoPin)
        && (r.value.1 != null ==> fresh(r.value.1) && Opened(r.value.1, rw, registry))
        && fresh(r.value.2) && Opened(r.value.2, enable, registry))
      ensures !registry.host.libraryReady ==> registry.host.events == old(registry.host.events)
      ensures registry.host.libraryReady && r.Failure? ==> (var o := Opening(rs, rw, enable, [], held);
        registry.exported.Keys == held + PinSet(o) && registry.host.events == old(registry.host.events) + Opens(o)
        && r.fault == OpeningFault(rs, rw, enable, held))
      ensures r.Success? ==> registry.host.events == old(registry.host.events) + Opens(Plan(rs, rw, enable, []))
      ensures registry.host.libraryReady && r.Failure? && enable != NoPin ==>
        Clash(Plan(rs, rw, enable, []), held) < |Plan(rs, rw, enable, [])|
    {
      ghost var sel := Selected(rs, rw);
      ControlClash(rs, rw, enable, held);
      var selResult := OpenSelect(registry, rs, rw, held);
      if selResult.Failure? {
        return Failure(selResult.fault);
      }
      if enable == NoPin {
        return Failure(InvalidArgument);
      }
      var enableResult := OpenPort(registry, enable, sel, held, old(registry.host.events));
      if enableResult.Failure? {
        return Failure(enableResult.fault);
      }
      r := Success((selResult.value.0, selResult.value.1, enableResult.value));
    }

    /** RS, then RW when it is given, each as a GPIOMem output. */
    static method OpenSelect(registry: Registry, rs: Pin, rw: Pin, ghost held: set<Pin>)
      returns (r: Result<(Handle, Handle?)>)
      requires registry.Valid() && rs != NoPin && registry.exported.Keys == held
      modifies registry, registry.host
      ensures registry.Valid()
      ensures !registry.host.libraryReady ==> r == Failure(LibraryInit) && registry.exported == old(registry.exported)
      ensures r.Failure? ==> held <= registry.exported.Keys
      ensures registry.host.libraryReady ==> (r.Success? <==> AllDifferent(Selected(rs, rw)) && Free(Selected(rs, rw), held))
      ensures r.Success? ==> (registry.exported.Keys == held + PinSet(Selected(rs, rw))
        && fresh(r.value.0) && Opened(r.value.0, rs, registry)
        && (r.value.1 == null <==> rw == NoPin)
        && (r.value.1 != null ==> fresh(r.value.1) && Opened(r.value.1, rw, registry)))
      ensures !registry.host.libraryReady ==> registry.host.events == old(registry.host.events)
      ensures registry.host.libraryReady ==> (var sel := Selected(rs, rw); var k := Clash(sel, held);
        registry.exported.Keys == held + PinSet(sel[..k]) && registry.host.events == old(registry.host.events) + Opens(sel[..k]))
      ensures registry.host.libraryReady && r.Failure? ==> r.fault == PinInUse
      ensures registry.host.libraryReady ==> (r.Success? <==> Clash(Selected(rs, rw), held) == |Selected(rs, rw)|)
    {
      ghost var sel := Selected(rs, rw);
      SelectClash(rs, rw, held);
      Regroup(old(registry.host.events), [], []);
      var rsResult := OpenPort(registry, rs, [], held, old(registry.host.events));
      if rsResult.Failure? {
        return Failure(rsResult.fault);
      }
      if rw == NoPin {
        return Success((rsResult.value, null));
      }
      var rwResult := OpenPort(registry, rw, [rs], held, old(registry.host.events));
      if rwResult.Failure? {
        return Failure(rwResult.fault);
      }
      r := Success((rsResult.value, rwResult.value));
    }

    /** The provider object over handles opened on a distinct plan. */
    static method Build(registry: Registry, fourBitMode: bool, rs: Handle, rw: Handle?, enable: Handle, data: seq<Handle?>,
      ghost rsPin: Pin, ghost rwPin: Pin, ghost enablePin: Pin, ghost d: seq<Pin>)
      returns (p: GpioProvider)
      requires |d| == 8 && |data| == 8 && rsPin != NoPin && enablePin != NoPin
      requires AllDifferent(Plan(rsPin, rwPin, enablePin, d))
      requires Opened(rs, rsPin, registry) && Opened(enable, enablePin, registry)
      requires (rw == null <==> rwPin == NoPin) && (rw != null ==> Opened(rw, rwPin, registry))
      requires forall j :: 0 <= j < 8 ==> (data[j] == null <==> d[j] == NoPin)
      requires forall j :: 0 <= j < 8 && data[j] != null ==> Opened(data[j], d[j], registry)
      ensures fresh(p) && p.Valid() && !p.disposed && p.registry == registry && p.fourBitMode == fourBitMode
      ensures p.rs == rs && p.rw == rw && p.enable == enable && p.data == data
      ensures p.RwPin() == rwPin && p.DataPins() == d
      ensures forall h :: h in p.Ports() && h != null ==> h == rs || h == rw || h == enable || h in data
    {
      p := new GpioProvider(registry, fourBitMode, rs, rw, enable, data);
      p.Assembled(rsPin, rwPin, enablePin, d);
    }

    /** A provider assembled from handles opened on a distinct plan is valid and reports that plan. */
    lemma Assembled(rsPin: Pin, rwPin: Pin, enablePin: Pin, d: seq<Pin>)
      requires |d| == 8 && |data| == 8 && !disposed && rsPin != NoPin && enablePin != NoPin
      requires AllDifferent(Plan(rsPin, rwPin, enablePin, d))
      requires Opened(rs, rsPin, registry) && Opened(enable, enablePin, registry)
      requires (rw == null <==> rwPin == NoPin) && (rw != null ==> Opened(rw, rwPin, registry))
      requires forall j :: 0 <= j < 8 ==> (data[j] == null <==> d[j] == NoPin)
      requires forall j :: 0 <= j < 8 && data[j] != null ==> Opened(data[j], d[j], registry)
      ensures Valid() && DataPins() == d && RwPin() == rwPin
    {
      PlanApart(rsPin, rwPin, enablePin, d);
      assert DataPins() == d;
      assert RwPin() == rwPin;
    }

    /**
     * The data-port part of the constructor: a GPIOMem output for every given data pin,
     * in order, null for GPIO_NONE; the first failure ends it and keeps what was opened.
     */
    static method OpenData(registry: Registry, d: seq<Pin>, ghost head: seq<Pin>, ghost held: set<Pin>, ghost base: seq<Event>)
      returns (r: Result<seq<Handle?>>)
      requires |d| == 8 && registry.Valid() && registry.host.libraryReady
      requires AllDifferent(head) && Free(head, held) && registry.exported.Keys == held + PinSet(head)
      requires registry.host.events == base + Opens(head)
      modifies registry, registry.host
      ensures registry.Valid() && registry.host.libraryReady
      ensures r.Success? <==> AllDifferent(head + Given(d)) && Free(head + Given(d), held)
      ensures r.Failure? ==> old(registry.exported).Keys <= registry.exported.Keys && r.fault == PinInUse
      ensures var plan := head + Given(d); var k := Clash(plan, held);
        registry.exported.Keys == held + PinSet(plan[..k]) && registry.host.events == base + Opens(plan[..k])
      ensures r.Success? ==> (|r.value| == 8 && registry.exported.Keys == held + PinSet(head + Given(d))
        && (forall j :: 0 <= j < 8 ==> (r.value[j] == null <==> d[j] == NoPin))
        && (forall j :: 0 <= j < 8 && r.value[j] != null ==> fresh(r.value[j]) && Opened(r.value[j], d[j], registry)))
      ensures r.Success? ==> forall h | h in r.value && h != null :: fresh(h)
    {
      assert d[..0] == [] && head + [] == head;
      var ports: seq<Handle?> := [];
      var i := 0;
      while i < 8
        modifies registry, registry.host
        invariant 0 <= i <= 8 && |ports| == i && registry.Valid() && registry.host.libraryReady
        invariant AllDifferent(head + Given(d[..i])) && Free(head + Given(d[..i]), held)
        invariant registry.exported.Keys == held + PinSet(head + Given(d[..i]))
        invariant old(registry.exported).Keys <= registry.exported.Keys
        invariant registry.host.events == base + Opens(head + Given(d[..i]))
        invariant forall j :: 0 <= j < i ==> (ports[j] == null <==> d[j] == NoPin)
        invariant forall j :: 0 <= j < i && ports[j] != null ==> fresh(ports[j])
        invariant forall j :: 0 <= j < i && ports[j] != null ==> Opened(ports[j], d[j], registry)
      {
        var line := OpenLine(registry, d, i, head, held, base, ports);
        if line.Failure? {
          return Failure(line.fault);
        }
        ports := ports + [line.value];
        i := i + 1;
      }
      assert d[..8] == d;
      ClashNone(head + Given(d), held);
      r := Success(ports);
    }

    /** The handles opened for the first `i` lines, extended by the handle of line `i`. */
    static lemma PortsSnoc(ports: seq<Handle?>, h: Handle?, d: seq<Pin>, i: nat, registry: Registry)
      requires |ports| == i < |d| && (h == null <==> d[i] == NoPin) && (h != null ==> Opened(h, d[i], registry))
      requires forall j :: 0 <= j < i ==> (ports[j] == null <==> d[j] == NoPin)
      requires forall j :: 0 <= j < i && ports[j] != null ==> Opened(ports[j], d[j], registry)
      ensures forall j :: 0 <= j < i + 1 ==> ((ports + [h])[j] == null <==> d[j] == NoPin)
      ensures forall j :: 0 <= j < i + 1 && (ports + [h])[j] != null ==> Opened((ports + [h])[j], d[j], registry)
    {
    }

    /** One step of the data-port loop of the constructor: line `i` is opened if its pin is given. */
    static method OpenLine(registry: Registry, d: seq<Pin>, i: nat, ghost head: seq<Pin>, ghost held: set<Pin>, ghost base: seq<Event>,
      ghost ports: seq<Handle?>)
      returns (r: Result<Handle?>)
      requires |d| == 8 && i < 8 && registry.Valid() && registry.host.libraryReady
      requires |ports| == i && forall j :: 0 <= j < i ==> (ports[j] == null <==> d[j] == NoPin)
      requires forall j :: 0 <= j < i && ports[j] != null ==> Opened(ports[j], d[j], registry)
      requires AllDifferent(head + Given(d[..i])) && Free(head + Given(d[..i]), held)
      requires registry.exported.Keys == held + PinSet(head + Given(d[..i]))
      requires registry.host.events == base + Opens(head + Given(d[..i]))
      modifies registry, registry.host
      ensures registry.Valid()
      ensures r.Failure? ==> !(AllDifferent(head + Given(d)) && Free(head + Given(d), held))
      ensures r.Failure? ==> registry.exported == old(registry.exported) && registry.host.events == old(registry.host.events)
      ensures r.Failure? ==> (r.fault == PinInUse && var plan := head + Given(d); var k := Clash(plan, held);
        registry.exported.Keys == held + PinSet(plan[..k]) && registry.host.events == base + Opens(plan[..k]))
      ensures r.Success? ==> registry.host.events == base + Opens(head + Given(d[..i + 1]))
      ensures r.Success? ==> (AllDifferent(head + Given(d[..i + 1])) && Free(head + Given(d[..i + 1]), held)
        && registry.exported.Keys == held + PinSet(head + Given(d[..i + 1]))
        && (r.value == null <==> d[i] == NoPin)
        && (r.value != null ==> fresh(r.value) && Opened(r.value, d[i], registry)))
      ensures r.Success? ==> forall j :: 0 <= j < i + 1 ==> ((ports + [r.value])[j] == null <==> d[j] == NoPin)
      ensures r.Success? ==> forall j :: 0 <= j < i + 1 && (ports + [r.value])[j] != null ==>
        Opened((ports + [r.value])[j], d[j], registry)
    {
      LineClash(head, d, i, held);
      if d[i] == NoPin {
        PortsSnoc(ports, null, d, i, registry);
        return Success(null);
      }
      var taken := head + Given(d[..i]);
      var port := OpenPort(registry, d[i], taken, held, base);
      if port.Failure? {
        return Failure(port.fault);
      }
      PortsSnoc(ports, port.value, d, i, registry);
      r := Success(port.value);
    }

    /**
     * `new GPIOMem(pin)` for a pin of a plan being opened: the library must be ready and
     * the pin neither held by someone else nor opened earlier by the same plan.
     */
    static method OpenPort(registry: Registry, p: Pin, ghost taken: seq<Pin>, ghost held: set<Pin>, ghost base: seq<Event>)
      returns (r: Result<Handle>)
      requires registry.Valid() && p != NoPin
      requires AllDifferent(taken) && Free(taken, held) && registry.exported.Keys == held + PinSet(taken)
      requires registry.host.events == base + Opens(taken)
      modifies registry, registry.host
      ensures registry.Valid()
      ensures !registry.host.libraryReady ==> r == Failure(LibraryInit)
      ensures registry.host.libraryReady ==> (r.Success? <==> AllDifferent(taken + [p]) && Free(taken + [p], held))
      ensures r.Failure? ==> registry.exported == old(registry.exported)
      ensures r.Success? ==> (fresh(r.value) && Opened(r.value, p, registry)
        && registry.exported.Keys == held + PinSet(taken + [p]))
      ensures r.Failure? ==> registry.host.events == old(registry.host.events)
      ensures r.Failure? && registry.host.libraryReady ==> r.fault == PinInUse && (p in held || p in taken)
      ensures r.Success? ==> registry.host.events == base + Opens(taken + [p])
      ensures r.Success? ==> p !in held && p !in taken
    {
      PlanSnoc(taken, p, held);
      r := Handle.Construct(registry, p, Mem, Out, false);
      if r.Success? {
        assert registry.exported.Keys == old(registry.exported).Keys + {p};
        OpensSnoc(taken, p);
        Regroup(base, Opens(taken), OpenEvents(Mem, p, false));
      }
    }

    /**
     * `Dispose()`: once the provider is disposed nothing happens. Otherwise RS, RW and E
     * are disposed in that order, then every data port that exists, and the provider is
     * marked disposed. With no RW port the call on the null field throws after RS is
     * closed, and the provider stays undisposed; a second call then throws at RS.
     */
    method Dispose() returns (o: Outcome)
      requires Valid() && registry.Valid()
      modifies this, Ports(), registry, registry.host
      ensures Valid() && registry.Valid() && registry.host.events == old(registry.host.events)
      ensures old(disposed) ==> o == Ok && disposed && registry.exported == old(registry.exported)
      ensures !old(disposed) && old(rs.disposed) ==>
        o == Throws(ObjectDisposed) && !disposed && registry.exported == old(registry.exported)
      ensures !old(disposed) && !old(rs.disposed) && rw == null ==>
        o == Throws(NullReference) && !disposed && rs.disposed && registry.exported == old(registry.exported) - {rs.pin}
      ensures !old(disposed) && !old(rs.disposed) && rw != null ==>
        o == Ok && disposed && registry.exported == old(registry.exported) - PinSet(PinPlan())
    {
      if disposed {
        return Ok;
      }
      if rs.disposed {
        o := rs.Dispose();
        return;
      }
      Release(rs);
      if rw == null {
        return Throws(NullReference);
      }
      ReleaseRest(old(registry.exported));
      DisposeData(old(registry.exported), Plan(rs.pin, RwPin(), enable.pin, []));
      PlanSplit(rs.pin, RwPin(), enable.pin, DataPins());
      disposed := true;
      Closed();
      o := Ok;
    }

    /** A disposed provider whose handles are all disposed is valid. */
    lemma Closed()
      requires Wired() && disposed && rs.disposed && enable.disposed && (rw != null ==> rw.disposed)
      requires forall j :: 0 <= j < 8 && data[j] != null ==> data[j].disposed
      ensures Valid()
    {
    }

    /** The part of `Dispose` after RS when RW is wired: RW, then E. */
    method ReleaseRest(ghost base: map<Pin, Handle>)
      requires Wired() && registry.Valid() && rw != null && Live(rw) && Live(enable)
      requires registry.exported == base - {rs.pin}
      requires forall j :: 0 <= j < 8 && data[j] != null ==> Live(data[j])
      modifies {rw, enable}, registry, registry.host
      ensures registry.Valid() && registry.host.events == old(registry.host.events)
      ensures rw.disposed && enable.disposed && rs.disposed == old(rs.disposed)
      ensures forall j :: 0 <= j < 8 && data[j] != null ==> Live(data[j])
      ensures registry.exported == base - PinSet(Plan(rs.pin, RwPin(), enable.pin, []))
    {
      Release(rw);
      Release(enable);
      assert Plan(rs.pin, RwPin(), enable.pin, []) == [rs.pin, rw.pin, enable.pin];
      ReleaseSnoc(base, [], rs.pin);
      ReleaseSnoc(base, [rs.pin], rw.pin);
      ReleaseSnoc(base, [rs.pin, rw.pin], enable.pin);
      assert [] + [rs.pin] == [rs.pin] && [rs.pin] + [rw.pin] == [rs.pin, rw.pin];
    }

    /** The data-port loop of `Dispose`: every data port that exists is disposed, in order. */
    method DisposeData(ghost base: map<Pin, Handle>, ghost head: seq<Pin>)
      requires Wired() && registry.Valid() && registry.exported == base - PinSet(head)
      requires forall j :: 0 <= j < 8 && data[j] != null ==> Live(data[j])
      modifies Ports(), registry, registry.host
      ensures registry.Valid() && registry.host.events == old(registry.host.events)
      ensures forall j :: 0 <= j < 8 && data[j] != null ==> data[j].disposed
      ensures rs.disposed == old(rs.disposed) && enable.disposed == old(enable.disposed)
      ensures rw != null ==> rw.disposed == old(rw.disposed)
      ensures registry.exported == base - PinSet(head + Given(DataPins()))
    {
      assert head + Given(DataPins()[..0]) == head;
      var i := 0;
      while i < 8
        invariant 0 <= i <= 8 && registry.Valid()
        invariant forall j :: 0 <= j < 8 && data[j] != null ==> if j < i then data[j].disposed else Live(data[j])
        invariant rs.disposed == old(rs.disposed) && enable.disposed == old(enable.disposed)
        invariant rw != null ==> rw.disposed == old(rw.disposed)
        invariant registry.exported == base - PinSet(head + Given(DataPins()[..i]))
        invariant registry.host.events == old(registry.host.events)
      {
        DisposeLine(i, base, head);
        i := i + 1;
      }
      assert DataPins()[..8] == DataPins();
    }

    /** One step of the data-port loop of `Dispose`: port `i`, if it exists, is disposed. */
    method DisposeLine(i: nat, ghost base: map<Pin, Handle>, ghost head: seq<Pin>)
      requires i < 8 && Wired() && registry.Valid()
      requires registry.exported == base - PinSet(head + Given(DataPins()[..i]))
      requires forall j :: 0 <= j < 8 && data[j] != null ==> if j < i then data[j].disposed else Live(data[j])
      modifies {data[i]}, registry, registry.host
      ensures registry.Valid() && registry.host.events == old(registry.host.events)
      ensures forall j :: 0 <= j < 8 && data[j] != null ==> if j < i + 1 then data[j].disposed else Live(data[j])
      ensures rs.disposed == old(rs.disposed) && enable.disposed == old(enable.disposed)
      ensures rw != null ==> rw.disposed == old(rw.disposed)
      ensures registry.exported == base - PinSet(head + Given(DataPins()[..i + 1]))
    {
      GivenSnoc(DataPins(), i);
      if data[i] != null {
        Release(data[i]);
        ReleaseSnoc(base, head + Given(DataPins()[..i]), data[i].pin);
        Regroup(head, Given(DataPins()[..i]), [data[i].pin]);
      }
    }

    /** `Dispose()` on an open GPIOMem handle: the handle closes and its pin is free again; nothing is written. */
    static method Release(h: Handle)
      requires !h.disposed && h.backend == Mem && h.registry.Valid()
      modifies h, h.registry, h.registry.host
      ensures h.disposed && h.registry.Valid()
      ensures h.registry.exported == old(h.registry.exported) - {h.pin}
      ensures h.registry.host.events == old(h.registry.host.events)
    {
      var o := h.Dispose();
    }

    /**
     * `Send(value, mode, backlight)`: throws once disposed; otherwise RS gets the mode,
     * RW goes low when wired, and the byte goes out on eight lines or as two nibbles.
     * The backlight flag is ignored.
     */
    method Send(value: byte, mode: bool, backlight: bool) returns (o: Outcome)
      requires Valid()
      modifies Ports(), registry.host
      ensures Valid()
      ensures disposed || old(rs.disposed) ==> o == Throws(ObjectDisposed) && registry.host.events == old(registry.host.events)
      ensures !disposed && !old(rs.disposed) ==>
        (var r := SendRun(fourBitMode, rs.pin, RwPin(), enable.pin, DataPins(), value, mode);
         o == r.outcome && registry.host.events == old(registry.host.events) + r.events)
    {
      if disposed {
        return Throws(ObjectDisposed);
      }
      ghost var before := registry.host.events;
      o := SelectRegister(mode);
      if o.Ok? {
        ghost var selected := registry.host.events;
        o := Transfer(value);
        ghost var bus := BusRun(fourBitMode, enable.pin, DataPins(), value);
        ghost var run := SendRun(fourBitMode, rs.pin, RwPin(), enable.pin, DataPins(), value, mode);
        assert run.events == Select(rs.pin, RwPin(), mode) + bus.events && run.outcome == bus.outcome;
        Regroup(before, Select(rs.pin, RwPin(), mode), bus.events);
      }
    }

    /** The data part of `Send`: `Write8Bits(value)`, or `Write4Bits(value >> 4)` then `Write4Bits(value)`. */
    method Transfer(value: byte) returns (o: Outcome)
      requires Valid() && !disposed
      modifies Ports(), registry.host
      ensures Valid()
      ensures var r := BusRun(fourBitMode, enable.pin, DataPins(), value);
        o == r.outcome && registry.host.events == old(registry.host.events) + r.events
    {
      if !fourBitMode {
        o := Write8Bits(value);
      } else {
        o := WriteNibbles(value);
      }
    }

    /** The four-bit data part of `Send`: the high nibble, then, if it went out, the low one. */
    method WriteNibbles(value: byte) returns (o: Outcome)
      requires Valid() && !disposed
      modifies Ports(), registry.host
      ensures Valid()
      ensures var r := Then(NibbleRun(enable.pin, DataPins(), value / 16), NibbleRun(enable.pin, DataPins(), value));
        o == r.outcome && registry.host.events == old(registry.host.events) + r.events
    {
      ghost var before := registry.host.events;
      o := Write4Bits(value / 16);
      if o.Ok? {
        ghost var high := NibbleRun(enable.pin, DataPins(), value / 16);
        o := Write4Bits(value);
        Regroup(before, high.events, NibbleRun(enable.pin, DataPins(), value).events);
      }
    }

    /** The start of `Send`: RS gets the mode, RW (when wired) goes low. */
    method SelectRegister(mode: bool) returns (o: Outcome)
      requires Valid() && !disposed
      modifies Ports(), registry.host
      ensures Valid() && rs.disposed == old(rs.disposed)
      ensures old(rs.disposed) ==> o == Throws(ObjectDisposed) && registry.host.events == old(registry.host.events)
      ensures !old(rs.disposed) ==> o == Ok && registry.host.events == old(registry.host.events) + Select(rs.pin, RwPin(), mode)
    {
      if rs.disposed {
        o := rs.Write(mode);
        return;
      }
      o := Ok;
      Drive(rs, mode);
      if rw != null {
        Drive(rw, false);
      }
    }

    /** One `Write` on an open GPIOMem handle of the provider: a single `gpio_write`. */
    method Drive(h: Handle, v: bool)
      requires Valid() && !disposed && h in Ports() && Live(h)
      modifies h, registry.host
      ensures Valid() && Live(h)
      ensures registry.host.events == old(registry.host.events) + [GpioWrite(h.pin, v)]
    {
      var o := h.Write(v);
    }

    /** `Write8Bits`: line i gets bit i, then a pulse. */
    method Write8Bits(value: byte) returns (o: Outcome)
      requires Valid() && !disposed
      modifies Ports(), registry.host
      ensures Valid()
      ensures var r := Then(DataRun(DataPins(), value), Run(Pulse(enable.pin), Ok));
        o == r.outcome && registry.host.events == old(registry.host.events) + r.events
    {
      var i := 0;
      while i < 8
        invariant 0 <= i <= 8 && Valid()
        invariant FirstAbsent(DataPins(), 0) == FirstAbsent(DataPins(), i)
        invariant registry.host.events == old(registry.host.events) + Writes(DataPins(), i, value)
      {
        if data[i] == null {
          DataRunStops(DataPins(), value, i);
          return Throws(NullReference);
        }
        Drive(data[i], Bit(value, i));
        WritesSnoc(DataPins(), i, value);
        Regroup(old(registry.host.events), Writes(DataPins(), i, value), [GpioWrite(DataPins()[i], Bit(value, i))]);
        i := i + 1;
      }
      DataRunStops(DataPins(), value, 8);
      PulseEnable();
      Regroup(old(registry.host.events), Writes(DataPins(), 8, value), Pulse(enable.pin));
      o := Ok;
    }

    /** `Write4Bits`: line 4 + i gets bit i, then a pulse (and a 1 ms sleep). */
    method Write4Bits(value: byte) returns (o: Outcome)
      requires Valid() && !disposed
      modifies Ports(), registry.host
      ensures Valid()
      ensures var r := NibbleRun(enable.pin, DataPins(), value);
        o == r.outcome && registry.host.events == old(registry.host.events) + r.events
    {
      var lines := DataPins()[4..];
      var i := 0;
      while i < 4
        invariant 0 <= i <= 4 && Valid()
        invariant FirstAbsent(lines, 0) == FirstAbsent(lines, i)
        invariant registry.host.events == old(registry.host.events) + Writes(lines, i, value)
      {
        if data[4 + i] == null {
          DataRunStops(lines, value, i);
          return Throws(NullReference);
        }
        Drive(data[4 + i], Bit(value, i));
        WritesSnoc(lines, i, value);
        Regroup(old(registry.host.events), Writes(lines, i, value), [GpioWrite(lines[i], Bit(value, i))]);
        i := i + 1;
      }
      DataRunStops(lines, value, 4);
      PulseEnable();
      Regroup(old(registry.host.events), Writes(lines, 4, value), Pulse(enable.pin));
      o := Ok;
    }

    /** `PulseEnable`: E low, high, low. */
    method PulseEnable()
      requires Valid() && !disposed
      modifies enable, registry.host
      ensures Valid()
      ensures registry.host.events == old(registry.host.events) + Pulse(enable.pin)
    {
      Drive(enable, false);
      Drive(enable, true);
      Drive(enable, false);
    }
  }
}
