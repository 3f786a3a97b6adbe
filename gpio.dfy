/**
 * Pin ownership and the life of a pin handle (GPIO.cs with its GPIOMem, GPIOFile and
 * GPIODebug back ends).
 *
 * The static dictionary `_exportedPins` is a `Registry` object every handle keeps a
 * reference to. The three subclasses are one `Handle` class with a `backend` tag, and
 * each virtual member branches on it. What the back ends do outside the process (the
 * bcm2835 library calls of GPIOMem, the sysfs file writes of GPIOFile) is appended to
 * the host's `events`; whether the library initialised, whether sysfs can be written,
 * and the DEBUG build switch are constants of the host.
 */
module Gpio {
  import opened Faults
  import opened Pins
  import Wire

  /** `GPIODirection`; `In`, its first member, is the value of a fresh `_direction` field. */
  datatype Direction = In | Out

  datatype PinState = High | Low

  /** `GPIOResistor`, with the values bcm2835 expects for the pull-up/down control. */
  datatype Resistor = Off | Down | Up

  function PudCode(r: Resistor): (code: nat)
    ensures code < 3 && (code == 0 <==> r == Off)
  {
    match r
    case Off => 0
    case Down => 1
    case Up => 2
  }

  datatype Backend = Mem | File | Debug

  /** A call into the bcm2835 library or a write to a sysfs file. */
  datatype Event =
    | Fsel(pin: Pin, modeOut: bool)
    | SetPud(pin: Pin, pud: nat)
    | GpioWrite(pin: Pin, value: bool)
    | GpioLev(pin: Pin)
    | SysfsDirection(pin: Pin, dir: Direction)
    | SysfsValue(pin: Pin, value: bool)
    | SysfsUnexport(pin: Pin)

  function StateOf(level: bool): (s: PinState)
    ensures s == High <==> level
  {
    if level then High else Low
  }

  /** What the process can see of the machine. */
  class Host {
    /** `bcm2835_init()` returned true, so the static constructor of GPIOMem succeeded. */
    const libraryReady: bool
    /** The files under /sys/class/gpio can be written and read. */
    const sysfsReady: bool
    /** The library was compiled with DEBUG, so `CreatePin` may fall back to GPIODebug. */
    const debugBuild: bool
    var events: seq<Event>

    constructor (libraryReady: bool, sysfsReady: bool, debugBuild: bool)
      ensures this.libraryReady == libraryReady && this.sysfsReady == sysfsReady && this.debugBuild == debugBuild
      ensures events == []
    {
      this.libraryReady := libraryReady;
      this.sysfsReady := sysfsReady;
      this.debugBuild := debugBuild;
      events := [];
    }
  }

  /** `_exportedPins`: each pin to its single live handle. */
  class Registry {
    const host: Host
    var exported: map<Pin, Handle>

    /** Every entry is a live handle on its own key that belongs to this registry. */
    ghost predicate Valid()
      reads this, exported.Values
    {
      forall p | p in exported :: exported[p].pin == p && !exported[p].disposed && exported[p].registry == this
    }

    constructor (host: Host)
      ensures this.host == host && exported == map[] && Valid()
    {
      this.host := host;
      exported := map[];
    }
  }

  /**
   * The back-end calls a change of direction makes: none when the direction stays, else
   * GPIOMem's `fsel` (and, on a change to In, a `set_pud` to OFF unless the resistor is
   * already OFF) or GPIOFile's direction file.
   */
  function DirectionEvents(backend: Backend, pin: Pin, from: Direction, to: Direction, resistor: Resistor, sysfsReady: bool): (es: seq<Event>)
    ensures from == to ==> es == []
    ensures backend.Mem? && from != to ==> |es| >= 1 && es[0] == Fsel(pin, to == Out)
    ensures backend.Debug? ==> es == []
  {
    if from == to then []
    else match backend
      case Mem => [Fsel(pin, to == Out)] + (if to == In && resistor != Off then [SetPud(pin, PudCode(Off))] else [])
      case File => if sysfsReady then [SysfsDirection(pin, to)] else []
      case Debug => []
  }

  /** The fault a failed direction change raises: only a GPIOFile that cannot write sysfs fails. */
  function DirectionOutcome(backend: Backend, from: Direction, to: Direction, sysfsReady: bool): Outcome
  {
    if backend.File? && from != to && !sysfsReady then Throws(SysfsFailure) else Ok
  }

  class Handle {
    const registry: Registry
    const pin: Pin
    const backend: Backend
    var disposed: bool
    var direction: Direction
    var resistor: Resistor
    /** GPIODebug's `_currentValue`. */
    var current: bool

    /** The field initialisers: not disposed, direction In, resistor OFF, current value false. */
    constructor (registry: Registry, pin: Pin, backend: Backend)
      ensures this.registry == registry && this.pin == pin && this.backend == backend
      ensures !disposed && direction == In && resistor == Off && !current
    {
      this.registry := registry;
      this.pin := pin;
      this.backend := backend;
      disposed := false;
      direction := In;
      resistor := Off;
      current := false;
    }

    /** The `Pin` getter. */
    function PinOf(): (r: Result<Pin>)
      reads this
      ensures disposed ==> r == Failure(ObjectDisposed)
      ensures !disposed ==> r == Success(pin)
    {
      if disposed then Failure(ObjectDisposed) else Success(pin)
    }

    /** The `Mask` getter: goes through `Pin`, so it throws once disposed. */
    function Mask(): (r: Result<nat>)
      reads this
      ensures disposed ==> r == Failure(ObjectDisposed)
      ensures !disposed && pin < 32 ==> r == Success(Wire.Pow2(pin))
    {
      if disposed then Failure(ObjectDisposed) else Success(MaskOfPin(pin))
    }

    /** The `PinDirection` getter. */
    function DirectionOf(): (r: Result<Direction>)
      reads this
      ensures disposed ==> r == Failure(ObjectDisposed)
      ensures !disposed ==> r == Success(direction)
    {
      if disposed then Failure(ObjectDisposed) else Success(direction)
    }

    /** The `Resistor` getter. */
    function ResistorOf(): (r: Result<Resistor>)
      reads this
      ensures disposed ==> r == Failure(ObjectDisposed)
      ensures !disposed ==> r == Success(resistor)
    {
      if disposed then Failure(ObjectDisposed) else Success(resistor)
    }

    /**
     * The `Resistor` setter. The base class stores the value; GPIOMem also calls
     * `set_pud`, but only when the value differs from the one stored before.
     */
    method SetResistor(value: Resistor) returns (o: Outcome)
      modifies this, registry.host
      ensures disposed == old(disposed) && direction == old(direction) && current == old(current)
      ensures old(disposed) ==> o == Throws(ObjectDisposed) && resistor == old(resistor)
      ensures old(disposed) ==> registry.host.events == old(registry.host.events)
      ensures !old(disposed) ==> o == Ok && resistor == value
      ensures !old(disposed) ==> (registry.host.events == old(registry.host.events)
        + (if backend.Mem? && old(resistor) != value then [SetPud(pin, PudCode(value))] else []))
    {
      if disposed {
        return Throws(ObjectDisposed);
      }
      var before := resistor;
      resistor := value;
      if backend.Mem? && before != value {
        registry.host.events := registry.host.events + [SetPud(pin, PudCode(value))];
      }
      o := Ok;
    }

    /**
     * The `PinDirection` setter. The base class stores the value; when it differs from
     * the one before, GPIOMem calls `fsel` and, on a change to In, sets the resistor to
     * OFF, and GPIOFile writes the direction file (which throws if sysfs fails, after
     * the value was stored).
     */
    method SetDirection(value: Direction) returns (o: Outcome)
      modifies this, registry.host
      ensures disposed == old(disposed) && current == old(current)
      ensures old(disposed) ==> o == Throws(ObjectDisposed) && direction == old(direction) && resistor == old(resistor)
      ensures old(disposed) ==> registry.host.events == old(registry.host.events)
      ensures !old(disposed) ==> direction == value
      ensures !old(disposed) ==> o == DirectionOutcome(backend, old(direction), value, registry.host.sysfsReady)
      ensures !old(disposed) ==> resistor == if backend.Mem? && value == In && old(direction) != In then Off else old(resistor)
      ensures !old(disposed) ==> (registry.host.events == old(registry.host.events)
        + DirectionEvents(backend, pin, old(direction), value, old(resistor), registry.host.sysfsReady))
    {
      if disposed {
        return Throws(ObjectDisposed);
      }
      var before := direction;
      direction := value;
      o := Ok;
      if before != value {
        match backend {
          case Mem =>
            registry.host.events := registry.host.events + [Fsel(pin, value == Out)];
            if value == In {
              o := SetResistor(Off);
            }
          case File =>
            if !registry.host.sysfsReady {
              return Throws(SysfsFailure);
            }
            registry.host.events := registry.host.events + [SysfsDirection(pin, value)];
          case Debug =>
        }
      }
    }

    /**
     * `Write(value)`. The base class throws once disposed and otherwise switches the
     * direction to Out; then GPIOMem calls `gpio_write`, GPIOFile writes the value file
     * and GPIODebug remembers the value.
     */
    method Write(value: bool) returns (o: Outcome)
      modifies this, registry.host
      ensures disposed == old(disposed) && resistor == old(resistor)
      ensures old(disposed) ==> o == Throws(ObjectDisposed) && direction == old(direction) && current == old(current)
      ensures old(disposed) ==> registry.host.events == old(registry.host.events)
      ensures !old(disposed) ==> direction == Out
      ensures !old(disposed) ==> current == if backend.Debug? then value else old(current)
      ensures !old(disposed) ==> o == if backend.File? && !registry.host.sysfsReady then Throws(SysfsFailure) else Ok
      ensures !old(disposed) ==> (registry.host.events == old(registry.host.events)
        + DirectionEvents(backend, pin, old(direction), Out, old(resistor), registry.host.sysfsReady)
        + WriteEvents(backend, pin, value, registry.host.sysfsReady))
    {
      if disposed {
        return Throws(ObjectDisposed);
      }
      if direction != Out {
        o := SetDirection(Out);
        if o.Throws? {
          return;
        }
      }
      match backend {
        case Mem =>
          registry.host.events := registry.host.events + [GpioWrite(pin, value)];
        case File =>
          if !registry.host.sysfsReady {
            return Throws(SysfsFailure);
          }
          registry.host.events := registry.host.events + [SysfsValue(pin, value)];
        case Debug =>
          current := value;
      }
      o := Ok;
    }

    /** `Write(PinState)` of GPIOMem and GPIOFile: `Write(pinState == High)`. */
    method WriteState(state: PinState) returns (o: Outcome)
      modifies this, registry.host
      ensures disposed == old(disposed) && resistor == old(resistor)
      ensures old(disposed) ==> o == Throws(ObjectDisposed) && registry.host.events == old(registry.host.events)
      ensures !old(disposed) ==> direction == Out
      ensures !old(disposed) ==> current == if backend.Debug? then state == High else old(current)
      ensures !old(disposed) ==> (registry.host.events == old(registry.host.events)
        + DirectionEvents(backend, pin, old(direction), Out, old(resistor), registry.host.sysfsReady)
        + WriteEvents(backend, pin, state == High, registry.host.sysfsReady))
    {
      o := Write(state == High);
    }

    /**
     * `Read()`, with `level` the level the hardware reports (`gpio_lev`, or a value file
     * that starts with '1'). The base class throws once disposed; GPIODebug answers with
     * the last value written.
     */
    method Read(level: bool) returns (r: Result<PinState>)
      modifies registry.host
      ensures disposed ==> r == Failure(ObjectDisposed) && registry.host.events == old(registry.host.events)
      ensures !disposed && backend.Mem? ==> (r == Success(StateOf(level))
        && registry.host.events == old(registry.host.events) + [GpioLev(pin)])
      ensures !disposed && backend.File? ==> (registry.host.events == old(registry.host.events)
        && r == if registry.host.sysfsReady then Success(StateOf(level)) else Failure(SysfsFailure))
      ensures !disposed && backend.Debug? ==> (r == Success(StateOf(current))
        && registry.host.events == old(registry.host.events))
    {
      if disposed {
        return Failure(ObjectDisposed);
      }
      match backend {
        case Mem =>
          registry.host.events := registry.host.events + [GpioLev(pin)];
          r := Success(StateOf(level));
        case File =>
          if !registry.host.sysfsReady {
            return Failure(SysfsFailure);
          }
          r := Success(StateOf(level));
        case Debug =>
          r := Success(StateOf(current));
      }
    }

    /**
     * `Dispose()`: throws if already disposed; otherwise marks the handle disposed and
     * removes its pin from the registry. GPIOFile then writes the unexport file.
     */
    method Dispose() returns (o: Outcome)
      modifies this, registry, registry.host
      ensures disposed && direction == old(direction) && resistor == old(resistor) && current == old(current)
      ensures old(disposed) ==> o == Throws(ObjectDisposed) && registry.exported == old(registry.exported)
      ensures old(disposed) ==> registry.host.events == old(registry.host.events)
      ensures !old(disposed) ==> registry.exported == old(registry.exported) - {pin}
      ensures !old(disposed) ==> o == if backend.File? && !registry.host.sysfsReady then Throws(SysfsFailure) else Ok
      ensures !old(disposed) ==> (registry.host.events == old(registry.host.events)
        + (if backend.File? && registry.host.sysfsReady then [SysfsUnexport(pin)] else []))
      ensures old(registry.Valid()) ==> registry.Valid()
    {
      if disposed {
        return Throws(ObjectDisposed);
      }
      ghost var wasValid := registry.Valid();
      disposed := true;
      registry.exported := registry.exported - {pin};
      if wasValid {
        forall p | p in registry.exported
          ensures registry.exported[p] != this
        {
          assert p in old(registry.exported) && old(registry.exported[p]).pin == p;
        }
      }
      o := Ok;
      if backend.File? {
        if !registry.host.sysfsReady {
          return Throws(SysfsFailure);
        }
        registry.host.events := registry.host.events + [SysfsUnexport(pin)];
      }
    }

    /**
     * The constructors `new GPIOMem(pin, direction, initialValue)` (and of GPIOFile and
     * GPIODebug), which run the base constructor of GPIO: a GPIOMem fails first if the
     * library did not initialise; then the pin must not be GPIO_NONE nor held already;
     * the handle is registered, its direction set and the initial value written, and
     * if either throws the handle is disposed and the exception goes on.
     */
    static method Construct(registry: Registry, pin: Pin, backend: Backend, direction: Direction, initialValue: bool)
      returns (r: Result<Handle>)
      requires registry.Valid()
      modifies registry, registry.host
      ensures registry.Valid()
      ensures r == Failure(LibraryInit) <==> backend.Mem? && !registry.host.libraryReady
      ensures r == Failure(InvalidArgument) <==> !(backend.Mem? && !registry.host.libraryReady) && pin == NoPin
      ensures r == Failure(PinInUse) <==> !(backend.Mem? && !registry.host.libraryReady) && pin != NoPin && pin in old(registry.exported)
      ensures r.Failure? ==> registry.exported == old(registry.exported) && registry.host.events == old(registry.host.events)
      ensures r.Success? <==> ConstructSucceeds(registry.host, pin, backend, old(registry.exported))
      ensures r.Success? ==> fresh(r.value) && registry.exported == old(registry.exported)[pin := r.value]
      ensures r.Success? ==> r.value.pin == pin && r.value.backend == backend && r.value.registry == registry
      ensures r.Success? ==> !r.value.disposed && r.value.direction == Out && r.value.resistor == Off
      ensures r.Success? ==> r.value.current == (backend.Debug? && initialValue)
      ensures r.Success? ==> registry.host.events == old(registry.host.events) + OpenEvents(backend, pin, initialValue)
    {
      if backend.Mem? && !registry.host.libraryReady {
        return Failure(LibraryInit);
      }
      if pin == NoPin {
        return Failure(InvalidArgument);
      }
      if pin in registry.exported {
        return Failure(PinInUse);
      }
      r := Register(registry, pin, backend, direction, initialValue);
    }

    /** The rest of the constructor, once the pin is known to be free: register, set the direction, write the initial value. */
    static method Register(registry: Registry, pin: Pin, backend: Backend, direction: Direction, initialValue: bool)
      returns (r: Result<Handle>)
      requires registry.Valid() && !(backend.Mem? && !registry.host.libraryReady) && pin != NoPin && pin !in registry.exported
      modifies registry, registry.host
      ensures registry.Valid()
      ensures r.Failure? ==> r.fault == SysfsFailure
      ensures r.Failure? ==> registry.exported == old(registry.exported) && registry.host.events == old(registry.host.events)
      ensures r.Success? <==> !(backend.File? && !registry.host.sysfsReady)
      ensures r.Success? ==> fresh(r.value) && registry.exported == old(registry.exported)[pin := r.value]
      ensures r.Success? ==> r.value.pin == pin && r.value.backend == backend && r.value.registry == registry
      ensures r.Success? ==> !r.value.disposed && r.value.direction == Out && r.value.resistor == Off
      ensures r.Success? ==> r.value.current == (backend.Debug? && initialValue)
      ensures r.Success? ==> registry.host.events == old(registry.host.events) + OpenEvents(backend, pin, initialValue)
    {
      var h := new Handle(registry, pin, backend);
      registry.exported := registry.exported[pin := h];
      var o := h.Configure(direction, initialValue);
      if o.Throws? {
        var fault := o.fault;
        var d := h.Dispose();
        if d.Throws? {
          fault := d.fault;  // GPIOFile's unexport failed as well, and its exception replaces the first
        }
        return Failure(fault);
      }
      r := Success(h);
    }

    /** The direction setter, then `Write(initialValue)` unless it threw, on a handle in its initial state. */
    method Configure(direction: Direction, initialValue: bool) returns (o: Outcome)
      requires !disposed && this.direction == In && resistor == Off && !current
      modifies this, registry.host
      ensures !disposed
      ensures o == if backend.File? && !registry.host.sysfsReady then Throws(SysfsFailure) else Ok
      ensures o.Throws? ==> registry.host.events == old(registry.host.events)
      ensures o.Ok? ==> this.direction == Out && resistor == Off && current == (backend.Debug? && initialValue)
      ensures o.Ok? ==> registry.host.events == old(registry.host.events) + OpenEvents(backend, pin, initialValue)
    {
      o := SetDirection(direction);
      if o.Ok? {
        o := Write(initialValue);
        Wire.Regroup(old(registry.host.events), DirectionEvents(backend, pin, In, direction, Off, registry.host.sysfsReady),
          DirectionEvents(backend, pin, direction, Out, Off, registry.host.sysfsReady) + WriteEvents(backend, pin, initialValue, registry.host.sysfsReady));
      }
    }

    /** `CreatePin(pin, dir)`: the registered handle, or the first back end that constructs. */
    static method CreatePin(registry: Registry, pin: Pin, dir: Direction) returns (r: Result<Handle>)
      requires registry.Valid()
      modifies registry, registry.host, registry.exported.Values
      ensures registry.Valid()
      ensures pin in old(registry.exported) ==> registry.exported == old(registry.exported)
      ensures pin in old(registry.exported) ==> (r.Success? <==>
        DirectionOutcome(old(registry.exported[pin]).backend, old(registry.exported[pin].direction), dir, registry.host.sysfsReady) == Ok)
      ensures pin in old(registry.exported) && r.Success? ==> r.value == old(registry.exported[pin])
      ensures pin in old(registry.exported) && r.Failure? ==> r.fault == SysfsFailure
      ensures pin in old(registry.exported) ==> (registry.host.events == old(registry.host.events)
        + DirectionEvents(old(registry.exported[pin]).backend, pin, old(registry.exported[pin].direction), dir,
            old(registry.exported[pin].resistor), registry.host.sysfsReady))
      ensures pin in old(registry.exported) ==> registry.exported[pin].direction == dir
      ensures pin in old(registry.exported) ==> (var h := old(registry.exported[pin]);
        !h.disposed && h.current == old(h.current)
        && h.resistor == if h.backend.Mem? && dir == In && old(h.direction) != In then Off else old(h.resistor))
      ensures forall h | h in old(registry.exported.Values) && h.pin != pin ::
        h.disposed == old(h.disposed) && h.direction == old(h.direction) && h.resistor == old(h.resistor) && h.current == old(h.current)
      ensures pin !in old(registry.exported) ==> (r.Success? <==> FallbackBackend(registry.host, pin).Success?)
      ensures pin !in old(registry.exported) && r.Failure? ==> r.fault == FallbackBackend(registry.host, pin).fault
      ensures pin !in old(registry.exported) && r.Success? ==> (fresh(r.value)
        && FallbackBackend(registry.host, pin) == Success(r.value.backend)
        && registry.exported == old(registry.exported)[pin := r.value]
        && r.value.direction == Out && r.value.resistor == Off && r.value.pin == pin && !r.value.current
        && registry.host.events == old(registry.host.events) + OpenEvents(r.value.backend, pin, false))
      ensures pin !in old(registry.exported) && r.Failure? ==> registry.host.events == old(registry.host.events)
      ensures r.Success? ==> (r.value.registry == registry && !r.value.disposed
        && (r.value in old(registry.exported.Values) || fresh(r.value)))
      ensures r.Failure? ==> registry.exported == old(registry.exported)
    {
      if pin in registry.exported {
        var h := registry.exported[pin];
        if h.direction != dir {
          var o := h.SetDirection(dir);
          if o.Throws? {
            return Failure(o.fault);
          }
        }
        assert registry.exported[pin] == h;
        return Success(h);
      }
      r := Construct(registry, pin, Mem, dir, false);
      if r.Success? {
        return;
      }
      r := Construct(registry, pin, File, dir, false);
      if r.Success? {
        return;
      }
      if registry.host.debugBuild {
        r := Construct(registry, pin, Debug, dir, false);
        return;
      }
      r := Failure(NoBackend);
    }

    /** The static `GPIO.Write(pin, value)`: `CreatePin(pin, Out).Write(value)`. */
    static method WritePin(registry: Registry, pin: Pin, value: bool) returns (o: Outcome)
      requires registry.Valid()
      modifies registry, registry.host, registry.exported.Values
      ensures registry.Valid()
      ensures forall h | h in old(registry.exported.Values) && h.pin != pin ::
        h.disposed == old(h.disposed) && h.direction == old(h.direction) && h.resistor == old(h.resistor) && h.current == old(h.current)
      ensures pin in old(registry.exported) ==> registry.exported == old(registry.exported)
      ensures pin !in old(registry.exported) && FallbackBackend(registry.host, pin).Failure? ==>
        o == Throws(FallbackBackend(registry.host, pin).fault) && registry.exported == old(registry.exported)
      ensures pin in old(registry.exported) ==> (var h := old(registry.exported[pin]);
        (o.Ok? <==> !(h.backend.File? && !registry.host.sysfsReady))
        && (o.Ok? ==> (registry.host.events == old(registry.host.events)
          + DirectionEvents(h.backend, pin, old(h.direction), Out, old(h.resistor), registry.host.sysfsReady)
          + WriteEvents(h.backend, pin, value, registry.host.sysfsReady))))
      ensures pin !in old(registry.exported) ==> (o.Ok? <==> FallbackBackend(registry.host, pin).Success?)
      ensures pin !in old(registry.exported) && o.Ok? ==> (pin in registry.exported
        && registry.host.events == old(registry.host.events)
          + OpenEvents(registry.exported[pin].backend, pin, false) + WriteEvents(registry.exported[pin].backend, pin, value, true))
      ensures o.Ok? ==> (pin in registry.exported && registry.exported[pin].direction == Out
        && (registry.exported[pin].backend.Debug? ==> registry.exported[pin].current == value)
        && (registry.exported[pin].backend.Mem? ==> LastIs(registry.host.events, GpioWrite(pin, value)))
        && (registry.exported[pin].backend.File? ==> LastIs(registry.host.events, SysfsValue(pin, value))))
    {
      var r := CreatePin(registry, pin, Out);
      if r.Failure? {
        return Throws(r.fault);
      }
      o := r.value.Write(value);
    }

    /**
     * The static `GPIO.Read(pin)`: `CreatePin(pin, In).Read()`, with `level` what the
     * hardware reports. A pin nobody held ends up with direction Out all the same, and a
     * GPIODebug fallback reads the initial value false.
     */
    static method ReadPin(registry: Registry, pin: Pin, level: bool) returns (r: Result<PinState>)
      requires registry.Valid()
      modifies registry, registry.host, registry.exported.Values
      ensures registry.Valid()
      ensures forall h | h in old(registry.exported.Values) && h.pin != pin ::
        h.disposed == old(h.disposed) && h.direction == old(h.direction) && h.resistor == old(h.resistor) && h.current == old(h.current)
      ensures pin in old(registry.exported) && r.Success? ==> (registry.exported == old(registry.exported)
        && registry.exported[pin].direction == In)
      ensures pin !in old(registry.exported) && r.Success? ==> (pin in registry.exported
        && registry.exported[pin].direction == Out
        && (registry.exported[pin].backend.Debug? ==> r == Success(Low)))
      ensures pin in old(registry.exported) ==> (var h := old(registry.exported[pin]);
        (r.Success? <==> !(h.backend.File? && !registry.host.sysfsReady))
        && (r.Success? ==> (r == Success(StateOf(if h.backend.Debug? then old(h.current) else level))
          && registry.host.events == old(registry.host.events)
            + DirectionEvents(h.backend, pin, old(h.direction), In, old(h.resistor), registry.host.sysfsReady)
            + ReadEvents(h.backend, pin))))
      ensures pin !in old(registry.exported) ==> (r.Success? <==> FallbackBackend(registry.host, pin).Success?)
      ensures pin !in old(registry.exported) && r.Success? ==> (var b := registry.exported[pin].backend;
        r == Success(if b.Debug? then Low else StateOf(level))
        && registry.host.events == old(registry.host.events) + OpenEvents(b, pin, false) + ReadEvents(b, pin))
      ensures pin !in old(registry.exported) && FallbackBackend(registry.host, pin).Failure? ==>
        r == Failure(FallbackBackend(registry.host, pin).fault) && registry.exported == old(registry.exported)
    {
      var h := CreatePin(registry, pin, In);
      if h.Failure? {
        return Failure(h.fault);
      }
      r := h.value.Read(level);
    }
  }

  /** Whether the base constructor gets past its checks and its first two calls. */
  predicate ConstructSucceeds(host: Host, pin: Pin, backend: Backend, exported: map<Pin, Handle>)
    reads host
  {
    !(backend.Mem? && !host.libraryReady) && pin != NoPin && pin !in exported
    && !(backend.File? && !host.sysfsReady)
  }

  /**
   * The back-end calls of a successful construction. `_direction` starts as In, so
   * whichever direction is asked for, exactly one change to Out happens (by the direction
   * setter or by `Write`): one `fsel(pin, true)`, then the initial value.
   */
  function OpenEvents(backend: Backend, pin: Pin, initialValue: bool): seq<Event>
  {
    match backend
    case Mem => [Fsel(pin, true), GpioWrite(pin, initialValue)]
    case File => [SysfsDirection(pin, Out), SysfsValue(pin, initialValue)]
    case Debug => []
  }

  /** The back-end calls of `Write` after the direction is Out. */
  function WriteEvents(backend: Backend, pin: Pin, value: bool, sysfsReady: bool): seq<Event>
  {
    match backend
    case Mem => [GpioWrite(pin, value)]
    case File => if sysfsReady then [SysfsValue(pin, value)] else []
    case Debug => []
  }

  /** The last call in a log is `e`. */
  predicate LastIs(events: seq<Event>, e: Event)
  {
    |events| > 0 && events[|events| - 1] == e
  }

  /** The back-end calls of `Read`: GPIOMem's `gpio_lev`; reading the value file is not recorded. */
  function ReadEvents(backend: Backend, pin: Pin): seq<Event>
  {
    if backend.Mem? then [GpioLev(pin)] else []
  }

  /**
   * Which back end `CreatePin` ends with on a pin nobody holds: GPIOMem when the library
   * initialised, else GPIOFile when sysfs works, else GPIODebug in a DEBUG build, and an
   * exception otherwise. GPIO_NONE fails every constructor: the release build reports
   * that no back end worked, the DEBUG build lets GPIODebug's ArgumentException through.
   */
  function FallbackBackend(host: Host, pin: Pin): (r: Result<Backend>)
    reads host
    ensures r.Success? ==> ConstructSucceeds(host, pin, r.value, map[])
    ensures r.Failure? ==> !ConstructSucceeds(host, pin, Mem, map[]) && !ConstructSucceeds(host, pin, File, map[])
    ensures r.Failure? && host.debugBuild ==> !ConstructSucceeds(host, pin, Debug, map[])
  {
    if pin == NoPin then (if host.debugBuild then Failure(InvalidArgument) else Failure(NoBackend))
    else if host.libraryReady then Success(Mem)
    else if host.sysfsReady then Success(File)
    else if host.debugBuild then Success(Debug)
    else Failure(NoBackend)
  }
}
