/** The remapper's objects as the program keeps them: the output devices, the mouse
    emulator's shared state, the key behaviour array, and the global context that
    `init`, `handle` and `user1` work on. Each operation is proved against the value
    model of the modules it imports. */
module PyraInput {
  import opened InputCodes
  import opened Text
  import opened PyraSettings
  import opened PyraConfig
  import opened KeyTable
  import opened Nub
  import opened Router

  /** A `UinputDevice`, seen as the log of the events sent to it. */
  class Device {
    var events: seq<Event>

    constructor ()
      ensures events == []
    {
      events := [];
    }

    /** `send(type, code, value)`. */
    method Send(etype: int, code: int, value: int)
      modifies this
      ensures events == old(events) + [Event(etype, code, value)]
    {
      events := events + [Event(etype, code, value)];
    }
  }

  /** `struct Mouse`: the mouse device and the axis values the emulator reads. The
      condition variable is represented by the number of times it was notified. */
  class Mouse {
    const device: Device
    var dx: int
    var dy: int
    var dwx: int
    var dwy: int
    ghost var signals: nat

    constructor (device: Device)
      ensures this.device == device && Acc() == IDLE && signals == 0
    {
      this.device := device;
      dx, dy, dwx, dwy := 0, 0, 0, 0;
      signals := 0;
    }

    function Acc(): Accumulator
      reads this
    {
      Accumulator(dx, dy, dwx, dwy)
    }

    /** One pass of the loop of `handleMouse` with settings `s`: when some axis is
        outside its deadzone (`active`) it sends the scaled motion, the wheel steps and
        a synchronisation report; otherwise it would wait for a signal. */
    method Tick(s: Settings) returns (active: bool)
      modifies device
      ensures active == MouseActive(Acc(), s)
      ensures device.events == old(device.events) + TickEvents(Acc(), s)
    {
      var dz, wheelDz := s.mouseDeadzone as int, s.mouseWheelDeadzone as int;
      active := dx > dz || dx < -dz || dy > dz || dy < -dz
        || dwx > wheelDz || dwx < -wheelDz || dwy > wheelDz || dwy < -wheelDz;
      if active {
        SendMotion(REL_X, dx, s);
        SendMotion(REL_Y, dy, s);
        SendWheel(REL_HWHEEL, dwx, s, 1);
        SendWheel(REL_WHEEL, dwy, s, -1);
        device.Send(EV_SYN, 0, 0);
      }
    }

    /** The motion report of one pointer axis with value `v`. */
    method SendMotion(code: u16, v: int, s: Settings)
      modifies device
      ensures device.events == old(device.events) + Report(code, Motion(v, s.mouseDeadzone, s.mouseSensitivity))
    {
      var dz, sens := s.mouseDeadzone as int, s.mouseSensitivity as int;
      if v > dz {
        device.Send(EV_REL, code, TruncDiv((v - dz) * sens, 1000));
      } else if v < -dz {
        device.Send(EV_REL, code, TruncDiv((v + dz) * sens, 1000));
      }
    }

    /** The wheel step of one wheel axis with value `v`: `up` past the deadzone, `-up`
        below it. */
    method SendWheel(code: u16, v: int, s: Settings, up: int)
      requires up == 1 || up == -1
      modifies device
      ensures device.events == old(device.events) +
        Report(code, if up == 1 then WheelStep(v, s.mouseDeadzone) else Negate(WheelStep(v, s.mouseDeadzone)))
    {
      var dz := s.mouseDeadzone as int;
      if v > dz {
        device.Send(EV_REL, code, up);
      } else if v < -dz {
        device.Send(EV_REL, code, -up);
      }
    }
  }

  /** `handleNubAxis(mode, value, mouse, gamepad, settings)`. */
  method HandleNubAxis(mode: NubAxisMode, value: int, mouse: Mouse, gamepad: Device, s: Settings)
    modifies mouse, gamepad
    ensures var step := NubAxis(mode, value, old(mouse.Acc()), s);
      && mouse.Acc() == step.acc
      && gamepad.events == old(gamepad.events) + step.gamepad
      && mouse.signals == old(mouse.signals) + if step.wake then 1 else 0
  {
    var dz := s.mouseDeadzone as int;
    match mode {
      case MouseX =>
        mouse.dx := value;
        if mouse.dx > dz || mouse.dx < -dz { mouse.signals := mouse.signals + 1; }
      case MouseY =>
        mouse.dy := value;
        if mouse.dy > dz || mouse.dy < -dz { mouse.signals := mouse.signals + 1; }
      case ScrollX =>
        mouse.dwx := value;
        if mouse.dwx > dz || mouse.dwx < -dz { mouse.signals := mouse.signals + 1; }
      case ScrollY =>
        mouse.dwy := value;
        if mouse.dwy > dz || mouse.dwy < -dz { mouse.signals := mouse.signals + 1; }
      case LeftJoystickX =>
        gamepad.Send(EV_ABS, ABS_X, value);
        gamepad.Send(EV_SYN, 0, 0);
      case LeftJoystickY =>
        gamepad.Send(EV_ABS, ABS_Y, value);
        gamepad.Send(EV_SYN, 0, 0);
      case RightJoystickX =>
        gamepad.Send(EV_ABS, ABS_RX, value);
        gamepad.Send(EV_SYN, 0, 0);
      case RightJoystickY =>
        gamepad.Send(EV_ABS, ABS_RY, value);
        gamepad.Send(EV_SYN, 0, 0);
      case UnknownNubAxisMode =>
    }
  }

  /** `handleNubClick(mode, value, mouse, gamepad, settings)`. */
  method HandleNubClick(mode: NubClickMode, value: int, mouse: Mouse, gamepad: Device)
    requires mouse.device != gamepad
    modifies mouse.device, gamepad
    ensures mouse.device.events == old(mouse.device.events) + NubClick(mode, value).mouse
    ensures gamepad.events == old(gamepad.events) + NubClick(mode, value).gamepad
  {
    match mode {
      case MouseLeft =>
        mouse.device.Send(EV_KEY, BTN_LEFT, value);
        mouse.device.Send(EV_SYN, 0, 0);
      case MouseRight =>
        mouse.device.Send(EV_KEY, BTN_RIGHT, value);
        mouse.device.Send(EV_SYN, 0, 0);
      case NubClickLeft =>
        gamepad.Send(EV_KEY, BTN_THUMBL, value);
        gamepad.Send(EV_SYN, 0, 0);
      case NubClickRight =>
        gamepad.Send(EV_KEY, BTN_THUMBR, value);
        gamepad.Send(EV_SYN, 0, 0);
      case UnknownNubClickMode =>
    }
  }

  /** `KeyBehaviors<FIRST_KEY, LAST_KEY>`: one behaviour per key code, in an array. */
  class KeyBehaviors {
    const behaviors: array<KeyBehavior>

    ghost predicate Valid()
      reads this
    {
      behaviors.Length == NUM_KEYS
    }

    function Table(): Table
      requires Valid()
      reads this, behaviors
    {
      behaviors[..]
    }

    /** Every slot starts as `PASSTHROUGH`. */
    constructor ()
      ensures Valid() && fresh(behaviors) && Table() == FreshTable()
    {
      behaviors := new KeyBehavior[NUM_KEYS](_ => PassThrough);
    }

    /** `behaviors.at(code - FIRST_KEY)` followed by an update of that slot; `at`
        throws (`ok` false, nothing changed) for a code past the end. */
    method Configure(code: nat, b: KeyBehavior) returns (ok: bool)
      requires Valid()
      modifies behaviors
      ensures Valid()
      ensures ok == Bind(old(Table()), code, b).Some?
      ensures Table() == if ok then Bind(old(Table()), code, b).value else old(Table())
    {
      if code - FIRST_KEY >= behaviors.Length {
        return false;
      }
      behaviors[code - FIRST_KEY] := b;
      ok := true;
    }

    /** `passthrough(code)`. */
    method Passthrough(code: nat) returns (ok: bool)
      requires Valid()
      modifies behaviors
      ensures Valid()
      ensures ok == Bind(old(Table()), code, PassThrough).Some?
      ensures Table() == if ok then Bind(old(Table()), code, PassThrough).value else old(Table())
    {
      ok := Configure(code, PassThrough);
    }

    /** `map(code, result)`. */
    method Map(code: nat, result: int) returns (ok: bool)
      requires Valid()
      modifies behaviors
      ensures Valid()
      ensures ok == Bind(old(Table()), code, Mapped(result)).Some?
      ensures Table() == if ok then Bind(old(Table()), code, Mapped(result)).value else old(Table())
    {
      ok := Configure(code, Mapped(result));
    }

    /** `altmap(code, &global.FnPressed, regular, alternative)`. */
    method AltMap(code: nat, regular: int, alternative: int) returns (ok: bool)
      requires Valid()
      modifies behaviors
      ensures Valid()
      ensures ok == Bind(old(Table()), code, AltMapped(regular, alternative)).Some?
      ensures Table() == if ok then Bind(old(Table()), code, AltMapped(regular, alternative)).value else old(Table())
    {
      ok := Configure(code, AltMapped(regular, alternative));
    }

    /** `complex(code, function)`. */
    method Complex(code: nat, action: ComplexAction) returns (ok: bool)
      requires Valid()
      modifies behaviors
      ensures Valid()
      ensures ok == Bind(old(Table()), code, KeyBehavior.Complex(action)).Some?
      ensures Table() == if ok then Bind(old(Table()), code, KeyBehavior.Complex(action)).value else old(Table())
    {
      ok := Configure(code, KeyBehavior.Complex(action));
    }

    /** `gpmap(code, gamepad)`. */
    method GpMap(code: nat, button: int) returns (ok: bool)
      requires Valid()
      modifies behaviors
      ensures Valid()
      ensures ok == Bind(old(Table()), code, GpMapped(button)).Some?
      ensures Table() == if ok then Bind(old(Table()), code, GpMapped(button)).value else old(Table())
    {
      ok := Configure(code, GpMapped(button));
    }

    /** `handle(code, value)`, which writes to the global keyboard and gamepad and,
        for the Fn tracker, the global Fn flag. */
    method Handle(code: nat, value: int, g: Global)
      requires Valid() && g.keyboard != g.gamepad
      modifies g, g.keyboard, g.gamepad
      ensures var out := HandleKey(Table(), code, value, old(g.fnPressed));
        && g.keyboard.events == old(g.keyboard.events) + out.keyboard
        && g.gamepad.events == old(g.gamepad.events) + out.gamepad
        && g.fnPressed == out.fn
      ensures g.settings == old(g.settings) && g.diagnostics == old(g.diagnostics) && g.threw == old(g.threw)
    {
      if code < FIRST_KEY || code > LAST_KEY {
        return;
      }
      var kb := behaviors[code - FIRST_KEY];
      match kb {
        case PassThrough =>
          g.keyboard.Send(EV_KEY, code, value);
        case Mapped(mapping) =>
          g.keyboard.Send(EV_KEY, mapping, value);
        case AltMapped(mapping, alternative) =>
          g.keyboard.Send(EV_KEY, if g.fnPressed then alternative else mapping, value);
        case Complex(TrackFn) =>
          g.fnPressed := value == 1;
        case GpMapped(button) =>
          g.keyboard.Send(EV_KEY, code, value);
          g.gamepad.Send(EV_KEY, button, value);
          g.gamepad.Send(EV_SYN, 0, 0);
      }
    }
  }

  /** The `global` context: devices, the key table, the mouse, the settings and the Fn
      flag, together with the messages `loadConfig` printed and whether it threw. */
  class Global {
    const keyboard: Device
    const gamepad: Device
    const behaviors: KeyBehaviors
    const mouse: Mouse
    var settings: Settings
    var fnPressed: bool
    var diagnostics: seq<Diagnostic>
    var threw: bool

    ghost predicate Valid()
      reads this, behaviors, mouse
    {
      && keyboard != gamepad && keyboard != mouse.device && gamepad != mouse.device
      && behaviors.Valid()
    }

    /** The state `handle` acts on, as a value. */
    ghost function State(): World
      reads this, keyboard, gamepad, mouse, mouse.device
    {
      World(keyboard.events, gamepad.events, mouse.device.events, fnPressed, mouse.Acc(), mouse.signals)
    }

    /** `init(argv, argc)`: creates the devices, installs the key bindings, reads the
        arguments and, when they name one, the configuration file in `fs`. */
    constructor Init(args: seq<string>, fs: map<string, seq<string>>)
      ensures Valid() && fresh(keyboard) && fresh(gamepad) && fresh(mouse) && fresh(mouse.device)
      ensures fresh(behaviors) && fresh(behaviors.behaviors)
      ensures State() == START
      ensures Some(behaviors.Table()) == BindAll(FreshTable(), INIT_BINDINGS)
      ensures var fromArgs := match LastConfigArg(args) case Some(path) => DEFAULT_SETTINGS.(configFile := path) case None => DEFAULT_SETTINGS;
        if fromArgs.configFile == [] then settings == fromArgs && diagnostics == [] && !threw
        else Loaded(settings, diagnostics, threw) == LoadConfigFile(fromArgs.configFile, fs, fromArgs)
    {
      var table := new KeyBehaviors();
      InitBindingsInTable();
      for i := 0 to |INIT_BINDINGS|
        invariant table.Valid()
        invariant BindAll(FreshTable(), INIT_BINDINGS[..i]) == Some(table.Table())
      {
        assert INIT_BINDINGS[..i + 1][..i] == INIT_BINDINGS[..i];
        var bind := INIT_BINDINGS[i];
        var ok;
        match bind.behavior {
          case PassThrough => ok := table.Passthrough(bind.code);
          case Mapped(result) => ok := table.Map(bind.code, result);
          case AltMapped(regular, alternative) => ok := table.AltMap(bind.code, regular, alternative);
          case Complex(action) => ok := table.Complex(bind.code, action);
          case GpMapped(button) => ok := table.GpMap(bind.code, button);
        }
      }
      assert INIT_BINDINGS[..|INIT_BINDINGS|] == INIT_BINDINGS;
      var kbd := new Device();
      var pad := new Device();
      var mouseDevice := new Device();
      var m := new Mouse(mouseDevice);
      var s := HandleArgs(args, DEFAULT_SETTINGS);
      var log, failed := [], false;
      if s.configFile != [] {
        s, log, failed := LoadConfig(s.configFile, fs, s);
      }
      keyboard, gamepad, behaviors, mouse := kbd, pad, table, m;
      settings, fnPressed, diagnostics, threw := s, false, log, failed;
    }

    /** `handle(e)`. */
    method Handle(e: InputEvent)
      requires Valid()
      modifies this, keyboard, gamepad, mouse, mouse.device
      ensures Valid()
      ensures State() == Route(behaviors.Table(), settings, old(State()), e)
      ensures settings == old(settings) && diagnostics == old(diagnostics) && threw == old(threw)
    {
      if e.etype == EV_ABS {
        if e.code == ABS_X {
          HandleNubAxis(settings.leftNubModeX, e.value, mouse, gamepad, settings);
        } else if e.code == ABS_Y {
          HandleNubAxis(settings.leftNubModeY, e.value, mouse, gamepad, settings);
        } else if e.code == ABS_RX {
          HandleNubAxis(settings.rightNubModeX, e.value, mouse, gamepad, settings);
        } else if e.code == ABS_RY {
          HandleNubAxis(settings.rightNubModeY, e.value, mouse, gamepad, settings);
        }
      } else if e.etype == EV_KEY {
        if e.code == BTN_LEFT || e.code == BTN_RIGHT || e.code == BTN_MIDDLE {
          mouse.device.Send(EV_KEY, e.code, e.value);
          mouse.device.Send(EV_SYN, 0, 0);
        } else if e.code == BTN_THUMBL {
          HandleNubClick(settings.leftNubClickMode, e.value, mouse, gamepad);
        } else if e.code == BTN_THUMBR {
          HandleNubClick(settings.rightNubClickMode, e.value, mouse, gamepad);
        } else {
          behaviors.Handle(e.code, e.value, this);
          keyboard.Send(EV_SYN, 0, 0);
        }
      }
    }

    /** `user1()`: reads the configuration file named by the settings again, on top of
        the current settings. */
    method Reload(fs: map<string, seq<string>>)
      requires Valid()
      modifies this
      ensures Valid()
      ensures var loaded := LoadConfigFile(old(settings).configFile, fs, old(settings));
        && settings == loaded.settings
        && diagnostics == old(diagnostics) + loaded.diagnostics
        && threw == loaded.aborted
      ensures fnPressed == old(fnPressed)
    {
      var s, log, failed := LoadConfig(settings.configFile, fs, settings);
      settings, diagnostics, threw := s, diagnostics + log, failed;
    }
  }
}
