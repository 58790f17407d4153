/** The module's entry point `handle`: each input event goes to the axis handler, the
    mouse, the click handler or the key table, according to its type and code. The
    state it acts on is gathered here as a value. */
module Router {
  import opened InputCodes
  import opened Text
  import opened PyraSettings
  import opened KeyTable
  import opened Nub

  /** Everything `handle` can change: the three output logs, the Fn flag, the mouse
      accumulator, and how many times the mouse emulator has been signalled. */
  datatype World = World(
    keyboard: seq<Event>,
    gamepad: seq<Event>,
    mouse: seq<Event>,
    fn: bool,
    acc: Accumulator,
    signals: nat)

  /** The state right after `init`: nothing sent yet, Fn released, the nubs centred. */
  const START: World := World([], [], [], false, IDLE, 0)

  /** The axis mode a nub axis code is routed with, if it is one of the four nub axes. */
  function AxisModeFor(s: Settings, code: int): Option<NubAxisMode>
  {
    if code == ABS_X then Some(s.leftNubModeX)
    else if code == ABS_Y then Some(s.leftNubModeY)
    else if code == ABS_RX then Some(s.rightNubModeX)
    else if code == ABS_RY then Some(s.rightNubModeY)
    else None
  }

  predicate IsMouseButton(code: int)
  {
    code == BTN_LEFT || code == BTN_RIGHT || code == BTN_MIDDLE
  }

  predicate IsThumbClick(code: int)
  {
    code == BTN_THUMBL || code == BTN_THUMBR
  }

  /** An `EV_KEY` code that goes to the key table. */
  predicate IsTableKey(code: int)
  {
    !IsMouseButton(code) && !IsThumbClick(code)
  }

  function ApplyAxis(w: World, step: AxisStep): World
  {
    w.(acc := step.acc, gamepad := w.gamepad + step.gamepad, signals := w.signals + if step.wake then 1 else 0)
  }

  function ApplyClick(w: World, step: ClickStep): World
  {
    w.(mouse := w.mouse + step.mouse, gamepad := w.gamepad + step.gamepad)
  }

  function ApplyKey(w: World, out: KeyOutput): World
  {
    w.(keyboard := w.keyboard + out.keyboard + [SYN], gamepad := w.gamepad + out.gamepad, fn := out.fn)
  }

  /** `handle(e)` with key table `t` and settings `s`. */
  function Route(t: Table, s: Settings, w: World, e: InputEvent): (r: World)
    ensures w.keyboard <= r.keyboard && w.gamepad <= r.gamepad && w.mouse <= r.mouse
    ensures w.signals <= r.signals <= w.signals + 1
  {
    if e.etype == EV_ABS then
      match AxisModeFor(s, e.code)
      case Some(mode) => ApplyAxis(w, NubAxis(mode, e.value, w.acc, s))
      case None => w
    else if e.etype == EV_KEY then
      if IsMouseButton(e.code) then w.(mouse := w.mouse + [KeyEvent(e.code, e.value), SYN])
      else if e.code == BTN_THUMBL then ApplyClick(w, NubClick(s.leftNubClickMode, e.value))
      else if e.code == BTN_THUMBR then ApplyClick(w, NubClick(s.rightNubClickMode, e.value))
      else ApplyKey(w, HandleKey(t, e.code, e.value, w.fn))
    else w
  }

  /** `handle` applied to each event of `es` in turn. */
  function RouteAll(t: Table, s: Settings, w: World, es: seq<InputEvent>): World
  {
    if es == [] then w else Route(t, s, RouteAll(t, s, w, es[..|es| - 1]), es[|es| - 1])
  }

  /** Relative events, and every type other than absolute and key events, are ignored. */
  lemma OtherTypesIgnored(t: Table, s: Settings, w: World, e: InputEvent)
    requires e.etype != EV_ABS && e.etype != EV_KEY
    ensures Route(t, s, w, e) == w
  {
  }

  /** An absolute event on a nub axis is translated by that axis's configured mode;
      on any other axis it is ignored. */
  lemma AbsRouting(t: Table, s: Settings, w: World, e: InputEvent)
    requires e.etype == EV_ABS
    ensures e.code == ABS_X ==> Route(t, s, w, e) == ApplyAxis(w, NubAxis(s.leftNubModeX, e.value, w.acc, s))
    ensures e.code == ABS_Y ==> Route(t, s, w, e) == ApplyAxis(w, NubAxis(s.leftNubModeY, e.value, w.acc, s))
    ensures e.code == ABS_RX ==> Route(t, s, w, e) == ApplyAxis(w, NubAxis(s.rightNubModeX, e.value, w.acc, s))
    ensures e.code == ABS_RY ==> Route(t, s, w, e) == ApplyAxis(w, NubAxis(s.rightNubModeY, e.value, w.acc, s))
    ensures e.code !in {ABS_X, ABS_Y, ABS_RX, ABS_RY} ==> Route(t, s, w, e) == w
  {
  }

  /** Mouse buttons bypass the table: the mouse gets the button and a synchronisation
      report, and nothing else changes. */
  lemma MouseButtonsBypass(t: Table, s: Settings, w: World, e: InputEvent)
    requires e.etype == EV_KEY && IsMouseButton(e.code)
    ensures Route(t, s, w, e) == w.(mouse := w.mouse + [KeyEvent(e.code, e.value), SYN])
  {
  }

  /** Thumb clicks go to the click handler with the mode of their nub. */
  lemma ThumbClickRouting(t: Table, s: Settings, w: World, e: InputEvent)
    requires e.etype == EV_KEY && IsThumbClick(e.code)
    ensures Route(t, s, w, e) == ApplyClick(w, NubClick(
      if e.code == BTN_THUMBL then s.leftNubClickMode else s.rightNubClickMode, e.value))
  {
  }

  /** Any other key goes through the table, and the keyboard is synchronised afterwards
      whatever the table did: a key outside the table yields exactly one
      synchronisation report and nothing else. */
  lemma TableKeyRouting(t: Table, s: Settings, w: World, e: InputEvent)
    requires e.etype == EV_KEY && IsTableKey(e.code)
    ensures var r := Route(t, s, w, e);
      var out := HandleKey(t, e.code, e.value, w.fn);
      && r.keyboard == w.keyboard + out.keyboard + [SYN]
      && r.gamepad == w.gamepad + out.gamepad
      && r.fn == out.fn
      && r.mouse == w.mouse && r.acc == w.acc && r.signals == w.signals
    ensures e.code > LAST_KEY ==> Route(t, s, w, e) == w.(keyboard := w.keyboard + [SYN])
  {
  }

  /** A gamepad-mapped key shows up on both devices, each closed by a synchronisation report. */
  lemma GpMappedThroughRouter(t: Table, s: Settings, w: World, e: InputEvent)
    requires e.etype == EV_KEY && e.code <= LAST_KEY && t[e.code].GpMapped?
    ensures Route(t, s, w, e) == w.(
      keyboard := w.keyboard + [KeyEvent(e.code, e.value), SYN],
      gamepad := w.gamepad + [KeyEvent(t[e.code].button, e.value), SYN])
  {
  }

  /** The devices are append-only and the signal count never decreases. */
  lemma {:induction false} RouteAllAppends(t: Table, s: Settings, w: World, es: seq<InputEvent>)
    ensures var r := RouteAll(t, s, w, es);
      && w.keyboard <= r.keyboard && w.gamepad <= r.gamepad && w.mouse <= r.mouse
      && w.signals <= r.signals
  {
    if es != [] {
      RouteAllAppends(t, s, w, es[..|es| - 1]);
    }
  }

  /** The value of the last event that reached the Fn tracker, if any did. */
  function LastFnValue(t: Table, es: seq<InputEvent>): Option<int>
  {
    if es == [] then None
    else
      var e := es[|es| - 1];
      if e.etype == EV_KEY && IsTableKey(e.code) && e.code <= LAST_KEY && t[e.code] == Complex(TrackFn)
      then Some(e.value)
      else LastFnValue(t, es[..|es| - 1])
  }

  /** The Fn flag reflects only the last event of the Fn key: it is set exactly when
      that event was a press, and keeps its old value if the key never reported. */
  lemma {:induction false} FnFollowsLastFnEvent(t: Table, s: Settings, w: World, es: seq<InputEvent>)
    ensures RouteAll(t, s, w, es).fn == match LastFnValue(t, es) case Some(v) => v == 1 case None => w.fn
  {
    if es != [] {
      var before := RouteAll(t, s, w, es[..|es| - 1]);
      FnFollowsLastFnEvent(t, s, w, es[..|es| - 1]);
      var e := es[|es| - 1];
      if e.etype == EV_KEY && IsTableKey(e.code) {
        HandleKeyFootprint(t, e.code, e.value, before.fn);
      }
    }
  }

  /** A key mapped by Fn that is pressed before Fn and released while Fn is held
      releases a different code than it pressed: the keyboard reports 1 down and F1 up.
      The table `init` builds binds both keys this way (`InitFnBindings`). */
  lemma PressReleaseMismatch(t: Table, s: Settings)
    requires t[KEY_1] == AltMapped(KEY_1, KEY_F1) && t[KEY_LEFTMETA] == Complex(TrackFn)
    ensures RouteAll(t, s, START, [
      InputEvent(EV_KEY, KEY_1, 1), InputEvent(EV_KEY, KEY_LEFTMETA, 1), InputEvent(EV_KEY, KEY_1, 0)
    ]).keyboard == [KeyEvent(KEY_1, 1), SYN, SYN, KeyEvent(KEY_F1, 0), SYN]
  {
    var e1, e2, e3 := InputEvent(EV_KEY, KEY_1, 1), InputEvent(EV_KEY, KEY_LEFTMETA, 1), InputEvent(EV_KEY, KEY_1, 0);
    assert [e1, e2, e3][..2] == [e1, e2] && [e1, e2][..1] == [e1] && [e1][..0] == [];
    var w1 := Route(t, s, START, e1);
    assert w1.keyboard == [KeyEvent(KEY_1, 1), SYN] && !w1.fn;
    var w2 := Route(t, s, w1, e2);
    assert w2.keyboard == [KeyEvent(KEY_1, 1), SYN, SYN] && w2.fn;
    assert RouteAll(t, s, START, [e1]) == w1;
    assert RouteAll(t, s, START, [e1, e2]) == w2;
    assert Route(t, s, w2, e3).keyboard == w2.keyboard + [KeyEvent(KEY_F1, 0), SYN];
  }

  /** Holding Fn until it auto-repeats clears the flag, so alternative mappings stop,
      in the table `init` builds as in any other that binds the two keys alike. */
  lemma RepeatClearsFn(t: Table, s: Settings, w: World)
    requires t[KEY_LEFTMETA] == Complex(TrackFn) && t[KEY_1] == AltMapped(KEY_1, KEY_F1)
    ensures var r := RouteAll(t, s, w, [InputEvent(EV_KEY, KEY_LEFTMETA, 1), InputEvent(EV_KEY, KEY_LEFTMETA, 2), InputEvent(EV_KEY, KEY_1, 1)]);
      !r.fn && r.keyboard == w.keyboard + [SYN, SYN, KeyEvent(KEY_1, 1), SYN]
  {
    var e1, e2, e3 := InputEvent(EV_KEY, KEY_LEFTMETA, 1), InputEvent(EV_KEY, KEY_LEFTMETA, 2), InputEvent(EV_KEY, KEY_1, 1);
    assert [e1, e2, e3][..2] == [e1, e2] && [e1, e2][..1] == [e1] && [e1][..0] == [];
    var w1 := Route(t, s, w, e1);
    assert w1.fn && w1.keyboard == w.keyboard + [SYN];
    var w2 := Route(t, s, w1, e2);
    assert !w2.fn && w2.keyboard == w.keyboard + [SYN, SYN];
    assert RouteAll(t, s, w, [e1]) == w1;
    assert RouteAll(t, s, w, [e1, e2]) == w2;
    assert Route(t, s, w2, e3).keyboard == w2.keyboard + [KeyEvent(KEY_1, 1), SYN];
  }

  /** With the left nub's X axis driving the pointer and deadzone 20, a report of 500
      is stored, wakes the emulator once, and the next tick moves the pointer by
      (500 - 20) * 15 / 1000 = 7. */
  lemma PointerEndToEnd(t: Table)
    ensures var s := DEFAULT_SETTINGS.(leftNubModeX := MouseX, mouseDeadzone := 20);
      var r := RouteAll(t, s, START, [InputEvent(EV_ABS, ABS_X, 500)]);
      && r.acc == Accumulator(500, 0, 0, 0) && r.signals == 1 && r.gamepad == []
      && TickEvents(r.acc, s) == [Event(EV_REL, REL_X, 7), SYN]
  {
  }
}
