/** The nubs: translating an axis report or a nub click according to its configured
    mode, and one tick of the mouse emulator that turns the latest axis values into
    relative pointer motion and wheel steps. */
module Nub {
  import opened InputCodes
  import opened Text
  import opened PyraSettings

  /** The fields `dx`, `dy`, `dwx`, `dwy` of `struct Mouse`: the latest raw value of
      each axis that drives the pointer or the wheel. */
  datatype Accumulator = Accumulator(dx: int, dy: int, dwx: int, dwy: int)

  const IDLE: Accumulator := Accumulator(0, 0, 0, 0)

  /** `v > dz || v < -dz`: a value outside the deadzone `dz`. */
  predicate Beyond(v: int, dz: int)
  {
    v > dz || v < -dz
  }

  // ---------------------------------------------------------------------------
  // handleNubAxis
  // ---------------------------------------------------------------------------

  /** What `handleNubAxis` does: the accumulator afterwards, the events sent to the
      gamepad, and whether it wakes the mouse emulator (`notify_all`). */
  datatype AxisStep = AxisStep(acc: Accumulator, gamepad: seq<Event>, wake: bool)

  /** `handleNubAxis(mode, value, mouse, gamepad, settings)`. Every pointer and wheel
      mode compares the new value against `mouseDeadzone`. */
  function NubAxis(mode: NubAxisMode, value: int, acc: Accumulator, s: Settings): (r: AxisStep)
    ensures r.wake ==> IsPointerMode(mode)
    ensures r.gamepad != [] <==> IsJoystickMode(mode)
    ensures !IsPointerMode(mode) ==> r.acc == acc
  {
    match mode
    case MouseX => AxisStep(acc.(dx := value), [], Beyond(value, s.mouseDeadzone))
    case MouseY => AxisStep(acc.(dy := value), [], Beyond(value, s.mouseDeadzone))
    case ScrollX => AxisStep(acc.(dwx := value), [], Beyond(value, s.mouseDeadzone))
    case ScrollY => AxisStep(acc.(dwy := value), [], Beyond(value, s.mouseDeadzone))
    case LeftJoystickX => AxisStep(acc, [Event(EV_ABS, ABS_X, value), SYN], false)
    case LeftJoystickY => AxisStep(acc, [Event(EV_ABS, ABS_Y, value), SYN], false)
    case RightJoystickX => AxisStep(acc, [Event(EV_ABS, ABS_RX, value), SYN], false)
    case RightJoystickY => AxisStep(acc, [Event(EV_ABS, ABS_RY, value), SYN], false)
    case UnknownNubAxisMode => AxisStep(acc, [], false)
  }

  predicate IsPointerMode(mode: NubAxisMode)
  {
    mode == MouseX || mode == MouseY || mode == ScrollX || mode == ScrollY
  }

  predicate IsJoystickMode(mode: NubAxisMode)
  {
    mode == LeftJoystickX || mode == LeftJoystickY || mode == RightJoystickX || mode == RightJoystickY
  }

  /** The accumulator field a pointer or wheel mode drives. */
  function Field(acc: Accumulator, mode: NubAxisMode): int
    requires IsPointerMode(mode)
  {
    match mode
    case MouseX => acc.dx
    case MouseY => acc.dy
    case ScrollX => acc.dwx
    case ScrollY => acc.dwy
  }

  /** The gamepad axis a joystick mode drives. */
  function JoystickAxis(mode: NubAxisMode): u16
    requires IsJoystickMode(mode)
  {
    match mode
    case LeftJoystickX => ABS_X
    case LeftJoystickY => ABS_Y
    case RightJoystickX => ABS_RX
    case RightJoystickY => ABS_RY
  }

  /** A pointer or wheel mode stores the raw value in its own field only, sends nothing,
      and wakes the emulator exactly when the value is outside `mouseDeadzone`. */
  lemma PointerModeSpec(mode: NubAxisMode, value: int, acc: Accumulator, s: Settings)
    requires IsPointerMode(mode)
    ensures var r := NubAxis(mode, value, acc, s);
      && Field(r.acc, mode) == value
      && (forall m :: IsPointerMode(m) && m != mode ==> Field(r.acc, m) == Field(acc, m))
      && r.gamepad == []
      && (r.wake <==> value > s.mouseDeadzone || value < -(s.mouseDeadzone as int))
  {
  }

  /** A joystick mode forwards the raw value, with no deadzone, to its gamepad axis and
      synchronises; it does not touch the accumulator or wake the emulator, whatever
      the settings. */
  lemma JoystickModeSpec(mode: NubAxisMode, value: int, acc: Accumulator, s: Settings, s': Settings)
    requires IsJoystickMode(mode)
    ensures NubAxis(mode, value, acc, s) == AxisStep(acc, [Event(EV_ABS, JoystickAxis(mode), value), SYN], false)
    ensures NubAxis(mode, value, acc, s) == NubAxis(mode, value, acc, s')
  {
  }

  /** An axis without a mode is ignored. */
  lemma UnknownAxisModeIgnored(value: int, acc: Accumulator, s: Settings)
    ensures NubAxis(UnknownNubAxisMode, value, acc, s) == AxisStep(acc, [], false)
  {
  }

  // ---------------------------------------------------------------------------
  // handleNubClick
  // ---------------------------------------------------------------------------

  /** What `handleNubClick` sends to the mouse and to the gamepad. */
  datatype ClickStep = ClickStep(mouse: seq<Event>, gamepad: seq<Event>)

  /** `handleNubClick(mode, value, mouse, gamepad, settings)`. */
  function NubClick(mode: NubClickMode, value: int): (r: ClickStep)
    ensures r.mouse == [] || r.gamepad == []
    ensures r.mouse == [] && r.gamepad == [] <==> mode == UnknownNubClickMode
  {
    match mode
    case MouseLeft => ClickStep([KeyEvent(BTN_LEFT, value), SYN], [])
    case MouseRight => ClickStep([KeyEvent(BTN_RIGHT, value), SYN], [])
    case NubClickLeft => ClickStep([], [KeyEvent(BTN_THUMBL, value), SYN])
    case NubClickRight => ClickStep([], [KeyEvent(BTN_THUMBR, value), SYN])
    case UnknownNubClickMode => ClickStep([], [])
  }

  /** The button a known click mode presses. */
  function ClickButton(mode: NubClickMode): u16
    requires mode != UnknownNubClickMode
  {
    match mode
    case MouseLeft => BTN_LEFT
    case MouseRight => BTN_RIGHT
    case NubClickLeft => BTN_THUMBL
    case NubClickRight => BTN_THUMBR
  }

  /** A click reaches exactly one device, the mouse for the mouse modes and the gamepad
      for the thumb modes, as that mode's button with the event's value followed by a
      synchronisation report; an unknown mode sends nothing. */
  lemma NubClickSpec(mode: NubClickMode, value: int)
    ensures var r := NubClick(mode, value);
      if mode == UnknownNubClickMode then r == ClickStep([], [])
      else
        var sent := [KeyEvent(ClickButton(mode), value), SYN];
        if mode == MouseLeft || mode == MouseRight then r == ClickStep(sent, [])
        else r == ClickStep([], sent)
  {
  }

  // ---------------------------------------------------------------------------
  // One tick of handleMouse
  // ---------------------------------------------------------------------------

  /** C++ integer division, which truncates toward zero. */
  function TruncDiv(a: int, d: int): (q: int)
    requires d > 0
    ensures a >= 0 ==> q >= 0
    ensures a <= 0 ==> q <= 0
  {
    if a >= 0 then a / d else -((-a) / d)
  }

  /** The quotient has the sign of the dividend and the largest magnitude whose
      multiple of `d` does not exceed the dividend's magnitude. */
  lemma TruncDivSpec(a: int, d: int)
    requires d > 0
    ensures RoundedTowardZero(TruncDiv(a, d), a, d)
  {
    if a >= 0 {
      DivBounds(a, d);
    } else {
      DivBounds(-a, d);
      var q := (-a) / d;
      assert TruncDiv(a, d) * d == -(q * d);
    }
  }

  /** Euclidean division of a natural number, in the form the proofs above use. */
  lemma DivBounds(r: nat, d: int)
    requires d > 0
    ensures 0 <= (r / d) * d <= r < (r / d) * d + d
  {
    var q := r / d;
    assert r == q * d + r % d;
    MulNonNegative(q, d);
  }

  /** Truncating division commutes with negation, which Euclidean division does not. */
  lemma TruncDivNegate(a: int, d: int)
    requires d > 0
    ensures TruncDiv(-a, d) == -TruncDiv(a, d)
  {
  }

  /** The pointer motion for one axis value: `(v - dz) * sens / 1000` above the
      deadzone, `(v + dz) * sens / 1000` below it, and no report inside it. */
  function Motion(v: int, dz: int, sens: int): (r: Option<int>)
    ensures r.None? <==> !Beyond(v, dz)
  {
    if v > dz then Some(TruncDiv((v - dz) * sens, 1000))
    else if v < -dz then Some(TruncDiv((v + dz) * sens, 1000))
    else None
  }

  /** A wheel step for one axis value: +1 above the deadzone, -1 below it. */
  function WheelStep(v: int, dz: int): (r: Option<int>)
    ensures r.None? <==> !Beyond(v, dz)
    ensures r.Some? ==> (r.value == 1 <==> v > dz) && (r.value == -1 <==> !(v > dz))
  {
    if v > dz then Some(1) else if v < -dz then Some(-1) else None
  }

  function Negate(o: Option<int>): Option<int>
  {
    match o case Some(n) => Some(-n) case None => None
  }

  /** The relative event carrying `o`, if any. */
  function Report(code: u16, o: Option<int>): seq<Event>
  {
    match o case Some(n) => [Event(EV_REL, code, n)] case None => []
  }

  /** The test at the top of the loop of `handleMouse`: the pointer axes are compared
      with `mouseDeadzone`, the wheel axes with `mouseWheelDeadzone`. */
  predicate MouseActive(acc: Accumulator, s: Settings)
  {
    || Beyond(acc.dx, s.mouseDeadzone) || Beyond(acc.dy, s.mouseDeadzone)
    || Beyond(acc.dwx, s.mouseWheelDeadzone) || Beyond(acc.dwy, s.mouseWheelDeadzone)
  }

  /** The events one tick sends to the mouse. Once active, every axis, the wheel axes
      included, is compared with `mouseDeadzone`; vertical wheel steps are inverted. */
  function TickEvents(acc: Accumulator, s: Settings): (ev: seq<Event>)
    ensures ev != [] ==> ev[|ev| - 1] == SYN
  {
    if !MouseActive(acc, s) then []
    else
      var dz, sens := s.mouseDeadzone, s.mouseSensitivity;
      Report(REL_X, Motion(acc.dx, dz, sens)) + Report(REL_Y, Motion(acc.dy, dz, sens))
      + Report(REL_HWHEEL, WheelStep(acc.dwx, dz)) + Report(REL_WHEEL, Negate(WheelStep(acc.dwy, dz)))
      + [SYN]
  }

  /** A tick sends nothing exactly when every axis is inside its activating deadzone;
      otherwise it sends at most four relative events, in the order X, Y, horizontal
      wheel, vertical wheel, closed by exactly one synchronisation report. */
  lemma TickShape(acc: Accumulator, s: Settings)
    ensures var ev := TickEvents(acc, s);
      && (ev == [] <==> !MouseActive(acc, s))
      && (ev != [] ==>
        && 1 <= |ev| <= 5 && ev[|ev| - 1] == SYN
        && forall i :: 0 <= i < |ev| - 1 ==> ev[i].etype == EV_REL)
  {
  }

  /** The order of the relative events: each code appears at most once, X before Y
      before the horizontal wheel before the vertical wheel. */
  lemma TickOrder(acc: Accumulator, s: Settings)
    ensures var ev := TickEvents(acc, s);
      forall i, j :: 0 <= i < j < |ev| - 1 ==> RelRank(ev[i].code) < RelRank(ev[j].code)
  {
  }

  function RelRank(code: int): int
  {
    if code == REL_X then 0 else if code == REL_Y then 1 else if code == REL_HWHEEL then 2 else 3
  }

  /** `q` is `a / d` as C++ computes it: it has the sign of `a` and the largest
      magnitude whose multiple of `d` does not pass `a`. */
  ghost predicate RoundedTowardZero(q: int, a: int, d: int)
  {
    && (a >= 0 ==> 0 <= q * d <= a < q * d + d)
    && (a < 0 ==> q * d - d < a <= q * d <= 0)
  }

  /** Above the deadzone the motion is the distance past the deadzone times
      `sensitivity`, divided by 1000 and rounded toward zero; below it, the same with
      the distance negative; inside it, none. The sign of the motion is the sign of
      that product, so a negative sensitivity reverses the pointer. */
  lemma MotionSpec(v: int, dz: int, sens: int)
    ensures v > dz ==>
      && Motion(v, dz, sens).Some?
      && RoundedTowardZero(Motion(v, dz, sens).value, (v - dz) * sens, 1000)
    ensures !(v > dz) && v < -dz ==>
      && Motion(v, dz, sens).Some?
      && RoundedTowardZero(Motion(v, dz, sens).value, (v + dz) * sens, 1000)
    ensures -dz <= v <= dz ==> Motion(v, dz, sens).None?
    ensures sens >= 0 && v > dz ==> Motion(v, dz, sens).value >= 0
    ensures sens >= 0 && !(v > dz) && v < -dz ==> Motion(v, dz, sens).value <= 0
    ensures sens < 0 && v > dz ==> Motion(v, dz, sens).value <= 0
    ensures sens < 0 && !(v > dz) && v < -dz ==> Motion(v, dz, sens).value >= 0
  {
    if v > dz {
      TruncDivSpec((v - dz) * sens, 1000);
      if sens >= 0 {
        MulNonNegative(v - dz, sens);
      } else {
        MulNonNegative(v - dz, -sens);
        assert (v - dz) * sens == -((v - dz) * -sens);
      }
    } else if v < -dz {
      TruncDivSpec((v + dz) * sens, 1000);
      if sens >= 0 {
        MulNonNegative(-(v + dz), sens);
        assert (v + dz) * sens == -(-(v + dz) * sens);
      } else {
        MulNonNegative(-(v + dz), -sens);
        assert (v + dz) * sens == -(v + dz) * -sens;
      }
    }
  }

  lemma MulNonNegative(a: int, b: int)
    requires a >= 0 && b >= 0
    ensures a * b >= 0
  {
  }

  /** With a non-negative deadzone, pushing a nub the other way reverses the motion
      and the wheel step. */
  lemma MotionSymmetric(v: int, dz: int, sens: int)
    requires dz >= 0
    ensures Motion(-v, dz, sens) == Negate(Motion(v, dz, sens))
    ensures WheelStep(-v, dz) == Negate(WheelStep(v, dz))
  {
    if v > dz {
      assert (-v + dz) * sens == -((v - dz) * sens);
      TruncDivNegate((v - dz) * sens, 1000);
    } else if v < -dz {
      assert (-v - dz) * sens == -((v + dz) * sens);
      TruncDivNegate((v + dz) * sens, 1000);
    }
  }

  /** Rounding toward zero: with sensitivity 40, just past 1000 units beyond the
      deadzone gives 40 counts, one unit less gives 39, and the mirror image -39
      (flooring division would give -40); a negative sensitivity reverses the pointer. */
  lemma MotionExamples(dz: int)
    ensures Motion(dz + 1000, dz, 40) == Some(40)
    ensures dz >= 0 ==> Motion(dz + 999, dz, 40) == Some(39)
    ensures dz >= 0 ==> Motion(-dz - 999, dz, 40) == Some(-39)
    ensures Motion(dz + 100, dz, -15) == Some(-1)
  {
  }

  /** With the default settings (deadzone 100, wheel deadzone 500, sensitivity 15) a
      scroll value of 300 wakes the emulator, because the axis handler tests it against
      `mouseDeadzone`, but the tick stays idle, because its activation test uses
      `mouseWheelDeadzone`. When the pointer is active as well, the same 300 does step
      the wheel, because emission tests it against `mouseDeadzone`. */
  lemma WheelDeadzoneMismatch()
    ensures NubAxis(ScrollX, 300, IDLE, DEFAULT_SETTINGS).wake
    ensures TickEvents(Accumulator(0, 0, 300, 0), DEFAULT_SETTINGS) == []
    ensures TickEvents(Accumulator(200, 0, 300, 0), DEFAULT_SETTINGS) ==
      [Event(EV_REL, REL_X, 1), Event(EV_REL, REL_HWHEEL, 1), SYN]
  {
  }

  /** Past the wheel deadzone alone, the vertical wheel steps opposite to the nub. */
  lemma WheelOnly()
    ensures TickEvents(Accumulator(0, 0, 0, 700), DEFAULT_SETTINGS) == [Event(EV_REL, REL_WHEEL, -1), SYN]
    ensures TickEvents(Accumulator(0, 0, 0, -700), DEFAULT_SETTINGS) == [Event(EV_REL, REL_WHEEL, 1), SYN]
  {
  }

  /** `n` copies of `one`, one after the other. */
  function Repeat(one: seq<Event>, n: nat): seq<Event>
  {
    if n == 0 then [] else Repeat(one, n - 1) + one
  }

  /** The events of `n` consecutive ticks while the nubs do not move. */
  function Ticks(acc: Accumulator, s: Settings, n: nat): seq<Event>
  {
    Repeat(TickEvents(acc, s), n)
  }

  /** An idle emulator stays silent however many ticks pass, and an active one sends
      the same report on every tick, each report ending in its own synchronisation. */
  lemma TicksRepeat(acc: Accumulator, s: Settings, n: nat)
    ensures !MouseActive(acc, s) ==> Ticks(acc, s, n) == []
    ensures |Ticks(acc, s, n)| == n * |TickEvents(acc, s)|
    ensures forall k :: 0 <= k < n ==>
      Ticks(acc, s, n)[k * |TickEvents(acc, s)|..(k + 1) * |TickEvents(acc, s)|] == TickEvents(acc, s)
  {
    RepeatSpec(TickEvents(acc, s), n);
  }

  /** Repeating nothing gives nothing, and block `k` of `n` copies of `one` is `one`. */
  lemma RepeatSpec(one: seq<Event>, n: nat)
    ensures one == [] ==> Repeat(one, n) == []
    ensures |Repeat(one, n)| == n * |one|
    ensures forall k :: 0 <= k < n ==> Repeat(one, n)[k * |one|..(k + 1) * |one|] == one
  {
    RepeatBlocks(one, n);
    forall k | 0 <= k < n
      ensures Repeat(one, n)[k * |one|..(k + 1) * |one|] == one
    {
      var from := k * |one|;
      assert (k + 1) * |one| == from + |one|;
      assert from + |one| <= |Repeat(one, n)| && Repeat(one, n)[from..from + |one|] == one;
    }
    if one == [] {
      assert n * |one| == 0;
    }
  }

  /** `n` copies of `one` are `n` blocks of `|one|` events, each equal to `one`. */
  lemma {:induction false} RepeatBlocks(one: seq<Event>, n: nat)
    ensures |Repeat(one, n)| == n * |one|
    ensures forall k :: 0 <= k < n ==>
      k * |one| + |one| <= |Repeat(one, n)| && Repeat(one, n)[k * |one|..k * |one| + |one|] == one
  {
    if n > 0 {
      RepeatBlocks(one, n - 1);
      AppendBlock(Repeat(one, n - 1), one, n - 1);
      assert (n - 1) * |one| + |one| == n * |one|;
    }
  }

  /** Appending one more block to `m` copies of `one` gives `m + 1` copies. */
  lemma AppendBlock(before: seq<Event>, one: seq<Event>, m: nat)
    requires |before| == m * |one|
    requires forall k :: 0 <= k < m ==>
      k * |one| + |one| <= |before| && before[k * |one|..k * |one| + |one|] == one
    ensures |before + one| == m * |one| + |one|
    ensures forall k :: 0 <= k < m + 1 ==>
      k * |one| + |one| <= |before + one| && (before + one)[k * |one|..k * |one| + |one|] == one
  {
    forall k | 0 <= k < m + 1
      ensures k * |one| + |one| <= |before + one| && (before + one)[k * |one|..k * |one| + |one|] == one
    {
      if k < m {
        var from, to := k * |one|, k * |one| + |one|;
        assert to <= |before| && before[from..to] == one;
        assert (before + one)[from..to] == before[from..to];
      } else {
        assert k * |one| == |before|;
      }
    }
  }
}
