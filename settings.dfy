/** The remapper's settings: which role each nub axis and each nub click plays,
    the mouse emulator's deadzones and sensitivity, and the configuration file path. */
module PyraSettings {
  import opened InputCodes
  import opened Text

  /** `Settings::NubAxisMode`. */
  datatype NubAxisMode =
    | UnknownNubAxisMode
    | LeftJoystickX | LeftJoystickY
    | RightJoystickX | RightJoystickY
    | MouseX | MouseY
    | ScrollX | ScrollY

  /** `Settings::NubClickMode`. */
  datatype NubClickMode =
    | UnknownNubClickMode
    | NubClickLeft | NubClickRight
    | MouseLeft | MouseRight

  /** `struct Settings`. The numeric fields are C++ `int`s. */
  datatype Settings = Settings(
    leftNubModeX: NubAxisMode,
    leftNubModeY: NubAxisMode,
    rightNubModeX: NubAxisMode,
    rightNubModeY: NubAxisMode,
    leftNubClickMode: NubClickMode,
    rightNubClickMode: NubClickMode,
    mouseDeadzone: i32,
    mouseSensitivity: i32,
    mouseWheelDeadzone: i32,
    configFile: string)

  /** The member initialisers of `struct Settings`. */
  const DEFAULT_SETTINGS: Settings := Settings(
    LeftJoystickX, LeftJoystickY, RightJoystickX, RightJoystickY,
    NubClickLeft, NubClickRight,
    100, 15, 500, "")

  /** `NUB_AXIS_MODES`. */
  const NUB_AXIS_MODES: map<string, NubAxisMode> := map[
    "left_joystick_x" := LeftJoystickX,
    "left_joystick_y" := LeftJoystickY,
    "right_joystick_x" := RightJoystickX,
    "right_joystick_y" := RightJoystickY,
    "mouse_x" := MouseX,
    "mouse_y" := MouseY,
    "scroll_x" := ScrollX,
    "scroll_y" := ScrollY]

  /** `NUB_CLICK_MODES`. */
  const NUB_CLICK_MODES: map<string, NubClickMode> := map[
    "nub_click_left" := NubClickLeft,
    "nub_click_right" := NubClickRight,
    "mouse_left" := MouseLeft,
    "mouse_right" := MouseRight]

  /** `parseNubAxisMode`: a case-insensitive lookup in `NUB_AXIS_MODES`. */
  function ParseNubAxisMode(str: string): (m: NubAxisMode)
    ensures m != UnknownNubAxisMode ==> LowerStr(str) == AxisModeName(m)
  {
    AxisTableMatchesNames();
    var s := LowerStr(str);
    if s in NUB_AXIS_MODES then NUB_AXIS_MODES[s] else UnknownNubAxisMode
  }

  /** `parseNubClickMode`: a case-insensitive lookup in `NUB_CLICK_MODES`. */
  function ParseNubClickMode(str: string): (m: NubClickMode)
    ensures m != UnknownNubClickMode ==> LowerStr(str) == ClickModeName(m)
  {
    ClickTableMatchesNames();
    var s := LowerStr(str);
    if s in NUB_CLICK_MODES then NUB_CLICK_MODES[s] else UnknownNubClickMode
  }

  /** The configuration spelling of each known axis mode, independent of the table. */
  function AxisModeName(m: NubAxisMode): string
    requires m != UnknownNubAxisMode
  {
    match m
    case LeftJoystickX => "left_joystick_x"
    case LeftJoystickY => "left_joystick_y"
    case RightJoystickX => "right_joystick_x"
    case RightJoystickY => "right_joystick_y"
    case MouseX => "mouse_x"
    case MouseY => "mouse_y"
    case ScrollX => "scroll_x"
    case ScrollY => "scroll_y"
  }

  /** The configuration spelling of each known click mode, independent of the table. */
  function ClickModeName(m: NubClickMode): string
    requires m != UnknownNubClickMode
  {
    match m
    case NubClickLeft => "nub_click_left"
    case NubClickRight => "nub_click_right"
    case MouseLeft => "mouse_left"
    case MouseRight => "mouse_right"
  }

  /** The axis table holds exactly one spelling per known mode. */
  lemma AxisTableMatchesNames()
    ensures forall m :: m != UnknownNubAxisMode ==> AxisModeName(m) in NUB_AXIS_MODES && NUB_AXIS_MODES[AxisModeName(m)] == m
    ensures forall k :: k in NUB_AXIS_MODES ==> NUB_AXIS_MODES[k] != UnknownNubAxisMode && k == AxisModeName(NUB_AXIS_MODES[k])
  {
  }

  /** The click table holds exactly one spelling per known mode. */
  lemma ClickTableMatchesNames()
    ensures forall m :: m != UnknownNubClickMode ==> ClickModeName(m) in NUB_CLICK_MODES && NUB_CLICK_MODES[ClickModeName(m)] == m
    ensures forall k :: k in NUB_CLICK_MODES ==> NUB_CLICK_MODES[k] != UnknownNubClickMode && k == ClickModeName(NUB_CLICK_MODES[k])
  {
  }

  /** A string selects a known axis mode exactly when its lowercase form is that
      mode's spelling; every other string selects `UNKNOWN_NUB_AXIS_MODE`. */
  lemma ParseNubAxisModeSpec(str: string, m: NubAxisMode)
    requires m != UnknownNubAxisMode
    ensures ParseNubAxisMode(str) == m <==> LowerStr(str) == AxisModeName(m)
  {
    AxisTableMatchesNames();
  }

  /** A string selects a known click mode exactly when its lowercase form is that
      mode's spelling; every other string selects `UNKNOWN_NUB_CLICK_MODE`. */
  lemma ParseNubClickModeSpec(str: string, m: NubClickMode)
    requires m != UnknownNubClickMode
    ensures ParseNubClickMode(str) == m <==> LowerStr(str) == ClickModeName(m)
  {
    ClickTableMatchesNames();
  }

  /** The parsers ignore case: lowercasing the input first changes nothing. */
  lemma ParsersIgnoreCase(str: string)
    ensures ParseNubAxisMode(LowerStr(str)) == ParseNubAxisMode(str)
    ensures ParseNubClickMode(LowerStr(str)) == ParseNubClickMode(str)
  {
    LowerStrIdempotent(str);
  }

  /** A spelling reads back as its mode in any case. */
  lemma ParseMixedCase()
    ensures ParseNubAxisMode("Mouse_X") == MouseX
  {
    var s := LowerStr("Mouse_X");
    assert s[0] == 'm' && s[1] == 'o' && s[2] == 'u' && s[3] == 's' && s[4] == 'e' && s[5] == '_';
    assert s[6] == 'x';
    assert s == "mouse_x";
    ParseNubAxisModeSpec("Mouse_X", MouseX);
  }

  /** The value is not trimmed: trailing white space gives the unknown mode. */
  lemma ParseKeepsTrailingSpace()
    ensures ParseNubAxisMode("mouse_x ") == UnknownNubAxisMode
  {
    var s := LowerStr("mouse_x ");
    assert |s| == 8 && s[7] == ' ' && s[0] == 'm';
    assert s !in NUB_AXIS_MODES by {
      AxisTableMatchesNames();
    }
  }
}
