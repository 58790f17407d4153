/** Event types and codes of the Linux input subsystem (linux/input-event-codes.h)
    that the remapper reads or writes, and the event triples its output devices log. */
module InputCodes {

  /** Widths of the fields of the kernel's `struct input_event`. */
  type u16 = x: int | 0 <= x < 0x1_0000
  type i32 = x: int | -0x8000_0000 <= x < 0x8000_0000

  // Event types
  const EV_SYN: u16 := 0
  const EV_KEY: u16 := 1
  const EV_REL: u16 := 2
  const EV_ABS: u16 := 3

  // Absolute axes
  const ABS_X: u16 := 0x00
  const ABS_Y: u16 := 0x01
  const ABS_RX: u16 := 0x03
  const ABS_RY: u16 := 0x04

  // Relative axes
  const REL_X: u16 := 0x00
  const REL_Y: u16 := 0x01
  const REL_HWHEEL: u16 := 0x06
  const REL_WHEEL: u16 := 0x08

  // Keyboard keys
  const KEY_RESERVED: u16 := 0
  const KEY_ESC: u16 := 1
  const KEY_1: u16 := 2
  const KEY_2: u16 := 3
  const KEY_3: u16 := 4
  const KEY_4: u16 := 5
  const KEY_5: u16 := 6
  const KEY_6: u16 := 7
  const KEY_7: u16 := 8
  const KEY_8: u16 := 9
  const KEY_9: u16 := 10
  const KEY_0: u16 := 11
  const KEY_MINUS: u16 := 12
  const KEY_EQUAL: u16 := 13
  const KEY_TAB: u16 := 15
  const KEY_LEFTBRACE: u16 := 26
  const KEY_RIGHTBRACE: u16 := 27
  const KEY_LEFTCTRL: u16 := 29
  const KEY_SEMICOLON: u16 := 39
  const KEY_GRAVE: u16 := 41
  const KEY_BACKSLASH: u16 := 43
  const KEY_Z: u16 := 44
  const KEY_X: u16 := 45
  const KEY_C: u16 := 46
  const KEY_V: u16 := 47
  const KEY_B: u16 := 48
  const KEY_N: u16 := 49
  const KEY_COMMA: u16 := 51
  const KEY_DOT: u16 := 52
  const KEY_SLASH: u16 := 53
  const KEY_RIGHTSHIFT: u16 := 54
  const KEY_LEFTALT: u16 := 56
  const KEY_SPACE: u16 := 57
  const KEY_CAPSLOCK: u16 := 58
  const KEY_F1: u16 := 59
  const KEY_F2: u16 := 60
  const KEY_F3: u16 := 61
  const KEY_F4: u16 := 62
  const KEY_F5: u16 := 63
  const KEY_F6: u16 := 64
  const KEY_F7: u16 := 65
  const KEY_F8: u16 := 66
  const KEY_F9: u16 := 67
  const KEY_F10: u16 := 68
  const KEY_F11: u16 := 87
  const KEY_F12: u16 := 88
  const KEY_RIGHTCTRL: u16 := 97
  const KEY_SYSRQ: u16 := 99
  const KEY_RIGHTALT: u16 := 100
  const KEY_HOME: u16 := 102
  const KEY_UP: u16 := 103
  const KEY_PAGEUP: u16 := 104
  const KEY_LEFT: u16 := 105
  const KEY_RIGHT: u16 := 106
  const KEY_END: u16 := 107
  const KEY_DOWN: u16 := 108
  const KEY_PAGEDOWN: u16 := 109
  const KEY_INSERT: u16 := 110
  const KEY_DELETE: u16 := 111
  const KEY_LEFTMETA: u16 := 125
  const KEY_RIGHTMETA: u16 := 126
  const KEY_COMPOSE: u16 := 127
  const KEY_UNKNOWN: u16 := 240

  // Mouse buttons
  const BTN_LEFT: u16 := 0x110
  const BTN_RIGHT: u16 := 0x111
  const BTN_MIDDLE: u16 := 0x112

  // Gamepad buttons
  const BTN_A: u16 := 0x130
  const BTN_B: u16 := 0x131
  const BTN_C: u16 := 0x132
  const BTN_X: u16 := 0x133
  const BTN_Y: u16 := 0x134
  const BTN_Z: u16 := 0x135
  const BTN_TL: u16 := 0x136
  const BTN_TR: u16 := 0x137
  const BTN_TL2: u16 := 0x138
  const BTN_TR2: u16 := 0x139
  const BTN_SELECT: u16 := 0x13a
  const BTN_START: u16 := 0x13b
  const BTN_THUMBL: u16 := 0x13d
  const BTN_THUMBR: u16 := 0x13e
  const BTN_DPAD_UP: u16 := 0x220
  const BTN_DPAD_DOWN: u16 := 0x221
  const BTN_DPAD_LEFT: u16 := 0x222
  const BTN_DPAD_RIGHT: u16 := 0x223

  /** An event as the host hands it to the module (`struct input_event` without its time stamp). */
  datatype InputEvent = InputEvent(etype: u16, code: u16, value: i32)

  /** One `(type, code, value)` triple sent to an output device. The values the mouse
      emulator computes are not bounded here, so the fields are plain integers. */
  datatype Event = Event(etype: int, code: int, value: int)

  /** The synchronisation report `send(EV_SYN, 0, 0)` that closes a group of events. */
  const SYN: Event := Event(EV_SYN, 0, 0)

  function KeyEvent(code: int, value: int): Event
  {
    Event(EV_KEY, code, value)
  }
}
