/** The per-key behaviour table: one slot for every key code from `KEY_RESERVED` to
    `KEY_UNKNOWN`, the five ways a slot can be configured, and what handling a key
    event through its slot sends to the keyboard and gamepad devices. */
module KeyTable {
  import opened InputCodes
  import opened Text

  const FIRST_KEY: nat := KEY_RESERVED
  const LAST_KEY: nat := KEY_UNKNOWN
  const NUM_KEYS: nat := LAST_KEY - FIRST_KEY + 1

  /** The closures installed with `complex`. The only one is the Fn tracker, which
      sets the shared Fn flag to whether the event is a press (value 1). */
  datatype ComplexAction = TrackFn

  /** `KeyBehavior`: the tag of a slot together with the fields that tag reads.
      Every `ALTMAPPED` slot reads the shared Fn flag, the only flag ever installed. */
  datatype KeyBehavior =
    | PassThrough
    | Mapped(mapping: int)
    | AltMapped(mapping: int, alternative: int)
    | Complex(action: ComplexAction)
    | GpMapped(button: int)

  type Table = t: seq<KeyBehavior> | |t| == NUM_KEYS witness seq(NUM_KEYS, _ => PassThrough)

  /** A freshly constructed table: `KeyBehavior()` makes every slot `PASSTHROUGH`. */
  function FreshTable(): (t: Table)
    ensures forall c :: 0 <= c < NUM_KEYS ==> t[c] == PassThrough
  {
    seq(NUM_KEYS, _ => PassThrough)
  }

  /** A configuration call on slot `code`: `behaviors.at(code - FIRST_KEY)` throws
      (`None`) for a code past the end of the table, and otherwise the slot is overwritten. */
  function Bind(t: Table, code: nat, b: KeyBehavior): (r: Option<Table>)
    ensures r.Some? ==> code <= LAST_KEY && r.value[code] == b
  {
    if code - FIRST_KEY < NUM_KEYS then Some(t[code - FIRST_KEY := b]) else None
  }

  /** A configuration call succeeds exactly for codes inside the table; it then holds
      `b` in slot `code` and leaves every other slot as it was. */
  lemma BindSpec(t: Table, code: nat, b: KeyBehavior)
    ensures Bind(t, code, b).Some? <==> FIRST_KEY <= code <= LAST_KEY
    ensures Bind(t, code, b).Some? ==>
      && Bind(t, code, b).value[code] == b
      && forall c :: 0 <= c < NUM_KEYS && c != code ==> Bind(t, code, b).value[c] == t[c]
  {
  }

  /** Last write wins: configuring a slot twice leaves only the second behaviour. */
  lemma BindTwice(t: Table, code: nat, b1: KeyBehavior, b2: KeyBehavior)
    requires code <= LAST_KEY
    ensures Bind(Bind(t, code, b1).value, code, b2) == Bind(t, code, b2)
  {
    var u, v := t[code := b1][code := b2], t[code := b2];
    assert u == v by {
      assert forall c :: 0 <= c < NUM_KEYS ==> u[c] == v[c];
    }
  }

  /** Configuring two different slots gives the same table in either order. */
  lemma BindCommutes(t: Table, c1: nat, c2: nat, b1: KeyBehavior, b2: KeyBehavior)
    requires c1 <= LAST_KEY && c2 <= LAST_KEY && c1 != c2
    ensures Bind(Bind(t, c1, b1).value, c2, b2) == Bind(Bind(t, c2, b2).value, c1, b1)
  {
    var u, v := t[c1 := b1][c2 := b2], t[c2 := b2][c1 := b1];
    assert u == v by {
      assert forall c :: 0 <= c < NUM_KEYS ==> u[c] == v[c];
    }
  }

  // ---------------------------------------------------------------------------
  // Handling a key event
  // ---------------------------------------------------------------------------

  /** What `KeyBehaviors::handle` does: the events it sends to the keyboard and to the
      gamepad, in order, and the Fn flag afterwards. */
  datatype KeyOutput = KeyOutput(keyboard: seq<Event>, gamepad: seq<Event>, fn: bool)

  /** The `switch` on the slot's tag, for key `code` with event value `value` while
      the Fn flag is `fn`. */
  function Dispatch(b: KeyBehavior, code: int, value: int, fn: bool): (r: KeyOutput)
    ensures |r.keyboard| <= 1 && (r.keyboard == [] <==> b.Complex?)
    ensures r.gamepad != [] <==> b.GpMapped?
    ensures r.fn != fn ==> b.Complex?
  {
    match b
    case PassThrough => KeyOutput([KeyEvent(code, value)], [], fn)
    case Mapped(m) => KeyOutput([KeyEvent(m, value)], [], fn)
    case AltMapped(m, alt) => KeyOutput([KeyEvent(if fn then alt else m, value)], [], fn)
    case Complex(TrackFn) => KeyOutput([], [], value == 1)
    case GpMapped(button) => KeyOutput([KeyEvent(code, value)], [KeyEvent(button, value), SYN], fn)
  }

  /** `KeyBehaviors::handle(code, value)`. The code is unsigned, so the lower bound
      test is never true; codes past `LAST_KEY` are ignored. */
  function HandleKey(t: Table, code: nat, value: int, fn: bool): (r: KeyOutput)
    ensures |r.keyboard| <= 1
    ensures forall i :: 0 <= i < |r.keyboard| ==> r.keyboard[i].etype == EV_KEY && r.keyboard[i].value == value
  {
    if code < FIRST_KEY || code > LAST_KEY then KeyOutput([], [], fn)
    else Dispatch(t[code - FIRST_KEY], code, value, fn)
  }

  /** A code outside the table sends nothing and leaves the Fn flag alone. */
  lemma OutOfRangeIsNoOp(t: Table, code: nat, value: int, fn: bool)
    requires code > LAST_KEY
    ensures HandleKey(t, code, value, fn) == KeyOutput([], [], fn)
  {
  }

  /** An unconfigured slot passes its event to the keyboard unchanged. */
  lemma FreshSlotPassesThrough(code: nat, value: int, fn: bool)
    requires code <= LAST_KEY
    ensures HandleKey(FreshTable(), code, value, fn) == KeyOutput([KeyEvent(code, value)], [], fn)
  {
  }

  /** An alternatively mapped key reads the Fn flag when the event arrives: it sends the
      alternative code while Fn is held and the regular code otherwise. */
  lemma AltMappedReadsFlag(t: Table, code: nat, value: int, fn: bool)
    requires code <= LAST_KEY && t[code].AltMapped?
    ensures HandleKey(t, code, value, fn).keyboard ==
      [KeyEvent(if fn then t[code].alternative else t[code].mapping, value)]
    ensures HandleKey(t, code, value, fn).gamepad == [] && HandleKey(t, code, value, fn).fn == fn
  {
  }

  /** The Fn key sends nothing and sets the flag to "pressed" only for value 1, so a
      release (0) and an auto-repeat (2) both clear it. */
  lemma FnTracker(t: Table, code: nat, value: int, fn: bool)
    requires code <= LAST_KEY && t[code] == Complex(TrackFn)
    ensures HandleKey(t, code, value, fn) == KeyOutput([], [], value == 1)
  {
  }

  /** A gamepad-mapped key sends the key itself to the keyboard and the button and a
      synchronisation report to the gamepad. */
  lemma GpMappedSendsBoth(t: Table, code: nat, value: int, fn: bool)
    requires code <= LAST_KEY && t[code].GpMapped?
    ensures HandleKey(t, code, value, fn) ==
      KeyOutput([KeyEvent(code, value)], [KeyEvent(t[code].button, value), SYN], fn)
  {
  }

  /** Over every slot: at most one keyboard event, which is a key event carrying the
      input's value; the gamepad is written only by a gamepad-mapped key; and the Fn
      flag changes only through the Fn tracker. */
  lemma HandleKeyFootprint(t: Table, code: nat, value: int, fn: bool)
    ensures var r := HandleKey(t, code, value, fn);
      && |r.keyboard| <= 1
      && (forall ev :: ev in r.keyboard ==> ev.etype == EV_KEY && ev.value == value)
      && (r.keyboard == [] <==> code > LAST_KEY || t[code].Complex?)
      && (r.gamepad != [] <==> code <= LAST_KEY && t[code].GpMapped?)
      && (r.fn != fn ==> code <= LAST_KEY && t[code].Complex?)
  {
  }

  // ---------------------------------------------------------------------------
  // The bindings `init` installs
  // ---------------------------------------------------------------------------

  /** A configuration call made by `init`: the key and the behaviour given to it. */
  datatype Binding = Binding(code: nat, behavior: KeyBehavior)

  /** Applies configuration calls in order; the first one that throws ends the sequence. */
  function BindAll(t: Table, bs: seq<Binding>): Option<Table>
  {
    if bs == [] then Some(t)
    else
      match BindAll(t, bs[..|bs| - 1])
      case None => None
      case Some(u) => Bind(u, bs[|bs| - 1].code, bs[|bs| - 1].behavior)
  }

  /** The behaviour the last binding of `code` gives it, if any binding names it. */
  function LastBinding(bs: seq<Binding>, code: nat): Option<KeyBehavior>
  {
    if bs == [] then None
    else if bs[|bs| - 1].code == code then Some(bs[|bs| - 1].behavior)
    else LastBinding(bs[..|bs| - 1], code)
  }

  /** A binding no later binding overrides is the last binding of its code. */
  lemma {:induction false} LastBindingIs(bs: seq<Binding>, j: nat)
    requires j < |bs|
    requires forall k :: j < k < |bs| ==> bs[k].code != bs[j].code
    ensures LastBinding(bs, bs[j].code) == Some(bs[j].behavior)
  {
    if j < |bs| - 1 {
      var prefix := bs[..|bs| - 1];
      assert forall k :: j < k < |prefix| ==> prefix[k] == bs[k];
      LastBindingIs(prefix, j);
    }
  }

  predicate InTable(bs: seq<Binding>)
  {
    forall i :: 0 <= i < |bs| ==> bs[i].code <= LAST_KEY
  }

  /** A run of bindings succeeds exactly when all their codes are in the table, and
      each slot then holds the behaviour of its last binding, or its old one. */
  lemma {:induction false} BindAllSpec(t: Table, bs: seq<Binding>)
    ensures BindAll(t, bs).Some? <==> InTable(bs)
    ensures BindAll(t, bs).Some? ==> forall c :: 0 <= c < NUM_KEYS ==>
      BindAll(t, bs).value[c] == match LastBinding(bs, c) case Some(b) => b case None => t[c]
  {
    if bs != [] {
      var prefix := bs[..|bs| - 1];
      BindAllSpec(t, prefix);
      assert forall i :: 0 <= i < |prefix| ==> prefix[i] == bs[i];
      if BindAll(t, prefix).Some? {
        BindSpec(BindAll(t, prefix).value, bs[|bs| - 1].code, bs[|bs| - 1].behavior);
      } else {
        assert !InTable(prefix);
      }
    }
  }

  /** The calls of `init`, in source order. */
  const INIT_BINDINGS: seq<Binding> := [
    Binding(KEY_UP, GpMapped(BTN_DPAD_UP)),
    Binding(KEY_DOWN, GpMapped(BTN_DPAD_DOWN)),
    Binding(KEY_LEFT, GpMapped(BTN_DPAD_LEFT)),
    Binding(KEY_RIGHT, GpMapped(BTN_DPAD_RIGHT)),
    Binding(KEY_LEFTALT, GpMapped(BTN_START)),
    Binding(KEY_LEFTCTRL, GpMapped(BTN_SELECT)),
    Binding(KEY_HOME, GpMapped(BTN_A)),
    Binding(KEY_END, GpMapped(BTN_B)),
    Binding(KEY_PAGEDOWN, GpMapped(BTN_X)),
    Binding(KEY_PAGEUP, GpMapped(BTN_Y)),
    Binding(KEY_RIGHTSHIFT, GpMapped(BTN_TL)),
    Binding(KEY_RIGHTMETA, GpMapped(BTN_TL2)),
    Binding(KEY_RIGHTCTRL, GpMapped(BTN_TR)),
    Binding(KEY_RIGHTALT, GpMapped(BTN_TR2)),
    Binding(KEY_INSERT, GpMapped(BTN_C)),
    Binding(KEY_DELETE, GpMapped(BTN_Z)),
    Binding(KEY_LEFTMETA, Complex(TrackFn)),
    Binding(KEY_ESC, AltMapped(KEY_ESC, KEY_SYSRQ)),
    Binding(KEY_F11, AltMapped(KEY_F11, KEY_F12)),
    Binding(KEY_1, AltMapped(KEY_1, KEY_F1)),
    Binding(KEY_2, AltMapped(KEY_2, KEY_F2)),
    Binding(KEY_3, AltMapped(KEY_3, KEY_F3)),
    Binding(KEY_4, AltMapped(KEY_4, KEY_F4)),
    Binding(KEY_5, AltMapped(KEY_5, KEY_F5)),
    Binding(KEY_6, AltMapped(KEY_6, KEY_F6)),
    Binding(KEY_7, AltMapped(KEY_7, KEY_F7)),
    Binding(KEY_8, AltMapped(KEY_8, KEY_F8)),
    Binding(KEY_9, AltMapped(KEY_9, KEY_F9)),
    Binding(KEY_0, AltMapped(KEY_0, KEY_F10)),
    Binding(KEY_TAB, AltMapped(KEY_TAB, KEY_CAPSLOCK)),
    Binding(KEY_COMMA, AltMapped(KEY_COMMA, KEY_SEMICOLON)),
    Binding(KEY_DOT, AltMapped(KEY_DOT, KEY_SLASH)),
    Binding(KEY_Z, AltMapped(KEY_Z, KEY_EQUAL)),
    Binding(KEY_X, AltMapped(KEY_X, KEY_MINUS)),
    Binding(KEY_C, AltMapped(KEY_C, KEY_LEFTBRACE)),
    Binding(KEY_V, AltMapped(KEY_V, KEY_RIGHTBRACE)),
    Binding(KEY_B, AltMapped(KEY_B, KEY_BACKSLASH)),
    Binding(KEY_N, AltMapped(KEY_N, KEY_GRAVE)),
    Binding(KEY_SPACE, AltMapped(KEY_SPACE, KEY_COMPOSE))]

  /** None of the calls of `init` throws: every key it configures has a slot. */
  lemma InitBindingsInTable()
    ensures InTable(INIT_BINDINGS)
    ensures BindAll(FreshTable(), INIT_BINDINGS).Some?
  {
    assert InTable(INIT_BINDINGS);
    BindAllSpec(FreshTable(), INIT_BINDINGS);
  }

  /** In the table `init` builds, 1 takes F1 while Fn is held and the left meta key
      is the Fn tracker. */
  lemma InitFnBindings()
    ensures BindAll(FreshTable(), INIT_BINDINGS).Some?
    ensures var t := BindAll(FreshTable(), INIT_BINDINGS).value;
      && t[KEY_1] == AltMapped(KEY_1, KEY_F1)
      && t[KEY_LEFTMETA] == Complex(TrackFn)
  {
    InitBindingsInTable();
    BindAllSpec(FreshTable(), INIT_BINDINGS);
    assert INIT_BINDINGS[19] == Binding(KEY_1, AltMapped(KEY_1, KEY_F1));
    LastBindingIs(INIT_BINDINGS, 19);
    assert INIT_BINDINGS[16] == Binding(KEY_LEFTMETA, Complex(TrackFn));
    LastBindingIs(INIT_BINDINGS, 16);
  }
}
