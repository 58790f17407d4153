# pyrainput remapper, modelled in Dafny

`pyrainput.cpp` is a FunKeyMonkey module for the Pyra handheld. It receives the
device's input events and re-emits them on three virtual devices:

- a keyboard, where some keys are remapped and some take an alternative code while Fn is held;
- a gamepad, which gets the d-pad, face and shoulder buttons and the nubs in joystick mode;
- a mouse, which gets the mouse buttons and the nubs in pointer or scroll mode, through a mouse emulator.

Settings come from `config=<path>` on the command line and from a `key = value` configuration file.

The model treats each output device as an append-only log of `(type, code, value)` triples. It is in two layers.

- **Value layer.** Functions state what each operation does to a value:
  - `Text`: the C locale's character classes, `tolower` and `std::stoi`.
  - `PyraSettings`: the settings record and the mode parsers.
  - `PyraConfig`: the line pattern, `SETTING_HANDLERS`, the loop of `loadConfig`, and `handleArgs`.
  - `KeyTable`: the behaviour table and `KeyBehaviors::handle`.
  - `Nub`: the axis and click handlers and one tick of the mouse emulator.
  - `Router`: `handle`. The lemmas about the model are stated on this layer.
- **Object layer (`PyraInput`).** The program's own objects:
  - `Device` holds its log.
  - `Mouse` holds the accumulator fields and a count of `notify_all` calls.
  - `KeyBehaviors` holds an `array` of behaviours.
  - `Global` holds the devices, the table, the settings and the Fn flag.

  Each method changes that state in place, and its `ensures` ties the new state to the value layer.

Constants are those of `linux/input-event-codes.h`. That header is not part of this model, so its values are written out in `InputCodes`.

The two deadzone tests below are inconsistent with each other. The model keeps both as written:

- the nub handler wakes the mouse emulator by testing scroll values against `mouseDeadzone`;
- the emulator's activation test compares the wheel axes with `mouseWheelDeadzone`, but its emission test compares them with `mouseDeadzone`.

`Nub.WheelDeadzoneMismatch` shows the consequence with the default settings.

## Model

| member | source | states |
|---|---|---|
| Text.LowerStr | pyrainput.cpp:392 | the result has the input's length and is the input lowercased character by character, as `tolower` does in the C locale |
| Text.LowerStrIdempotent | pyrainput.cpp:376 | lowercasing an already lowercased string changes nothing |
| Text.Stoi | pyrainput.cpp:330-336 | `std::stoi` as the numeric handlers call it: a value without any digit always throws; `StoiReadsNumber` states in general what it reads |
| Text.StoiReadsNumber | pyrainput.cpp:330-336 | for white space, an optional sign, a nonempty run of digits and text that does not start with a digit, `std::stoi` returns the signed value of the digits when it fits an `int` and throws otherwise |
| Text.StoiIntToString | pyrainput.cpp:330 | `std::stoi` reads back the decimal spelling of every `int` |
| Text.StoiReadsLeadingNumber | pyrainput.cpp:333 | two instances of `StoiReadsNumber`: " 42" is read as 42 and "-7px" as -7 |
| Text.StoiThrows | pyrainput.cpp:336 | `std::stoi` throws for a value without digits and for 2147483648, which is outside `int` |
| PyraSettings.AxisTableMatchesNames | pyrainput.cpp:94-103 | `NUB_AXIS_MODES` maps exactly the eight spellings to their modes, one per known mode |
| PyraSettings.ClickTableMatchesNames | pyrainput.cpp:106-111 | `NUB_CLICK_MODES` maps exactly the four spellings to their modes, one per known mode |
| PyraSettings.ParseNubAxisMode | pyrainput.cpp:390-399 | a known axis mode is returned only for a string whose lowercase form is exactly that mode's spelling |
| PyraSettings.ParseNubClickMode | pyrainput.cpp:401-410 | a known click mode is returned only for a string whose lowercase form is exactly that mode's spelling |
| PyraSettings.ParseNubAxisModeSpec | pyrainput.cpp:390-399 | a string parses to a known axis mode exactly when its lowercase form is that mode's spelling; otherwise it parses to UNKNOWN |
| PyraSettings.ParseNubClickModeSpec | pyrainput.cpp:401-410 | a string parses to a known click mode exactly when its lowercase form is that mode's spelling; otherwise it parses to UNKNOWN |
| PyraSettings.ParsersIgnoreCase | pyrainput.cpp:403 | lowercasing the input first does not change what either parser returns |
| PyraSettings.ParseMixedCase | pyrainput.cpp:392-397 | "Mouse_X" parses to MOUSE_X |
| PyraSettings.ParseKeepsTrailingSpace | pyrainput.cpp:393-395 | the value is not trimmed: "mouse_x " parses to UNKNOWN |
| PyraConfig.SplitSetting | pyrainput.cpp:359-375 | an accepted line yields a `[\w.]+` name that starts the line and a value without line terminators |
| PyraConfig.SplitSettingComplete | pyrainput.cpp:359-375 | every line made of a `[\w.]+` name, white space, `=`, white space and a value without line terminators is split into that name and that value |
| PyraConfig.SplitSettingSound | pyrainput.cpp:359-375 | whatever the splitter accepts is exactly such a line, with the name and value it returns |
| PyraConfig.CarriageReturnLineRejected | pyrainput.cpp:359 | a value followed by `\r` does not match, because `.` excludes line terminators |
| PyraConfig.Assign | pyrainput.cpp:328-356 | no handler writes the configuration file path |
| PyraConfig.StoreSpec | pyrainput.cpp:328-356 | storing a parsed value in a setting makes that setting read back the value and leaves every other setting and the path alone |
| PyraConfig.AssignIsParseThenStore | pyrainput.cpp:328-356 | each handler parses its value (`std::stoi` or a mode parser, per its setting) and stores the result, or throws when `std::stoi` does |
| PyraConfig.AssignSpec | pyrainput.cpp:328-356 | a handler throws exactly when `std::stoi` rejects a numeric value; otherwise it stores the parsed value in its own setting and changes no other setting and not the file path |
| PyraConfig.ApplyLineWithoutEffect | pyrainput.cpp:369-386 | empty, comment and blank lines, invalid lines and lines with an unknown key leave the settings alone and do not throw |
| PyraConfig.ApplyLineDispatch | pyrainput.cpp:373-383 | the key is looked up after lowercasing, and a known key runs its handler on the unmodified value |
| PyraConfig.ClassifySettingLine | pyrainput.cpp:369-376 | a line of the setting shape is neither skipped nor invalid: it assigns its value to its lowercased name |
| PyraConfig.KeyCaseIgnored | pyrainput.cpp:373-383 | a setting line has the same effect and prints the same messages as the same line with its name lowercased |
| PyraConfig.ApplyLine | pyrainput.cpp:368-386 | one line prints at most one message, and a line whose handler throws changes no setting and prints nothing |
| PyraConfig.ApplyLineField | pyrainput.cpp:373-383 | a line that does not throw stores the value it assigns to a setting and leaves every other setting alone |
| PyraConfig.ApplyLines | pyrainput.cpp:368-387 | over any lines, at most one message per line |
| PyraConfig.ApplyLinesSnoc | pyrainput.cpp:368-387 | while nothing has thrown, one more line extends the run by exactly that line's step |
| PyraConfig.AbortIsFinal | pyrainput.cpp:368-383 | once a handler throws, no later line is read and the settings keep the changes made before it |
| PyraConfig.DiagnosticsPerLine | pyrainput.cpp:368-387 | without a throw, the file yields one error per invalid line and one warning per unknown key, in file order, and a bad line does not stop the lines after it |
| PyraConfig.ApplyLinesKeepsConfigFile | pyrainput.cpp:328-356 | reading a file never changes the configuration file path |
| PyraConfig.LastAssignmentWins | pyrainput.cpp:368-387 | without a throw, each setting ends with the value of the last line that names it, and a setting no line names keeps its old value |
| PyraConfig.LoadConfig | pyrainput.cpp:358-388 | the loop over the file's lines computes the settings, messages and throw of the line-by-line specification; a file that cannot be opened, the empty name included, yields one error and no change |
| PyraConfig.LoadConfigFile | pyrainput.cpp:358-388 | a run without messages means the file opened (so its name is not empty), and an opened file gives at most one message per line |
| PyraConfig.LastConfigArg | pyrainput.cpp:313-324 | a path is taken only from some argument of the form `config=<path>`, as the text after `config=` |
| PyraConfig.LastConfigArgIsLast | pyrainput.cpp:317-323 | the path comes from the last argument of the form `config=<path>` |
| PyraConfig.NoConfigArg | pyrainput.cpp:317-323 | no path is taken exactly when no argument has the form `config=<path>` |
| PyraConfig.HandleArgs | pyrainput.cpp:313-324 | the loop sets `configFile` to the path of the last `config=` argument, if there is one, and changes nothing else |
| KeyTable.FreshTable | pyrainput.cpp:34 | every slot of a new table is PASSTHROUGH |
| KeyTable.Bind | pyrainput.cpp:521-549 | a configuration call that does not throw is for a code inside the table and leaves that slot holding the given behaviour |
| KeyTable.BindSpec | pyrainput.cpp:521-549 | a configuration call succeeds exactly for codes in `[KEY_RESERVED, KEY_UNKNOWN]`; it then sets that slot and leaves every other slot as it was |
| KeyTable.BindTwice | pyrainput.cpp:525-537 | last write wins: configuring a slot twice leaves only the second behaviour |
| KeyTable.BindCommutes | pyrainput.cpp:539-549 | configuring two different slots gives the same table in either order |
| KeyTable.Dispatch | pyrainput.cpp:554-571 | per behaviour: at most one keyboard event, none exactly for COMPLEX; gamepad output exactly for GPMAPPED; Fn changes only for COMPLEX |
| KeyTable.HandleKey | pyrainput.cpp:551-572 | at most one keyboard event, and it is a key event carrying the input value |
| KeyTable.OutOfRangeIsNoOp | pyrainput.cpp:552 | a code past `KEY_UNKNOWN` sends nothing and leaves Fn alone |
| KeyTable.FreshSlotPassesThrough | pyrainput.cpp:555-556 | an unconfigured key sends `(EV_KEY, code, value)` to the keyboard unchanged |
| KeyTable.AltMappedReadsFlag | pyrainput.cpp:561-562 | an ALTMAPPED key sends its alternative code while Fn is set at dispatch time and its regular code otherwise, with the event's value |
| KeyTable.FnTracker | pyrainput.cpp:162-164 | the Fn key sends nothing and sets Fn to whether its value is 1, so a release or an auto-repeat clears it |
| KeyTable.GpMappedSendsBoth | pyrainput.cpp:567-570 | a GPMAPPED key sends the key to the keyboard and then the button and a SYN to the gamepad |
| KeyTable.HandleKeyFootprint | pyrainput.cpp:551-572 | for every slot: at most one keyboard event, which is a key event carrying the input's value, and none exactly for the Fn tracker or an out-of-range code; gamepad output exactly for GPMAPPED; Fn changes only through the tracker |
| KeyTable.BindAllSpec | pyrainput.cpp:146-210 | a run of configuration calls succeeds exactly when all their codes have slots, and each slot holds the behaviour of its last call, or its old one |
| KeyTable.InitBindingsInTable | pyrainput.cpp:146-210 | every key `init` configures has a slot, so none of its calls throws |
| KeyTable.LastBindingIs | pyrainput.cpp:146-210 | a binding that no later binding of the same key overrides is that key's last binding |
| KeyTable.InitFnBindings | pyrainput.cpp:162-164 | in the table `init` builds, 1 is ALTMAPPED to F1 and the left meta key is the Fn tracker, which is what `Router.PressReleaseMismatch` and `Router.RepeatClearsFn` require |
| Nub.NubAxis | pyrainput.cpp:412-453 | only a pointer or wheel mode can wake the emulator or change the accumulator, and exactly a joystick mode sends to the gamepad |
| Nub.PointerModeSpec | pyrainput.cpp:414-433 | MOUSE_X/Y and SCROLL_X/Y store the raw value in their own accumulator field only, send nothing, and wake the emulator exactly when the value is beyond ±`mouseDeadzone` |
| Nub.JoystickModeSpec | pyrainput.cpp:434-449 | a joystick mode sends the raw value to its gamepad axis and then a SYN, with no deadzone, independent of the settings, without touching the accumulator |
| Nub.UnknownAxisModeIgnored | pyrainput.cpp:450-451 | an axis with the UNKNOWN mode is ignored |
| Nub.NubClick | pyrainput.cpp:455-480 | a click reaches at most one device, and reaches none exactly for the UNKNOWN mode |
| Nub.NubClickSpec | pyrainput.cpp:455-480 | a click reaches exactly one device, the mouse (BTN_LEFT/BTN_RIGHT) or the gamepad (BTN_THUMBL/BTN_THUMBR), with the event's value and a SYN; UNKNOWN sends nothing |
| Nub.TruncDiv | pyrainput.cpp:488-496 | the C++ quotient is never of the opposite sign to the dividend |
| Nub.TruncDivSpec | pyrainput.cpp:488-496 | the C++ quotient has the dividend's sign and rounds toward zero |
| Nub.TruncDivNegate | pyrainput.cpp:490 | truncating division commutes with negation |
| Nub.MotionSpec | pyrainput.cpp:487-497 | beyond the deadzone the motion is the signed distance past it times `sensitivity`, divided by 1000 and rounded toward zero, for every sensitivity; so it has the direction of the nub for a non-negative sensitivity and the opposite one for a negative sensitivity; inside the deadzone there is no report |
| Nub.Motion | pyrainput.cpp:487-497 | there is a report for a pointer axis exactly when its value is beyond ±`mouseDeadzone` |
| Nub.WheelStep | pyrainput.cpp:499-509 | there is a wheel step exactly beyond ±`mouseDeadzone`, +1 above it and -1 below it |
| Nub.MotionSymmetric | pyrainput.cpp:487-509 | with a non-negative deadzone, reversing the nub reverses the motion and the wheel step |
| Nub.MotionExamples | pyrainput.cpp:488-490 | with sensitivity 40, 1000 past the deadzone gives 40, 999 gives 39, and -999 gives -39; with sensitivity -15, 100 past it gives -1 |
| Nub.TickShape | pyrainput.cpp:484-511 | a tick sends nothing exactly when every axis is within its activating deadzone; otherwise at most four relative events closed by exactly one SYN |
| Nub.TickOrder | pyrainput.cpp:487-509 | the relative events of a tick come in the order REL_X, REL_Y, REL_HWHEEL, REL_WHEEL, each at most once |
| Nub.TickEvents | pyrainput.cpp:484-511 | a tick that sends anything ends with the SYN report |
| Nub.WheelDeadzoneMismatch | pyrainput.cpp:424-503 | with the defaults, scroll 300 wakes the emulator but the tick stays idle, and with the pointer active the same 300 steps the wheel |
| Nub.WheelOnly | pyrainput.cpp:505-509 | past the wheel deadzone the vertical wheel steps opposite to the nub |
| Nub.TicksRepeat | pyrainput.cpp:483-517 | while the nubs do not move, an idle emulator stays silent and an active one repeats the same report on every tick |
| Nub.RepeatSpec | pyrainput.cpp:483-517 | repeated passes of an unchanged report consist of copies of that report, block by block |
| Router.Route | pyrainput.cpp:238-288 | one event only appends to the keyboard, gamepad and mouse logs and signals the emulator at most once |
| Router.OtherTypesIgnored | pyrainput.cpp:278-287 | relative events, like every type other than absolute and key events, change nothing |
| Router.AbsRouting | pyrainput.cpp:240-257 | ABS_X, ABS_Y, ABS_RX and ABS_RY go to the axis handler with the mode of that axis; other absolute codes are ignored |
| Router.MouseButtonsBypass | pyrainput.cpp:260-265 | mouse buttons go to the mouse with a SYN and change nothing else |
| Router.ThumbClickRouting | pyrainput.cpp:266-271 | thumb clicks go to the click handler with the mode of their nub |
| Router.TableKeyRouting | pyrainput.cpp:272-275 | every other key goes through the table and is followed by a keyboard SYN, so a key outside the table yields exactly one SYN |
| Router.GpMappedThroughRouter | pyrainput.cpp:567-570 | a GPMAPPED key appears on the keyboard and on the gamepad, each closed by a SYN |
| Router.RouteAllAppends | pyrainput.cpp:238-288 | the three devices are append-only and the signal count never decreases |
| Router.FnFollowsLastFnEvent | pyrainput.cpp:162-164 | after any events, Fn is set exactly when the last event of the Fn key was a press, and keeps its old value if there was none |
| Router.PressReleaseMismatch | pyrainput.cpp:561-562 | pressing 1, then Fn, then releasing 1 sends 1 down and F1 up, for any table that binds 1 and Fn as `init` does (`KeyTable.InitFnBindings`) |
| Router.RepeatClearsFn | pyrainput.cpp:163 | an auto-repeat of Fn clears the flag, so the next key takes its regular code, for any table that binds 1 and Fn as `init` does (`KeyTable.InitFnBindings`) |
| Router.PointerEndToEnd | pyrainput.cpp:243-245 | a 500 report on the left X axis in MOUSE_X mode with deadzone 20 is stored, wakes the emulator once, and the next tick moves the pointer by 7 |
| PyraInput.Mouse.constructor | pyrainput.cpp:223-228 | the mouse starts centred and unsignalled |
| PyraInput.Mouse.Tick | pyrainput.cpp:484-511 | the tick decides activity as the specification does and appends exactly its events to the mouse device |
| PyraInput.Mouse.SendMotion | pyrainput.cpp:487-497 | one pointer axis appends its motion report, if any |
| PyraInput.Mouse.SendWheel | pyrainput.cpp:499-509 | one wheel axis appends its step, inverted for the vertical wheel |
| PyraInput.HandleNubAxis | pyrainput.cpp:412-453 | the accumulator, the gamepad log and the signal count change as the axis specification says |
| PyraInput.HandleNubClick | pyrainput.cpp:455-480 | the mouse and gamepad logs grow by what the click specification says |
| PyraInput.KeyBehaviors.constructor | pyrainput.cpp:33-44 | the array has one PASSTHROUGH slot per key |
| PyraInput.KeyBehaviors.Configure | pyrainput.cpp:522 | `at` plus an update: the table becomes the specification's update, or stays the same when `at` throws |
| PyraInput.KeyBehaviors.Passthrough | pyrainput.cpp:521-523 | `passthrough` sets that slot to PASSTHROUGH |
| PyraInput.KeyBehaviors.Map | pyrainput.cpp:525-529 | `map` sets that slot to MAPPED with its result code |
| PyraInput.KeyBehaviors.AltMap | pyrainput.cpp:531-537 | `altmap` sets that slot to ALTMAPPED with its regular and alternative codes |
| PyraInput.KeyBehaviors.Complex | pyrainput.cpp:539-543 | `complex` sets that slot to COMPLEX with its action |
| PyraInput.KeyBehaviors.GpMap | pyrainput.cpp:545-549 | `gpmap` sets that slot to GPMAPPED with its button |
| PyraInput.KeyBehaviors.Handle | pyrainput.cpp:551-572 | the keyboard log, the gamepad log and the Fn flag change exactly as the handling specification says, and the settings do not change |
| PyraInput.Global.Init | pyrainput.cpp:135-236 | all devices start empty and Fn is released; the table holds the `init` bindings; the settings come from the arguments and, when they name a file, from that file |
| PyraInput.Global.Handle | pyrainput.cpp:238-288 | the state after one event is the router specification applied to the state before it; the settings do not change |
| PyraInput.Global.Reload | pyrainput.cpp:307-309 | `user1` reads the current configuration file again on top of the current settings and appends its messages |

## Left out

- Threads, the mutex, the condition variable, `sleep_for`, the stop flag, `destroy` and its `join` are not modelled. `notify_all` is a ghost count of signals on `Mouse`. A tick reads the accumulator and settings as one snapshot, although in the program another thread may change them mid-tick.
- The loop of `handleMouse` is not modelled as a running loop, and neither are its wait and its final `delete`. `Mouse.Tick` is one pass of it, and `Nub.Ticks` is the events of repeated passes.
- `UinputDevice` construction, the `/dev/uinput` device, the capability lists of the three devices and `delete` are not modelled. `uinputdevice.h` is not part of this model. A device is only its log.
- The logs are kept per device. The interleaving of events across devices is not recorded.
- `user2` does nothing and has no model.
- File I/O: the file system is a map from a name to the file's lines. `std::ifstream` and `getline` are reduced to "the name is not empty and is in the map" and "these lines".
- Printing to `std::cout` and `std::cerr` becomes a list of `Diagnostic` values. The message text is not modelled.
- An exception from `std::stoi` ends `loadConfig`, and the model records it (`threw`). The settings changed before it are kept. What the host does when the exception leaves `init` or `user1` is not modelled.
- `std::regex` is replaced by hand-written matchers for the three patterns used: `IsConfigArg` for `config=(.*)` (pyrainput.cpp:315), `SplitSetting` for the setting-line pattern (pyrainput.cpp:359) and `IsIgnorable` for `^\s*$` (pyrainput.cpp:360). Only `SplitSetting` is proved equivalent to the shape its pattern describes (`SplitSettingComplete`, `SplitSettingSound`); the other two are short enough to be read against their patterns. `\w` is the ASCII word class.
- Integer overflow is not modelled. `(dx - dz) * sens` and `-mouseDeadzone` are undefined behaviour in C++ when they overflow `int`; the model computes them on unbounded integers.
- `KeyBehavior` is a tagged variant that holds only the fields its tag reads. The C++ record also keeps stale fields from earlier calls and uninitialised `alternative` and `flag` fields, which `handle` never reads.
- PyraInput.KeyBehaviors.AltMap: takes no flag pointer. Every ALTMAPPED slot reads the global Fn flag, the only flag `init` passes.
- PyraInput.KeyBehaviors.Complex: takes an action tag instead of a `std::function`. The only closure in the program is the Fn tracker.
- Key codes in behaviours and event values are unbounded integers. Input events carry the kernel's 16-bit type and code and 32-bit value.
- Dafny strings of `char` stand for the byte strings of `std::string`. Every character class, `tolower` and every literal involved is ASCII, so nothing depends on the difference.
