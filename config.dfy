/** Reading settings: the `config=<path>` command-line argument, and the
    line-oriented configuration file whose `key = value` lines go through the
    `SETTING_HANDLERS` table. */
module PyraConfig {
  import opened Text
  import opened PyraSettings

  // ---------------------------------------------------------------------------
  // The line pattern ^([\w.]+)\s*=\s*(.*)$
  // ---------------------------------------------------------------------------

  predicate IsKey(k: string)
  {
    |k| > 0 && forall i :: 0 <= i < |k| ==> IsKeyChar(k[i])
  }

  predicate AllSpace(s: string)
  {
    forall i :: 0 <= i < |s| ==> IsSpace(s[i])
  }

  /** `std::regex_match(line, match, re)` for the setting pattern, returning the two
      captures. The name is the maximal run of `[\w.]` at the start of the line, then
      optional white space and `=`; the greedy `\s*` after `=` leaves the value without
      leading white space, and `.*$` fails when the rest holds a line terminator. */
  function SplitSetting(line: string): (r: Option<(string, string)>)
    ensures r.Some? ==> IsKey(r.value.0) && |r.value.0| <= |line| && r.value.0 == line[..|r.value.0|]
    ensures r.Some? ==> NoLineTerminator(r.value.1)
  {
    var k := Span(line, IsKeyChar);
    if k == 0 then None else SplitAfterKey(line[..k], line[k..])
  }

  /** The part of the pattern after the name: `\s*=` and then the value. */
  function SplitAfterKey(key: string, tail: string): (r: Option<(string, string)>)
    ensures r.Some? ==> r.value.0 == key && NoLineTerminator(r.value.1)
  {
    var fromEq := tail[Span(tail, IsSpace)..];
    if fromEq != [] && fromEq[0] == '=' then SplitValue(key, fromEq[1..]) else None
  }

  /** The part of the pattern after `=`: `\s*(.*)$`. */
  function SplitValue(key: string, rest: string): (r: Option<(string, string)>)
    ensures r.Some? ==> r.value.0 == key && NoLineTerminator(r.value.1)
  {
    var value := rest[Span(rest, IsSpace)..];
    if NoLineTerminator(value) then Some((key, value)) else None
  }

  /** `line` is `key`, white space, `=`, white space and `value`, where `value` is
      what the pattern's second group captures. */
  ghost predicate SettingShape(line: string, key: string, ws1: string, ws2: string, value: string)
  {
    && IsKey(key) && AllSpace(ws1) && AllSpace(ws2)
    && NoLineTerminator(value) && (value != [] ==> !IsSpace(value[0]))
    && line == key + (ws1 + ("=" + (ws2 + value)))
  }

  /** Splitting `a + b` after its first `|a|` characters gives back `a` and `b`. */
  lemma ConcatParts(a: string, b: string)
    ensures (a + b)[..|a|] == a && (a + b)[|a|..] == b
  {
  }

  /** Every line of the setting shape is split into its name and value. */
  lemma SplitSettingComplete(key: string, ws1: string, ws2: string, value: string)
    requires SettingShape(key + (ws1 + ("=" + (ws2 + value))), key, ws1, ws2, value)
    ensures SplitSetting(key + (ws1 + ("=" + (ws2 + value)))) == Some((key, value))
  {
    var rest := ws2 + value;
    var fromEq := "=" + rest;
    var afterKey := ws1 + fromEq;
    assert afterKey[0] == if ws1 == [] then '=' else ws1[0];
    SpanOfConcat(key, afterKey, IsKeyChar);
    ConcatParts(key, afterKey);
    SpanOfConcat(ws1, fromEq, IsSpace);
    ConcatParts(ws1, fromEq);
    assert fromEq[1..] == rest;
    SpanOfConcat(ws2, value, IsSpace);
    ConcatParts(ws2, value);
    assert SplitValue(key, rest) == Some((key, value));
    assert SplitAfterKey(key, afterKey) == Some((key, value));
  }

  /** What `SplitValue` accepts is white space followed by the value it returns. */
  lemma SplitValueSound(key: string, rest: string) returns (ws2: string)
    requires SplitValue(key, rest).Some?
    ensures var (k, value) := SplitValue(key, rest).value;
      && k == key && AllSpace(ws2) && rest == ws2 + value
      && NoLineTerminator(value) && (value != [] ==> !IsSpace(value[0]))
  {
    var m := Span(rest, IsSpace);
    ws2 := rest[..m];
    assert rest == ws2 + rest[m..];
  }

  /** What `SplitAfterKey` accepts is white space, `=` and then what `SplitValue` accepts. */
  lemma SplitAfterKeySound(key: string, tail: string) returns (ws1: string, rest: string)
    requires SplitAfterKey(key, tail).Some?
    ensures AllSpace(ws1) && tail == ws1 + ("=" + rest)
    ensures SplitValue(key, rest) == SplitAfterKey(key, tail)
  {
    var w := Span(tail, IsSpace);
    var fromEq := tail[w..];
    assert fromEq != [] && fromEq[0] == '=';
    ws1, rest := tail[..w], fromEq[1..];
    assert fromEq == "=" + rest;
    assert tail == ws1 + fromEq;
  }

  /** Whatever the splitter accepts has the setting shape, with the name and value it returns. */
  lemma SplitSettingSound(line: string) returns (ws1: string, ws2: string)
    requires SplitSetting(line).Some?
    ensures SettingShape(line, SplitSetting(line).value.0, ws1, ws2, SplitSetting(line).value.1)
  {
    var k := Span(line, IsKeyChar);
    var key, tail := line[..k], line[k..];
    assert line == key + tail;
    var rest;
    ws1, rest := SplitAfterKeySound(key, tail);
    ws2 := SplitValueSound(key, rest);
  }

  /** A line ending in a carriage return after its value, as every setting line of a
      file with DOS line endings does, is not a setting line: `.` does not match `\r`. */
  lemma CarriageReturnLineRejected()
    ensures SplitSetting("x=1\r") == None
  {
    var line := "x=1\r";
    assert Span(line[1..], IsKeyChar) == 0;
    assert Span(line, IsKeyChar) == 1;
    var tail := line[1..];
    assert tail == "=1\r";
    assert Span(tail, IsSpace) == 0;
    assert tail[0..] == tail;
    var rest := tail[1..];
    assert rest == "1\r";
    assert Span(rest, IsSpace) == 0;
    assert rest[0..] == rest && IsLineTerminator(rest[1]);
  }

  // ---------------------------------------------------------------------------
  // SETTING_HANDLERS
  // ---------------------------------------------------------------------------

  /** The setting each entry of `SETTING_HANDLERS` writes. */
  datatype Field =
    | MouseSensitivity | MouseDeadzone | MouseWheelDeadzone
    | LeftNubX | LeftNubY | RightNubX | RightNubY
    | LeftNubClick | RightNubClick

  /** `SETTING_HANDLERS`, with each closure replaced by the field it writes. */
  const SETTING_HANDLERS: map<string, Field> := map[
    "mouse.sensitivity" := MouseSensitivity,
    "mouse.deadzone" := MouseDeadzone,
    "mouse.wheel.deadzone" := MouseWheelDeadzone,
    "nubs.left.x" := LeftNubX,
    "nubs.left.y" := LeftNubY,
    "nubs.right.x" := RightNubX,
    "nubs.right.y" := RightNubY,
    "nubs.left.click" := LeftNubClick,
    "nubs.right.click" := RightNubClick]

  /** The outcome of one handler: the updated settings, or the exception `std::stoi` throws. */
  datatype Assigned = Stored(settings: Settings) | StoiThrew

  /** The body of the handler for field `f`, applied to `value`. */
  function Assign(f: Field, value: string, s: Settings): (r: Assigned)
    ensures r.Stored? ==> r.settings.configFile == s.configFile
  {
    match f
    case MouseSensitivity =>
      (match Stoi(value) case Some(n) => Stored(s.(mouseSensitivity := n)) case None => StoiThrew)
    case MouseDeadzone =>
      (match Stoi(value) case Some(n) => Stored(s.(mouseDeadzone := n)) case None => StoiThrew)
    case MouseWheelDeadzone =>
      (match Stoi(value) case Some(n) => Stored(s.(mouseWheelDeadzone := n)) case None => StoiThrew)
    case LeftNubX => Stored(s.(leftNubModeX := ParseNubAxisMode(value)))
    case LeftNubY => Stored(s.(leftNubModeY := ParseNubAxisMode(value)))
    case RightNubX => Stored(s.(rightNubModeX := ParseNubAxisMode(value)))
    case RightNubY => Stored(s.(rightNubModeY := ParseNubAxisMode(value)))
    case LeftNubClick => Stored(s.(leftNubClickMode := ParseNubClickMode(value)))
    case RightNubClick => Stored(s.(rightNubClickMode := ParseNubClickMode(value)))
  }

  /** The value of one configurable setting, whatever its kind. */
  datatype FieldValue = IntValue(n: int) | AxisValue(axis: NubAxisMode) | ClickValue(click: NubClickMode)

  function Get(s: Settings, f: Field): FieldValue
  {
    match f
    case MouseSensitivity => IntValue(s.mouseSensitivity)
    case MouseDeadzone => IntValue(s.mouseDeadzone)
    case MouseWheelDeadzone => IntValue(s.mouseWheelDeadzone)
    case LeftNubX => AxisValue(s.leftNubModeX)
    case LeftNubY => AxisValue(s.leftNubModeY)
    case RightNubX => AxisValue(s.rightNubModeX)
    case RightNubY => AxisValue(s.rightNubModeY)
    case LeftNubClick => ClickValue(s.leftNubClickMode)
    case RightNubClick => ClickValue(s.rightNubClickMode)
  }

  /** What a value string means for a setting of `f`'s kind: a number read by
      `std::stoi` (`None` when it throws) or a mode read by the mode parsers. */
  function Parsed(f: Field, value: string): Option<FieldValue>
  {
    if f == MouseSensitivity || f == MouseDeadzone || f == MouseWheelDeadzone then
      (match Stoi(value) case Some(n) => Some(IntValue(n)) case None => None)
    else if f == LeftNubClick || f == RightNubClick then
      Some(ClickValue(ParseNubClickMode(value)))
    else
      Some(AxisValue(ParseNubAxisMode(value)))
  }

  predicate FitsField(f: Field, v: FieldValue)
  {
    match f
    case MouseSensitivity | MouseDeadzone | MouseWheelDeadzone => v.IntValue? && -0x8000_0000 <= v.n < 0x8000_0000
    case LeftNubX | LeftNubY | RightNubX | RightNubY => v.AxisValue?
    case LeftNubClick | RightNubClick => v.ClickValue?
  }

  /** Storing a value of the right kind in field `f`. */
  function Store(f: Field, v: FieldValue, s: Settings): Settings
    requires FitsField(f, v)
  {
    match f
    case MouseSensitivity => s.(mouseSensitivity := v.n)
    case MouseDeadzone => s.(mouseDeadzone := v.n)
    case MouseWheelDeadzone => s.(mouseWheelDeadzone := v.n)
    case LeftNubX => s.(leftNubModeX := v.axis)
    case LeftNubY => s.(leftNubModeY := v.axis)
    case RightNubX => s.(rightNubModeX := v.axis)
    case RightNubY => s.(rightNubModeY := v.axis)
    case LeftNubClick => s.(leftNubClickMode := v.click)
    case RightNubClick => s.(rightNubClickMode := v.click)
  }

  /** A stored value is read back from its field, and only that field changes. */
  lemma StoreSpec(f: Field, v: FieldValue, s: Settings)
    requires FitsField(f, v)
    ensures Get(Store(f, v, s), f) == v
    ensures forall g :: g != f ==> Get(Store(f, v, s), g) == Get(s, g)
    ensures Store(f, v, s).configFile == s.configFile
  {
  }

  /** Each handler parses its value and stores the result, or throws. */
  lemma AssignIsParseThenStore(f: Field, value: string, s: Settings)
    ensures match Parsed(f, value)
      case None => Assign(f, value, s) == StoiThrew
      case Some(v) => FitsField(f, v) && Assign(f, value, s) == Stored(Store(f, v, s))
  {
    match f
    case MouseSensitivity =>
    case MouseDeadzone =>
    case MouseWheelDeadzone =>
    case LeftNubX =>
    case LeftNubY =>
    case RightNubX =>
    case RightNubY =>
    case LeftNubClick =>
    case RightNubClick =>
  }

  /** A handler throws exactly when `std::stoi` rejects a numeric value; otherwise it
      stores the parsed value in its own field and leaves every other setting,
      the file path included, as it was. */
  lemma AssignSpec(f: Field, value: string, s: Settings)
    ensures Assign(f, value, s).StoiThrew? <==> Parsed(f, value).None?
    ensures Assign(f, value, s).Stored? ==>
      var t := Assign(f, value, s).settings;
      && Some(Get(t, f)) == Parsed(f, value)
      && (forall g :: g != f ==> Get(t, g) == Get(s, g))
      && t.configFile == s.configFile
  {
    AssignIsParseThenStore(f, value, s);
    if Parsed(f, value).Some? {
      StoreSpec(f, Parsed(f, value).value, s);
    }
  }

  // ---------------------------------------------------------------------------
  // Lines of the configuration file
  // ---------------------------------------------------------------------------

  /** The messages `loadConfig` prints. */
  datatype Diagnostic = CouldNotOpen(file: string) | UnknownSetting(key: string) | InvalidLine(line: string)

  /** How `loadConfig` treats a line: skipped, a `key = value` setting (key lowercased), or invalid. */
  datatype LineKind = Ignored | Assignment(key: string, value: string) | Malformed

  /** Empty lines, comments and lines matching `^\s*$`. */
  predicate IsIgnorable(line: string)
  {
    line == [] || line[0] == '#' || Span(line, IsSpace) == |line|
  }

  function ClassifyLine(line: string): LineKind
  {
    if IsIgnorable(line) then Ignored
    else
      match SplitSetting(line)
      case Some((key, value)) => Assignment(LowerStr(key), value)
      case None => Malformed
  }

  /** The settings after some lines, the messages printed so far, and whether a
      handler threw (which ends `loadConfig` at that line). */
  datatype Loaded = Loaded(settings: Settings, diagnostics: seq<Diagnostic>, aborted: bool)

  /** One iteration of the loop of `loadConfig`. */
  function ApplyLine(s: Settings, line: string): (r: Loaded)
    ensures |r.diagnostics| <= 1
    ensures r.aborted ==> r.settings == s && r.diagnostics == []
  {
    match ClassifyLine(line)
    case Ignored => Loaded(s, [], false)
    case Malformed => Loaded(s, [InvalidLine(line)], false)
    case Assignment(key, value) =>
      if key !in SETTING_HANDLERS then Loaded(s, [UnknownSetting(key)], false)
      else
        match Assign(SETTING_HANDLERS[key], value, s)
        case Stored(t) => Loaded(t, [], false)
        case StoiThrew => Loaded(s, [], true)
  }

  /** The loop of `loadConfig` over `lines`, stopping at the first line whose handler throws. */
  function ApplyLines(s: Settings, lines: seq<string>): (r: Loaded)
    ensures |r.diagnostics| <= |lines|
  {
    if lines == [] then Loaded(s, [], false)
    else
      var before := ApplyLines(s, lines[..|lines| - 1]);
      if before.aborted then before
      else
        var step := ApplyLine(before.settings, lines[|lines| - 1]);
        Loaded(step.settings, before.diagnostics + step.diagnostics, step.aborted)
  }

  /** `loadConfig(filename, settings)`, with the file system given as the lines of each
      file that can be opened. An empty name never opens. */
  function LoadConfigFile(filename: string, fs: map<string, seq<string>>, s: Settings): (r: Loaded)
    ensures r.diagnostics == [] ==> filename != "" && filename in fs
    ensures filename != "" && filename in fs ==> |r.diagnostics| <= |fs[filename]|
  {
    if filename != "" && filename in fs then ApplyLines(s, fs[filename])
    else Loaded(s, [CouldNotOpen(filename)], false)
  }

  /** Once a handler has thrown, later lines are never read. */
  lemma {:induction false} AbortIsFinal(s: Settings, lines: seq<string>, n: nat)
    requires n <= |lines|
    requires ApplyLines(s, lines[..n]).aborted
    ensures ApplyLines(s, lines) == ApplyLines(s, lines[..n])
  {
    if n < |lines| {
      var prefix := lines[..|lines| - 1];
      assert prefix[..n] == lines[..n];
      AbortIsFinal(s, prefix, n);
    } else {
      assert lines[..n] == lines;
    }
  }

  /** Skipped lines, lines with an unknown key and invalid lines leave the settings alone. */
  lemma ApplyLineWithoutEffect(s: Settings, line: string)
    requires IsIgnorable(line) || ClassifyLine(line).Malformed? ||
             (ClassifyLine(line).Assignment? && ClassifyLine(line).key !in SETTING_HANDLERS)
    ensures ApplyLine(s, line).settings == s && !ApplyLine(s, line).aborted
  {
  }

  /** The name is matched case-insensitively: a line whose name lowercases to a key of
      `SETTING_HANDLERS` runs that key's handler on the unmodified value. */
  lemma ApplyLineDispatch(s: Settings, line: string, key: string, value: string)
    requires !IsIgnorable(line)
    requires SplitSetting(line) == Some((key, value))
    requires LowerStr(key) in SETTING_HANDLERS
    ensures ApplyLine(s, line) ==
      match Assign(SETTING_HANDLERS[LowerStr(key)], value, s)
      case Stored(t) => Loaded(t, [], false)
      case StoiThrew => Loaded(s, [], true)
  {
  }

  /** A line of the setting shape is an assignment of its value to its lowercased name. */
  lemma ClassifySettingLine(key: string, ws1: string, ws2: string, value: string)
    requires SettingShape(key + (ws1 + ("=" + (ws2 + value))), key, ws1, ws2, value)
    ensures ClassifyLine(key + (ws1 + ("=" + (ws2 + value)))) == Assignment(LowerStr(key), value)
  {
    var line := key + (ws1 + ("=" + (ws2 + value)));
    SplitSettingComplete(key, ws1, ws2, value);
    assert line[0] == key[0] && IsKeyChar(key[0]);
    assert !IsIgnorable(line);
  }

  /** Lowercasing keeps a name a name. */
  lemma LowerKey(key: string)
    requires IsKey(key)
    ensures IsKey(LowerStr(key))
  {
    var lower := LowerStr(key);
    forall i | 0 <= i < |lower| ensures IsKeyChar(lower[i]) {
      assert IsKeyChar(key[i]);
    }
  }

  /** The setting name may be written in any case: a setting line has the same effect
      and prints the same messages as the line with its name lowercased. */
  lemma KeyCaseIgnored(s: Settings, key: string, ws1: string, ws2: string, value: string)
    requires SettingShape(key + (ws1 + ("=" + (ws2 + value))), key, ws1, ws2, value)
    ensures ApplyLine(s, key + (ws1 + ("=" + (ws2 + value)))) ==
            ApplyLine(s, LowerStr(key) + (ws1 + ("=" + (ws2 + value))))
  {
    LowerKey(key);
    ClassifySettingLine(key, ws1, ws2, value);
    ClassifySettingLine(LowerStr(key), ws1, ws2, value);
    LowerStrIdempotent(key);
  }

  /** The messages a line prints, which never depend on the settings. */
  function LineDiagnostics(line: string): seq<Diagnostic>
  {
    match ClassifyLine(line)
    case Malformed => [InvalidLine(line)]
    case Assignment(key, _) => if key in SETTING_HANDLERS then [] else [UnknownSetting(key)]
    case Ignored => []
  }

  function AllDiagnostics(lines: seq<string>): seq<Diagnostic>
  {
    if lines == [] then [] else AllDiagnostics(lines[..|lines| - 1]) + LineDiagnostics(lines[|lines| - 1])
  }

  /** Unless a handler throws, reading a file prints one error per invalid line and one
      warning per unknown key, in file order, and nothing else: a bad line never stops
      the lines after it from being applied. */
  lemma {:induction false} DiagnosticsPerLine(s: Settings, lines: seq<string>)
    requires !ApplyLines(s, lines).aborted
    ensures ApplyLines(s, lines).diagnostics == AllDiagnostics(lines)
  {
    if lines != [] {
      DiagnosticsPerLine(s, lines[..|lines| - 1]);
    }
  }

  /** Reading a file never changes the configuration file path. */
  lemma {:induction false} ApplyLinesKeepsConfigFile(s: Settings, lines: seq<string>)
    ensures ApplyLines(s, lines).settings.configFile == s.configFile
  {
    if lines != [] {
      var before := ApplyLines(s, lines[..|lines| - 1]);
      ApplyLinesKeepsConfigFile(s, lines[..|lines| - 1]);
      match ClassifyLine(lines[|lines| - 1])
      case Assignment(key, value) =>
        if key in SETTING_HANDLERS {
          AssignSpec(SETTING_HANDLERS[key], value, before.settings);
        }
      case _ =>
    }
  }

  /** The value text a line assigns to field `f`, if it is a setting line for `f`. */
  function LineAssigns(line: string, f: Field): Option<string>
  {
    match ClassifyLine(line)
    case Assignment(key, value) =>
      if key in SETTING_HANDLERS && SETTING_HANDLERS[key] == f then Some(value) else None
    case _ => None
  }

  /** The value text of the last line of `lines` that assigns field `f`, if any. */
  function LastAssignment(lines: seq<string>, f: Field): Option<string>
  {
    if lines == [] then None
    else
      var v := LineAssigns(lines[|lines| - 1], f);
      if v.Some? then v else LastAssignment(lines[..|lines| - 1], f)
  }

  /** A line that does not throw stores the value it assigns to `f`, if any, and
      otherwise leaves `f` alone. */
  lemma ApplyLineField(t: Settings, line: string, f: Field)
    requires !ApplyLine(t, line).aborted
    ensures match LineAssigns(line, f)
      case None => Get(ApplyLine(t, line).settings, f) == Get(t, f)
      case Some(v) => Parsed(f, v) == Some(Get(ApplyLine(t, line).settings, f))
  {
    match ClassifyLine(line)
    case Assignment(key, value) =>
      if key in SETTING_HANDLERS {
        AssignSpec(SETTING_HANDLERS[key], value, t);
      }
    case _ =>
  }

  /** Last write wins: when no handler throws, each setting ends with the value of the
      last line that names it, and a setting no line names keeps its old value. */
  lemma {:induction false} LastAssignmentWins(s: Settings, lines: seq<string>, f: Field)
    requires !ApplyLines(s, lines).aborted
    ensures match LastAssignment(lines, f)
      case None => Get(ApplyLines(s, lines).settings, f) == Get(s, f)
      case Some(v) => Parsed(f, v) == Some(Get(ApplyLines(s, lines).settings, f))
  {
    if lines != [] {
      var prefix := lines[..|lines| - 1];
      var before := ApplyLines(s, prefix);
      assert !before.aborted;
      LastAssignmentWins(s, prefix, f);
      var step := ApplyLine(before.settings, lines[|lines| - 1]);
      assert ApplyLines(s, lines).settings == step.settings;
      ApplyLineField(before.settings, lines[|lines| - 1], f);
    }
  }

  /** One more line extends the run by that line's step. */
  lemma ApplyLinesSnoc(s: Settings, lines: seq<string>, i: nat)
    requires i < |lines| && !ApplyLines(s, lines[..i]).aborted
    ensures var before := ApplyLines(s, lines[..i]);
      var step := ApplyLine(before.settings, lines[i]);
      ApplyLines(s, lines[..i + 1]) == Loaded(step.settings, before.diagnostics + step.diagnostics, step.aborted)
  {
    assert lines[..i + 1][..i] == lines[..i];
  }

  /** `loadConfig` as written: the same loop over the lines, updating the settings in place. */
  method LoadConfig(filename: string, fs: map<string, seq<string>>, s: Settings)
    returns (r: Settings, diagnostics: seq<Diagnostic>, aborted: bool)
    ensures Loaded(r, diagnostics, aborted) == LoadConfigFile(filename, fs, s)
  {
    if filename == "" || filename !in fs {
      return s, [CouldNotOpen(filename)], false;
    }
    var lines := fs[filename];
    r, diagnostics, aborted := s, [], false;
    var i := 0;
    while i < |lines| && !aborted
      invariant 0 <= i <= |lines|
      invariant Loaded(r, diagnostics, aborted) == ApplyLines(s, lines[..i])
    {
      var line := lines[i];
      ApplyLinesSnoc(s, lines, i);
      ghost var step := ApplyLine(r, line);
      ghost var before := diagnostics;
      if !(line == [] || line[0] == '#' || Span(line, IsSpace) == |line|) {
        match SplitSetting(line) {
          case Some((name, value)) =>
            var key := LowerStr(name);
            if key !in SETTING_HANDLERS {
              diagnostics := diagnostics + [UnknownSetting(key)];
            } else {
              match Assign(SETTING_HANDLERS[key], value, r) {
                case Stored(t) => r := t;
                case StoiThrew => aborted := true;
              }
            }
          case None =>
            diagnostics := diagnostics + [InvalidLine(line)];
        }
      }
      assert Loaded(r, diagnostics, aborted) == Loaded(step.settings, before + step.diagnostics, step.aborted);
      i := i + 1;
    }
    if aborted {
      AbortIsFinal(s, lines, i);
    } else {
      assert lines[..i] == lines;
    }
  }

  // ---------------------------------------------------------------------------
  // Command-line arguments
  // ---------------------------------------------------------------------------

  /** `std::regex_match(arg, match, std::regex("config=(.*)"))`. */
  predicate IsConfigArg(arg: string)
  {
    |arg| >= 7 && arg[..7] == "config=" && NoLineTerminator(arg[7..])
  }

  /** The path of the last `config=` argument, if there is one. */
  function LastConfigArg(args: seq<string>): (r: Option<string>)
    ensures r.Some? ==> exists j :: 0 <= j < |args| && IsConfigArg(args[j]) && r.value == args[j][7..]
  {
    if args == [] then None
    else if IsConfigArg(args[|args| - 1]) then Some(args[|args| - 1][7..])
    else LastConfigArg(args[..|args| - 1])
  }

  /** The path comes from the last argument of the form `config=<path>`. */
  lemma {:induction false} LastConfigArgIsLast(args: seq<string>, j: nat)
    requires j < |args| && IsConfigArg(args[j])
    requires forall k :: j < k < |args| ==> !IsConfigArg(args[k])
    ensures LastConfigArg(args) == Some(args[j][7..])
  {
    if j < |args| - 1 {
      var prefix := args[..|args| - 1];
      assert forall k :: j < k < |prefix| ==> prefix[k] == args[k];
      LastConfigArgIsLast(prefix, j);
    }
  }

  /** Without a `config=` argument no path is taken. */
  lemma {:induction false} NoConfigArg(args: seq<string>)
    ensures LastConfigArg(args) == None <==> forall k :: 0 <= k < |args| ==> !IsConfigArg(args[k])
  {
    if args != [] {
      var prefix := args[..|args| - 1];
      NoConfigArg(prefix);
      assert forall k :: 0 <= k < |prefix| ==> prefix[k] == args[k];
    }
  }

  /** `handleArgs`: every `config=` argument overwrites the path, so the last one wins,
      and no other setting changes. */
  method HandleArgs(args: seq<string>, s: Settings) returns (r: Settings)
    ensures r == match LastConfigArg(args) case Some(path) => s.(configFile := path) case None => s
  {
    r := s;
    for i := 0 to |args|
      invariant r == match LastConfigArg(args[..i]) case Some(path) => s.(configFile := path) case None => s
    {
      assert args[..i + 1][..i] == args[..i];
      var arg := args[i];
      if |arg| >= 7 && arg[..7] == "config=" && NoLineTerminator(arg[7..]) {
        r := r.(configFile := arg[7..]);
      }
    }
    assert args[..|args|] == args;
  }
}
