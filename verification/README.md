# MacroPad runtime engine, modelled in Dafny

MacroPad takes over an input device. Each hardware key event is looked up in a
layered binding table, and the bound action fires: inject a key, launch a
shell command, or switch layer. This project models the runtime engine of
`macropad.py` as pure functions and proves properties of the model. The
engine has three parts:

- **The configuration loader (`loadConfig`).** It is a line-by-line state
  machine over three registers: the selected device, the selected key and the
  selected layer. The first content line names the device. The next one names
  a key. Indented lines `<EVENT> <action> <args>` bind that key. `layer <name>`
  lines switch the layer being configured. A blank or unindented line pops one
  level. Loading either yields the device, the binding table and the bind
  count, or fails before any device is opened (`Config.Parse`, and the loop as
  written, `Config.LoadConfig`).
- **The binding table (`assignKey`).** It maps layer → key → key state → one
  action. Binding a triple twice is refused (`Bindings.AssignKey`).
- **The dispatcher (`handleKey`, `setLayer`, the layer effect of
  `runCommand`).** It is a step function from (state, event, time) to (state,
  fired action). The read loop of `main` is a fold over events
  (`Dispatch.HandleKey`, `Dispatch.Replay`).

Modules: `Results` holds Option and Result. `Text` holds the Python string
operations the loader uses. `Bindings`, `Config` and `Dispatch` hold the three
parts above.

Callbacks are modelled as the tagged value `Action = Key(code) | Run(command) |
Layer(name)`, not as closures. The constants `KEY_UP = 0`, `KEY_DOWN = 1` and
`KEY_HOLD = 2` are `KeyState.Value`. `KEYEVENT_REMAP` is `Bindings.KeyEventRemap`.
The set of valid key codes (`evdev.ecodes.keys.values()`) is the parameter
`valid`. The global `DEBUG` is the parameter `debug`. `time.time()` is the
parameter `now`.

The model follows `macropad.py` as written. Its grammar is indentation
driven. Each (layer, key, state) triple holds one action, and `assignKey`
raises on a second bind for the same triple.

Once the file is open, `loadConfig` can stop in five ways without calling
`main`. The model treats each one as an error result, not as a precondition:

- Three diagnosed errors print a message with the line number and return
  normally: a missing layer name (lines 72-75), an unknown event (lines
  97-100) and an unknown key code (lines 114-117). In the model these are
  `MissingLayerName`, `UnknownEvent` and `UnknownKeycode`.
- Two exceptions escape `loadConfig`: the `IndexError` of a `key` bind
  without a key code (line 110, `MissingKeycode`) and the exception
  `assignKey` raises for a duplicate triple (line 174, `DuplicateBind`).
  Nothing catches them, so the program ends with a traceback.

Outside debug mode, `handleKey` raises a `KeyError` when the current layer is
missing from the table. In debug mode it takes the printing branch (line 156)
and never looks at the table. The `KeyError` is also modelled as an error
result. `main` catches the error and
leaves the read loop (see Findings).

## Model

| member | source | states |
|---|---|---|
| Text.RStrip | macropad.py:45 | the result is a prefix of the line, does not end in white space, and only white space was removed |
| Text.LStrip | macropad.py:59 | the result is a suffix of the line, does not start with white space, and only white space was removed |
| Text.Split | macropad.py:69 | `split(' ')` yields at least one piece, and no piece contains a space. Re-joining the pieces with single spaces gives back the input. There are two or more pieces exactly when the input contains a space |
| Text.Partition | macropad.py:93 | `partition(' ')` gives an event part without spaces. When the line has a space, the line is event + space + rest. Otherwise the rest is empty |
| Text.JoinTailIsRest | macropad.py:77 | `' '.join(split(' ')[1:])` is exactly the text after the first space, runs of spaces kept (used for layer names, commands and layer targets) |
| Bindings.KeyEventRemapValues | macropad.py:13-25 | the event names map to the key states whose constants are `ON_PRESS` → 1 (`KEY_DOWN`), `ON_RELEASE` → 0 (`KEY_UP`) and `ON_HOLD` → 2 (`KEY_HOLD`). Distinct states have distinct constants |
| Bindings.AssignKey | macropad.py:168-178 | fails exactly when the triple is already bound, and then with that state and key. On success the triple is bound to the action, every other triple looks up as before, and the layer is present in the table |
| Bindings.AssignKeyCount | macropad.py:119-133 | a successful bind adds exactly one counted triple for `key` and `run` actions and none for `layer` actions |
| Config.Scan | macropad.py:45-68 | a line pops when, with trailing white space removed, it is empty or does not start with a space or tab. It is blank exactly when it is all white space. A comment is content starting with `#`. A layer line is content starting with `layer` in any case. Otherwise it is a content line, stripped at both ends |
| Config.Pop | macropad.py:52-56 | popping clears the selected key if one is set and keeps the layer. With no key selected it resets the layer to `default`. Device, table and count are never touched |
| Config.Bind | macropad.py:119-133 | binds the selected (layer, key) for the state. Fails with the duplicate error exactly when the triple is bound. On success nothing else is rebound, the table's layers become the old layers plus the selected one, and the count rises by one only for counted actions |
| Config.ParseAction | macropad.py:102-133 | for an accepted event: `key` without a code fails with the index error, and `key` with a code outside the valid set fails with the line, key and code. `key` with a valid code, `run` and `layer` (any case) bind the code, the text after the action word as command, or that text as layer name. They fail exactly when the triple is already bound. Any other action word changes nothing. The registers stay put, nothing bound is rebound, the count tracks the counted binds, and no invalid key enters the table |
| Config.ParseBind | macropad.py:92-133 | an event name outside `ON_PRESS`/`ON_RELEASE`/`ON_HOLD` (case-sensitive) fails with that line and key. `key` without a code fails with the index error. `key` with a code outside the valid set fails with the line, key and code. `key`, `run` and `layer` (any case) bind the key code, the rest of the line as command, or the rest as layer name. Any other action word changes nothing. The registers stay put and no key outside the valid set enters the table |
| Config.ParseContent | macropad.py:83-91 | the first content line becomes the device. With a device and no key, the line becomes the key. With both, it is a bind |
| Config.ParseLine | macropad.py:43-133 | every line first pops one level if it is unindented or blank. Blank and comment lines then do nothing more, so an indented comment leaves the registers alone. A layer line without a space fails with its line number. Otherwise it sets the layer to the text after the first space, keeping the device, and the key as the pop left it: a `layer` line in column 0 ends the key being configured. Content lines go on to `ParseContent`. Bound triples are never removed or rebound. The count tracks the counted binds, and errors carry this line's number |
| Config.FoldLines | macropad.py:43-133 | by induction over the lines read: bound triples persist, the bind count tracks the counted binds, key codes stay valid, and an error's line number lies within the lines read |
| Config.ParseLines | macropad.py:43-87 | over any run of lines, bound triples persist and the count tracks the counted binds. Keys stay valid, and a reported line number lies within the lines read |
| Config.ParseLinesDevice | macropad.py:81-87 | once set, the device never changes. If unset, it becomes the first content line |
| Config.ParseLinesDebug | macropad.py:83-87 | in debug mode loading stops at the device line, so the table stays empty and the count is zero |
| Config.ErrorAt | macropad.py:71-117 | fail fast: outside debug mode, when the lines before line i load and line i fails, the loop ends with line i's error whatever follows. This is stated for the loop over any per-line step, and `ParseLines` is that loop over `ParseLine` |
| Config.Parse | macropad.py:30-140 | a successful load reports a bind count equal to the number of `key` and `run` triples in the table. Every injected key code is valid. The device is the first content line. Debug mode loads no binds. Error line numbers are within the file |
| Config.ParseNoEmptyLayer | macropad.py:168-178 | after a successful load, a layer is in the table exactly when at least one (key, state) is bound in it. `assignKey` is the only place a layer is created, and it binds a triple in it at once. So a layer that is only named by a `layer` action or a `layer` line is missing from the table |
| Config.LoadConfig | macropad.py:30-140 | the imperative loop, with the debug break right after the device line, computes the same outcome as `Parse`. Its bind count equals the number of counted triples |
| Dispatch.HandleKey | macropad.py:142-166 | every event records the key's state and time, and leaves the other keys alone. Outside debug mode the action fired is exactly the binding for (current layer, key, state), if any. It fails exactly when not in debug mode and the current layer is missing from the table. Debug mode fires nothing and keeps the layer. A layer action sets the layer to its name, a command resets it to `default`, and a key or nothing keeps it |
| Dispatch.Fire | macropad.py:180-190 | firing never touches `KEY_MAP`. A layer action sets the current layer to its name (`setLayer`). A command first resets it to `default` (`runCommand`). An injected key keeps it |
| Dispatch.Replay | macropad.py:238-247 | the read loop fires at most one action per event. In debug mode it never stops early, fires nothing and keeps the layer. When it stops early, it is outside debug mode and the layer it reached is missing from the table, and the error names that layer |
| Dispatch.ReplaySnoc | macropad.py:238-247 | one more event after a run that was not cut short goes through `handleKey` from the state the run reached. Outside debug mode it appends exactly the binding for (layer reached, key, state), if any, to the actions fired. The loop stops on that event exactly when it is outside debug mode and the layer reached is missing from the table |
| Dispatch.ClosedNeverHalts | macropad.py:164-166 | if every layer action targets a layer of the table, `default` is present whenever a command is bound, and the start layer is in the table, then the read loop never raises |
| Dispatch.ReplayLayer | macropad.py:180-190 | after any run of events, the current layer is the one chosen by the last layer or command action fired, or the start layer if none fired |
| Dispatch.ReplayKeys | macropad.py:146-154 | after a run of events that was not cut short, each key holds the state and time of its last event. Keys without events keep their old record |
| Dispatch.EmptyTableHalts | macropad.py:164 | loading the one-line file `dev` gives device `dev`, an empty table and no binds. As written, any key event after that fails with the missing-layer error for `default`. The intended step fires nothing |
| Dispatch.HandleKeyIntended | macropad.py:164-166 | the corrected step never fails. Outside debug mode it fires exactly the binding, if any. It records the event, and it moves the layer only by the action fired, so with nothing fired the layer stays. It agrees with `HandleKey` wherever that succeeds |

## Findings

| source | as written | input that shows it | evidently intended | confidence | as-written member | corrected member |
|---|---|---|---|---|---|---|
| macropad.py:164 | `KEY_CALLBACK_MAP[CURRENT_LAYER]` is indexed without checking that the layer exists. The `KeyError` is caught by `main` (lines 246-247), which leaves the read loop | a file with only a device line, then any key press; or a `layer` bind naming a layer with no binds of its own, then any key press | a current layer without bindings behaves like a layer where the pressed key is unbound: nothing fires | medium, not executed | Dispatch.EmptyTableHalts | Dispatch.HandleKeyIntended |

`Dispatch.Replay` keeps the as-written step, because it models the loop of
`main`, which stops on this error. `Dispatch.ClosedNeverHalts` gives the
condition on the table under which the two steps agree for a whole run.
`Config.ParseNoEmptyLayer` shows why the second input reaches the error: a
layer with no binds of its own is never in the loaded table.

## Left out

- File I/O: the `os.path.isfile` check, `open` and `readlines` (lines 31-36, 43). The loader takes the lines as a sequence of strings, terminators included.
- Printing: the diagnostics, the "Loaded N binds" message (line 138) and the debug output of `handleKey` (lines 156-162) are output only. The error values carry what the messages report.
- `main`: opening, grabbing and ungrabbing the evdev device, the `EV_KEY` filter and `categorize` (lines 228-254). `Dispatch.Replay` takes the key events already filtered. Calling `main` with no device (a file without content lines) is not modelled beyond `Loaded.device` being `None`.
- `keyInput` (lines 223-226): key injection through uinput. A `Key` action has no effect on the modelled state.
- `runCommand` process launching (lines 192-221): double fork, `setsid`, `subprocess.call`. Only its `setLayer("default")` is modelled.
- Time: `time.time()` is an integer timestamp parameter, not a float.
- Dispatch.HandleKey: takes the key code as one string. For aliased key codes evdev reports a list of names. Then `event.keycode in KEY_MAP` (line 146) raises `TypeError`, because a list is unhashable. This also happens in debug mode, and `main` (lines 246-247) leaves the read loop. For such events the source always stops, although `HandleKey` fails only outside debug mode with the layer missing.
- `usage`, the command-line dispatch and `detectDevice` (lines 256-287). `detectDevice` is not part of this model.
- Text.Lower: maps only `A`-`Z` and U+212A KELVIN SIGN, not all of Unicode lower-casing. Those are the only characters whose lower case is one ASCII letter. So every comparison of a lower-cased string with `layer`, `key` or `run` comes out as in Python.
- Dispatch.Replay: when `handleKey` raises, `KEY_MAP` has already been updated for that event. The trace keeps the state from before that event, because the loop ends there.
