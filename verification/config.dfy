/** `loadConfig`: the configuration file is read line by line by a state
    machine over three registers (selected device, selected key, selected
    layer), filling the binding table and counting binds. Indentation decides
    nesting: an unindented or blank line pops one level. */
module Config {
  import opened Results
  import opened Text
  import opened Bindings

  /** What a line is once its surrounding white space is stripped. */
  datatype LineKind = Blank | Comment(content: string) | LayerLine(content: string) | Content(content: string)

  /** A configuration line as the loop sees it: whether it pops a level, and
      what it is. */
  datatype Line = Line(unindented: bool, kind: LineKind)

  /** Reads one raw line (still carrying its line terminator): it pops when,
      with trailing white space removed, it is empty or does not start with a
      space or a tab; its content is the line with white space stripped at both
      ends; `#` starts a comment, and a content that starts with `layer`, in
      any case, selects a layer. */
  function Scan(raw: string): (l: Line)
    ensures l.unindented <==> |RStrip(raw)| == 0 || (raw[0] != ' ' && raw[0] != '\t')
    ensures l.kind.Blank? <==> forall i :: 0 <= i < |raw| ==> IsSpace(raw[i])
    ensures l.kind.Comment? || l.kind.LayerLine? || l.kind.Content? ==>
      |l.kind.content| > 0 && l.kind.content == Strip(raw)
    ensures l.kind.Comment? <==> |Strip(raw)| > 0 && Strip(raw)[0] == '#'
    ensures l.kind.LayerLine? ==> l.kind.content[0] != '#' && "layer" <= Lower(l.kind.content)
    ensures l.kind.Content? ==> l.kind.content[0] != '#' && !("layer" <= Lower(l.kind.content))
  {
    var line := RStrip(raw);
    var unindented := |line| == 0 || (line[0] != ' ' && line[0] != '\t');
    var c := Strip(raw);
    if |c| == 0 then Line(unindented, Blank)
    else if c[0] == '#' then Line(unindented, Comment(c))
    else if "layer" <= Lower(c) then Line(unindented, LayerLine(c))
    else Line(unindented, Content(c))
  }

  /** The parser's registers and what it has built so far. */
  datatype ParseState = ParseState(
    device: Option<string>,
    key: Option<string>,
    layer: string,
    table: Table,
    bindCount: nat)

  const Start: ParseState := ParseState(None, None, DefaultLayer, map[], 0)

  /** Every way `loadConfig` gives up before opening a device: the three
      diagnosed configuration errors (with their line number), the
      `IndexError` of a `key` bind without a key code, and the exception
      `assignKey` raises for a triple bound twice. */
  datatype ParseError =
    | MissingLayerName(line: nat)
    | UnknownEvent(line: nat, key: string, event: string)
    | UnknownKeycode(line: nat, key: string, code: string)
    | MissingKeycode
    | DuplicateBind(state: KeyState, key: string)
  {
    predicate Located() {
      MissingLayerName? || UnknownEvent? || UnknownKeycode?
    }
  }

  /** The outcome of a successful load: the device named by the file, the
      binding table and the number of binds reported as loaded. */
  datatype Loaded = Loaded(device: Option<string>, table: Table, bindCount: nat)

  /** One level popped: the selected key if there is one, else the layer. */
  function Pop(st: ParseState): (r: ParseState)
    ensures r.device == st.device && r.table == st.table && r.bindCount == st.bindCount
    ensures r.key.None?
    ensures st.key.Some? ==> r.layer == st.layer
    ensures st.key.None? ==> r.layer == DefaultLayer
  {
    if st.key.Some? then st.(key := None)
    else st.(layer := DefaultLayer)
  }

  /** The registers once a line's indentation has been taken into account. */
  function Enter(st: ParseState, line: Line): ParseState {
    if line.unindented then Pop(st) else st
  }

  /** `st'` is `st` with (layer, key, state) newly bound to `a`, nothing else
      rebound, the registers kept and the bind count advanced for counted
      actions. */
  ghost predicate Binds(st: ParseState, st': ParseState, state: KeyState, a: Action)
    requires st.key.Some?
  {
    && st'.device == st.device && st'.key == st.key && st'.layer == st.layer
    && Lookup(st.table, st.layer, st.key.value, state).None?
    && Lookup(st'.table, st.layer, st.key.value, state) == Some(a)
    && (forall l, k, s :: (l, k, s) != (st.layer, st.key.value, state) ==>
          Lookup(st'.table, l, k, s) == Lookup(st.table, l, k, s))
    && st'.bindCount == st.bindCount + (if Counted(a) then 1 else 0)
  }

  /** Nothing bound before is rebound or removed. */
  ghost predicate Keeps(t: Table, t': Table) {
    forall l, k, s :: Lookup(t, l, k, s).Some? ==> Lookup(t', l, k, s) == Lookup(t, l, k, s)
  }

  /** Every key the table can inject is a valid key code. */
  ghost predicate KeysValid(t: Table, valid: set<string>) {
    forall l, k, s :: Lookup(t, l, k, s).Some? && Lookup(t, l, k, s).value.Key? ==>
      Lookup(t, l, k, s).value.code in valid
  }

  /** The bind count moved exactly as far as the set of counted binds grew. */
  ghost predicate CountTracks(st: ParseState, st': ParseState) {
    st'.bindCount - st.bindCount == |CountedBinds(st'.table)| - |CountedBinds(st.table)|
  }

  /** Binds `a` for the selected key in the selected layer. */
  function Bind(st: ParseState, state: KeyState, a: Action): (r: Result<ParseState, ParseError>)
    requires st.key.Some?
    ensures r.Failure? <==> Lookup(st.table, st.layer, st.key.value, state).Some?
    ensures r.Failure? ==> r.error == DuplicateBind(state, st.key.value)
    ensures r.Success? ==> Binds(st, r.value, state, a) && CountTracks(st, r.value)
    ensures r.Success? ==> r.value.table.Keys == st.table.Keys + {st.layer}
  {
    match AssignKey(st.table, st.layer, st.key.value, state, a)
    case Failure(e) => Failure(DuplicateBind(e.state, e.key))
    case Success(t) =>
      AssignKeyCount(st.table, st.layer, st.key.value, state, a);
      Success(st.(table := t, bindCount := st.bindCount + if Counted(a) then 1 else 0))
  }

  /** The parts of the text after the event name, `<action> <args>`: the
      action word (lower-cased) and the text after it. */
  function VerbOf(bind: string): string { Lower(Partition(bind).0) }
  function RestOf(bind: string): string { Partition(bind).1 }

  /** The action part of a bind line, for an event name already accepted. */
  function ParseAction(st: ParseState, state: KeyState, bind: string, lineNum: nat, valid: set<string>)
    : (r: Result<ParseState, ParseError>)
    requires st.key.Some?
    ensures
      var code := Partition(RestOf(bind)).0;
      && (VerbOf(bind) == "key" && Space !in bind ==> r == Failure(MissingKeycode))
      && (VerbOf(bind) == "key" && Space in bind && code !in valid ==>
            r == Failure(UnknownKeycode(lineNum, st.key.value, code)))
      && (VerbOf(bind) == "key" && Space in bind && code in valid ==>
            (r.Success? ==> Binds(st, r.value, state, Key(code))))
      && (VerbOf(bind) == "run" ==> (r.Success? ==> Binds(st, r.value, state, Run(RestOf(bind)))))
      && (VerbOf(bind) == "layer" ==> (r.Success? ==> Binds(st, r.value, state, Layer(RestOf(bind)))))
      && (VerbOf(bind) == "run" || VerbOf(bind) == "layer"
          || (VerbOf(bind) == "key" && Space in bind && code in valid) ==>
            && (r.Failure? <==> Lookup(st.table, st.layer, st.key.value, state).Some?)
            && (r.Failure? ==> r.error == DuplicateBind(state, st.key.value)))
      && (VerbOf(bind) !in {"key", "run", "layer"} ==> r == Success(st))
    ensures r.Success? ==> Keeps(st.table, r.value.table) && CountTracks(st, r.value)
    ensures r.Success? && KeysValid(st.table, valid) ==> KeysValid(r.value.table, valid)
    ensures r.Success? ==> r.value.device == st.device && r.value.key == st.key && r.value.layer == st.layer
    ensures r.Failure? && r.error.Located() ==> r.error.line == lineNum
  {
    var args := Split(bind);
    SplitByPartition(bind);
    JoinTailIsRest(bind);
    var verb := Lower(args[0]);
    if verb == "key" then
      if |args| < 2 then Failure(MissingKeycode)
      else if args[1] !in valid then Failure(UnknownKeycode(lineNum, st.key.value, args[1]))
      else Bind(st, state, Key(args[1]))
    else if verb == "run" then Bind(st, state, Run(Join(args[1..])))
    else if verb == "layer" then Bind(st, state, Layer(Join(args[1..])))
    else Success(st)
  }

  /** An indented content line while a key is selected: a bind. The event name
      is the text before the first space. */
  function ParseBind(st: ParseState, content: string, lineNum: nat, valid: set<string>)
    : (r: Result<ParseState, ParseError>)
    requires st.key.Some?
    ensures Partition(content).0 !in KeyEventRemap ==>
      r == Failure(UnknownEvent(lineNum, st.key.value, Partition(content).0))
    ensures Partition(content).0 in KeyEventRemap ==>
      r == ParseAction(st, KeyEventRemap[Partition(content).0], Partition(content).1, lineNum, valid)
    ensures r.Success? ==> Keeps(st.table, r.value.table) && CountTracks(st, r.value)
    ensures r.Success? && KeysValid(st.table, valid) ==> KeysValid(r.value.table, valid)
    ensures r.Success? ==> r.value.device == st.device && r.value.key == st.key && r.value.layer == st.layer
    ensures r.Failure? && r.error.Located() ==> r.error.line == lineNum
  {
    var (event, bind) := Partition(content);
    if event !in KeyEventRemap then Failure(UnknownEvent(lineNum, st.key.value, event))
    else ParseAction(st, KeyEventRemap[event], bind, lineNum, valid)
  }

  /** The parser has not named a device yet, so nothing else has happened. */
  predicate Fresh(st: ParseState) {
    st.device.None? && st.key.None? && st.table == map[] && st.bindCount == 0
  }

  /** The device a line names if it is the first content line. */
  function ContentOf(line: Line): Option<string> {
    if line.kind.Content? then Some(line.kind.content) else None
  }

  /** A content line, after indentation has been dealt with: it names the
      device, else the key, else it is a bind for the selected key. */
  function ParseContent(st: ParseState, c: string, lineNum: nat, valid: set<string>)
    : (r: Result<ParseState, ParseError>)
    ensures st.device.None? ==> r == Success(st.(device := Some(c)))
    ensures st.device.Some? && st.key.None? ==> r == Success(st.(key := Some(c)))
    ensures st.device.Some? && st.key.Some? ==> r == ParseBind(st, c, lineNum, valid)
    ensures r.Success? ==> Keeps(st.table, r.value.table) && CountTracks(st, r.value)
    ensures r.Success? && KeysValid(st.table, valid) ==> KeysValid(r.value.table, valid)
    ensures r.Success? && st.device.Some? ==> r.value.device == st.device
    ensures r.Failure? && r.error.Located() ==> r.error.line == lineNum
  {
    if st.device.None? then Success(st.(device := Some(c)))
    else if st.key.None? then Success(st.(key := Some(c)))
    else ParseBind(st, c, lineNum, valid)
  }

  /** One iteration of the `loadConfig` loop; `lineNum` is 1-based. */
  function ParseLine(st: ParseState, line: Line, lineNum: nat, valid: set<string>)
    : (r: Result<ParseState, ParseError>)
    ensures line.kind.Blank? || line.kind.Comment? ==> r == Success(Enter(st, line))
    ensures line.kind.LayerLine? ==>
      var c := line.kind.content;
      && (Space !in c ==> r == Failure(MissingLayerName(lineNum)))
      && (Space in c ==> r == Success(Enter(st, line).(layer := Partition(c).1)))
    ensures line.kind.Content? ==> r == ParseContent(Enter(st, line), line.kind.content, lineNum, valid)
    ensures r.Success? && st.device.Some? ==> r.value.device == st.device
    ensures r.Success? && st.device.None? ==> r.value.device == ContentOf(line)
    ensures Fresh(st) && r.Success? ==> r.value.key.None? && r.value.table == map[] && r.value.bindCount == 0
    ensures r.Success? ==> Keeps(st.table, r.value.table) && CountTracks(st, r.value)
    ensures r.Success? && KeysValid(st.table, valid) ==> KeysValid(r.value.table, valid)
    ensures r.Failure? && r.error.Located() ==> r.error.line == lineNum
  {
    var st1 := Enter(st, line);
    match line.kind
    case Blank => Success(st1)
    case Comment(_) => Success(st1)
    case LayerLine(c) =>
      var info := Split(c);
      if |info| < 2 then Failure(MissingLayerName(lineNum))
      else
        JoinTailIsRest(c);
        Success(st1.(layer := Join(info[1..])))
    case Content(c) => ParseContent(st1, c, lineNum, valid)
  }

  /** The loop of `loadConfig` for any per-line step: the remaining lines are
      read in order, `consumed` lines having been read before them; the first
      failing line ends the loop with its error, and in debug mode the loop
      ends as soon as the device is named. */
  function Fold(step: (ParseState, Line, nat) -> Result<ParseState, ParseError>,
                st: ParseState, lines: seq<Line>, consumed: nat, debug: bool)
    : Result<ParseState, ParseError>
    decreases |lines|
  {
    if |lines| == 0 then Success(st)
    else
      match step(st, lines[0], consumed + 1)
      case Failure(e) => Failure(e)
      case Success(st') =>
        if debug && st.device.None? && st'.device.Some? then Success(st')
        else Fold(step, st', lines[1..], consumed + 1, debug)
  }

  function LineStep(valid: set<string>): (ParseState, Line, nat) -> Result<ParseState, ParseError> {
    (st: ParseState, line: Line, lineNum: nat) => ParseLine(st, line, lineNum, valid)
  }

  /** Over any run of lines, bound triples persist, the bind count tracks the
      counted binds, keys stay valid, and an error names a line of the run. */
  lemma {:induction false} FoldLines(st: ParseState, lines: seq<Line>, consumed: nat, valid: set<string>, debug: bool)
    ensures var r := Fold(LineStep(valid), st, lines, consumed, debug);
      && (r.Success? ==> Keeps(st.table, r.value.table) && CountTracks(st, r.value))
      && (r.Success? && KeysValid(st.table, valid) ==> KeysValid(r.value.table, valid))
      && (r.Failure? && r.error.Located() ==> consumed < r.error.line <= consumed + |lines|)
    decreases |lines|
  {
    if |lines| > 0 {
      var first := ParseLine(st, lines[0], consumed + 1, valid);
      assert LineStep(valid)(st, lines[0], consumed + 1) == first;
      if first.Success? {
        FoldLines(first.value, lines[1..], consumed + 1, valid, debug);
      }
    }
  }

  /** The loop of `loadConfig` over the remaining lines. */
  function ParseLines(st: ParseState, lines: seq<Line>, consumed: nat, valid: set<string>, debug: bool)
    : (r: Result<ParseState, ParseError>)
    ensures r.Success? ==> Keeps(st.table, r.value.table) && CountTracks(st, r.value)
    ensures r.Success? && KeysValid(st.table, valid) ==> KeysValid(r.value.table, valid)
    ensures r.Failure? && r.error.Located() ==> consumed < r.error.line <= consumed + |lines|
  {
    FoldLines(st, lines, consumed, valid, debug);
    Fold(LineStep(valid), st, lines, consumed, debug)
  }

  /** The first content line of a file: what `loadConfig` opens as the device. */
  function FirstContent(lines: seq<Line>): Option<string> {
    if |lines| == 0 then None
    else if lines[0].kind.Content? then Some(lines[0].kind.content)
    else FirstContent(lines[1..])
  }

  function ScanAll(raws: seq<string>): (lines: seq<Line>)
    ensures |lines| == |raws|
  {
    seq(|raws|, i requires 0 <= i < |raws| => Scan(raws[i]))
  }

  /** `loadConfig` without its I/O: the device to open, the table and the count
      of loaded binds, or the error that stops it before any device is opened. */
  function Parse(raws: seq<string>, valid: set<string>, debug: bool): (r: Result<Loaded, ParseError>)
    ensures r.Success? ==> r.value.bindCount == |CountedBinds(r.value.table)|
    ensures r.Success? ==> KeysValid(r.value.table, valid)
    ensures r.Success? ==> r.value.device == FirstContent(ScanAll(raws))
    ensures debug && r.Success? ==> r.value.table == map[] && r.value.bindCount == 0
    ensures r.Failure? && r.error.Located() ==> 1 <= r.error.line <= |raws|
  {
    var lines := ScanAll(raws);
    ParseLinesDevice(Start, lines, 0, valid, debug);
    ParseLinesDebug(Start, lines, 0, valid, debug);
    match ParseLines(Start, lines, 0, valid, debug)
    case Failure(e) => Failure(e)
    case Success(st) => Success(Loaded(st.device, st.table, st.bindCount))
  }

  /** Every layer of the table binds something: `assignKey` is the only
      place a layer is created, and it binds a triple in it straight away. */
  ghost predicate NoEmptyLayer(t: Table) {
    forall l :: l in t ==> exists k, s :: Lookup(t, l, k, s).Some?
  }

  lemma BindNoEmptyLayer(st: ParseState, state: KeyState, a: Action)
    requires st.key.Some?
    requires NoEmptyLayer(st.table)
    requires Bind(st, state, a).Success?
    ensures NoEmptyLayer(Bind(st, state, a).value.table)
  {
    var t := st.table;
    var t' := Bind(st, state, a).value.table;
    forall l | l in t'
      ensures exists k, s :: Lookup(t', l, k, s).Some?
    {
      if l == st.layer {
        assert Lookup(t', l, st.key.value, state).Some?;
      } else {
        assert l in t;
        var k, s :| Lookup(t, l, k, s).Some?;
        assert Lookup(t', l, k, s).Some?;
      }
    }
  }

  lemma ActionNoEmptyLayer(st: ParseState, state: KeyState, bind: string, lineNum: nat, valid: set<string>)
    requires st.key.Some?
    requires NoEmptyLayer(st.table)
    requires ParseAction(st, state, bind, lineNum, valid).Success?
    ensures NoEmptyLayer(ParseAction(st, state, bind, lineNum, valid).value.table)
  {
    var args := Split(bind);
    var verb := Lower(args[0]);
    if verb == "key" {
      BindNoEmptyLayer(st, state, Key(args[1]));
    } else if verb == "run" {
      BindNoEmptyLayer(st, state, Run(Join(args[1..])));
    } else if verb == "layer" {
      BindNoEmptyLayer(st, state, Layer(Join(args[1..])));
    }
  }

  lemma LineNoEmptyLayer(st: ParseState, line: Line, lineNum: nat, valid: set<string>)
    requires NoEmptyLayer(st.table)
    requires ParseLine(st, line, lineNum, valid).Success?
    ensures NoEmptyLayer(ParseLine(st, line, lineNum, valid).value.table)
  {
    var st1 := Enter(st, line);
    assert st1.table == st.table;
    if line.kind.Content? {
      var c := line.kind.content;
      if st1.device.Some? && st1.key.Some? {
        var (event, bind) := Partition(c);
        assert event in KeyEventRemap;
        ActionNoEmptyLayer(st1, KeyEventRemap[event], bind, lineNum, valid);
      }
    }
  }

  lemma {:induction false} FoldNoEmptyLayer(st: ParseState, lines: seq<Line>, consumed: nat, valid: set<string>, debug: bool)
    requires NoEmptyLayer(st.table)
    requires ParseLines(st, lines, consumed, valid, debug).Success?
    ensures NoEmptyLayer(ParseLines(st, lines, consumed, valid, debug).value.table)
    decreases |lines|
  {
    if |lines| > 0 {
      assert LineStep(valid)(st, lines[0], consumed + 1) == ParseLine(st, lines[0], consumed + 1, valid);
      LineNoEmptyLayer(st, lines[0], consumed + 1, valid);
      var st' := ParseLine(st, lines[0], consumed + 1, valid).value;
      if !(debug && st.device.None? && st'.device.Some?) {
        FoldNoEmptyLayer(st', lines[1..], consumed + 1, valid, debug);
      }
    }
  }

  /** After a successful load, the layers of the table are exactly the layers
      with at least one bind: a layer that only appears as the target of a
      `layer` action, or in a `layer` line with nothing bound under it, is not
      in the table. */
  lemma ParseNoEmptyLayer(raws: seq<string>, valid: set<string>, debug: bool)
    ensures var r := Parse(raws, valid, debug);
      r.Success? ==> forall l :: l in r.value.table <==> exists k, s :: Lookup(r.value.table, l, k, s).Some?
  {
    if Parse(raws, valid, debug).Success? {
      FoldNoEmptyLayer(Start, ScanAll(raws), 0, valid, debug);
    }
  }

  /** The device name `dev` has no surrounding white space, no upper case
      letter and no `layer` prefix. */
  lemma DeviceRStrip() ensures RStrip("dev") == "dev" {}
  lemma DeviceLStrip() ensures LStrip("dev") == "dev" {}
  lemma DeviceLower() ensures Lower("dev") == "dev" {}
  lemma DeviceNotLayer() ensures !("layer" <= "dev") { assert "layer"[0] != "dev"[0]; }

  /** A line holding only `dev` is unindented content. */
  lemma ScanDevice()
    ensures Scan("dev") == Line(true, Content("dev"))
  {
    DeviceRStrip();
    DeviceLStrip();
    DeviceLower();
    DeviceNotLayer();
    assert Strip("dev") == "dev";
  }

  /** A file holding only a device line loads that device and binds nothing. */
  lemma ParseDeviceOnly()
    ensures Parse(["dev"], {}, false) == Success(Loaded(Some("dev"), map[], 0))
  {
    ScanDevice();
    var line := Line(true, Content("dev"));
    assert ScanAll(["dev"]) == [line];
    var loaded := Start.(device := Some("dev"));
    assert LineStep({})(Start, line, 1) == Success(loaded);
    assert Fold(LineStep({}), loaded, [line][1..], 1, false) == Success(loaded);
  }

  /** The device register ends up holding the first content line, whatever
      else the lines do. */
  lemma {:induction false} ParseLinesDevice(
    st: ParseState, lines: seq<Line>, consumed: nat, valid: set<string>, debug: bool)
    ensures ParseLines(st, lines, consumed, valid, debug).Success? ==>
      ParseLines(st, lines, consumed, valid, debug).value.device
        == if st.device.Some? then st.device else FirstContent(lines)
    decreases |lines|
  {
    if |lines| > 0 && ParseLine(st, lines[0], consumed + 1, valid).Success? {
      assert LineStep(valid)(st, lines[0], consumed + 1) == ParseLine(st, lines[0], consumed + 1, valid);
      var st' := ParseLine(st, lines[0], consumed + 1, valid).value;
      if !(debug && st.device.None? && st'.device.Some?) {
        ParseLinesDevice(st', lines[1..], consumed + 1, valid, debug);
      }
    }
  }

  /** In debug mode (`--show`) loading stops at the device line, so no bind is
      ever made. */
  lemma {:induction false} ParseLinesDebug(
    st: ParseState, lines: seq<Line>, consumed: nat, valid: set<string>, debug: bool)
    requires Fresh(st)
    ensures debug && ParseLines(st, lines, consumed, valid, debug).Success? ==>
      ParseLines(st, lines, consumed, valid, debug).value.table == map[] &&
      ParseLines(st, lines, consumed, valid, debug).value.bindCount == 0
    decreases |lines|
  {
    if debug && |lines| > 0 && ParseLine(st, lines[0], consumed + 1, valid).Success? {
      assert LineStep(valid)(st, lines[0], consumed + 1) == ParseLine(st, lines[0], consumed + 1, valid);
      var st' := ParseLine(st, lines[0], consumed + 1, valid).value;
      if st'.device.None? {
        ParseLinesDebug(st', lines[1..], consumed + 1, valid, debug);
      }
    }
  }

  /** Fail fast: outside debug mode, when the lines before line `i` are read
      and line `i` fails, the loop ends with that line's error, whatever
      follows it. */
  lemma {:induction false} ErrorAt(step: (ParseState, Line, nat) -> Result<ParseState, ParseError>,
                                   st: ParseState, lines: seq<Line>, consumed: nat, i: nat)
    requires i < |lines|
    requires Fold(step, st, lines[..i], consumed, false).Success?
    requires step(Fold(step, st, lines[..i], consumed, false).value, lines[i], consumed + i + 1).Failure?
    ensures Fold(step, st, lines, consumed, false)
      == Failure(step(Fold(step, st, lines[..i], consumed, false).value, lines[i], consumed + i + 1).error)
    decreases i
  {
    if i > 0 {
      assert lines[..i][0] == lines[0];
      assert lines[..i][1..] == lines[1..][..i - 1];
      assert lines[1..][i - 1] == lines[i];
      var st' := step(st, lines[0], consumed + 1).value;
      ErrorAt(step, st', lines[1..], consumed + 1, i - 1);
    }
  }

  /** The loop of `loadConfig` as written: one pass over the lines, leaving it
      at the first error, or right after the device line in debug mode. */
  method LoadConfig(raws: seq<string>, valid: set<string>, debug: bool) returns (r: Result<Loaded, ParseError>)
    ensures r == Parse(raws, valid, debug)
    ensures r.Success? ==> r.value.bindCount == |CountedBinds(r.value.table)|
  {
    ghost var lines := ScanAll(raws);
    var st := Start;
    var lineNum := 0;
    while lineNum < |raws|
      invariant 0 <= lineNum <= |raws|
      invariant ParseLines(st, lines[lineNum..], lineNum, valid, debug) == ParseLines(Start, lines, 0, valid, debug)
    {
      var next := ParseLine(st, Scan(raws[lineNum]), lineNum + 1, valid);
      assert LineStep(valid)(st, lines[lineNum], lineNum + 1) == next;
      assert lines[lineNum..][0] == Scan(raws[lineNum]);
      assert lines[lineNum..][1..] == lines[lineNum + 1..];
      if next.Failure? {
        return Failure(next.error);
      }
      var selected := st.device.Some?;
      st := next.value;
      lineNum := lineNum + 1;
      if debug && !selected && st.device.Some? {
        break;
      }
    }
    r := Success(Loaded(st.device, st.table, st.bindCount));
  }
}
