/** The dispatcher: `handleKey` records each key event and fires the action
    bound to (current layer, key, state); `setLayer` and the layer effect of
    `runCommand` move the current layer. Time is an abstract timestamp. */
module Dispatch {
  import opened Results
  import opened Bindings
  import Config

  /** What `KEY_MAP` remembers of a key: its last state and when it was seen. */
  datatype KeyRecord = KeyRecord(state: KeyState, lastHit: int)

  /** The runtime state: `CURRENT_LAYER` and `KEY_MAP`. */
  datatype Engine = Engine(layer: string, keys: map<string, KeyRecord>)

  const Boot: Engine := Engine(DefaultLayer, map[])

  datatype KeyEvent = KeyEvent(keycode: string, keystate: KeyState)

  /** The `KeyError` raised when the current layer has no entry in the table. */
  datatype DispatchError = LayerNotBound(layer: string)

  /** The layer effect of firing an action: `setLayer(name)` for a layer
      action, `setLayer("default")` before a command is launched, nothing for
      an injected key. */
  function Fire(e: Engine, a: Action): (r: Engine)
    ensures r.keys == e.keys
    ensures a.Key? ==> r.layer == e.layer
    ensures a.Run? ==> r.layer == DefaultLayer
    ensures a.Layer? ==> r.layer == a.name
  {
    match a
    case Key(_) => e
    case Run(_) => e.(layer := DefaultLayer)
    case Layer(name) => e.(layer := name)
  }

  /** The `KEY_MAP` update every event makes, whatever else happens. */
  function Record(e: Engine, ev: KeyEvent, now: int): Engine {
    e.(keys := e.keys[ev.keycode := KeyRecord(ev.keystate, now)])
  }

  /** `KEY_MAP` after an event: the event's key holds the new record, every
      other key is as it was. */
  ghost predicate Recorded(e: Engine, e': Engine, ev: KeyEvent, now: int) {
    && e'.keys.Keys == e.keys.Keys + {ev.keycode}
    && e'.keys[ev.keycode] == KeyRecord(ev.keystate, now)
    && forall k :: k in e.keys && k != ev.keycode ==> e'.keys[k] == e.keys[k]
  }

  /** `handleKey`: the event is recorded; in debug mode nothing fires;
      otherwise the action bound to (current layer, key, state), if any, fires
      and the layer moves as that action says. An event while the current layer
      has no entry in the table raises. */
  function HandleKey(t: Table, e: Engine, ev: KeyEvent, now: int, debug: bool)
    : (r: Result<(Engine, Option<Action>), DispatchError>)
    ensures r.Failure? <==> !debug && e.layer !in t
    ensures r.Failure? ==> r.error == LayerNotBound(e.layer)
    ensures r.Success? ==> Recorded(e, r.value.0, ev, now)
    ensures debug ==> r.Success? && r.value.1.None? && r.value.0.layer == e.layer
    ensures !debug && r.Success? ==> r.value.1 == Lookup(t, e.layer, ev.keycode, ev.keystate)
    ensures r.Success? && (r.value.1.None? || r.value.1.value.Key?) ==> r.value.0.layer == e.layer
    ensures r.Success? && r.value.1.Some? && r.value.1.value.Run? ==> r.value.0.layer == DefaultLayer
    ensures r.Success? && r.value.1.Some? && r.value.1.value.Layer? ==> r.value.0.layer == r.value.1.value.name
  {
    var recorded := Record(e, ev, now);
    if debug then Success((recorded, None))
    else if e.layer !in t then Failure(LayerNotBound(e.layer))
    else if ev.keycode in t[e.layer] && ev.keystate in t[e.layer][ev.keycode] then
      var a := t[e.layer][ev.keycode][ev.keystate];
      Success((Fire(recorded, a), Some(a)))
    else Success((recorded, None))
  }

  /** `handleKey` as evidently intended: a current layer without bindings
      behaves like a layer in which the key is unbound. */
  function HandleKeyIntended(t: Table, e: Engine, ev: KeyEvent, now: int, debug: bool)
    : (r: (Engine, Option<Action>))
    ensures Recorded(e, r.0, ev, now)
    ensures debug ==> r.1.None? && r.0.layer == e.layer
    ensures !debug ==> r.1 == Lookup(t, e.layer, ev.keycode, ev.keystate)
    ensures r.1.None? || r.1.value.Key? ==> r.0.layer == e.layer
    ensures r.1.Some? && r.1.value.Run? ==> r.0.layer == DefaultLayer
    ensures r.1.Some? && r.1.value.Layer? ==> r.0.layer == r.1.value.name
    ensures HandleKey(t, e, ev, now, debug).Success? ==> HandleKey(t, e, ev, now, debug).value == r
  {
    if debug || e.layer in t then HandleKey(t, e, ev, now, debug).value
    else (Record(e, ev, now), None)
  }

  /** As written, the very first key event after loading a file that holds
      only a device line stops the event loop: the file binds nothing, so the
      table has no `default` layer. The intended step fires nothing instead. */
  lemma EmptyTableHalts(ev: KeyEvent, now: int)
    ensures Config.Parse(["dev"], {}, false) == Success(Config.Loaded(Some("dev"), map[], 0))
    ensures HandleKey(Config.Parse(["dev"], {}, false).value.table, Boot, ev, now, false)
      == Failure(LayerNotBound(DefaultLayer))
    ensures HandleKeyIntended(Config.Parse(["dev"], {}, false).value.table, Boot, ev, now, false).1 == None
  {
    Config.ParseDeviceOnly();
  }

  /** One hardware key event and the time it was read. */
  datatype Tick = Tick(event: KeyEvent, now: int)

  /** The outcome of the read loop of `main`: the final state, the actions
      fired in order, and the error that ended the loop early, if any. */
  datatype Trace = Trace(engine: Engine, fired: seq<Action>, halted: Option<DispatchError>)

  function Fired(a: Option<Action>): seq<Action> {
    if a.Some? then [a.value] else []
  }

  /** The read loop of `main`: every event goes through `handleKey`; an
      exception ends the loop. */
  function Replay(t: Table, e: Engine, ticks: seq<Tick>, debug: bool): (r: Trace)
    ensures |r.fired| <= |ticks|
    ensures debug ==> r.halted.None? && r.fired == [] && r.engine.layer == e.layer
    ensures r.halted.Some? ==>
      !debug && r.engine.layer !in t && r.halted.value == LayerNotBound(r.engine.layer)
    decreases |ticks|
  {
    if |ticks| == 0 then Trace(e, [], None)
    else
      match HandleKey(t, e, ticks[0].event, ticks[0].now, debug)
      case Failure(err) => Trace(e, [], Some(err))
      case Success((e', a)) =>
        var rest := Replay(t, e', ticks[1..], debug);
        Trace(rest.engine, Fired(a) + rest.fired, rest.halted)
  }

  /** One more event after a run that was not cut short: it goes through
      `handleKey` from the state the run reached. Outside debug mode it fires
      exactly the binding for (layer reached, key, state), if any, and the
      loop stops on it exactly when the layer reached has no entry. */
  lemma {:induction false} ReplaySnoc(t: Table, e: Engine, ticks: seq<Tick>, tk: Tick, debug: bool)
    requires Replay(t, e, ticks, debug).halted.None?
    ensures var r := Replay(t, e, ticks, debug);
      var r' := Replay(t, e, ticks + [tk], debug);
      && (!debug ==>
            r'.fired == r.fired + Fired(Lookup(t, r.engine.layer, tk.event.keycode, tk.event.keystate)))
      && (r'.halted.Some? <==> !debug && r.engine.layer !in t)
      && (match HandleKey(t, r.engine, tk.event, tk.now, debug)
          case Failure(err) => r' == Trace(r.engine, r.fired, Some(err))
          case Success((e', a)) => r' == Trace(e', r.fired + Fired(a), None))
    decreases |ticks|
  {
    if |ticks| == 0 {
      assert ticks + [tk] == [tk];
      var h := HandleKey(t, e, tk.event, tk.now, debug);
      if h.Success? {
        assert Fired(h.value.1) + [] == [] + Fired(h.value.1);
      }
    } else {
      var h := HandleKey(t, e, ticks[0].event, ticks[0].now, debug);
      assert h.Success?;
      var e' := h.value.0;
      assert (ticks + [tk])[0] == ticks[0];
      assert (ticks + [tk])[1..] == ticks[1..] + [tk];
      ReplaySnoc(t, e', ticks[1..], tk, debug);
    }
  }

  /** Every layer the dispatcher can be sent to has an entry in the table:
      each layer action names a layer of the table, and the default layer is
      there when some command can be launched. */
  ghost predicate Closed(t: Table) {
    forall l, k, s :: Lookup(t, l, k, s).Some? ==>
      match Lookup(t, l, k, s).value
      case Key(_) => true
      case Run(_) => DefaultLayer in t
      case Layer(name) => name in t
  }

  /** In a closed table, starting from a layer of the table, the read loop
      never raises. */
  lemma {:induction false} ClosedNeverHalts(t: Table, e: Engine, ticks: seq<Tick>, debug: bool)
    requires Closed(t)
    requires e.layer in t
    ensures Replay(t, e, ticks, debug).halted.None?
    decreases |ticks|
  {
    if |ticks| > 0 && !debug {
      var ev := ticks[0].event;
      var r := HandleKey(t, e, ev, ticks[0].now, debug);
      assert r.Success?;
      var a := r.value.1;
      if a.Some? {
        assert Lookup(t, e.layer, ev.keycode, ev.keystate).Some?;
      }
      ClosedNeverHalts(t, r.value.0, ticks[1..], debug);
    }
  }

  /** The layer the last layer-moving action of a sequence switches to. */
  function LastSwitch(fired: seq<Action>): Option<string>
    decreases |fired|
  {
    if |fired| == 0 then None
    else match fired[|fired| - 1]
      case Key(_) => LastSwitch(fired[..|fired| - 1])
      case Run(_) => Some(DefaultLayer)
      case Layer(name) => Some(name)
  }

  lemma {:induction false} LastSwitchPrepend(a: Action, rest: seq<Action>)
    ensures LastSwitch([a] + rest)
      == if LastSwitch(rest).Some? then LastSwitch(rest) else LastSwitch([a])
    decreases |rest|
  {
    if |rest| > 0 {
      assert ([a] + rest)[..|[a] + rest| - 1] == [a] + rest[..|rest| - 1];
      LastSwitchPrepend(a, rest[..|rest| - 1]);
    } else {
      assert [a] + rest == [a];
    }
  }

  /** The layer a run that started in `start` and fired `fired` ends in. */
  function LayerAfter(start: string, fired: seq<Action>): string {
    match LastSwitch(fired)
    case None => start
    case Some(layer) => layer
  }

  /** The current layer after a run of events is the one chosen by the last
      layer or command action fired, or the starting layer if none fired. */
  lemma {:induction false} ReplayLayer(t: Table, e: Engine, ticks: seq<Tick>, debug: bool)
    ensures var r := Replay(t, e, ticks, debug); r.engine.layer == LayerAfter(e.layer, r.fired)
    decreases |ticks|
  {
    if |ticks| > 0 {
      var r := HandleKey(t, e, ticks[0].event, ticks[0].now, debug);
      if r.Success? {
        var e' := r.value.0;
        ReplayLayer(t, e', ticks[1..], debug);
        var rest := Replay(t, e', ticks[1..], debug);
        if r.value.1.Some? {
          LastSwitchPrepend(r.value.1.value, rest.fired);
          assert [r.value.1.value][..0] == [];
        } else {
          assert Fired(r.value.1) + rest.fired == rest.fired;
        }
      }
    }
  }

  /** The record of the last event for `key` among `ticks`. */
  function LastHit(ticks: seq<Tick>, key: string): Option<KeyRecord>
    decreases |ticks|
  {
    if |ticks| == 0 then None
    else
      var last := ticks[|ticks| - 1];
      if last.event.keycode == key then Some(KeyRecord(last.event.keystate, last.now))
      else LastHit(ticks[..|ticks| - 1], key)
  }

  function Get(m: map<string, KeyRecord>, key: string): Option<KeyRecord> {
    if key in m then Some(m[key]) else None
  }

  lemma {:induction false} LastHitPrepend(tick: Tick, rest: seq<Tick>, key: string)
    ensures LastHit([tick] + rest, key)
      == if LastHit(rest, key).Some? then LastHit(rest, key) else LastHit([tick], key)
    decreases |rest|
  {
    if |rest| > 0 {
      assert ([tick] + rest)[..|[tick] + rest| - 1] == [tick] + rest[..|rest| - 1];
      LastHitPrepend(tick, rest[..|rest| - 1], key);
    } else {
      assert [tick] + rest == [tick];
    }
  }

  /** After a run of events that was not cut short, `KEY_MAP` holds for each
      key the state and time of its last event, and keys without events keep
      their old record. */
  lemma {:induction false} ReplayKeys(t: Table, e: Engine, ticks: seq<Tick>, debug: bool, key: string)
    requires Replay(t, e, ticks, debug).halted.None?
    ensures Get(Replay(t, e, ticks, debug).engine.keys, key)
      == if LastHit(ticks, key).Some? then LastHit(ticks, key) else Get(e.keys, key)
    decreases |ticks|
  {
    if |ticks| > 0 {
      var r := HandleKey(t, e, ticks[0].event, ticks[0].now, debug);
      var e' := r.value.0;
      ReplayKeys(t, e', ticks[1..], debug, key);
      assert ticks == [ticks[0]] + ticks[1..];
      LastHitPrepend(ticks[0], ticks[1..], key);
      assert [ticks[0]][..0] == [];
    }
  }
}
