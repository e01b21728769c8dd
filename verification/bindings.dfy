/** The binding table (`KEY_CALLBACK_MAP`): layer name -> key name ->
    key state -> one action, and `assignKey`, which fills it. */
module Bindings {
  import opened Results

  /** The layer every run starts in and the one `run` actions and popped
      layer blocks return to. */
  const DefaultLayer: string := "default"

  /** The three transitions evdev reports for a key. */
  datatype KeyState = KeyUp | KeyDown | KeyHold {
    /** The integer constants `KEY_UP`, `KEY_DOWN` and `KEY_HOLD`. */
    function Value(): int {
      match this
      case KeyUp => 0
      case KeyDown => 1
      case KeyHold => 2
    }
  }

  /** Event names accepted in a bind line (`KEYEVENT_REMAP`); case-sensitive. */
  const KeyEventRemap: map<string, KeyState> :=
    map["ON_PRESS" := KeyDown, "ON_RELEASE" := KeyUp, "ON_HOLD" := KeyHold]

  /** `KEYEVENT_REMAP` sends `ON_PRESS` to `KEY_DOWN` (1), `ON_RELEASE` to
      `KEY_UP` (0) and `ON_HOLD` to `KEY_HOLD` (2), and distinct states carry
      distinct constants. */
  lemma KeyEventRemapValues()
    ensures KeyEventRemap["ON_PRESS"].Value() == 1
    ensures KeyEventRemap["ON_RELEASE"].Value() == 0
    ensures KeyEventRemap["ON_HOLD"].Value() == 2
    ensures forall s: KeyState, s': KeyState :: s.Value() == s'.Value() ==> s == s'
  {
  }

  /** What a bind does when it fires: inject a key, launch a shell command, or
      switch the current layer. */
  datatype Action = Key(code: string) | Run(command: string) | Layer(name: string)

  /** Binds that add to the loaded-bind count: `key` and `run`, not `layer`. */
  predicate Counted(a: Action) {
    a.Key? || a.Run?
  }

  type Table = map<string, map<string, map<KeyState, Action>>>

  /** The action bound to (layer, key, state), if any. */
  function Lookup(t: Table, layer: string, key: string, state: KeyState): Option<Action> {
    if layer in t && key in t[layer] && state in t[layer][key]
    then Some(t[layer][key][state])
    else None
  }

  /** The exception `assignKey` raises for a triple that is already bound. */
  datatype BindError = AlreadyBound(state: KeyState, key: string)

  /** `assignKey`: creates the layer and key entries on demand, refuses a triple
      that is already bound, and otherwise binds the triple to `a`. */
  function AssignKey(t: Table, layer: string, key: string, state: KeyState, a: Action)
    : (r: Result<Table, BindError>)
    ensures r.Failure? <==> Lookup(t, layer, key, state).Some?
    ensures r.Failure? ==> r.error == AlreadyBound(state, key)
    ensures r.Success? ==> Lookup(r.value, layer, key, state) == Some(a)
    ensures r.Success? ==> forall l, k, s :: (l, k, s) != (layer, key, state) ==>
      Lookup(r.value, l, k, s) == Lookup(t, l, k, s)
    ensures r.Success? ==> r.value.Keys == t.Keys + {layer}
  {
    var t1 := if layer in t then t else t[layer := map[]];
    if key in t1[layer] then
      if state in t1[layer][key] then Failure(AlreadyBound(state, key))
      else Success(t1[layer := t1[layer][key := t1[layer][key][state := a]]])
    else
      var t2 := t1[layer := t1[layer][key := map[]]];
      Success(t2[layer := t2[layer][key := t2[layer][key][state := a]]])
  }

  /** Every bound triple of the table whose action adds to the bind count. */
  ghost function CountedBinds(t: Table): set<(string, string, KeyState)> {
    set l, k, s | l in t && k in t[l] && s in t[l][k] && Counted(t[l][k][s]) :: (l, k, s)
  }

  lemma CountedBindsByLookup(t: Table, l: string, k: string, s: KeyState)
    ensures (l, k, s) in CountedBinds(t) <==> Lookup(t, l, k, s).Some? && Counted(Lookup(t, l, k, s).value)
  {
  }

  /** A successful `assignKey` adds exactly the new triple to the counted
      binds when its action is counted, and nothing otherwise. */
  lemma AssignKeyCount(t: Table, layer: string, key: string, state: KeyState, a: Action)
    requires AssignKey(t, layer, key, state, a).Success?
    ensures |CountedBinds(AssignKey(t, layer, key, state, a).value)|
      == |CountedBinds(t)| + (if Counted(a) then 1 else 0)
  {
    var t' := AssignKey(t, layer, key, state, a).value;
    var x := (layer, key, state);
    var extra: set<(string, string, KeyState)> := if Counted(a) then {x} else {};
    forall y: (string, string, KeyState)
      ensures y in CountedBinds(t') <==> y in CountedBinds(t) + extra
    {
      CountedBindsByLookup(t', y.0, y.1, y.2);
      CountedBindsByLookup(t, y.0, y.1, y.2);
    }
    assert CountedBinds(t') == CountedBinds(t) + extra;
    CountedBindsByLookup(t, layer, key, state);
    assert x !in CountedBinds(t);
  }
}
