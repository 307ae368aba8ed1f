/**
 * The per-key binding of PreferenceState.kt: `rememberPreferenceState(key, defaultValue, flow)`.
 *
 * The flow is one shared cell holding the current `Preferences` snapshot. The binding
 * shows `snapshot[key] ?: defaultValue` for the snapshots the flow emits, and a write
 * publishes an edited copy of the snapshot current at write time.
 */
module PreferenceState {
  import opened Wrappers
  import opened PreferencesStore

  /** The `MutableStateFlow<Preferences>`: a cell holding the current snapshot. */
  class PreferenceFlow {
    var value: Preferences

    constructor (initial: Preferences)
      ensures value == initial
    {
      value := initial;
    }
  }

  /**
   * `it[key] ?: defaultValue`: the value the binding shows for a snapshot. A nullable
   * `T` is modelled by an optional default.
   */
  function Project(snapshot: map<string, Value>, key: string, defaultValue: Option<Value>): (r: Option<Value>)
    ensures key in snapshot ==> r == Some(snapshot[key])
    ensures key !in snapshot ==> r == defaultValue
  {
    if key in snapshot then Some(snapshot[key]) else defaultValue
  }

  /** The `MutableState<T>` that `rememberPreferenceState` returns (`AsMutableState`). */
  class PreferenceState {
    const key: string
    const defaultValue: Option<Value>
    const flow: PreferenceFlow
    /** The collected state's value: what the getter and `component1` return. */
    var value: Option<Value>

    /** Collection starts from `flow.value[key] ?: defaultValue`. */
    constructor (key: string, defaultValue: Option<Value>, flow: PreferenceFlow)
      ensures this.key == key && this.defaultValue == defaultValue && this.flow == flow
      ensures value == Project(flow.value.AsMap(), key, defaultValue)
    {
      this.key := key;
      this.defaultValue := defaultValue;
      this.flow := flow;
      value := Project(flow.value.AsMap(), key, defaultValue);
    }

    /** The flow emits its current snapshot and the collector maps it. */
    method Collect()
      modifies this
      ensures value == Project(flow.value.AsMap(), key, defaultValue)
    {
      value := Project(flow.value.AsMap(), key, defaultValue);
    }

    /**
     * The setter (and the callback `component2` returns): copy the current snapshot,
     * set the key on the copy and publish the copy. The shown value changes only when
     * the new snapshot is collected.
     */
    method SetValue(newValue: Option<Value>)
      modifies flow
      ensures fresh(flow.value.Object())
      ensures flow.value.AsMap() == Assign(old(flow.value.AsMap()), key, newValue)
      ensures unchanged(old(flow.value).Object())
      ensures value == old(value)
    {
      var copy := flow.value.ToMutablePreferences();
      copy.Set(key, newValue);
      flow.value := Mutable(copy);
    }
  }

  /** After writing `v`, the binding reads `v` back. */
  lemma ReadAfterWrite(snapshot: map<string, Value>, key: string, v: Value, defaultValue: Option<Value>)
    ensures Project(Assign(snapshot, key, Some(v)), key, defaultValue) == Some(v)
  {
  }

  /** Writing null removes the key, so the binding falls back to its default. */
  lemma ReadAfterRemove(snapshot: map<string, Value>, key: string, defaultValue: Option<Value>)
    ensures Project(Assign(snapshot, key, None), key, defaultValue) == defaultValue
  {
  }

  /** A write to one key leaves what a binding on any other key shows unchanged. */
  lemma WriteLeavesOtherKeys(snapshot: map<string, Value>, key: string, v: Option<Value>, other: string, defaultValue: Option<Value>)
    requires other != key
    ensures Project(Assign(snapshot, key, v), other, defaultValue) == Project(snapshot, other, defaultValue)
  {
  }

  /**
   * Two bindings on the store: each write goes to the snapshot current at write time,
   * so a write through one binding does not undo an earlier write through another.
   */
  method TwoBindings(flow: PreferenceFlow, a: PreferenceState, b: PreferenceState, va: Value, vb: Value)
    requires a.flow == flow && b.flow == flow && a.key != b.key
    modifies flow, a, b
    ensures a.value == Some(va) && b.value == Some(vb)
    ensures flow.value.AsMap() == old(flow.value.AsMap())[a.key := va][b.key := vb]
  {
    a.SetValue(Some(va));
    b.SetValue(Some(vb));
    a.Collect();
    b.Collect();
  }
}
