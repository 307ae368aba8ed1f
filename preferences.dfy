/**
 * The preferences container of Preferences.kt: a string-keyed map whose values are
 * booleans, 32-bit ints, 64-bit longs, floats, strings and string sets.
 *
 * `MapPreferences` wraps a read-only map, `MapMutablePreferences` a map it edits in
 * place; the `Preferences` datatype stands for the Kotlin interface both implement.
 */
module PreferencesStore {
  import opened Wrappers

  /** A Kotlin `Int`. */
  newtype int32 = x: int | -0x8000_0000 <= x < 0x8000_0000

  /** A Kotlin `Float`, kept as its IEEE 754 bit pattern; nothing here computes with it. */
  datatype Float32 = Float32(bits: bv32)

  /**
   * A stored value. The Kotlin map is `Map<String, Any>` and `set` takes any `T`, so
   * besides the six supported kinds a map may hold some other object (`OtherValue`).
   * A `Long` is kept as its 64-bit two's-complement pattern.
   */
  datatype Value =
    | BooleanValue(boolean: bool)
    | IntValue(i: int32)
    | LongValue(bits: bv64)
    | FloatValue(float: Float32)
    | StringValue(str: string)
    | StringSetValue(strings: set<string>)
    | OtherValue(description: string)

  /** The map `m` after `set(key, value)`: a null value removes the key. */
  function Assign(m: map<string, Value>, key: string, value: Option<Value>): (r: map<string, Value>)
    ensures value.Some? ==> key in r && r[key] == value.value
    ensures value.None? ==> key !in r
    ensures forall k :: k != key ==> (k in r <==> k in m)
    ensures forall k :: k in r && k != key ==> r[k] == m[k]
  {
    if value.Some? then m[key := value.value] else m - {key}
  }

  /** `MapPreferences`: a read-only view of a map. */
  class MapPreferences {
    const entries: map<string, Value>

    constructor (entries: map<string, Value>)
      ensures this.entries == entries
    {
      this.entries := entries;
    }

    /** `get`: the stored value, cast without any check of its kind. */
    function Get(key: string): (r: Option<Value>)
      ensures r.None? <==> key !in entries
      ensures r.Some? ==> r.value == entries[key]
    {
      if key in entries then Some(entries[key]) else None
    }

    /** `asMap`: the wrapped map. */
    function AsMap(): (r: map<string, Value>)
      ensures forall key :: key in r <==> Get(key).Some?
      ensures forall key :: key in r ==> Get(key) == Some(r[key])
    {
      entries
    }

    /** `toMutablePreferences`: an editable copy of the map. */
    method ToMutablePreferences() returns (copy: MapMutablePreferences)
      ensures fresh(copy)
      ensures copy.entries == entries
    {
      copy := new MapMutablePreferences(entries);
    }
  }

  /** `MapMutablePreferences`: a map edited in place. */
  class MapMutablePreferences {
    var entries: map<string, Value>

    constructor (entries: map<string, Value>)
      ensures this.entries == entries
    {
      this.entries := entries;
    }

    /** `get`: the stored value, cast without any check of its kind. */
    function Get(key: string): (r: Option<Value>)
      reads this
      ensures r.None? <==> key !in entries
      ensures r.Some? ==> r.value == entries[key]
    {
      if key in entries then Some(entries[key]) else None
    }

    /** `asMap`: the backing map itself, so it shows every later edit. */
    function AsMap(): (r: map<string, Value>)
      reads this
      ensures forall key :: key in r <==> Get(key).Some?
      ensures forall key :: key in r ==> Get(key) == Some(r[key])
    {
      entries
    }

    /** `toMutablePreferences`: a copy that later edits on either side do not share. */
    method ToMutablePreferences() returns (copy: MapMutablePreferences)
      ensures fresh(copy)
      ensures copy.entries == entries
    {
      copy := new MapMutablePreferences(entries);
    }

    /** `set`: a present value replaces the entry, a null one removes it. */
    method Set(key: string, value: Option<Value>)
      modifies this
      ensures entries == Assign(old(entries), key, value)
    {
      if value.Some? {
        entries := entries[key := value.value];
      } else {
        entries := entries - {key};
      }
    }

    /** `remove`: the interface's default, `set(key, null)`. */
    method Remove(key: string)
      modifies this
      ensures entries == Assign(old(entries), key, None)
    {
      Set(key, None);
    }

    /** `minusAssign` (`prefs -= key`): the interface's default, `remove(key)`. */
    method MinusAssign(key: string)
      modifies this
      ensures entries == Assign(old(entries), key, None)
    {
      Remove(key);
    }

    /** `clear`: drops every entry. */
    method Clear()
      modifies this
      ensures entries == map[]
    {
      entries := map[];
    }
  }

  /** The Kotlin `Preferences` interface, closed over its two implementations. */
  datatype Preferences = Immutable(immutable: MapPreferences) | Mutable(mutable: MapMutablePreferences)
  {
    /** The object behind this reference. */
    function Object(): object
    {
      if Immutable? then immutable else mutable
    }

    /** `asMap`. */
    function AsMap(): (r: map<string, Value>)
      reads Object()
      ensures Immutable? ==> r == immutable.AsMap()
      ensures Mutable? ==> r == mutable.AsMap()
    {
      if Immutable? then immutable.AsMap() else mutable.AsMap()
    }

    /** `get`, dispatched to the implementation. */
    function Get(key: string): (r: Option<Value>)
      reads Object()
      ensures r.None? <==> key !in AsMap()
      ensures r.Some? ==> r.value == AsMap()[key]
    {
      if Immutable? then immutable.Get(key) else mutable.Get(key)
    }

    /** `toMutablePreferences`, dispatched to the implementation. */
    method ToMutablePreferences() returns (copy: MapMutablePreferences)
      ensures fresh(copy)
      ensures copy.entries == AsMap()
    {
      if Immutable? {
        copy := immutable.ToMutablePreferences();
      } else {
        copy := mutable.ToMutablePreferences();
      }
    }

    /** `toPreferences`: the interface's default, a fresh `toMutablePreferences()` copy. */
    method ToPreferences() returns (p: Preferences)
      ensures fresh(p.Object())
      ensures p.AsMap() == AsMap()
    {
      var copy := ToMutablePreferences();
      p := Mutable(copy);
    }
  }

  /** `set(key, null)` after `set(key, v)` restores the map as it was when `key` was absent. */
  lemma SetThenRemove(m: map<string, Value>, key: string, v: Value)
    requires key !in m
    ensures Assign(Assign(m, key, Some(v)), key, None) == m
  {
  }

  /** Edits to different keys commute, so the order of insertion does not matter. */
  lemma SetsCommute(m: map<string, Value>, k1: string, v1: Option<Value>, k2: string, v2: Option<Value>)
    requires k1 != k2
    ensures Assign(Assign(m, k1, v1), k2, v2) == Assign(Assign(m, k2, v2), k1, v1)
  {
  }
}
