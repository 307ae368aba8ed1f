# ComposePreference core, modelled in Dafny

This project models the logic of the ComposePreference library that is not rendering:

- **The preferences container** (`Preferences.kt`). It is a string-keyed map over six
  value kinds: Boolean, Int, Long, Float, String and a set of Strings.
  - `MapPreferences` is a read-only view.
  - `MapMutablePreferences` edits its map in place.
  - `toMutablePreferences` and `toPreferences` make independent copies.
- **The string-blob codec** (`PreferencesJson.kt`). It is modelled at the level of JSON elements.
  - Every entry becomes a `{"type", "value"}` object.
  - A Long travels as its two signed 32-bit words.
  - Decoding is all or nothing.
- **The per-key binding** `rememberPreferenceState` (`PreferenceState.kt`).
  - A read is `snapshot[key] ?: defaultValue`.
  - A write publishes an edited copy of the snapshot that is current at write time.
- **The edit state machines of four widgets:**
  - the multi-select dialog, which commits a staged set only on OK;
  - the text-field dialog, which commits only text that parses;
  - the list selector, which commits the chosen entry and closes;
  - the slider, in both the multiplatform module and the older Android module. A drag moves only the slider, finishing commits the latest dragged value, and the slider is resynchronised when a composition sees a committed value other than `lastValue`, the value it last synchronised to.

Modules, one per file:
- `Wrappers` (`Option`, `Result`)
- `PreferencesStore`
- `PreferencesJson`
- `PreferenceState`
- `MultiSelectListPreference`
- `TextFieldPreference`
- `ListPreference`
- `SliderPreference`
- `LibrarySliderPreference`

Each widget is a class over an abstract value type `T`, and models the state-based overload.
- `value` is the state.
- Every `onValueChange` call is recorded in `committed`, and it also assigns `value`, as the overload's `{ value = it }` does.
- Clicks on a disabled preference do nothing.

The slider's events are specified by transition functions on a `SliderSnapshot`. Both slider classes are proved against those functions.

Modelling choices:
- A `Long` is stored as its 64-bit pattern (`bv64`).
- A `Float` is an opaque 32-bit pattern.
- `OtherValue` stands for any object outside the six kinds. The Kotlin map is `Map<String, Any>`, and `set` accepts any `T`.

Three behaviours of the code are worth stating plainly:
- **Decoding is all or nothing.** The whole blob fails rather than dropping the bad key. Any of these entries causes it:
  - an unknown tag (`ValueType.valueOf` throws);
  - a missing `type` or `value` field (`requireNotNull` throws);
  - a tag or set element that is not a JSON string.

  `UnknownTagFailsWholeBlob` and `NonStringSetElementFailsWholeBlob` exhibit this.
- **`get` does not check the stored kind.** It casts, so it returns whatever is stored under the key.
- **The slider can be left showing a rejected value.** It resynchronises only when a composition sees a committed value other than `lastValue`. Suppose a drag is finished and committed, and the caller writes the old value back before the next composition, for example to reject it. The value is then equal to `lastValue` again, so the slider keeps showing the dragged value. `WriteBackLeavesSliderStale` exhibits this.

## Model

| member | source | states |
|---|---|---|
| `PreferencesStore.Assign` | preference/src/commonMain/kotlin/Preferences.kt:61-67 | the map after `set(key, value)`: a non-null value is stored under the key, a null one removes the key, and every other key keeps its presence and entry |
| `PreferencesStore.MapPreferences.constructor` | preference/src/commonMain/kotlin/Preferences.kt:29 | the view wraps exactly the given map |
| `PreferencesStore.MapPreferences.Get` | preference/src/commonMain/kotlin/Preferences.kt:30 | `get` is null exactly for absent keys; for a present key it is the stored value, whatever its kind |
| `PreferencesStore.MapPreferences.AsMap` | preference/src/commonMain/kotlin/Preferences.kt:32 | `asMap` has exactly the keys `get` finds, with the values `get` returns |
| `PreferencesStore.MapPreferences.ToMutablePreferences` | preference/src/commonMain/kotlin/Preferences.kt:34-35 | the copy is a new object with the same entries |
| `PreferencesStore.MapMutablePreferences.constructor` | preference/src/commonMain/kotlin/Preferences.kt:52-53 | the mutable map starts with exactly the given entries |
| `PreferencesStore.MapMutablePreferences.Get` | preference/src/commonMain/kotlin/Preferences.kt:54 | null exactly for absent keys, otherwise the stored value with no kind check |
| `PreferencesStore.MapMutablePreferences.AsMap` | preference/src/commonMain/kotlin/Preferences.kt:56 | `asMap` gives the current entries, so a fresh call shows every earlier edit, and it agrees with `get` |
| `PreferencesStore.MapMutablePreferences.ToMutablePreferences` | preference/src/commonMain/kotlin/Preferences.kt:58-59 | the copy is a new object with the same entries, so later edits of either side leave the other alone |
| `PreferencesStore.MapMutablePreferences.Set` | preference/src/commonMain/kotlin/Preferences.kt:61-67 | the new entries are `Assign(old entries, key, value)`: set or remove that key, every other entry unchanged |
| `PreferencesStore.MapMutablePreferences.Remove` | preference/src/commonMain/kotlin/Preferences.kt:41-43 | `remove(key)` has exactly the effect of `set(key, null)` |
| `PreferencesStore.MapMutablePreferences.MinusAssign` | preference/src/commonMain/kotlin/Preferences.kt:45-47 | `prefs -= key` has exactly the effect of `remove(key)` |
| `PreferencesStore.MapMutablePreferences.Clear` | preference/src/commonMain/kotlin/Preferences.kt:69-71 | after `clear` the map has no keys |
| `PreferencesStore.Preferences.AsMap` | preference/src/commonMain/kotlin/Preferences.kt:22 | `asMap` through the interface is the implementation's own `asMap`, whichever implementation it is |
| `PreferencesStore.Preferences.Get` | preference/src/commonMain/kotlin/Preferences.kt:20 | through the interface, `get` is null exactly for keys absent from `asMap`, else the entry |
| `PreferencesStore.Preferences.ToMutablePreferences` | preference/src/commonMain/kotlin/Preferences.kt:26 | either implementation returns a new mutable object holding the same entries |
| `PreferencesStore.Preferences.ToPreferences` | preference/src/commonMain/kotlin/Preferences.kt:24 | `toPreferences` returns a new object with the same entries |
| `PreferencesStore.SetThenRemove` | preference/src/commonMain/kotlin/Preferences.kt:61-66 | setting an absent key and then setting it to null restores the original map |
| `PreferencesStore.SetsCommute` | preference/src/commonMain/kotlin/Preferences.kt:61-66 | edits to two different keys commute |
| `PreferencesJson.Name` | preference/src/nonAndroidAppleMain/kotlin/PreferencesJson.kt:78 | the tag written for each kind is its enum constant's name (lines 128-135), a different name for each of the six tags |
| `PreferencesJson.ValueOf` | preference/src/nonAndroidAppleMain/kotlin/PreferencesJson.kt:128-135 | `valueOf` finds the tag whose name is the string, and fails exactly when no tag has that name |
| `PreferencesJson.ValueOfName` | preference/src/nonAndroidAppleMain/kotlin/PreferencesJson.kt:128-135 | `valueOf(t.name) == t` for all six tags |
| `PreferencesJson.HighBits` | preference/src/nonAndroidAppleMain/kotlin/PreferencesJson.kt:60 | `(v ushr 32).toInt()`: its 32-bit pattern is bits 32 to 63 of the Long |
| `PreferencesJson.LowBits` | preference/src/nonAndroidAppleMain/kotlin/PreferencesJson.kt:61 | `v.toInt()`: its 32-bit pattern is bits 0 to 31 of the Long |
| `PreferencesJson.JoinBits` | preference/src/nonAndroidAppleMain/kotlin/PreferencesJson.kt:104 | `(hi.toLong() shl 32) or (lo.toLong() and 0xFFFFFFFF)`: the high and low words of the result are the patterns of `hi` and `lo`, whatever their signs |
| `PreferencesJson.JoinWords` | preference/src/nonAndroidAppleMain/kotlin/PreferencesJson.kt:104 | the same join on 32-bit patterns, with `toLong()` as sign extension; its words are the two patterns |
| `PreferencesJson.TypeOf` | preference/src/nonAndroidAppleMain/kotlin/PreferencesJson.kt:43-76 | the `when (value)` classification: it has no tag exactly for a value outside the six kinds |
| `PreferencesJson.Tagged` | preference/src/nonAndroidAppleMain/kotlin/PreferencesJson.kt:77-80 | the entry object has exactly the fields "type" and "value": the tag's name and the payload |
| `PreferencesJson.LongPayload` | preference/src/nonAndroidAppleMain/kotlin/PreferencesJson.kt:58-64 | a Long is written as an array of two numbers, which the Long branch of decoding reads back as the same Long |
| `PreferencesJson.LongSplitRoundTrip` | preference/src/nonAndroidAppleMain/kotlin/PreferencesJson.kt:100-105 | for every 64-bit Long, including negatives and 2^32, `(hi.toLong() shl 32) or (lo.toLong() and 0xFFFFFFFF)` on the words `(v ushr 32).toInt()` and `v.toInt()` gives `v` back |
| `PreferencesJson.HighBitsSign` | preference/src/nonAndroidAppleMain/kotlin/PreferencesJson.kt:60 | the high word is negative exactly when the Long is |
| `PreferencesJson.LongSplitExamples` | preference/src/nonAndroidAppleMain/kotlin/PreferencesJson.kt:60-61 | 2^32 splits into (1, 0), -1 into (-1, -1) and 2^31 into (0, -2^31) |
| `PreferencesJson.EncodedEntryShape` | preference/src/nonAndroidAppleMain/kotlin/PreferencesJson.kt:77-81 | every encoded entry is an object with exactly the fields "type" and "value", and its "type" is the name of its value's kind |
| `PreferencesJson.EncodeStringSet` | preference/src/nonAndroidAppleMain/kotlin/PreferencesJson.kt:69-74 | a string set becomes an array of JSON strings, one per member, with none repeated and nothing else |
| `PreferencesJson.EncodeValue` | preference/src/nonAndroidAppleMain/kotlin/PreferencesJson.kt:43-80 | the encoding of one value fails exactly for a value outside the six kinds, with an error naming that value; otherwise it is that value's tagged entry |
| `PreferencesJson.EncodeEntries` | preference/src/nonAndroidAppleMain/kotlin/PreferencesJson.kt:39-83 | encoding a map succeeds exactly when every value is of a supported kind, and then yields one tagged entry under each key and no other key; a failure names an unsupported value in the map |
| `PreferencesJson.EncodeToString` | preference/src/nonAndroidAppleMain/kotlin/PreferencesJson.kt:37-84 | `encodeToString` encodes exactly `preferences.asMap()`, with the same success condition |
| `PreferencesJson.AsString` | preference/src/nonAndroidAppleMain/kotlin/PreferencesJson.kt:122-126 | `.string` succeeds exactly on a JSON string, and gives its content |
| `PreferencesJson.AsBoolean` | preference/src/nonAndroidAppleMain/kotlin/PreferencesJson.kt:98 | `.boolean` succeeds exactly on a JSON boolean, and gives it |
| `PreferencesJson.AsInt` | preference/src/nonAndroidAppleMain/kotlin/PreferencesJson.kt:99 | `.int` succeeds exactly on an integer number within 32 bits, and gives it |
| `PreferencesJson.AsFloat` | preference/src/nonAndroidAppleMain/kotlin/PreferencesJson.kt:106 | `.float` succeeds exactly on a float number, and gives it |
| `PreferencesJson.AsStringSet` | preference/src/nonAndroidAppleMain/kotlin/PreferencesJson.kt:108-112 | reading a set succeeds exactly when every element is a JSON string, and the set holds exactly those strings |
| `PreferencesJson.DecodeLong` | preference/src/nonAndroidAppleMain/kotlin/PreferencesJson.kt:100-105 | a Long payload decodes exactly when it is an array whose first two items are 32-bit ints (extra items ignored), to the join of the two words |
| `PreferencesJson.DecodePayload` | preference/src/nonAndroidAppleMain/kotlin/PreferencesJson.kt:96-113 | for each tag, decoding succeeds exactly when that tag's accessor accepts the payload, and gives the accessor's result as a value of that kind: Boolean, Int, Float and String read the primitive; Long reads the two-word array; StringSet needs an array whose every item is a JSON string and gives exactly those strings |
| `PreferencesJson.DecodeEntry` | preference/src/nonAndroidAppleMain/kotlin/PreferencesJson.kt:90-113 | one entry fails in each case: it is not an object; "type" is missing; "type" is not a string; "type" names no kind; "value" is missing. Otherwise the entry decodes exactly as its payload under its tag, whatever other fields it has |
| `PreferencesJson.DecodeEntries` | preference/src/nonAndroidAppleMain/kotlin/PreferencesJson.kt:88-116 | decoding the blob succeeds exactly when every entry decodes, and then maps each key to its decoded entry; a failure is the failure of some entry; a non-object fails outright |
| `PreferencesJson.DecodeFromString` | preference/src/nonAndroidAppleMain/kotlin/PreferencesJson.kt:86-117 | `decodeFromString` returns a new `MapPreferences` over the decoded map, under the same success condition |
| `PreferencesJson.StringArrayDecodes` | preference/src/nonAndroidAppleMain/kotlin/PreferencesJson.kt:108-112 | an encoded string array reads back as exactly the set it came from |
| `PreferencesJson.DecodeTagged` | preference/src/nonAndroidAppleMain/kotlin/PreferencesJson.kt:91-95 | a `{type, value}` object decodes as its payload under its tag |
| `PreferencesJson.DecodeLongPayload` | preference/src/nonAndroidAppleMain/kotlin/PreferencesJson.kt:58-64 | the two-word payload written for a Long decodes to the same Long |
| `PreferencesJson.DecodeEncodedValue` | preference/src/nonAndroidAppleMain/kotlin/PreferencesJson.kt:96-113 | every encoded entry decodes back to the value it was written for, for all six kinds |
| `PreferencesJson.RoundTrip` | preference/src/nonAndroidAppleMain/kotlin/PreferencesJson.kt:89-114 | decoding an encoded map succeeds and gives back the same key set and the same value under each key |
| `PreferencesJson.NonStringSetElementFailsWholeBlob` | preference/src/nonAndroidAppleMain/kotlin/PreferencesJson.kt:108-112 | a blob whose `StringSet` entry holds a number among its strings does not decode at all, good entries included |
| `PreferencesJson.ExtraFieldIgnored` | preference/src/nonAndroidAppleMain/kotlin/PreferencesJson.kt:90-95 | an entry with an extra field besides "type" and "value" still decodes, to the value its tag and payload give |
| `PreferencesJson.UnknownTagFailsWholeBlob` | preference/src/nonAndroidAppleMain/kotlin/PreferencesJson.kt:91-94 | a blob with three good entries and one tagged "Double" does not decode at all |
| `PreferenceState.PreferenceFlow.constructor` | preference/src/commonMain/kotlin/PreferenceState.kt:32 | the `MutableStateFlow<Preferences>` is a cell that starts at the given snapshot; writes replace its `value` |
| `PreferenceState.Project` | preference/src/commonMain/kotlin/PreferenceState.kt:34 | the binding shows the snapshot's entry when the key is present, else the default |
| `PreferenceState.PreferenceState.constructor` | preference/src/commonMain/kotlin/PreferenceState.kt:35 | the initial value is `flow.value[key] ?: defaultValue` |
| `PreferenceState.PreferenceState.Collect` | preference/src/commonMain/kotlin/PreferenceState.kt:34 | for each emitted snapshot the shown value is `snapshot[key] ?: defaultValue` |
| `PreferenceState.PreferenceState.SetValue` | preference/src/commonMain/kotlin/PreferenceState.kt:37 | a write publishes a new snapshot object: the snapshot current at write time with the key set or removed. The previous snapshot object is untouched, and the shown value waits for collection |
| `PreferenceState.ReadAfterWrite` | preference/src/commonMain/kotlin/PreferenceState.kt:34-37 | after writing `v`, the binding shows `v` |
| `PreferenceState.ReadAfterRemove` | preference/src/commonMain/kotlin/PreferenceState.kt:34-37 | after writing null, the binding shows its default |
| `PreferenceState.WriteLeavesOtherKeys` | preference/src/commonMain/kotlin/PreferenceState.kt:37 | a write leaves what a binding on any other key shows unchanged |
| `PreferenceState.TwoBindings` | preference/src/commonMain/kotlin/PreferenceState.kt:37 | writes through two bindings on different keys both survive, because each edits the snapshot current at write time |
| `MultiSelectListPreference.ItemChecked` | preference/src/commonMain/kotlin/MultiSelectListPreference.kt:190 | an item renders checked exactly when it is in the staged set (a definition, used by `Toggle`) |
| `MultiSelectListPreference.MultiSelectListPreference.constructor` | preference/src/commonMain/kotlin/MultiSelectListPreference.kt:130 | the dialog starts closed, with nothing committed |
| `MultiSelectListPreference.MultiSelectListPreference.Click` | preference/src/commonMain/kotlin/MultiSelectListPreference.kt:137-141 | a click on an enabled preference opens the dialog, and a newly opened dialog stages the current value |
| `MultiSelectListPreference.MultiSelectListPreference.Toggle` | preference/src/commonMain/kotlin/MultiSelectListPreference.kt:164-167 | toggling adds the item to or removes it from the staged set; the item renders checked exactly as toggled, every other item keeps its mark, and nothing is committed |
| `MultiSelectListPreference.MultiSelectListPreference.Ok` | preference/src/commonMain/kotlin/MultiSelectListPreference.kt:149-153 | OK calls `onValueChange` with the staged set, which becomes the state's value, then closes the dialog |
| `MultiSelectListPreference.MultiSelectListPreference.Cancel` | preference/src/commonMain/kotlin/MultiSelectListPreference.kt:146 | Cancel closes the dialog without committing |
| `MultiSelectListPreference.MultiSelectListPreference.Dismiss` | preference/src/commonMain/kotlin/MultiSelectListPreference.kt:143 | dismissing closes the dialog without committing |
| `MultiSelectListPreference.MultiSelectListPreference.Recompose` | preference/src/commonMain/kotlin/MultiSelectListPreference.kt:141 | the state changing from elsewhere does not disturb an open dialog's staged set |
| `MultiSelectListPreference.OpenThenOk` | preference/src/commonMain/kotlin/MultiSelectListPreference.kt:137-153 | opening and pressing OK without toggling commits the value unchanged |
| `MultiSelectListPreference.ToggleThenCancel` | preference/src/commonMain/kotlin/MultiSelectListPreference.kt:143-167 | toggles never reach `onValueChange` when the dialog is then cancelled |
| `TextFieldPreference.InitialDialogText` | library/src/main/java/me/zhanghai/compose/preference/TextFieldPreference.kt:142-143 | the opening text is the value's text, with the cursor collapsed after its last character |
| `TextFieldPreference.TextFieldPreference.constructor` | library/src/main/java/me/zhanghai/compose/preference/TextFieldPreference.kt:129 | the dialog starts closed, with nothing committed |
| `TextFieldPreference.TextFieldPreference.Click` | library/src/main/java/me/zhanghai/compose/preference/TextFieldPreference.kt:136-144 | a click on an enabled preference opens the dialog; a newly opened dialog shows `valueToText(value)` with the cursor at the end |
| `TextFieldPreference.TextFieldPreference.Edit` | library/src/main/java/me/zhanghai/compose/preference/TextFieldPreference.kt:169 | a field edit replaces the staged text and nothing else |
| `TextFieldPreference.TextFieldPreference.Ok` | library/src/main/java/me/zhanghai/compose/preference/TextFieldPreference.kt:145-151 | OK on text that parses commits the parsed value and closes the dialog; OK on text that does not parse commits nothing and leaves the dialog open |
| `TextFieldPreference.TextFieldPreference.KeyboardAction` | library/src/main/java/me/zhanghai/compose/preference/TextFieldPreference.kt:187 | the default field's keyboard action has exactly the effect of OK |
| `TextFieldPreference.TextFieldPreference.Cancel` | library/src/main/java/me/zhanghai/compose/preference/TextFieldPreference.kt:156 | Cancel closes the dialog without committing |
| `TextFieldPreference.TextFieldPreference.Dismiss` | library/src/main/java/me/zhanghai/compose/preference/TextFieldPreference.kt:153 | dismissing closes the dialog without committing |
| `TextFieldPreference.OpenThenOk` | library/src/main/java/me/zhanghai/compose/preference/TextFieldPreference.kt:140-151 | when parsing inverts formatting for the value, opening and pressing OK commits the value unchanged |
| `TextFieldPreference.RejectThenCorrect` | library/src/main/java/me/zhanghai/compose/preference/TextFieldPreference.kt:145-169 | a rejected text keeps the dialog open for correction; OK on a corrected text then commits it |
| `ListPreference.DefaultItem` | preference/src/main/java/me/zhanghai/compose/preference/ListPreference.kt:208-219 | the default renderer is the dialog item exactly for the alert-dialog type, and the dropdown item exactly for the dropdown type |
| `ListPreference.ItemSelected` | preference/src/main/java/me/zhanghai/compose/preference/ListPreference.kt:228 | a dialog item is selected, and a dropdown item highlighted (line 259), exactly when it equals the current value (a definition, used by `OfferedItems`) |
| `ListPreference.ListPreference.constructor` | preference/src/main/java/me/zhanghai/compose/preference/ListPreference.kt:143 | the selector starts closed, with nothing committed |
| `ListPreference.ListPreference.Click` | preference/src/main/java/me/zhanghai/compose/preference/ListPreference.kt:197-199 | a click on an enabled preference opens the selector |
| `ListPreference.ListPreference.OfferedItems` | preference/src/main/java/me/zhanghai/compose/preference/ListPreference.kt:162-185 | every entry of `values` is offered in list order with the type's default renderer, and is marked selected (radio button or highlight) exactly when it equals the current value |
| `ListPreference.ListPreference.Choose` | preference/src/main/java/me/zhanghai/compose/preference/ListPreference.kt:163-166 | choosing an entry, in either selector type, calls `onValueChange` with it, which becomes the value, then closes the selector |
| `ListPreference.ListPreference.Cancel` | preference/src/main/java/me/zhanghai/compose/preference/ListPreference.kt:152 | the dialog's Cancel closes it without committing |
| `ListPreference.ListPreference.Dismiss` | preference/src/main/java/me/zhanghai/compose/preference/ListPreference.kt:149 | dismissing the dialog or the dropdown closes it without committing |
| `ListPreference.ChooseThenReopen` | preference/src/main/java/me/zhanghai/compose/preference/ListPreference.kt:162-199 | after choosing an entry and reopening, exactly the entries equal to it are marked selected |
| `SliderPreference.Initial` | preference/src/commonMain/kotlin/SliderPreference.kt:121 | `lastValue` starts at the committed value, and `latestSliderValue` at the slider value |
| `SliderPreference.Recomposed` | preference/src/commonMain/kotlin/SliderPreference.kt:121-140 | a composition captures the slider value in `latestSliderValue`; it moves the slider to the committed value exactly when that differs from `lastValue`; afterwards `lastValue` equals the committed value, which is unchanged |
| `SliderPreference.Dragged` | preference/src/commonMain/kotlin/SliderPreference.kt:143-146 | a drag sets the slider and `latestSliderValue` to the dragged value and leaves the committed value and `lastValue` alone |
| `SliderPreference.Finished` | preference/src/commonMain/kotlin/SliderPreference.kt:151 | finishing commits `latestSliderValue` and changes nothing else |
| `SliderPreference.RecomposeSettles` | preference/src/commonMain/kotlin/SliderPreference.kt:122-140 | a second composition with no event in between leaves the committed value, the slider and `lastValue` where the first left them; `latestSliderValue` catches up with the slider |
| `SliderPreference.DragsKeepValue` | preference/src/commonMain/kotlin/SliderPreference.kt:143-146 | any run of drags leaves the committed value and `lastValue` untouched |
| `SliderPreference.DragsEndAtLast` | preference/src/commonMain/kotlin/SliderPreference.kt:143-146 | after a run of drags, the slider and `latestSliderValue` hold the last dragged value |
| `SliderPreference.FinishCommitsLatestDrag` | preference/src/commonMain/kotlin/SliderPreference.kt:137-151 | finishing after any run of drags, with no composition since, commits the last dragged value |
| `SliderPreference.FinishWithoutDrag` | preference/src/commonMain/kotlin/SliderPreference.kt:140-151 | with no drag since the last composition, finishing commits the slider value that composition showed |
| `SliderPreference.RecomposeKeepsSynced` | preference/src/commonMain/kotlin/SliderPreference.kt:121-127 | a synchronised slider is left exactly as it is by a composition |
| `SliderPreference.ExternalChangeSettles` | preference/src/commonMain/kotlin/SliderPreference.kt:122-127 | when the committed value is changed from elsewhere to a value other than `lastValue`, two compositions leave the slider synchronised to the new value |
| `SliderPreference.WriteBackLeavesSliderStale` | preference/src/commonMain/kotlin/SliderPreference.kt:122-151 | a finished drag to `b`, then the old value written back before any composition: after two compositions the value is the old one, the slider still shows `b`, and they are not synchronised |
| `SliderPreference.DragFinishSettles` | preference/src/commonMain/kotlin/SliderPreference.kt:140-151 | a drag and finish on a synchronised slider settle at the dragged value after one composition |
| `SliderPreference.SliderPreference.constructor` | preference/src/commonMain/kotlin/SliderPreference.kt:82 | the default slider state starts at the state's value |
| `SliderPreference.SliderPreference.WithSliderState` | preference/src/commonMain/kotlin/SliderPreference.kt:121 | with a caller's slider state, `lastValue` starts at the committed value and the slider where the caller put it |
| `SliderPreference.SliderPreference.Recompose` | preference/src/commonMain/kotlin/SliderPreference.kt:122-140 | the new state is `Recomposed` of the old one, and nothing is committed |
| `SliderPreference.SliderPreference.Drag` | preference/src/commonMain/kotlin/SliderPreference.kt:143-146 | the new state is `Dragged` of the old one (unchanged when disabled); `onSliderValueChange` writes only the slider state |
| `SliderPreference.SliderPreference.Finish` | preference/src/commonMain/kotlin/SliderPreference.kt:151 | `onValueChange(latestSliderValue)` is logged and written to the state |
| `SliderPreference.SliderPreference.SetValue` | preference/src/commonMain/kotlin/SliderPreference.kt:92 | a write of the state from elsewhere changes only the committed value |
| `SliderPreference.RejectDragByWriteBack` | preference/src/commonMain/kotlin/SliderPreference.kt:122-151 | the same run on the widget: the value is back at the old one and has been committed once as `b`, while the slider shows `b` |
| `SliderPreference.ClickOnTrack` | preference/src/commonMain/kotlin/SliderPreference.kt:137-151 | a drag and its finish before any composition commit the dragged value |
| `LibrarySliderPreference.LibrarySliderPreference.constructor` | library/src/main/java/me/zhanghai/compose/preference/SliderPreference.kt:95 | the default slider state starts at the state's value |
| `LibrarySliderPreference.LibrarySliderPreference.WithSliderState` | library/src/main/java/me/zhanghai/compose/preference/SliderPreference.kt:135 | `lastValue` starts at the committed value |
| `LibrarySliderPreference.LibrarySliderPreference.Recompose` | library/src/main/java/me/zhanghai/compose/preference/SliderPreference.kt:136-165 | the new state is `Recomposed` of the old one: resync when the committed value differs from `lastValue` |
| `LibrarySliderPreference.LibrarySliderPreference.Drag` | library/src/main/java/me/zhanghai/compose/preference/SliderPreference.kt:168-171 | a drag updates only the slider state and `latestSliderValue` |
| `LibrarySliderPreference.LibrarySliderPreference.Finish` | library/src/main/java/me/zhanghai/compose/preference/SliderPreference.kt:196 | finishing commits `latestSliderValue` to the state |
| `LibrarySliderPreference.LibrarySliderPreference.SetValue` | library/src/main/java/me/zhanghai/compose/preference/SliderPreference.kt:105 | a write of the state from elsewhere changes only the committed value |
| `LibrarySliderPreference.ExternalChangeThenSettle` | library/src/main/java/me/zhanghai/compose/preference/SliderPreference.kt:136-141 | after an external change to a value other than `lastValue`, two compositions leave the slider synchronised to the new value, with nothing committed |
| `LibrarySliderPreference.RejectDragByWriteBack` | library/src/main/java/me/zhanghai/compose/preference/SliderPreference.kt:136-196 | the Android module's slider has the same stale state: after a finished drag to `b` and a write-back of the old value, the slider still shows `b` |

## Left out

- Text layer: `Json.encodeToString` and `Json.parseToJsonElement` belong to a serialization library that is not part of this model. The codec works on JSON elements, and the JSON `null` literal is not among them.
- PreferencesJson.AsBoolean, PreferencesJson.AsInt: the JSON library's leniency is not modelled. Its `.int`, `.boolean` and `.float` also read a quoted number or boolean, so `{"type":"Int","value":"5"}` would decode to 5. The model rejects it, because the accessors accept only the matching JSON kind.
- PreferencesJson.AsFloat: float parsing and printing are left out. A Float is an opaque bit pattern carried unchanged. The choice of the Float branch before the Int branch, for Kotlin/JS, is not modelled.
- A `Set` of non-strings is modelled as `OtherValue`. Encoding it fails with `UnsupportedType`, where the code fails with a class-cast error at `JsonPrimitive(it)`.
- Platform persistence adapters (SharedPreferences, NSUserDefaults, `java.util.prefs`, `localStorage`) call foreign APIs, and the coroutine that persists each published snapshot relies on flow conflation. Neither can be stated sequentially.
- Composition plumbing is framework behaviour, not library logic, and is left out:
  - `LocalPreferenceFlow` and `ProvidePreferenceFlow`;
  - `collectAsStateWithLifecycle`, which the model reduces to explicit `Collect` calls;
  - the lifetimes of `rememberSaveable` values, modelled by initialising the staged value when a dialog opens;
  - the lazy-list helpers (`listPreference` and its siblings), which only pass `enabled(value)` and other renderers through.
- PreferenceState.PreferenceState: the getter and `component1` are reads of the `value` field. `component2` returns the write callback, and that callback is `SetValue`; it is not modelled as a separate function value.
- Slider values are of an abstract type with equality. Kotlin `Float` equality and NaN are left out.
- SliderPreference.SliderPreference.Drag: a disabled slider delivers no drag events. The model ignores them instead.
- SliderPreference.SliderPreference.Finish: the same for the finish event of a disabled slider.
- LibrarySliderPreference.LibrarySliderPreference.Drag: the same for the Android module's disabled slider.
- LibrarySliderPreference.LibrarySliderPreference.Finish: the same for the Android module's finish event.
- PreferencesStore.MapMutablePreferences.AsMap: Kotlin returns the live backing map, so a map the caller keeps shows later `set` and `clear` calls. The model returns a value, so only a fresh call shows them. Nothing in the modelled core keeps the map.
- TextFieldPreference.InitialDialogText: Kotlin's `TextRange(text.length)` counts UTF-16 code units, while `|text|` counts Unicode scalar values. The cursor offset therefore differs for text outside the Basic Multilingual Plane, though in both it sits at the end of the text.
- Rendering, layout, theming, icons and focus requests.
