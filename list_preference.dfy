/**
 * The selector state of the Android module's ListPreference.kt.
 *
 * Clicking the preference opens a selector (an alert dialog or a dropdown menu, by
 * `ListPreferenceType`) listing every entry; choosing one hands it to `onValueChange`
 * and closes the selector.
 */
module ListPreference {

  /** `ListPreferenceType`. */
  datatype ListPreferenceType = AlertDialog | DropdownMenu

  /** The default item renderers of `ListPreferenceDefaults`. */
  datatype ItemRenderer = DialogItem | DropdownMenuItem

  /** `ListPreferenceDefaults.item(type, ...)`: the renderer matching the selector type. */
  function DefaultItem(type_: ListPreferenceType): (r: ItemRenderer)
    ensures r == DialogItem <==> type_ == AlertDialog
    ensures r == DropdownMenuItem <==> type_ == DropdownMenu
  {
    match type_
    case AlertDialog => DialogItem
    case DropdownMenu => DropdownMenuItem
  }

  /**
   * The default items' rule: a dialog item's radio button is selected, and a dropdown
   * item is highlighted, iff its entry equals the current value.
   */
  predicate ItemSelected<T(==)>(item: T, currentValue: T)
  {
    item == currentValue
  }

  /** One entry as the selector shows it. */
  datatype ItemView<T> = ItemView(item: T, selected: bool, renderer: ItemRenderer)

  class ListPreference<T(==)> {
    /** The entries, in order. */
    const values: seq<T>
    const type_: ListPreferenceType
    /** A disabled preference ignores clicks. */
    const enabled: bool
    /** The state's value. */
    var value: T
    var openSelector: bool
    /** The arguments of every `onValueChange` call, oldest first. */
    var committed: seq<T>

    constructor (values: seq<T>, type_: ListPreferenceType, enabled: bool, value: T)
      ensures this.values == values && this.type_ == type_ && this.enabled == enabled
      ensures this.value == value
      ensures !openSelector && committed == []
    {
      this.values := values;
      this.type_ := type_;
      this.enabled := enabled;
      this.value := value;
      openSelector := false;
      committed := [];
    }

    /** Clicking an enabled preference opens the selector; a disabled one changes nothing. */
    method Click()
      modifies this
      ensures openSelector == (old(openSelector) || enabled)
      ensures value == old(value) && committed == old(committed)
    {
      if enabled {
        openSelector := true;
      }
    }

    /**
     * The entries the open selector offers, in list order, each marked selected iff it
     * equals the current value and drawn with the type's default renderer.
     */
    method OfferedItems() returns (items: seq<ItemView<T>>)
      requires openSelector
      ensures |items| == |values|
      ensures forall i :: 0 <= i < |items| ==> items[i].item == values[i]
      ensures forall i :: 0 <= i < |items| ==> (items[i].selected <==> values[i] == value)
      ensures forall i :: 0 <= i < |items| ==> items[i].renderer == DefaultItem(type_)
    {
      items := [];
      var renderer := DefaultItem(type_);
      for n := 0 to |values|
        invariant |items| == n
        invariant forall i :: 0 <= i < n ==> items[i] == ItemView(values[i], ItemSelected(values[i], value), renderer)
      {
        items := items + [ItemView(values[n], ItemSelected(values[n], value), renderer)];
      }
    }

    /** Choosing an entry, in either selector type, commits it and then closes the selector. */
    method Choose(item: T)
      requires openSelector && item in values
      modifies this
      ensures committed == old(committed) + [item]
      ensures value == item
      ensures !openSelector
    {
      committed := committed + [item];
      value := item;
      openSelector := false;
    }

    /** The alert dialog's Cancel button closes it without committing. */
    method Cancel()
      requires openSelector && type_ == AlertDialog
      modifies this
      ensures !openSelector
      ensures value == old(value) && committed == old(committed)
    {
      openSelector := false;
    }

    /** Dismissing the dialog or the dropdown closes it without committing. */
    method Dismiss()
      modifies this
      ensures !openSelector
      ensures value == old(value) && committed == old(committed)
    {
      openSelector := false;
    }
  }

  /** After choosing an entry and reopening, exactly the entries equal to it are selected. */
  method ChooseThenReopen<T(==)>(p: ListPreference<T>, item: T) returns (items: seq<ItemView<T>>)
    requires p.openSelector && p.enabled && item in p.values
    modifies p
    ensures p.value == item
    ensures |items| == |p.values|
    ensures forall i :: 0 <= i < |items| ==> (items[i].selected <==> p.values[i] == item)
  {
    p.Choose(item);
    p.Click();
    items := p.OfferedItems();
  }
}
