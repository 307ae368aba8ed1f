/**
 * The dialog state of MultiSelectListPreference.kt.
 *
 * Clicking the preference opens a dialog whose staged selection starts as the current
 * value; checkbox toggles edit only the staged set, and only OK hands it to
 * `onValueChange`, which the state-based overload routes into assigning the state.
 */
module MultiSelectListPreference {

  /** The default item's rule: an item is checked iff it is in the staged set. */
  predicate ItemChecked<T(==)>(item: T, currentValues: set<T>)
  {
    item in currentValues
  }

  class MultiSelectListPreference<T(==)> {
    /** The entries the dialog lists, in order. */
    const values: seq<T>
    /** A disabled preference ignores clicks. */
    const enabled: bool
    /** The state's value. */
    var value: set<T>
    var openDialog: bool
    /** The staged selection; it exists only while the dialog is open. */
    var dialogValue: set<T>
    /** The arguments of every `onValueChange` call, oldest first. */
    var committed: seq<set<T>>

    constructor (values: seq<T>, enabled: bool, value: set<T>)
      ensures this.values == values && this.enabled == enabled && this.value == value
      ensures !openDialog && committed == []
    {
      this.values := values;
      this.enabled := enabled;
      this.value := value;
      openDialog := false;
      dialogValue := value;
      committed := [];
    }

    /**
     * Clicking an enabled preference opens the dialog; a newly opened dialog stages the
     * current value. A disabled one changes nothing.
     */
    method Click()
      modifies this
      ensures openDialog == (old(openDialog) || enabled)
      ensures dialogValue == if old(openDialog) || !enabled then old(dialogValue) else value
      ensures value == old(value) && committed == old(committed)
    {
      if enabled {
        if !openDialog {
          dialogValue := value;
        }
        openDialog := true;
      }
    }

    /** Toggling an item adds it to or removes it from the staged set, and commits nothing. */
    method Toggle(item: T, checked: bool)
      requires openDialog && item in values
      modifies this
      ensures dialogValue == if checked then old(dialogValue) + {item} else old(dialogValue) - {item}
      ensures ItemChecked(item, dialogValue) == checked
      ensures forall other :: other != item ==> ItemChecked(other, dialogValue) == ItemChecked(other, old(dialogValue))
      ensures openDialog && value == old(value) && committed == old(committed)
    {
      dialogValue := if checked then dialogValue + {item} else dialogValue - {item};
    }

    /** OK commits the staged set, then closes the dialog. */
    method Ok()
      requires openDialog
      modifies this
      ensures committed == old(committed) + [old(dialogValue)]
      ensures value == old(dialogValue)
      ensures !openDialog
    {
      committed := committed + [dialogValue];
      value := dialogValue;
      openDialog := false;
    }

    /** Cancel closes the dialog without committing. */
    method Cancel()
      modifies this
      ensures !openDialog
      ensures value == old(value) && committed == old(committed)
    {
      openDialog := false;
    }

    /** Dismissing the dialog closes it without committing. */
    method Dismiss()
      modifies this
      ensures !openDialog
      ensures value == old(value) && committed == old(committed)
    {
      openDialog := false;
    }

    /** The state changes from elsewhere; an open dialog keeps its staged set. */
    method Recompose(newValue: set<T>)
      modifies this
      ensures value == newValue
      ensures openDialog == old(openDialog) && dialogValue == old(dialogValue)
      ensures committed == old(committed)
    {
      value := newValue;
    }
  }

  /** Opening the dialog and pressing OK without toggling commits the value unchanged. */
  method OpenThenOk<T(==)>(p: MultiSelectListPreference<T>)
    requires !p.openDialog && p.enabled
    modifies p
    ensures p.value == old(p.value)
    ensures p.committed == old(p.committed) + [old(p.value)]
  {
    p.Click();
    p.Ok();
  }

  /** Toggles followed by Cancel leave the value and the commits as they were. */
  method ToggleThenCancel<T(==)>(p: MultiSelectListPreference<T>, item: T, checked: bool)
    requires item in p.values && p.enabled
    modifies p
    ensures p.value == old(p.value) && p.committed == old(p.committed)
    ensures !p.openDialog
  {
    p.Click();
    p.Toggle(item, checked);
    p.Cancel();
  }
}
