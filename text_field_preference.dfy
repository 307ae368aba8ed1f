/**
 * The dialog state of the Android module's TextFieldPreference.kt.
 *
 * Clicking the preference opens a dialog editing the value's text; OK (the button or the
 * default field's keyboard action) parses the text and, only when it parses, hands the
 * parsed value to `onValueChange` and closes the dialog.
 */
module TextFieldPreference {
  import opened Wrappers

  /** A selection or cursor in the field's text; a cursor has `start == end`. */
  datatype TextRange = TextRange(start: nat, end: nat)

  /** The field's content: its text and its selection. */
  datatype TextFieldValue = TextFieldValue(text: string, selection: TextRange)

  /** The text a newly opened dialog shows: the value's text, with the cursor after its last character. */
  function InitialDialogText(text: string): (r: TextFieldValue)
    ensures r.text == text
    ensures r.selection.start == r.selection.end == |text|
  {
    TextFieldValue(text, TextRange(|text|, |text|))
  }

  class TextFieldPreference<T> {
    /** A disabled preference ignores clicks. */
    const enabled: bool
    /** How the value is shown in the field. */
    const valueToText: T -> string
    /** How the field's text is parsed; `None` rejects the text. */
    const textToValue: string -> Option<T>
    /** The state's value. */
    var value: T
    var openDialog: bool
    /** The staged text; it exists only while the dialog is open. */
    var dialogText: TextFieldValue
    /** The arguments of every `onValueChange` call, oldest first. */
    var committed: seq<T>

    constructor (enabled: bool, valueToText: T -> string, textToValue: string -> Option<T>, value: T)
      ensures this.enabled == enabled && this.valueToText == valueToText && this.textToValue == textToValue
      ensures this.value == value
      ensures !openDialog && committed == []
    {
      this.enabled := enabled;
      this.valueToText := valueToText;
      this.textToValue := textToValue;
      this.value := value;
      openDialog := false;
      dialogText := InitialDialogText(valueToText(value));
      committed := [];
    }

    /**
     * Clicking an enabled preference opens the dialog; a newly opened dialog shows the
     * value's text with the cursor at its end. A disabled one changes nothing.
     */
    method Click()
      modifies this
      ensures openDialog == (old(openDialog) || enabled)
      ensures !old(openDialog) && enabled ==> dialogText == InitialDialogText(valueToText(value))
      ensures old(openDialog) || !enabled ==> dialogText == old(dialogText)
      ensures value == old(value) && committed == old(committed)
    {
      if enabled {
        if !openDialog {
          dialogText := InitialDialogText(valueToText(value));
        }
        openDialog := true;
      }
    }

    /** An edit in the field replaces the staged text and nothing else. */
    method Edit(newText: TextFieldValue)
      requires openDialog
      modifies this
      ensures dialogText == newText
      ensures openDialog && value == old(value) && committed == old(committed)
    {
      dialogText := newText;
    }

    /**
     * `onOk`: a staged text that parses is committed and the dialog closes; one that
     * does not parse leaves everything as it was, the dialog still open.
     */
    method Ok()
      requires openDialog
      modifies this
      ensures textToValue(old(dialogText).text).Some? ==>
                committed == old(committed) + [textToValue(old(dialogText).text).value]
                && value == textToValue(old(dialogText).text).value
                && !openDialog
      ensures textToValue(old(dialogText).text).None? ==>
                committed == old(committed) && value == old(value) && openDialog
      ensures dialogText == old(dialogText)
    {
      var dialogValue := textToValue(dialogText.text);
      if dialogValue.Some? {
        committed := committed + [dialogValue.value];
        value := dialogValue.value;
        openDialog := false;
      }
    }

    /** The default field's keyboard action runs the same `onOk`. */
    method KeyboardAction()
      requires openDialog
      modifies this
      ensures textToValue(old(dialogText).text).Some? ==>
                committed == old(committed) + [textToValue(old(dialogText).text).value]
                && value == textToValue(old(dialogText).text).value
                && !openDialog
      ensures textToValue(old(dialogText).text).None? ==>
                committed == old(committed) && value == old(value) && openDialog
      ensures dialogText == old(dialogText)
    {
      Ok();
    }

    /** Cancel closes the dialog without committing. */
    method Cancel()
      modifies this
      ensures !openDialog
      ensures value == old(value) && committed == old(committed)
    {
      openDialog := false;
    }

    /** Dismissing the dialog closes it without committing. */
    method Dismiss()
      modifies this
      ensures !openDialog
      ensures value == old(value) && committed == old(committed)
    {
      openDialog := false;
    }
  }

  /**
   * When parsing undoes formatting for the current value, opening the dialog and
   * pressing OK commits the value unchanged.
   */
  method OpenThenOk<T>(p: TextFieldPreference<T>)
    requires !p.openDialog && p.enabled
    requires p.textToValue(p.valueToText(p.value)) == Some(p.value)
    modifies p
    ensures p.value == old(p.value) && !p.openDialog
    ensures p.committed == old(p.committed) + [old(p.value)]
  {
    p.Click();
    p.Ok();
  }

  /** A rejected text can be corrected: OK keeps the dialog open, and a later OK on a parsable text commits it. */
  method RejectThenCorrect<T>(p: TextFieldPreference<T>, bad: TextFieldValue, good: TextFieldValue)
    requires p.openDialog
    requires p.textToValue(bad.text).None? && p.textToValue(good.text).Some?
    modifies p
    ensures p.committed == old(p.committed) + [p.textToValue(good.text).value]
    ensures p.value == p.textToValue(good.text).value && !p.openDialog
  {
    p.Edit(bad);
    p.Ok();
    p.Edit(good);
    p.Ok();
  }
}
