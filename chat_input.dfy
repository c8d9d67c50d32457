/**
 * The chat input box: a text field whose content is sent, trimmed, when the
 * form is submitted, unless it is blank or the box is disabled (the chat
 * window disables it while a reply is streaming).
 */
module ChatInput {
  import opened Wrappers
  import opened Strings

  /** The guard of `handleSubmit`: non-blank after trimming, and not disabled. */
  predicate CanSend(input: string, disabled: bool) {
    Trim(input) != "" && !disabled
  }

  class InputBox {
    var input: string

    /** The field starts empty. */
    constructor ()
      ensures input == ""
    {
      input := "";
    }

    /** Typing replaces the field's content with the new value. */
    method SetInput(value: string)
      modifies this
      ensures input == value
    {
      input := value;
    }

    /**
     * Submitting either sends the trimmed text and empties the field, or
     * sends nothing and leaves the field as it was.
     */
    method HandleSubmit(disabled: bool) returns (sent: Option<string>)
      modifies this
      ensures sent.Some? <==> CanSend(old(input), disabled)
      ensures sent.Some? ==> sent.value == Trim(old(input)) && sent.value != "" && input == ""
      ensures sent.None? ==> input == old(input)
    {
      var trimmed := Trim(input);
      if trimmed != "" && !disabled {
        sent := Some(trimmed);
        input := "";
      } else {
        sent := None;
      }
    }

    /** The submit button's `disabled` attribute. */
    function SubmitDisabled(disabled: bool): (off: bool)
      reads this
      ensures off <==> !CanSend(input, disabled)
    {
      disabled || Trim(input) == ""
    }
  }

  /** Whatever is sent has no white space at either end and is never blank. */
  lemma SentTextIsTrimmed(input: string)
    requires CanSend(input, false)
    ensures Trim(input) != "" && !AllSpace(input)
    ensures !IsJsSpace(Trim(input)[0]) && !IsJsSpace(Trim(input)[|Trim(input)| - 1])
    ensures Trim(Trim(input)) == Trim(input)
  {
    TrimIdempotent(input);
  }

  /** A field of white space only is never sent, and exactly then is the button off when enabled. */
  lemma BlankNeverSent(input: string)
    ensures !CanSend(input, false) <==> AllSpace(input)
  {
  }
}
