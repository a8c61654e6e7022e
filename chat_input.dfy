/**
 * The chat text field: typing overwrites the field, and submitting sends the
 * field's text only when it holds something besides whitespace.
 */
module ChatInput {
  import opened Wrappers
  import opened JsString

  /**
   * `message.trim()` is falsy: the field holds only whitespace, or nothing,
   * that is, every character of it is whitespace.
   */
  predicate IsBlank(message: string): (blank: bool)
    ensures blank <==> forall i :: 0 <= i < |message| ==> IsWhitespace(message[i])
  {
    TrimNonEmptyIff(message);
    Trim(message) == []
  }

  class ChatInputField {
    /** The controlled `<Input>` value. */
    var message: string

    constructor ()
      ensures message == []
    {
      message := [];
    }

    /** `onChange`: the field becomes exactly what was typed, whatever it held before. */
    method OnChange(value: string)
      modifies this
      ensures message == value
    {
      message := value;
    }

    /**
     * `handleSubmit`: `sent` is the argument of the one `onSendMessage` call,
     * or None when no call is made.
     */
    method HandleSubmit() returns (sent: Option<string>)
      modifies this
      ensures IsBlank(old(message)) ==> sent == None && message == old(message)
      ensures !IsBlank(old(message)) ==> sent == Some(old(message)) && message == []
    {
      if Trim(message) != [] {
        sent := Some(message);
        message := [];
      } else {
        sent := None;
      }
    }
  }

  /** A send happens exactly when the field holds a non-whitespace character, and it carries the untrimmed text. */
  method SubmitAfterTyping(value: string) returns (sent: Option<string>, after: string)
    ensures sent.Some? <==> exists i :: 0 <= i < |value| && !IsWhitespace(value[i])
    ensures sent.Some? ==> sent.value == value && after == []
    ensures sent.None? ==> after == value
  {
    var field := new ChatInputField();
    field.OnChange(value);
    sent := field.HandleSubmit();
    after := field.message;
  }
}
