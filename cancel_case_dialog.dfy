/** The dialog that asks for the reason before a case is cancelled. */
module CancelCaseDialog {
  import opened Wrappers
  import opened Text

  /** The dialog's `reason` text and `error` flag. */
  class CancelDialog {
    var reason: string
    var error: bool

    constructor ()
      ensures reason == "" && !error
    {
      reason := "";
      error := false;
    }

    /** Typing replaces the reason and leaves the error flag as it was. */
    method Type(text: string)
      modifies this
      ensures reason == text && error == old(error)
    {
      reason := text;
    }

    /**
     * `handleSubmit`: a reason that is blank once trimmed raises the error flag
     * and confirms nothing; otherwise `onConfirm` receives the reason exactly as
     * typed, and the reason and the error flag are reset.
     */
    method Submit() returns (confirmed: Option<string>)
      modifies this
      ensures confirmed.Some? <==> !IsBlank(old(reason))
      ensures confirmed.None? ==> error && reason == old(reason)
      ensures confirmed.Some? ==> confirmed.value == old(reason) && reason == "" && !error
    {
      if IsBlank(reason) {
        error := true;
        return None;
      }
      confirmed := Some(reason);
      reason := "";
      error := false;
    }
  }

  /** A reason of spaces, tabs or line breaks is never confirmed. */
  lemma WhitespaceReasonRefused(reason: string)
    requires AllWhitespace(reason)
    ensures IsBlank(reason)
  {
    BlankIffAllWhitespace(reason);
  }

  /** A reason with surrounding spaces is accepted and sent with the spaces kept. */
  lemma PaddedReasonAccepted(reason: string)
    requires exists i :: 0 <= i < |reason| && !IsWhitespace(reason[i])
    ensures !IsBlank(reason)
  {
    BlankIffAllWhitespace(reason);
  }
}
