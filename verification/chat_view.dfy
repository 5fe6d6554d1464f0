/** The provider chat view's composer: a text input, a send that goes out
    only with non-blank text and no send in flight, carrying the trimmed
    text, and a settle step that clears the input on success and alerts,
    keeping the text, on failure. The input is disabled while sending. */
module ChatView {
  import opened Wrappers
  import opened Text

  datatype Composer = Composer(text: string, sending: bool, alert: Option<string>)

  const Empty := Composer("", false, None)

  const SendFailed := "Failed to send message. Please try again."

  /** The send button's `disabled`. */
  predicate ButtonDisabled(c: Composer) {
    Trim(c.text) == "" || c.sending
  }

  /** Typing into the input; a disabled input takes nothing. */
  function Type(c: Composer, value: string): (r: Composer)
    ensures c.sending ==> r == c
    ensures !c.sending ==> r.text == value && r.sending == c.sending && r.alert == c.alert
  {
    if c.sending then c else c.(text := value)
  }

  datatype Attempt = Attempt(composer: Composer, sent: Option<string>)

  /** `handleSendMessage` up to `await onSendMessage(...)`. */
  function BeginSend(c: Composer): (r: Attempt)
    ensures r.sent.None? ==> r.composer == c
    ensures r.sent.Some? ==> r.composer == c.(sending := true)
    ensures r.sent.Some? <==> !ButtonDisabled(c)
    ensures r.sent.Some? ==> r.sent.value == Trim(c.text)
  {
    if Trim(c.text) == "" || c.sending then Attempt(c, None)
    else Attempt(c.(sending := true), Some(Trim(c.text)))
  }

  /** The rest of `handleSendMessage` once the send settles. */
  function FinishSend(c: Composer, done: Completion): (r: Composer)
    ensures !r.sending
    ensures done.Resolved? ==> r.text == "" && r.alert == c.alert
    ensures done.Rejected? ==> r.text == c.text && r.alert == Some(SendFailed)
  {
    match done
    case Resolved => c.(text := "", sending := false)
    case Rejected(_) => c.(sending := false, alert := Some(SendFailed))
  }

  /** `handleKeyPress`: Enter without Shift sends; any other key does not. */
  function KeyPress(c: Composer, key: string, shift: bool): (r: Attempt)
    ensures key == "Enter" && !shift ==> r == BeginSend(c)
    ensures key != "Enter" || shift ==> r == Attempt(c, None)
  {
    if key == "Enter" && !shift then BeginSend(c) else Attempt(c, None)
  }

  /** What goes out is never blank and has no white space at either end,
      and it is what the user typed with that space removed. */
  lemma SentIsTrimmedText(c: Composer)
    requires BeginSend(c).sent.Some?
    ensures var t := BeginSend(c).sent.value;
      && |t| > 0 && !IsSpace(t[0]) && !IsSpace(t[|t| - 1])
      && exists i :: 0 <= i < |c.text| && !IsSpace(c.text[i])
  {
    TrimHasNoOuterSpace(c.text);
    TrimEmptyIff(c.text);
  }

  /** White space alone never sends, by button or by key. */
  lemma BlankNeverSends(c: Composer, key: string, shift: bool)
    requires forall i :: 0 <= i < |c.text| ==> IsSpace(c.text[i])
    ensures BeginSend(c).sent.None? && KeyPress(c, key, shift).sent.None?
  {
    TrimEmptyIff(c.text);
  }

  /** While a send is in flight nothing can start another one: the input
      ignores typing and the button and key send nothing. */
  lemma OneSendAtATime(c: Composer, value: string, key: string, shift: bool)
    requires BeginSend(c).sent.Some?
    ensures var busy := BeginSend(c).composer;
      && Type(busy, value) == busy
      && BeginSend(busy).sent.None?
      && KeyPress(busy, key, shift).sent.None?
  {
  }

  /** After a success the composer is back to blank and its button disabled;
      after a failure the same text goes out again on retry. */
  lemma SettleThenRetry(c: Composer, done: Completion)
    requires BeginSend(c).sent.Some?
    ensures var after := FinishSend(BeginSend(c).composer, done);
      && (done.Resolved? ==> after.text == "" && ButtonDisabled(after))
      && (done.Rejected? ==> BeginSend(after).sent == BeginSend(c).sent)
  {
    TrimEmptyIff("");
  }
}
