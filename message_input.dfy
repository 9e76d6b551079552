/**
 * The message composer: when a message may be sent, what is sent, the
 * Enter shortcut, quick-reply pills, and the optional length counter and
 * limit. `disabled` and `maxLength` are props, held fixed for the life of
 * a `Composer`.
 */
module MessageInput {
  import opened Wrappers
  import opened JsStrings

  /** The send button is enabled for a text with something besides whitespace, unless the composer is disabled. */
  predicate CanSend(text: string, disabled: bool) {
    JsLength(Trim(text)) > 0 && !disabled
  }

  lemma CanSendIff(text: string, disabled: bool)
    ensures CanSend(text, disabled) <==>
      !disabled && exists k :: 0 <= k < |text| && !IsWhitespace(text[k])
  {
    TrimEmptyIff(text);
    JsLengthBounds(Trim(text));
  }

  /** The text after picking a quick reply: appended after a space, or alone in an empty composer. */
  function WithQuickReply(prev: string, q: string): string {
    if prev != "" then prev + " " + q else q
  }

  /** The pick keeps what was typed and ends with the reply, one code unit of space between. */
  lemma WithQuickReplySpec(prev: string, q: string)
    ensures prev == "" ==> WithQuickReply(prev, q) == q
    ensures prev != "" ==>
      var r := WithQuickReply(prev, q);
      && r[..|prev|] == prev && r[|prev|] == ' ' && r[|prev| + 1..] == q
      && JsLength(r) == JsLength(prev) + 1 + JsLength(q)
  {
    if prev != "" {
      JsLengthAppend(prev + " ", q);
      JsLengthAppend(prev, " ");
    }
  }

  /** The counter: the code units left under the limit, never below 0; none without a limit. */
  function LeftCount(maxLength: Option<int>, text: string): (r: Option<int>)
    ensures r.Some? <==> maxLength.Some?
    ensures r.Some? ==> r.value >= 0
  {
    match maxLength
    case None => None
    case Some(m) => Some(if m - JsLength(text) > 0 then m - JsLength(text) else 0)
  }

  /** Within the limit the counter is exactly what is left. */
  lemma LeftCountWithinLimit(m: int, text: string)
    requires JsLength(text) <= m
    ensures LeftCount(Some(m), text) == Some(m - JsLength(text))
  {
  }

  /** The change handler takes a new value unless it is longer than the limit. */
  predicate AcceptsInput(maxLength: Option<int>, value: string) {
    maxLength.None? || JsLength(value) <= maxLength.value
  }

  /**
   * Only typing is held to the limit: a quick reply can carry the text past
   * it, and the counter then shows 0.
   */
  lemma QuickReplyCanPassLimit()
    ensures AcceptsInput(Some(3), "ab")
    ensures !AcceptsInput(Some(3), WithQuickReply("ab", "cd"))
    ensures LeftCount(Some(3), WithQuickReply("ab", "cd")) == Some(0)
  {
    WithQuickReplySpec("ab", "cd");
    assert JsLength("ab") == 2;
    assert JsLength("cd") == 2;
  }

  /** A sent message is not empty and has no whitespace at either end. */
  predicate Clean(t: string) {
    t != [] && !IsWhitespace(t[0]) && !IsWhitespace(t[|t| - 1])
  }

  class Composer {
    const maxLength: Option<int>
    const disabled: bool
    var text: string
    /** The texts handed to `onSend`, oldest first. */
    var sent: seq<string>

    ghost predicate SentClean()
      reads this
    {
      forall k :: 0 <= k < |sent| ==> Clean(sent[k])
    }

    ghost predicate WithinLimit()
      reads this
    {
      AcceptsInput(maxLength, text)
    }

    constructor (maxLength: Option<int>, disabled: bool)
      ensures this.maxLength == maxLength && this.disabled == disabled
      ensures text == "" && sent == [] && SentClean()
    {
      this.maxLength := maxLength;
      this.disabled := disabled;
      text := "";
      sent := [];
    }

    /**
     * `send`: a sendable text goes out trimmed and the composer empties;
     * otherwise nothing happens.
     */
    method Send()
      requires SentClean()
      modifies this
      ensures SentClean()
      ensures CanSend(old(text), disabled) ==> sent == old(sent) + [Trim(old(text))] && text == ""
      ensures !CanSend(old(text), disabled) ==> sent == old(sent) && text == old(text)
    {
      var t := Trim(text);
      JsLengthBounds(t);
      TrimEnds(text);
      if t == "" || disabled {
        return;
      }
      sent := sent + [t];
      text := "";
    }

    /** Enter without Shift sends and suppresses the newline; any other key is left to the textarea. */
    method OnKeyDown(key: string, shiftKey: bool) returns (prevented: bool)
      requires SentClean()
      modifies this
      ensures SentClean()
      ensures prevented <==> key == "Enter" && !shiftKey
      ensures prevented && CanSend(old(text), disabled) ==> sent == old(sent) + [Trim(old(text))] && text == ""
      ensures !(prevented && CanSend(old(text), disabled)) ==> sent == old(sent) && text == old(text)
    {
      prevented := false;
      if key == "Enter" && !shiftKey {
        prevented := true;
        Send();
      }
    }

    /** A quick-reply pill adds its text; the limit is not consulted. */
    method AddQuickReply(q: string)
      modifies this
      ensures text == WithQuickReply(old(text), q) && sent == old(sent)
    {
      text := if text != "" then text + " " + q else q;
    }

    /** The textarea's change handler, which refuses a value over the limit. */
    method OnChange(value: string)
      modifies this
      ensures text == if AcceptsInput(maxLength, value) then value else old(text)
      ensures old(WithinLimit()) ==> WithinLimit()
      ensures sent == old(sent)
    {
      if maxLength.Some? && JsLength(value) > maxLength.value {
        return;
      }
      text := value;
    }
  }
}
