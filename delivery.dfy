/** One serialized step of `_sendOrEditResponse` in backend/services/TelegramBot.js:
    the bookkeeping of the single "active answer" message (its id, the text last
    shown in it and when), the 4000-unit tail truncation, the identical-text skip,
    the 2-second edit throttle, and the create / edit / recreate choice. Telegram's
    answers are inputs of the step. */
module Delivery {
  import opened Wrappers
  import opened JsText

  /** `Date.now()`: milliseconds since the epoch, always positive (so always truthy). */
  type Timestamp = t: int | t > 0 witness 1

  /** Telegram message ids are positive integers (so always truthy). */
  type MessageId = n: int | n > 0 witness 1

  /** The displayed text keeps at most this many code units of the answer's tail. */
  const DisplayLimit: nat := 4000
  /** At most one edit per this many milliseconds. */
  const EditInterval: nat := 2000

  /** What `bot.sendMessage` does: resolve with the new message, or throw. */
  datatype SendReply = Sent(id: MessageId) | SendThrows

  /** What `bot.editMessageText` does: succeed, or throw an error whose message
      says "not modified", "message to edit not found" / "MESSAGE_ID_INVALID", or
      something else. */
  datatype EditReply = Edited | NotModified | NotFound | OtherEditError

  /** Telegram's behaviour during one step. A step makes at most one edit and at
      most one send, so one answer of each kind is enough; the unused one is ignored. */
  datatype Transport = Transport(send: SendReply, edit: EditReply)

  /** A request the step puts on the wire. */
  datatype Call = SendMessage(text: JsString) | EditMessageText(id: MessageId, text: JsString)

  /** The fields `_activeResponseMsgId`, `_lastEditedText` and `_lastEditTime`;
      `None` is the `null` that `_resetActiveResponse` stores. */
  datatype ActiveAnswer = ActiveAnswer(
    msgId: Option<MessageId>,
    lastEditedText: Option<JsString>,
    lastEditTime: Option<Timestamp>)

  /** The answer after `_resetActiveResponse`. */
  const NoAnswer := ActiveAnswer(None, None, None)

  /** The outcome of one step: the new answer fields and the calls made. */
  datatype StepResult = StepResult(answer: ActiveAnswer, calls: seq<Call>)

  function Min(a: nat, b: nat): nat { if a <= b then a else b }

  /** `displayText`: the answer itself when it fits, else its last 4000 code units. */
  function Display(text: JsString): (d: JsString)
    ensures |d| == Min(|text|, DisplayLimit)
    ensures text == text[..|text| - |d|] + d
  {
    if |text| > DisplayLimit then text[|text| - DisplayLimit..] else text
  }

  /** The step skips because the display text is the one last shown. */
  predicate IsRepeat(a: ActiveAnswer, text: JsString) {
    a.lastEditedText == Some(Display(text))
  }

  /** The step skips because an edit happened less than 2 s ago. */
  predicate IsThrottled(a: ActiveAnswer, now: Timestamp) {
    a.msgId.Some? && a.lastEditTime.Some? && now - a.lastEditTime.value < EditInterval
  }

  /** One run of the callback queued by `_sendOrEditResponse(text)`. */
  function DeliverStep(a: ActiveAnswer, text: JsString, now: Timestamp, t: Transport): StepResult {
    var d := Display(text);
    if IsRepeat(a, text) || IsThrottled(a, now) then
      StepResult(a, [])
    else if a.msgId.None? then
      match t.send
      case Sent(id) => StepResult(ActiveAnswer(Some(id), Some(d), Some(now)), [SendMessage(d)])
      case SendThrows => StepResult(a, [SendMessage(d)])
    else
      var edit := EditMessageText(a.msgId.value, d);
      if t.edit == NotFound then
        match t.send
        case Sent(id) => StepResult(ActiveAnswer(Some(id), Some(d), Some(now)), [edit, SendMessage(d)])
        case SendThrows => StepResult(a, [edit, SendMessage(d)])
      else
        StepResult(ActiveAnswer(a.msgId, Some(d), Some(now)), [edit])
  }

  /** The step goes to Telegram at all. */
  predicate Performs(a: ActiveAnswer, text: JsString, now: Timestamp) {
    !IsRepeat(a, text) && !IsThrottled(a, now)
  }

  /** The step calls `sendMessage`: on the first delivery of a turn, or to recreate
      a message that is gone. */
  predicate Sends(a: ActiveAnswer, t: Transport) {
    a.msgId.None? || t.edit == NotFound
  }

  /** Dedup and throttle: a repeated display text or an edit within 2 s of the
      last one changes nothing and calls nothing. */
  lemma SkippedStepChangesNothing(a: ActiveAnswer, text: JsString, now: Timestamp, t: Transport)
    requires !Performs(a, text, now)
    ensures DeliverStep(a, text, now, t) == StepResult(a, [])
  {
  }

  /** The first delivery of a turn is never throttled: unless its text is the one
      last shown, it sends a new message, whatever the time. */
  lemma FirstDeliverySends(a: ActiveAnswer, text: JsString, now: Timestamp, t: Transport)
    requires a.msgId.None? && !IsRepeat(a, text)
    ensures DeliverStep(a, text, now, t).calls == [SendMessage(Display(text))]
    ensures t.send.Sent? ==>
              (DeliverStep(a, text, now, t).answer == ActiveAnswer(Some(t.send.id), Some(Display(text)), Some(now)))
  {
  }

  /** Create / edit / recover bookkeeping: a performed step whose message exists
      first edits that message with the display text; a not-found edit is followed
      by a send whose new id is adopted; any other edit outcome keeps the id. */
  lemma PerformedEditBookkeeping(a: ActiveAnswer, text: JsString, now: Timestamp, t: Transport)
    requires Performs(a, text, now) && a.msgId.Some?
    ensures var r := DeliverStep(a, text, now, t);
            |r.calls| >= 1 && r.calls[0] == EditMessageText(a.msgId.value, Display(text)) &&
            (t.edit != NotFound ==> r.calls == [r.calls[0]] && r.answer.msgId == a.msgId) &&
            (t.edit == NotFound ==> r.calls == [r.calls[0], SendMessage(Display(text))]) &&
            (t.edit == NotFound && t.send.Sent? ==> r.answer.msgId == Some(t.send.id))
  {
  }

  /** Only a throwing `sendMessage` loses a performed step: otherwise the display
      text and the time are recorded, and "not modified" or any other edit error
      counts as delivered. */
  lemma RecordedUnlessSendThrows(a: ActiveAnswer, text: JsString, now: Timestamp, t: Transport)
    requires Performs(a, text, now)
    ensures var r := DeliverStep(a, text, now, t);
            (r.answer.lastEditedText == Some(Display(text)) && r.answer.lastEditTime == Some(now)) <==>
            !(Sends(a, t) && t.send.SendThrows?)
    ensures var r := DeliverStep(a, text, now, t);
            Sends(a, t) && t.send.SendThrows? ==> r.answer == a
  {
  }

  /** Once a display text is recorded, delivering the same text again is a no-op. */
  lemma RepeatAfterRecordIsNoOp(a: ActiveAnswer, text: JsString, n1: Timestamp, t1: Transport,
                                n2: Timestamp, t2: Transport)
    requires Performs(a, text, n1) && !(Sends(a, t1) && t1.send.SendThrows?)
    ensures var b := DeliverStep(a, text, n1, t1).answer;
            DeliverStep(b, text, n2, t2) == StepResult(b, [])
  {
    RecordedUnlessSendThrows(a, text, n1, t1);
  }

  /** Throttle: after a recorded delivery at `n1`, a different text at `n2` is
      dropped when `n2 - n1 < 2000` and goes to Telegram as an edit of the
      active message when `n2 - n1 >= 2000`. */
  lemma ThrottleWindow(a: ActiveAnswer, text1: JsString, n1: Timestamp, t1: Transport,
                       text2: JsString, n2: Timestamp, t2: Transport)
    requires Performs(a, text1, n1) && !(Sends(a, t1) && t1.send.SendThrows?)
    requires Display(text2) != Display(text1)
    ensures var b := DeliverStep(a, text1, n1, t1).answer;
            var r := DeliverStep(b, text2, n2, t2);
            b.msgId.Some? &&
            (n2 - n1 < EditInterval ==> r == StepResult(b, [])) &&
            (n2 - n1 >= EditInterval ==> r.calls[0] == EditMessageText(b.msgId.value, Display(text2)))
  {
    RecordedUnlessSendThrows(a, text1, n1, t1);
    var b := DeliverStep(a, text1, n1, t1).answer;
    assert b.msgId.Some? && b.lastEditTime == Some(n1);
    assert !IsRepeat(b, text2);
    if n2 - n1 >= EditInterval {
      PerformedEditBookkeeping(b, text2, n2, t2);
    }
  }

  /** Runs the steps for `texts` in order, one Telegram answer and one clock
      reading per step, and returns the final answer and every call made. */
  function DeliverAll(a: ActiveAnswer, texts: seq<JsString>, nows: seq<Timestamp>, ts: seq<Transport>): StepResult
    requires |texts| == |nows| == |ts|
    decreases |texts|
  {
    if texts == [] then StepResult(a, [])
    else
      var r := DeliverStep(a, texts[0], nows[0], ts[0]);
      var rest := DeliverAll(r.answer, texts[1..], nows[1..], ts[1..]);
      StepResult(rest.answer, r.calls + rest.calls)
  }

  /** The edit requests among `calls`. */
  function Edits(calls: seq<Call>): (n: nat)
    ensures n <= |calls|
  {
    if calls == [] then 0
    else (if calls[0].EditMessageText? then 1 else 0) + Edits(calls[1..])
  }

  lemma {:induction false} EditsAppend(c1: seq<Call>, c2: seq<Call>)
    ensures Edits(c1 + c2) == Edits(c1) + Edits(c2)
  {
    if c1 != [] {
      assert (c1 + c2)[1..] == c1[1..] + c2;
      EditsAppend(c1[1..], c2);
    } else {
      assert c1 + c2 == c2;
    }
  }

  /** Repeated deliveries of one text: as long as Telegram's `sendMessage` does not
      throw, the edit request fires at most once, and not at all once the text
      is the one shown. */
  lemma {:induction false} RepeatedTextEditsAtMostOnce(a: ActiveAnswer, text: JsString,
                                                       texts: seq<JsString>, nows: seq<Timestamp>, ts: seq<Transport>)
    requires |texts| == |nows| == |ts|
    requires forall i :: 0 <= i < |texts| ==> texts[i] == text
    requires forall i :: 0 <= i < |ts| ==> ts[i].send.Sent?
    ensures Edits(DeliverAll(a, texts, nows, ts).calls) <= (if IsRepeat(a, text) then 0 else 1)
    ensures IsRepeat(a, text) ==> DeliverAll(a, texts, nows, ts) == StepResult(a, [])
    decreases |texts|
  {
    if texts != [] {
      var r := DeliverStep(a, text, nows[0], ts[0]);
      RepeatedTextEditsAtMostOnce(r.answer, text, texts[1..], nows[1..], ts[1..]);
      EditsAppend(r.calls, DeliverAll(r.answer, texts[1..], nows[1..], ts[1..]).calls);
      if Performs(a, text, nows[0]) {
        RecordedUnlessSendThrows(a, text, nows[0], ts[0]);
        assert IsRepeat(r.answer, text);
        assert Edits(r.calls) <= 1 by {
          if r.calls != [] {
            assert r.calls[1..] == [] || r.calls[1..] == [SendMessage(Display(text))];
          }
        }
      }
    }
  }
}
