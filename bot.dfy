/** The push path of backend/services/TelegramBot.js: `_resetActiveResponse`,
    `_sendOrEditResponse` (the `_sendLock` promise chain), `handleStreamingMessage`
    with its 5-second quiet timer, and `handleCompleteMessage`, together with the
    batch forwarding of backend/telegram-server.js.

    Each `_sendLock` chain is a FIFO queue of atomic steps. `_resetActiveResponse`
    starts a new chain without cancelling what is queued on the old ones, so a
    step runs from any chain's head. A streaming step carries the continuation of
    `handleStreamingMessage` that (re)arms the quiet timer once its step is done.
    Time is the `now` of the step; Telegram's answers are its `Transport`. */
module Bot {
  import opened Wrappers
  import opened JsText
  import opened Delivery

  /** Fragments and complete messages shorter than this are ignored. */
  const MinTextLength: nat := 5
  /** The quiet period of the streaming timer, in milliseconds. */
  const QuietPeriod: nat := 5000

  /** The prefix of an answer still being written, `⏳ AI đang trả lời...\n\n`,
      as UTF-16 code units. */
  function StreamingPrefix(): JsString {
    [0x23F3, 0x20, 0x41, 0x49, 0x20, 0x111, 0x61, 0x6E, 0x67, 0x20, 0x74, 0x72,
     0x1EA3, 0x20, 0x6C, 0x1EDD, 0x69, 0x2E, 0x2E, 0x2E, 0x0A, 0x0A]
  }

  /** The prefix of a final answer, `🤖 AI:\n\n`, as UTF-16 code units (the robot
      face lies outside the Basic Multilingual Plane and takes two). */
  function FinalPrefix(): JsString { [0xD83E, 0xDD16, 0x20, 0x41, 0x49, 0x3A, 0x0A, 0x0A] }

  /** A bridge message as the handlers read it: `message.text || ''` (the rich
      `html` form only goes to the history collaborator). */
  datatype Fragment = Fragment(text: JsString)

  /** A step queued on a `_sendLock` chain: the text to deliver, and whether the
      streaming handler waiting on it re-arms the quiet timer when it is done. */
  datatype Job = Job(text: JsString, armsQuietTimer: bool)

  /** The fields of the service that the answer pipeline reads and writes, plus
      the log of every request sent to Telegram (`wire`). */
  datatype BotState = BotState(
    answer: ActiveAnswer,
    chains: seq<seq<Job>>,
    lastSentText: JsString,
    lastStreamingMsg: Option<Fragment>,
    timerArmed: bool,
    wire: seq<Call>)

  /** The fields as the constructor leaves them: `_sendLock` is still undefined. */
  const Initial := BotState(NoAnswer, [], [], None, false, [])

  /** `_sendOrEditResponse(text)`: an empty text returns at once; otherwise the
      step is chained onto the current `_sendLock` (a fresh one if there is none). */
  function Enqueue(s: BotState, text: JsString, arms: bool): BotState {
    if text == [] then s
    else if s.chains == [] then s.(chains := [[Job(text, arms)]])
    else
      var last := |s.chains| - 1;
      s.(chains := s.chains[last := s.chains[last] + [Job(text, arms)]])
  }

  /** `_resetActiveResponse`: forgets the active message, starts a new chain,
      clears `lastSentText`, cancels the timer and drops the pending fragment. */
  function Reset(s: BotState): BotState {
    BotState(NoAnswer, s.chains + [[]], [], None, false, s.wire)
  }

  /** `handleStreamingMessage(messages)`: the latest fragment becomes the pending
      one even when it is too short to show; a long enough one is queued with
      the "still answering" prefix. */
  function OnStreaming(s: BotState, messages: seq<Fragment>): BotState {
    if messages == [] then s
    else
      var latest := messages[|messages| - 1];
      var s1 := s.(lastStreamingMsg := Some(latest));
      if |latest.text| < MinTextLength then s1
      else Enqueue(s1, StreamingPrefix() + latest.text, true)
  }

  /** `handleCompleteMessage(message)`: drops a missing, short or already sent
      answer; otherwise records it in `lastSentText`, clears the timer and the
      pending fragment and queues the final delivery. */
  function OnComplete(s: BotState, message: Option<Fragment>): BotState {
    if message.None? then s
    else
      var text := message.value.text;
      if |text| < MinTextLength then s
      else if text == s.lastSentText then s
      else Enqueue(s.(lastSentText := text, timerArmed := false, lastStreamingMsg := None),
                   FinalPrefix() + text, false)
  }

  /** The quiet timer's callback: finalizes the pending fragment through the
      complete handler when its text is non-empty and not the last one sent,
      then drops it. */
  function OnQuietTimer(s: BotState): BotState
    requires s.timerArmed
  {
    var s1 := s.(timerArmed := false);
    if s1.lastStreamingMsg.None? then s1
    else
      var finalText := s1.lastStreamingMsg.value.text;
      var s2 := if finalText != [] && finalText != s1.lastSentText
                then OnComplete(s1, Some(Fragment(finalText))) else s1;
      s2.(lastStreamingMsg := None)
  }

  /** A chain with a queued step at its head. */
  predicate CanRun(s: BotState, chain: nat) {
    chain < |s.chains| && s.chains[chain] != []
  }

  /** Runs the step at the head of chain `chain`: one `DeliverStep` on the active
      answer, then the waiting streaming handler (if any) re-arms the timer. */
  function RunJob(s: BotState, chain: nat, now: Timestamp, t: Transport): BotState
    requires CanRun(s, chain)
  {
    var job := s.chains[chain][0];
    var r := DeliverStep(s.answer, job.text, now, t);
    s.(answer := r.answer,
       chains := s.chains[chain := s.chains[chain][1..]],
       timerArmed := s.timerArmed || job.armsQuietTimer,
       wire := s.wire + r.calls)
  }

  /** One message of an `ai_messages` batch from the bridge. */
  datatype BridgeMessage = BridgeMessage(text: JsString, isStreaming: bool, isComplete: bool)

  /** `messages.filter(m => m.isStreaming)`: empty exactly when no message of
      the batch is streaming, and as long as the batch exactly when all are. */
  function StreamingOf(batch: seq<BridgeMessage>): (r: seq<Fragment>)
    ensures |r| <= |batch|
    ensures r == [] <==> forall i :: 0 <= i < |batch| ==> !batch[i].isStreaming
    ensures |r| == |batch| <==> forall i :: 0 <= i < |batch| ==> batch[i].isStreaming
  {
    if batch == [] then []
    else (if batch[0].isStreaming then [Fragment(batch[0].text)] else []) + StreamingOf(batch[1..])
  }

  /** `messages.filter(m => m.isComplete)`, with the same two facts. */
  function CompleteOf(batch: seq<BridgeMessage>): (r: seq<Fragment>)
    ensures |r| <= |batch|
    ensures r == [] <==> forall i :: 0 <= i < |batch| ==> !batch[i].isComplete
    ensures |r| == |batch| <==> forall i :: 0 <= i < |batch| ==> batch[i].isComplete
  {
    if batch == [] then []
    else (if batch[0].isComplete then [Fragment(batch[0].text)] else []) + CompleteOf(batch[1..])
  }

  /** The complete handler applied to each message in order. */
  function CompleteAll(s: BotState, messages: seq<Fragment>): BotState
    decreases |messages|
  {
    if messages == [] then s
    else CompleteAll(OnComplete(s, Some(messages[0])), messages[1..])
  }

  /** The forwarding of backend/telegram-server.js: the batch's streaming
      messages (if any) go to the streaming handler first, then each complete
      message, in order, to the complete handler. */
  function OnBatch(s: BotState, batch: seq<BridgeMessage>): BotState {
    var streaming := StreamingOf(batch);
    var s1 := if streaming != [] then OnStreaming(s, streaming) else s;
    CompleteAll(s1, CompleteOf(batch))
  }

  // ---------------------------------------------------------------------------
  // Properties of the handlers.

  /** `_resetActiveResponse` does not cancel anything already queued: every old
      chain keeps its steps, and the new current chain is empty. */
  lemma ResetKeepsQueuedSteps(s: BotState)
    ensures var r := Reset(s);
            |r.chains| == |s.chains| + 1 && r.chains[..|s.chains|] == s.chains &&
            r.chains[|s.chains|] == [] && r.answer == NoAnswer && r.lastSentText == [] &&
            r.lastStreamingMsg.None? && !r.timerArmed
  {
  }

  /** A step runs on one chain only: it removes that chain's head and leaves the
      others alone, and the transcript grows by exactly the step's calls. */
  lemma RunJobIsFifo(s: BotState, chain: nat, now: Timestamp, t: Transport)
    requires CanRun(s, chain)
    ensures var r := RunJob(s, chain, now, t);
            |r.chains| == |s.chains| && r.chains[chain] == s.chains[chain][1..] &&
            (forall c :: 0 <= c < |s.chains| && c != chain ==> r.chains[c] == s.chains[c]) &&
            r.wire == s.wire + DeliverStep(s.answer, s.chains[chain][0].text, now, t).calls &&
            r.lastSentText == s.lastSentText && r.lastStreamingMsg == s.lastStreamingMsg
  {
  }

  /** The step appended to the current chain, or the first chain holding just
      that step when there is none yet. */
  predicate QueuedOne(before: BotState, after: BotState, job: Job) {
    if before.chains == [] then after.chains == [[job]]
    else after.chains == before.chains[|before.chains| - 1 := before.chains[|before.chains| - 1] + [job]]
  }

  /** Chaining a non-empty text appends one step to the current chain. */
  lemma EnqueueAppends(s: BotState, text: JsString, arms: bool)
    requires text != []
    ensures QueuedOne(s, Enqueue(s, text, arms), Job(text, arms))
    ensures Enqueue(s, text, arms).chains != s.chains
    ensures Enqueue(s, text, arms) == s.(chains := Enqueue(s, text, arms).chains)
  {
    if s.chains != [] {
      var last := |s.chains| - 1;
      assert |Enqueue(s, text, arms).chains[last]| == |s.chains[last]| + 1;
    }
  }

  /** The streaming handler: the latest fragment becomes the pending one, and a
      step is queued exactly when that fragment is at least 5 code units long;
      nothing else changes. */
  lemma StreamingGate(s: BotState, messages: seq<Fragment>)
    requires messages != []
    ensures var latest := messages[|messages| - 1];
            var r := OnStreaming(s, messages);
            r.lastStreamingMsg == Some(latest) &&
            r.answer == s.answer && r.lastSentText == s.lastSentText && r.timerArmed == s.timerArmed &&
            (|latest.text| >= MinTextLength <==> r.chains != s.chains) &&
            (|latest.text| >= MinTextLength ==> QueuedOne(s, r, Job(StreamingPrefix() + latest.text, true)))
  {
    var latest := messages[|messages| - 1];
    if |latest.text| >= MinTextLength {
      EnqueueAppends(s.(lastStreamingMsg := Some(latest)), StreamingPrefix() + latest.text, true);
    }
  }

  /** The complete handler: a message changes the state exactly when its text is
      at least 5 code units long and differs from `lastSentText`; it then becomes
      `lastSentText`, the timer and the pending fragment are cleared, and one
      final delivery is queued. */
  lemma CompleteGate(s: BotState, f: Fragment)
    ensures var r := OnComplete(s, Some(f));
            (r != s <==> |f.text| >= MinTextLength && f.text != s.lastSentText) &&
            (r != s ==> r.lastSentText == f.text && !r.timerArmed && r.lastStreamingMsg.None? &&
                        r.answer == s.answer && QueuedOne(s, r, Job(FinalPrefix() + f.text, false)))
  {
    var r := OnComplete(s, Some(f));
    if |f.text| >= MinTextLength && f.text != s.lastSentText {
      assert r.lastSentText != s.lastSentText;
    }
  }

  /** Dedup on `lastSentText`: the same complete message handled twice has the
      effect of handling it once. */
  lemma CompleteIsIdempotent(s: BotState, m: Option<Fragment>)
    ensures OnComplete(OnComplete(s, m), m) == OnComplete(s, m)
  {
  }

  /** A complete message beats the quiet timer: once it is handled, the step run
      next (even a streaming step that re-arms the timer) does not let the timer
      queue anything. */
  lemma CompleteBeatsQuietTimer(s: BotState, f: Fragment, chain: nat, now: Timestamp, t: Transport)
    requires |f.text| >= MinTextLength && f.text != s.lastSentText
    requires CanRun(OnComplete(s, Some(f)), chain)
    ensures var s2 := RunJob(OnComplete(s, Some(f)), chain, now, t);
            s2.timerArmed ==> OnQuietTimer(s2).chains == s2.chains && OnQuietTimer(s2).lastSentText == f.text
  {
  }

  /** The quiet timer: it queues a final delivery exactly when the pending
      fragment's text is at least 5 code units long and differs from
      `lastSentText`, and then it behaves as the complete handler on that text;
      afterwards no fragment is pending and the timer is not armed. */
  lemma QuietTimerFinalizes(s: BotState)
    requires s.timerArmed && s.chains != []
    ensures var r := OnQuietTimer(s);
            r.lastStreamingMsg.None? && !r.timerArmed &&
            ((r.chains != s.chains) <==>
               (s.lastStreamingMsg.Some? && |s.lastStreamingMsg.value.text| >= MinTextLength &&
                s.lastStreamingMsg.value.text != s.lastSentText)) &&
            (r.chains != s.chains ==>
               r == OnComplete(s.(timerArmed := false), s.lastStreamingMsg).(lastStreamingMsg := None))
  {
    if s.lastStreamingMsg.Some? {
      var f := s.lastStreamingMsg.value;
      CompleteGate(s.(timerArmed := false), f);
      if |f.text| >= MinTextLength && f.text != s.lastSentText {
        var last := |s.chains| - 1;
        assert |OnQuietTimer(s).chains[last]| == |s.chains[last]| + 1;
      }
    }
  }

  /** A short fragment overwrites the pending one: after a fragment of 1 to 4 code
      units the armed timer reads that fragment and finalizes nothing, although
      the longer fragment it replaced would have been finalized. */
  lemma ShortFragmentOverwritesPending(s: BotState, short: Fragment)
    requires s.timerArmed && s.chains != []
    requires s.lastStreamingMsg.Some? && |s.lastStreamingMsg.value.text| >= MinTextLength
    requires s.lastStreamingMsg.value.text != s.lastSentText
    requires |short.text| < MinTextLength
    ensures OnQuietTimer(s).chains != s.chains
    ensures var s1 := OnStreaming(s, [short]);
            s1.timerArmed && OnQuietTimer(s1).chains == s.chains &&
            OnQuietTimer(s1).lastSentText == s.lastSentText
  {
    QuietTimerFinalizes(s);
  }

  /** Every step the handlers queue carries a text of at least 5 code units
      behind its prefix. */
  lemma HandlersQueueOnlyLongTexts(s: BotState, messages: seq<Fragment>, m: Option<Fragment>)
    ensures OnStreaming(s, messages).chains == s.chains ||
            exists body :: |body| >= MinTextLength && QueuedOne(s, OnStreaming(s, messages), Job(StreamingPrefix() + body, true))
    ensures OnComplete(s, m).chains == s.chains ||
            exists body :: |body| >= MinTextLength && QueuedOne(s, OnComplete(s, m), Job(FinalPrefix() + body, false))
  {
    if messages != [] {
      StreamingGate(s, messages);
    }
    if m.Some? {
      CompleteGate(s, m.value);
    }
  }

  /** A complete message handled again on the state it produced changes nothing,
      however often it repeats. */
  lemma {:induction false} RepeatedCompleteFixed(s: BotState, f: Fragment, messages: seq<Fragment>)
    requires forall i :: 0 <= i < |messages| ==> messages[i] == f
    requires OnComplete(s, Some(f)) == s
    ensures CompleteAll(s, messages) == s
    decreases |messages|
  {
    if messages != [] {
      RepeatedCompleteFixed(s, f, messages[1..]);
    }
  }

  /** A batch whose complete messages all carry one text queues at most one final
      delivery for it: the batch has the effect of its first message, and none
      at all when that text was the last one sent. */
  lemma RepeatedCompleteQueuesOnce(s: BotState, f: Fragment, messages: seq<Fragment>)
    requires forall i :: 0 <= i < |messages| ==> messages[i] == f
    ensures messages != [] ==> CompleteAll(s, messages) == OnComplete(s, Some(f))
    ensures f.text == s.lastSentText ==> CompleteAll(s, messages) == s
  {
    if messages != [] {
      CompleteIsIdempotent(s, Some(f));
      RepeatedCompleteFixed(OnComplete(s, Some(f)), f, messages[1..]);
    }
  }

  /** No pending fragment and no armed quiet timer. */
  predicate StreamingCleared(s: BotState) {
    s.lastStreamingMsg.None? && !s.timerArmed
  }

  /** The complete handler never brings back a pending fragment or the timer. */
  lemma {:induction false} CompleteAllKeepsCleared(s: BotState, messages: seq<Fragment>)
    requires StreamingCleared(s)
    ensures StreamingCleared(CompleteAll(s, messages))
    decreases |messages|
  {
    if messages != [] {
      CompleteAllKeepsCleared(OnComplete(s, Some(messages[0])), messages[1..]);
    }
  }

  /** Once the complete messages hold one that the handler accepts, the pending
      fragment and the timer are gone when they have all been handled. */
  lemma {:induction false} CompleteAllClears(s: BotState, messages: seq<Fragment>, k: nat)
    requires k < |messages| && |messages[k].text| >= MinTextLength && messages[k].text != s.lastSentText
    ensures StreamingCleared(CompleteAll(s, messages))
    decreases |messages|
  {
    var s1 := OnComplete(s, Some(messages[0]));
    if StreamingCleared(s1) {
      CompleteAllKeepsCleared(s1, messages[1..]);
    } else {
      assert s1 == s && k > 0;
      CompleteAllClears(s1, messages[1..], k - 1);
    }
  }

  /** Streaming messages are handled before the complete ones of the same batch,
      wherever they stand in it: when the batch holds a complete message the
      handler accepts, no streaming fragment stays pending and no quiet timer is
      armed after the batch, so the complete text is the batch's last word. */
  lemma BatchOrder(s: BotState, batch: seq<BridgeMessage>, f: Fragment)
    requires f in CompleteOf(batch) && |f.text| >= MinTextLength && f.text != s.lastSentText
    ensures StreamingCleared(OnBatch(s, batch))
  {
    var complete := CompleteOf(batch);
    var k :| 0 <= k < |complete| && complete[k] == f;
    var streaming := StreamingOf(batch);
    var s1 := if streaming != [] then OnStreaming(s, streaming) else s;
    assert s1.lastSentText == s.lastSentText;
    CompleteAllClears(s1, complete, k);
  }

  /** A batch of one complete message and nothing else streamed or completed has
      the effect of the complete handler on that message. */
  lemma {:induction false} SingleCompleteBatch(s: BotState, batch: seq<BridgeMessage>, i: nat)
    requires i < |batch| && batch[i].isComplete && !batch[i].isStreaming
    requires forall j :: 0 <= j < |batch| && j != i ==> !batch[j].isComplete && !batch[j].isStreaming
    ensures OnBatch(s, batch) == OnComplete(s, Some(Fragment(batch[i].text)))
  {
    StreamingOfOnlyOne(batch, i);
    var f := Fragment(batch[i].text);
    assert CompleteAll(s, [f]) == CompleteAll(OnComplete(s, Some(f)), []);
  }

  lemma {:induction false} StreamingOfOnlyOne(batch: seq<BridgeMessage>, i: nat)
    requires i < |batch| && batch[i].isComplete && !batch[i].isStreaming
    requires forall j :: 0 <= j < |batch| && j != i ==> !batch[j].isComplete && !batch[j].isStreaming
    ensures StreamingOf(batch) == [] && CompleteOf(batch) == [Fragment(batch[i].text)]
  {
    if i > 0 {
      StreamingOfOnlyOne(batch[1..], i - 1);
    } else {
      NoneOfOthers(batch[1..]);
    }
  }

  lemma {:induction false} NoneOfOthers(batch: seq<BridgeMessage>)
    requires forall j :: 0 <= j < |batch| ==> !batch[j].isComplete && !batch[j].isStreaming
    ensures StreamingOf(batch) == [] && CompleteOf(batch) == []
  {
    if batch != [] {
      NoneOfOthers(batch[1..]);
    }
  }

  // ---------------------------------------------------------------------------
  // The service object, with the fields the JavaScript class updates in place.

  class TelegramBotService {
    var activeResponseMsgId: Option<MessageId>
    var lastEditedText: Option<JsString>
    var lastEditTime: Option<Timestamp>
    /** `_sendLock`: every promise chain still holding steps; the last is current. */
    var sendLock: seq<seq<Job>>
    var lastSentText: JsString
    var lastStreamingMsg: Option<Fragment>
    /** `streamingTimeout`: whether a quiet timer is pending. */
    var streamingTimeout: bool
    /** Every request sent to Telegram so far. */
    ghost var Wire: seq<Call>

    ghost function State(): BotState
      reads this
    {
      BotState(ActiveAnswer(activeResponseMsgId, lastEditedText, lastEditTime),
               sendLock, lastSentText, lastStreamingMsg, streamingTimeout, Wire)
    }

    constructor ()
      ensures State() == Initial
    {
      activeResponseMsgId, lastEditedText, lastEditTime := None, None, None;
      sendLock := [];
      lastSentText := [];
      lastStreamingMsg := None;
      streamingTimeout := false;
      Wire := [];
    }

    method ResetActiveResponse()
      modifies this
      ensures State() == Reset(old(State()))
    {
      activeResponseMsgId := None;
      lastEditedText := None;
      lastEditTime := None;
      sendLock := sendLock + [[]];
      lastSentText := [];
      streamingTimeout := false;
      lastStreamingMsg := None;
    }

    /** The synchronous half of `_sendOrEditResponse`: chain the step. */
    method SendOrEditResponse(text: JsString, armsQuietTimer: bool)
      modifies this
      ensures State() == Enqueue(old(State()), text, armsQuietTimer)
    {
      if text == [] {
        return;
      }
      if sendLock == [] {
        sendLock := [[Job(text, armsQuietTimer)]];
      } else {
        var last := |sendLock| - 1;
        sendLock := sendLock[last := sendLock[last] + [Job(text, armsQuietTimer)]];
      }
    }

    method HandleStreamingMessage(messages: seq<Fragment>)
      modifies this
      ensures State() == OnStreaming(old(State()), messages)
    {
      if messages == [] {
        return;
      }
      var latest := messages[|messages| - 1];
      lastStreamingMsg := Some(latest);
      var text := latest.text;
      if |text| < MinTextLength {
        return;
      }
      SendOrEditResponse(StreamingPrefix() + text, true);
    }

    method HandleCompleteMessage(message: Option<Fragment>)
      modifies this
      ensures State() == OnComplete(old(State()), message)
    {
      if message.None? {
        return;
      }
      var text := message.value.text;
      if |text| < MinTextLength {
        return;
      }
      if text == lastSentText {
        return;
      }
      lastSentText := text;
      streamingTimeout := false;
      lastStreamingMsg := None;
      SendOrEditResponse(FinalPrefix() + text, false);
    }

    /** The pending quiet timer fires. */
    method QuietTimerFires()
      requires streamingTimeout
      modifies this
      ensures State() == OnQuietTimer(old(State()))
    {
      streamingTimeout := false;
      if lastStreamingMsg.Some? {
        var finalText := lastStreamingMsg.value.text;
        if finalText != [] && finalText != lastSentText {
          HandleCompleteMessage(Some(Fragment(finalText)));
        }
        lastStreamingMsg := None;
      }
    }

    /** The step at the head of chain `chain` runs, with Telegram answering `t`. */
    method RunQueuedStep(chain: nat, now: Timestamp, t: Transport)
      requires CanRun(State(), chain)
      modifies this
      ensures State() == RunJob(old(State()), chain, now, t)
    {
      var job := sendLock[chain][0];
      sendLock := sendLock[chain := sendLock[chain][1..]];
      var displayText := Display(job.text);
      if Some(displayText) != lastEditedText &&
         !(activeResponseMsgId.Some? && lastEditTime.Some? && now - lastEditTime.value < EditInterval) {
        var delivered := true;
        if activeResponseMsgId.None? {
          Wire := Wire + [SendMessage(displayText)];
          match t.send
          case Sent(id) => activeResponseMsgId := Some(id);
          case SendThrows => delivered := false;
        } else {
          Wire := Wire + [EditMessageText(activeResponseMsgId.value, displayText)];
          if t.edit == NotFound {
            Wire := Wire + [SendMessage(displayText)];
            match t.send
            case Sent(id) => activeResponseMsgId := Some(id);
            case SendThrows => delivered := false;
          }
        }
        if delivered {
          lastEditedText := Some(displayText);
          lastEditTime := Some(now);
        }
      }
      if job.armsQuietTimer {
        streamingTimeout := true;
      }
    }

    /** The forwarding loop of backend/telegram-server.js for one batch. */
    method OnAiMessages(batch: seq<BridgeMessage>)
      modifies this
      ensures State() == OnBatch(old(State()), batch)
    {
      var streaming := StreamingOf(batch);
      if streaming != [] {
        HandleStreamingMessage(streaming);
      }
      var completes := CompleteOf(batch);
      ghost var afterStreaming := State();
      var i := 0;
      while i < |completes|
        invariant 0 <= i <= |completes|
        invariant CompleteAll(afterStreaming, completes) == CompleteAll(State(), completes[i..])
      {
        HandleCompleteMessage(Some(completes[i]));
        assert completes[i..][1..] == completes[i + 1..];
        i := i + 1;
      }
    }
  }
}
