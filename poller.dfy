/** The fallback poller `_pollForResponse` of backend/services/TelegramBot.js.
    Each `doPoll` tick is a step over the closure variables `pollCount`,
    `lastPollText`, `stableCount` and `responseSentViaPolling`. It reads the time
    elapsed since the poller started, one sample of the agent's last answer (empty
    when the bridge returns nothing or throws) and the service's shared
    `lastSentText`. It then stops, schedules the next tick, or delivers the answer.
    Nothing identifies the turn a poller belongs to. */
module Poller {
  import opened Wrappers
  import opened JsText
  import opened Delivery
  import opened Bot

  const FastInterval: nat := 3000
  const SlowInterval: nat := 10000
  const FastPhaseMs: nat := 120000
  const MaxTotalMs: nat := 900000
  /** `STABLE_COUNT`: the number of repeats of one text that completes an answer. */
  const StableCount: nat := 2
  /** The bridge is assumed to have delivered only after this many ticks. */
  const BridgeHeadStart: nat := 3

  /** The closure variables of one poller. */
  datatype PollVars = PollVars(pollCount: nat, lastPollText: JsString, stableCount: nat,
                               responseSentViaPolling: bool)

  const InitialVars := PollVars(0, [], 0, false)

  /** What a tick ends with: no further tick, the next tick after `delay` ms,
      or the delivery of `text` (after which no tick follows). */
  datatype TickOutcome = Stopped | Rescheduled(delay: nat) | Delivered(text: JsString)

  /** The interval before the next tick. */
  function NextDelay(elapsed: int): nat {
    if elapsed < FastPhaseMs then FastInterval else SlowInterval
  }

  /** A sample that counts towards stability: non-empty and not the baseline. */
  predicate Qualifies(sample: JsString, baseline: JsString) {
    sample != [] && sample != baseline
  }

  /** The bridge delivered something other than the baseline, and the poller has
      given it its head start. */
  predicate BridgeDelivered(pollCount: nat, lastSentText: JsString, baseline: JsString) {
    lastSentText != [] && lastSentText != baseline && pollCount > BridgeHeadStart
  }

  /** One `doPoll` tick. */
  function Tick(v: PollVars, elapsed: int, sample: JsString, baseline: JsString,
                lastSentText: JsString): (PollVars, TickOutcome)
  {
    if v.responseSentViaPolling then (v, Stopped)
    else
      var v1 := v.(pollCount := v.pollCount + 1);
      if BridgeDelivered(v1.pollCount, lastSentText, baseline) then (v1, Stopped)
      else if elapsed > MaxTotalMs then (v1, Stopped)
      else if !Qualifies(sample, baseline) then (v1, Rescheduled(NextDelay(elapsed)))
      else if sample == v.lastPollText then
        var v2 := v1.(stableCount := v.stableCount + 1);
        if v2.stableCount >= StableCount then
          var v3 := v2.(responseSentViaPolling := true);
          if lastSentText == sample then (v3, Stopped) else (v3, Delivered(sample))
        else (v2, Rescheduled(NextDelay(elapsed)))
      else (v1.(stableCount := 0, lastPollText := sample), Rescheduled(NextDelay(elapsed)))
  }

  /** A tick's effect on the service: a delivery records the text in
      `lastSentText` and queues it with the final prefix. */
  function ApplyOutcome(s: BotState, o: TickOutcome): BotState {
    if o.Delivered? then Enqueue(s.(lastSentText := o.text), FinalPrefix() + o.text, false) else s
  }

  // ---------------------------------------------------------------------------
  // Properties of one tick.

  /** Interval choice: a rescheduled tick waits 3 s during the first two minutes
      and 10 s afterwards. */
  lemma TickDelay(v: PollVars, elapsed: int, sample: JsString, baseline: JsString, lastSentText: JsString)
    ensures var o := Tick(v, elapsed, sample, baseline, lastSentText).1;
            o.Rescheduled? ==> o.delay == (if elapsed < 120000 then 3000 else 10000)
  {
  }

  /** Stop conditions: a running poller stops without delivering exactly when the
      bridge delivered (after the head start), when 15 minutes have passed, or
      when the stable text is already the last one sent. */
  lemma TickStops(v: PollVars, elapsed: int, sample: JsString, baseline: JsString, lastSentText: JsString)
    requires !v.responseSentViaPolling
    ensures Tick(v, elapsed, sample, baseline, lastSentText).1 == Stopped <==>
              BridgeDelivered(v.pollCount + 1, lastSentText, baseline) || elapsed > MaxTotalMs ||
              (Qualifies(sample, baseline) && sample == v.lastPollText &&
               v.stableCount + 1 >= StableCount && lastSentText == sample)
  {
  }

  /** Delivery: a tick delivers exactly the sample, and only when it qualifies,
      repeats the previous qualifying sample with `stableCount` reaching 2, the
      bridge has not delivered, time is not up, and it is not already the last
      text sent. */
  lemma TickDelivers(v: PollVars, elapsed: int, sample: JsString, baseline: JsString, lastSentText: JsString)
    requires !v.responseSentViaPolling
    ensures Tick(v, elapsed, sample, baseline, lastSentText).1.Delivered? <==>
              !BridgeDelivered(v.pollCount + 1, lastSentText, baseline) && elapsed <= MaxTotalMs &&
              Qualifies(sample, baseline) && sample == v.lastPollText &&
              v.stableCount + 1 >= StableCount && lastSentText != sample
    ensures Tick(v, elapsed, sample, baseline, lastSentText).1.Delivered? ==>
              Tick(v, elapsed, sample, baseline, lastSentText).1.text == sample &&
              Tick(v, elapsed, sample, baseline, lastSentText).0.responseSentViaPolling
  {
  }

  /** Empty or baseline samples neither reset nor advance the stability counter,
      and a new qualifying text resets it. */
  lemma TickCounter(v: PollVars, elapsed: int, sample: JsString, baseline: JsString, lastSentText: JsString)
    requires Tick(v, elapsed, sample, baseline, lastSentText).1.Rescheduled?
    ensures var w := Tick(v, elapsed, sample, baseline, lastSentText).0;
            w.pollCount == v.pollCount + 1 &&
            (!Qualifies(sample, baseline) ==> w.stableCount == v.stableCount && w.lastPollText == v.lastPollText) &&
            (Qualifies(sample, baseline) && sample != v.lastPollText ==> w.stableCount == 0 && w.lastPollText == sample) &&
            (Qualifies(sample, baseline) && sample == v.lastPollText ==> w.stableCount == v.stableCount + 1 && w.lastPollText == sample)
  {
  }

  // ---------------------------------------------------------------------------
  // Runs of ticks.

  /** What one tick reads: the elapsed time, the sample and `lastSentText`. */
  datatype TickInput = TickInput(elapsed: int, sample: JsString, lastSentText: JsString)

  /** The ticks that actually run: each after the previous one rescheduled. The
      result holds the final variables and the outcome of every tick run. */
  function Run(v: PollVars, baseline: JsString, inputs: seq<TickInput>): (r: (PollVars, seq<TickOutcome>))
    ensures |r.1| <= |inputs|
    decreases |inputs|
  {
    if inputs == [] then (v, [])
    else
      var (w, o) := Tick(v, inputs[0].elapsed, inputs[0].sample, baseline, inputs[0].lastSentText);
      if o.Rescheduled? then
        var rest := Run(w, baseline, inputs[1..]);
        (rest.0, [o] + rest.1)
      else (w, [o])
  }

  /** The qualifying samples read by the ticks that `Run` runs, in order. */
  function QualifyingReads(v: PollVars, baseline: JsString, inputs: seq<TickInput>): (q: seq<JsString>)
    ensures forall i :: 0 <= i < |q| ==> Qualifies(q[i], baseline)
    decreases |inputs|
  {
    if inputs == [] then []
    else
      var (w, o) := Tick(v, inputs[0].elapsed, inputs[0].sample, baseline, inputs[0].lastSentText);
      var first := if Qualifies(inputs[0].sample, baseline) then [inputs[0].sample] else [];
      if o.Rescheduled? then first + QualifyingReads(w, baseline, inputs[1..]) else first
  }

  /** The number of trailing elements of `q` equal to its last one. */
  function TrailingRun(q: seq<JsString>): (n: nat)
    ensures n <= |q| && (q != [] ==> n >= 1)
  {
    if q == [] then 0
    else if |q| >= 2 && q[|q| - 2] == q[|q| - 1] then TrailingRun(q[..|q| - 1]) + 1
    else 1
  }

  /** The poller's variables summarize the qualifying samples read so far: the
      last one, and one less than the length of its trailing run. */
  predicate Summarizes(v: PollVars, q: seq<JsString>) {
    !v.responseSentViaPolling &&
    (q == [] ==> v.lastPollText == [] && v.stableCount == 0) &&
    (q != [] ==> v.lastPollText == q[|q| - 1] && v.stableCount + 1 == TrailingRun(q))
  }

  lemma TrailingRunSnoc(q: seq<JsString>, x: JsString)
    ensures TrailingRun(q + [x]) == (if q != [] && q[|q| - 1] == x then TrailingRun(q) + 1 else 1)
  {
    assert (q + [x])[..|q|] == q;
  }

  /** A rescheduling tick keeps the summary up to date; a delivering tick of `x`
      ends a trailing run of at least three reads of `x`. */
  lemma TickKeepsSummary(v: PollVars, q: seq<JsString>, input: TickInput, baseline: JsString)
    requires Summarizes(v, q)
    ensures var (w, o) := Tick(v, input.elapsed, input.sample, baseline, input.lastSentText);
            var q' := q + (if Qualifies(input.sample, baseline) then [input.sample] else []);
            (o.Rescheduled? ==> Summarizes(w, q')) &&
            (o.Delivered? ==> q' != [] && q'[|q'| - 1] == o.text && TrailingRun(q') >= StableCount + 1)
  {
    if Qualifies(input.sample, baseline) {
      TrailingRunSnoc(q, input.sample);
    } else {
      assert q + [] == q;
    }
  }

  /** The first tick of a run, from a state that summarizes the reads `q`: its
      outcome heads the outcomes, and its sample, if it qualifies, is the next
      read; a rescheduling tick keeps the summary, a delivering one ends a
      trailing run of at least three reads of its text. */
  lemma RunStep(v: PollVars, q: seq<JsString>, baseline: JsString, inputs: seq<TickInput>)
    returns (w: PollVars, o: TickOutcome, first: seq<JsString>)
    requires inputs != [] && Summarizes(v, q)
    ensures Run(v, baseline, inputs).1 == (if o.Rescheduled? then [o] + Run(w, baseline, inputs[1..]).1 else [o])
    ensures QualifyingReads(v, baseline, inputs) ==
              (if o.Rescheduled? then first + QualifyingReads(w, baseline, inputs[1..]) else first)
    ensures o.Rescheduled? ==> Summarizes(w, q + first)
    ensures o.Delivered? ==> q + first != [] && (q + first)[|q + first| - 1] == o.text &&
                             TrailingRun(q + first) >= StableCount + 1
  {
    var input := inputs[0];
    w, o := Tick(v, input.elapsed, input.sample, baseline, input.lastSentText).0,
            Tick(v, input.elapsed, input.sample, baseline, input.lastSentText).1;
    first := if Qualifies(input.sample, baseline) then [input.sample] else [];
    TickKeepsSummary(v, q, input, baseline);
  }

  /** The outcomes `outs` of a run end with a delivery only when the reads `all`
      end with at least three reads of the delivered text. */
  ghost predicate DeliversAfterThreeReads(outs: seq<TickOutcome>, all: seq<JsString>) {
    outs != [] && outs[|outs| - 1].Delivered? ==>
      all != [] && all[|all| - 1] == outs[|outs| - 1].text && TrailingRun(all) >= 3
  }

  /** The induction step of `DeliveryNeedsThreeReads`: a rescheduling tick in front
      of a run keeps the property of the rest of it. */
  lemma RescheduledStep(q: seq<JsString>, first: seq<JsString>, rest: seq<JsString>,
                        o: TickOutcome, outs: seq<TickOutcome>)
    requires o.Rescheduled? && DeliversAfterThreeReads(outs, (q + first) + rest)
    ensures DeliversAfterThreeReads([o] + outs, q + (first + rest))
  {
    assert q + (first + rest) == (q + first) + rest;
    if outs != [] {
      assert ([o] + outs)[|outs|] == outs[|outs| - 1];
    }
  }

  /** Stability needs three qualifying reads: if a run delivers, the qualifying
      samples read so far end with at least three reads of the delivered text. */
  lemma {:induction false} DeliveryNeedsThreeReads(v: PollVars, q: seq<JsString>, baseline: JsString,
                                                   inputs: seq<TickInput>)
    requires Summarizes(v, q)
    ensures DeliversAfterThreeReads(Run(v, baseline, inputs).1, q + QualifyingReads(v, baseline, inputs))
    decreases |inputs|
  {
    if inputs != [] {
      var w, o, first := RunStep(v, q, baseline, inputs);
      if o.Rescheduled? {
        DeliveryNeedsThreeReads(w, q + first, baseline, inputs[1..]);
        RescheduledStep(q, first, QualifyingReads(w, baseline, inputs[1..]), o, Run(w, baseline, inputs[1..]).1);
      }
    }
  }

  /** A run delivers at most once, and the delivery is its last tick: every tick
      before the last one rescheduled. */
  lemma {:induction false} RunDeliversAtMostOnce(v: PollVars, baseline: JsString, inputs: seq<TickInput>)
    ensures forall i :: 0 <= i < |Run(v, baseline, inputs).1| - 1 ==> Run(v, baseline, inputs).1[i].Rescheduled?
    decreases |inputs|
  {
    if inputs != [] {
      var (w, o) := Tick(v, inputs[0].elapsed, inputs[0].sample, baseline, inputs[0].lastSentText);
      if o.Rescheduled? {
        RunDeliversAtMostOnce(w, baseline, inputs[1..]);
        var rest := Run(w, baseline, inputs[1..]).1;
        var outs := Run(v, baseline, inputs).1;
        assert outs == [o] + rest;
        forall i | 0 < i < |outs| - 1
          ensures outs[i].Rescheduled?
        {
          assert outs[i] == rest[i - 1];
        }
      }
    }
  }

  /** A poller that reads only empty or baseline samples never delivers, and stops
      at the first tick after 15 minutes. */
  lemma {:induction false} BaselineOnlyNeverDelivers(v: PollVars, baseline: JsString, inputs: seq<TickInput>)
    requires !v.responseSentViaPolling
    requires forall i :: 0 <= i < |inputs| ==> !Qualifies(inputs[i].sample, baseline)
    ensures var outs := Run(v, baseline, inputs).1;
            forall i :: 0 <= i < |outs| ==> !outs[i].Delivered? &&
                                            (inputs[i].elapsed > MaxTotalMs ==> outs[i] == Stopped)
    decreases |inputs|
  {
    if inputs != [] {
      var (w, o) := Tick(v, inputs[0].elapsed, inputs[0].sample, baseline, inputs[0].lastSentText);
      if o.Rescheduled? {
        BaselineOnlyNeverDelivers(w, baseline, inputs[1..]);
        var rest := Run(w, baseline, inputs[1..]).1;
        assert Run(v, baseline, inputs).1 == [o] + rest;
      }
    }
  }

  /** The six samples of `StabilityExample`. */
  function ExampleInputs(baseline: JsString, h: JsString, w: JsString): seq<TickInput> {
    [TickInput(3000, baseline, []), TickInput(6000, baseline, []),
     TickInput(9000, h, []), TickInput(12000, h, []),
     TickInput(15000, w, []), TickInput(18000, w, [])]
  }

  /** The last three ticks of the example, from the variables after the third:
      without a seventh read nothing is delivered, with it `w` is. */
  lemma StabilityExampleTail(baseline: JsString, h: JsString, w: JsString)
    requires Qualifies(h, baseline) && Qualifies(w, baseline) && h != w
    ensures var inputs := ExampleInputs(baseline, h, w);
            var all := inputs + [TickInput(21000, w, [])];
            Run(PollVars(3, h, 0, false), baseline, inputs[3..]).1 ==
              [Rescheduled(3000), Rescheduled(3000), Rescheduled(3000)] &&
            Run(PollVars(3, h, 0, false), baseline, all[3..]).1 ==
              [Rescheduled(3000), Rescheduled(3000), Rescheduled(3000), Delivered(w)]
  {
    var inputs := ExampleInputs(baseline, h, w);
    var all := inputs + [TickInput(21000, w, [])];
    var v4 := PollVars(4, h, 1, false);
    var v5 := PollVars(5, w, 0, false);
    var v6 := PollVars(6, w, 1, false);
    assert Run(v6, baseline, all[6..]).1 == [Delivered(w)];
    assert Run(v6, baseline, inputs[6..]).1 == [];
    assert Run(v5, baseline, all[5..]).1 == [Rescheduled(3000), Delivered(w)];
    assert Run(v4, baseline, all[4..]).1 == [Rescheduled(3000), Rescheduled(3000), Delivered(w)];
    assert Run(v5, baseline, inputs[5..]).1 == [Rescheduled(3000)];
    assert Run(v4, baseline, inputs[4..]).1 == [Rescheduled(3000), Rescheduled(3000)];
  }

  /** The six ticks of the example, from the start. */
  lemma StabilityExampleSix(baseline: JsString, h: JsString, w: JsString)
    requires Qualifies(h, baseline) && Qualifies(w, baseline) && h != w
    ensures Run(InitialVars, baseline, ExampleInputs(baseline, h, w)).1 ==
              [Rescheduled(3000), Rescheduled(3000), Rescheduled(3000),
               Rescheduled(3000), Rescheduled(3000), Rescheduled(3000)]
  {
    var inputs := ExampleInputs(baseline, h, w);
    StabilityExampleTail(baseline, h, w);
    assert Run(PollVars(2, [], 0, false), baseline, inputs[2..]).1 ==
             [Rescheduled(3000), Rescheduled(3000), Rescheduled(3000), Rescheduled(3000)];
    assert Run(PollVars(1, [], 0, false), baseline, inputs[1..]).1 ==
             [Rescheduled(3000), Rescheduled(3000), Rescheduled(3000), Rescheduled(3000), Rescheduled(3000)];
  }

  /** The seven ticks of the example, from the start. */
  lemma StabilityExampleSeven(baseline: JsString, h: JsString, w: JsString)
    requires Qualifies(h, baseline) && Qualifies(w, baseline) && h != w
    ensures Run(InitialVars, baseline, ExampleInputs(baseline, h, w) + [TickInput(21000, w, [])]).1 ==
              [Rescheduled(3000), Rescheduled(3000), Rescheduled(3000),
               Rescheduled(3000), Rescheduled(3000), Rescheduled(3000), Delivered(w)]
  {
    var all := ExampleInputs(baseline, h, w) + [TickInput(21000, w, [])];
    StabilityExampleTail(baseline, h, w);
    assert Run(PollVars(2, [], 0, false), baseline, all[2..]).1 ==
             [Rescheduled(3000), Rescheduled(3000), Rescheduled(3000), Rescheduled(3000), Delivered(w)];
    assert Run(PollVars(1, [], 0, false), baseline, all[1..]).1 ==
             [Rescheduled(3000), Rescheduled(3000), Rescheduled(3000), Rescheduled(3000), Rescheduled(3000), Delivered(w)];
  }

  /** Two reads of a text are not enough: with samples baseline, baseline, h, h,
      w, w (h and w distinct qualifying texts), read early and with nothing sent
      by the bridge, the poller delivers nothing; a third read of w delivers it. */
  lemma StabilityExample(baseline: JsString, h: JsString, w: JsString)
    requires Qualifies(h, baseline) && Qualifies(w, baseline) && h != w
    ensures var inputs := ExampleInputs(baseline, h, w);
            Run(InitialVars, baseline, inputs).1 == [Rescheduled(3000), Rescheduled(3000), Rescheduled(3000),
                                                     Rescheduled(3000), Rescheduled(3000), Rescheduled(3000)] &&
            Run(InitialVars, baseline, inputs + [TickInput(21000, w, [])]).1 ==
              Run(InitialVars, baseline, inputs).1 + [Delivered(w)]
  {
    StabilityExampleSix(baseline, h, w);
    StabilityExampleSeven(baseline, h, w);
  }

  /** No turn id: a poller left over from an earlier turn is not stopped by
      `_resetActiveResponse`. The reset clears `lastSentText`, so the bridge check
      no longer fires, and a stable text still delivers into the new turn's
      current chain. */
  lemma StalePollerSurvivesReset(s: BotState, v: PollVars, elapsed: int, x: JsString, baseline: JsString)
    requires !v.responseSentViaPolling && v.lastPollText == x && v.stableCount >= 1
    requires Qualifies(x, baseline) && elapsed <= MaxTotalMs
    ensures var r := Reset(s);
            var (w, o) := Tick(v, elapsed, x, baseline, r.lastSentText);
            o == Delivered(x) &&
            ApplyOutcome(r, o).chains[|s.chains|] == [Job(FinalPrefix() + x, false)]
  {
  }

  /** The bridge check: once the bridge has delivered a text other than the
      baseline, every tick after the third stops the poller. */
  lemma BridgeDeliveryStopsPoller(v: PollVars, elapsed: int, sample: JsString, baseline: JsString,
                                  lastSentText: JsString)
    requires lastSentText != [] && lastSentText != baseline && v.pollCount >= BridgeHeadStart
    ensures Tick(v, elapsed, sample, baseline, lastSentText).1 == Stopped
  {
  }

  // ---------------------------------------------------------------------------
  // The poller object.

  /** One call of `_pollForResponse(baselineText)`: its closure variables, and
      the delay of the `setTimeout(doPoll, ...)` pending, if any. */
  class ResponsePoller {
    const baselineText: JsString
    const startTime: Timestamp
    var pollCount: nat
    var lastPollText: JsString
    var stableCount: nat
    var responseSentViaPolling: bool
    var pendingDelay: Option<nat>

    function Vars(): PollVars
      reads this
    {
      PollVars(pollCount, lastPollText, stableCount, responseSentViaPolling)
    }

    /** Starts polling: the variables start empty and the first tick is due after
        the fast interval. */
    constructor (baselineText: JsString, startTime: Timestamp)
      ensures this.baselineText == baselineText && this.startTime == startTime
      ensures Vars() == InitialVars && pendingDelay == Some(FastInterval)
    {
      this.baselineText := baselineText;
      this.startTime := startTime;
      pollCount := 0;
      lastPollText := [];
      stableCount := 0;
      responseSentViaPolling := false;
      pendingDelay := Some(FastInterval);
    }

    /** The pending tick runs at `now` and reads `sample`. */
    method DoPoll(bot: TelegramBotService, now: Timestamp, sample: JsString) returns (outcome: TickOutcome)
      requires pendingDelay.Some?
      modifies this, bot
      ensures (Vars(), outcome) == Tick(old(Vars()), now - startTime, sample, baselineText, old(bot.lastSentText))
      ensures bot.State() == ApplyOutcome(old(bot.State()), outcome)
      ensures pendingDelay == if outcome.Rescheduled? then Some(outcome.delay) else None
    {
      pendingDelay := None;
      outcome := Stopped;
      if !responseSentViaPolling {
        var elapsed := now - startTime;
        pollCount := pollCount + 1;
        if bot.lastSentText != [] && bot.lastSentText != baselineText && pollCount > BridgeHeadStart {
          // the bridge delivered: stop
        } else if elapsed > MaxTotalMs {
          // time is up: stop
        } else {
          if sample == [] || sample == baselineText {
            // nothing new
          } else if sample == lastPollText {
            stableCount := stableCount + 1;
            if stableCount >= StableCount {
              responseSentViaPolling := true;
              if bot.lastSentText != sample {
                bot.lastSentText := sample;
                bot.SendOrEditResponse(FinalPrefix() + sample, false);
                outcome := Delivered(sample);
              }
            }
          } else {
            stableCount := 0;
            lastPollText := sample;
          }
          if !responseSentViaPolling {
            var nextInterval := if elapsed < FastPhaseMs then FastInterval else SlowInterval;
            pendingDelay := Some(nextInterval);
            outcome := Rescheduled(nextInterval);
          }
        }
      }
    }
  }
}
