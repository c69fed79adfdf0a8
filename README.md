# AntibridgeTelegram answer pipeline and quota tracker, in Dafny

This project models two parts of the AntibridgeTelegram bridge. It then proves what the code promises about them.

**The answer pipeline of the Telegram bot (`backend/services/TelegramBot.js`).** This is the part that turns the AI agent's output into one Telegram message, edited in place. The output arrives two ways: pushed by the bridge, and read by a fallback poller. It has four pieces, each in its own module:

- **Chunker** (`_splitMessage`). Splits an over-long answer at the last newline, else after the last `. `, else at the last space. A cut is accepted only beyond half the limit. The pieces are numbered when there is more than one. JavaScript strings are modelled as UTF-16 code units (`JsText`), because `length`, `lastIndexOf`, `substring` and `trimStart` all count in code units.
- **Delivery** (`_sendOrEditResponse`). One serialized step over the fields `_activeResponseMsgId`, `_lastEditedText` and `_lastEditTime`:
  - the text is cut to its last 4000 units;
  - an identical text is skipped;
  - edits are throttled to one per 2 s;
  - the first step creates the message and later steps edit it, recreating it when Telegram no longer knows it.

  Telegram's replies are an input of the step.
- **Bot** (`_resetActiveResponse`, `handleStreamingMessage` and its 5-second quiet timer, `handleCompleteMessage`, and the forwarding in `backend/telegram-server.js`):
  - The `_sendLock` promise chain is a FIFO queue of atomic steps.
  - A reset starts a new chain without cancelling what the old ones still hold, so a step may run from the head of any chain.
  - `TelegramBotService` is a class whose fields are those of the service. Each method is proved to move its state exactly as the matching transition function does. The lemmas about those functions state the handlers' guarantees.
- **Poller** (`_pollForResponse`). Each `doPoll` tick is a step over the closure variables `pollCount`, `lastPollText`, `stableCount` and `responseSentViaPolling`. `ResponsePoller.DoPoll` performs the tick on a poller object and on the bot service. Runs of ticks are folded by `Run`, and the lemmas about `Run` cover whole polling sessions.

**The quota tracker (`backend/services/QuotaService.js` and its Python original `check_quota.py`).** Both ports:

- read the `GetUserStatus` response (`QuotaModel`), where each key may be missing, `null`, or a value;
- compute credit and per-model deltas against the last history entry;
- append a history entry only when something changed, keeping the last 2000 entries;
- format the time left until a model's quota resets (`Countdown`);
- parse the list of listening ports from the PowerShell output (`Ports`).

The two ports are modelled separately (`QuotaJs`, `QuotaPy`), since they differ in small ways:

- JavaScript `||` falls back on empty strings, while Python's `.get` falls back only on missing keys.
- Python raises on a `null` object, while JavaScript falls back.
- Python reports a model whose previous fraction was `null` as `'NEW'`, while JavaScript reports nothing.
- `parseInt` accepts `8080/tcp`, while `isdigit` rejects it.

Lemmas state each of these differences. The Python side also models `_format_delta` and the change collection of `show_change_log`.

**Behaviour of the code worth knowing:**

- The code has no per-turn generation counter. A poller from an earlier turn is stopped only by the `lastSentText` check or by its 15-minute timeout, and `_resetActiveResponse` does not cancel steps already queued. `Poller.StalePollerSurvivesReset` and `Bot.ResetKeepsQueuedSteps` state this.
- Delivery by polling needs three qualifying reads of the same text, because `stableCount` must go 0→1→2. `Poller.DeliveryNeedsThreeReads` and `Poller.StabilityExample` state this.

**Modelling choices:**

- Numbers in the quota JSON are integers. A model's `remainingFraction` is counted in thousandths, so the percent difference rounded to one decimal is exactly the difference in tenths of a percent.
- A Python call that raises returns `None` here.
- The clock, Telegram, the bridge and the file system are parameters: a timestamp `now`, a `Transport` reply, a sample text, or the history as read.

## Model

| member | source | states |
|---|---|---|
| `Chunker.SplitMessage` | backend/services/TelegramBot.js:799-844 | A text of at most 4096 code units comes back as the single unchanged piece. A longer one comes back as the numbered raw pieces produced by the loop's cut-and-`trimStart` recursion. |
| `Chunker.CutIndex` | backend/services/TelegramBot.js:814-831 | The chosen cut point lies beyond 2048, before the end of the text and at most 4097. It is 4097 only when a `. ` starts at index 4096. |
| `Chunker.CutIndexPreference` | backend/services/TelegramBot.js:816-831 | The cut is the last newline in the window (2048, 4096]. Failing that, it is just after the dot of the last `. `, then the last space, then a hard cut at 4096. |
| `Chunker.PiecesSplitText` | backend/services/TelegramBot.js:805-836 | The raw pieces interleaved with the whitespace runs `trimStart` dropped give back the text. Every piece is non-empty and at most 4096 units, except a 4097-unit piece ending in the dot of a `. ` at index 4096. Every piece but the last is longer than 2048, and every piece but the first starts with a non-whitespace unit. |
| `Chunker.FirstCut` | backend/services/TelegramBot.js:813-835 | One loop turn: the text is the pushed piece, then the whitespace dropped, then the remaining text, which is strictly shorter and starts with a non-whitespace unit. |
| `Chunker.Numbered` | backend/services/TelegramBot.js:838-843 | With more than one piece, piece i of n is prefixed with `📄 [i/n]\n\n`; a single piece is left untouched. |
| `Chunker.PartLabelReadsBack` | backend/services/TelegramBot.js:840 | The marker `📄 [i/n]\n\n` in front of a piece gives back i, n and the piece. |
| `Chunker.NumberedPartsNamePlaces` | backend/services/TelegramBot.js:838-843 | In a message split in several parts, the marker of part i names place i+1 of n and no other, and the piece behind it is piece i. So no two places carry the same part. |
| `JsText.LastIndexOf` | backend/services/TelegramBot.js:817-827 | `lastIndexOf(pat, position)` is -1 or an index at or before `position` where `pat` occurs. |
| `JsText.LastIndexOfIsLast` | backend/services/TelegramBot.js:817-827 | No occurrence lies between the reported index and `position`. |
| `JsText.TrimStart` | backend/services/TelegramBot.js:835 | `trimStart()` returns a suffix of its input. Everything it removed is ECMAScript whitespace, and the result does not start with whitespace. |
| `Delivery.Display` | backend/services/TelegramBot.js:618 | The display text is the suffix of the answer of length min(length, 4000). |
| `Delivery.SkippedStepChangesNothing` | backend/services/TelegramBot.js:618-625 | When the display text equals `_lastEditedText`, or a message exists and the last edit was under 2000 ms ago, the step sends nothing and changes no field. |
| `Delivery.FirstDeliverySends` | backend/services/TelegramBot.js:625-631 | With no active message the step is never throttled. It sends the display text, and on success records the new id, the text and the time. |
| `Delivery.PerformedEditBookkeeping` | backend/services/TelegramBot.js:633-650 | With an active message the step first edits it. A not-found error is followed by a send whose id is adopted. Any other edit outcome keeps the id and sends nothing more. |
| `Delivery.RecordedUnlessSendThrows` | backend/services/TelegramBot.js:627-656 | A performed step records the display text and the time exactly when no `sendMessage` throws. "Not modified" and other edit errors count as delivered. A throwing send leaves every field unchanged. |
| `Delivery.RepeatAfterRecordIsNoOp` | backend/services/TelegramBot.js:618-653 | Once a text is recorded, delivering it again is a no-op. |
| `Delivery.ThrottleWindow` | backend/services/TelegramBot.js:623-653 | After a recorded step at n1, a different text at n2 is dropped when n2 − n1 < 2000 and becomes an edit of the active message otherwise. |
| `Delivery.RepeatedTextEditsAtMostOnce` | backend/services/TelegramBot.js:612-662 | Any number of deliveries of one text make at most one edit request, and none when the text is already shown, as long as `sendMessage` does not throw. |
| `Bot.ResetKeepsQueuedSteps` | backend/services/TelegramBot.js:594-605 | A reset keeps every queued step on the old chains and starts an empty current chain. It forgets the active message, clears `lastSentText`, cancels the timer and drops the pending fragment. |
| `Bot.RunJobIsFifo` | backend/services/TelegramBot.js:616-659 | A step removes only the head of its own chain. The wire log grows by exactly that step's calls, and `lastSentText` and the pending fragment are untouched. |
| `Bot.EnqueueAppends` | backend/services/TelegramBot.js:613-616 | A non-empty text is appended as one step to the current chain, or starts the first chain when the service has none yet, and nothing else changes. |
| `Bot.StreamingGate` | backend/services/TelegramBot.js:668-678 | The latest fragment always becomes the pending one. A step with the streaming prefix is queued exactly when the fragment has at least 5 code units. This holds from the fresh service on. |
| `Bot.CompleteGate` | backend/services/TelegramBot.js:702-725 | A complete message changes the state exactly when it has at least 5 code units and differs from `lastSentText`. It then becomes `lastSentText`, the timer and pending fragment are cleared, and one final `🤖 AI:` delivery is queued. This holds from the fresh service on. |
| `Bot.CompleteIsIdempotent` | backend/services/TelegramBot.js:709-710 | Handling the same complete message twice is the same as handling it once. |
| `Bot.CompleteBeatsQuietTimer` | backend/services/TelegramBot.js:683-717 | After a complete message, the step run next, even a streaming step that re-arms the timer, cannot make the timer queue anything. |
| `Bot.QuietTimerFinalizes` | backend/services/TelegramBot.js:683-695 | The timer queues a final delivery exactly when the pending fragment has at least 5 code units and is not `lastSentText`, behaving then as the complete handler. Afterwards nothing is pending. |
| `Bot.ShortFragmentOverwritesPending` | backend/services/TelegramBot.js:671-693 | A fragment of 1 to 4 units replaces a pending fragment that would have been finalized, and the timer then finalizes nothing. |
| `Bot.HandlersQueueOnlyLongTexts` | backend/services/TelegramBot.js:668-725 | Every step either handler queues carries at least 5 code units behind its prefix, from the service's first answer on. |
| `Bot.RepeatedCompleteQueuesOnce` | backend/services/TelegramBot.js:702-717 | Complete messages that all carry one text have the effect of the first of them, so at most one final delivery is queued. They change nothing when that text was the last one sent. |
| `Bot.BatchOrder` | backend/telegram-server.js:126-147 | Streaming messages are handled before complete ones, wherever they stand in the batch. So when the batch holds a complete message the handler accepts, no streaming fragment is pending and no quiet timer is armed afterwards. |
| `Bot.SingleCompleteBatch` | backend/telegram-server.js:126-147 | A batch holding one complete message and nothing else is exactly the complete handler on that message. |
| `Bot.StreamingOf` | backend/telegram-server.js:127 | The streaming messages picked from a batch are none exactly when no message streams, and all of them exactly when every message streams. |
| `Bot.CompleteOf` | backend/telegram-server.js:128 | The complete messages picked from a batch are none exactly when no message is complete, and all of them exactly when every message is complete. |
| `Bot.TelegramBotService.constructor` | backend/services/TelegramBot.js:13-27 | The service starts with no active message, no chain, no pending fragment and no timer. |
| `Bot.TelegramBotService.ResetActiveResponse` | backend/services/TelegramBot.js:594-605 | The fields move exactly as `Reset` says. |
| `Bot.TelegramBotService.SendOrEditResponse` | backend/services/TelegramBot.js:612-616 | The fields move exactly as `Enqueue` says. |
| `Bot.TelegramBotService.HandleStreamingMessage` | backend/services/TelegramBot.js:668-681 | The fields move exactly as `OnStreaming` says. |
| `Bot.TelegramBotService.HandleCompleteMessage` | backend/services/TelegramBot.js:702-725 | The fields move exactly as `OnComplete` says. |
| `Bot.TelegramBotService.QuietTimerFires` | backend/services/TelegramBot.js:683-695 | The fields move exactly as `OnQuietTimer` says. |
| `Bot.TelegramBotService.RunQueuedStep` | backend/services/TelegramBot.js:616-659 | The fields move exactly as `RunJob` says, with the `DeliverStep` bookkeeping and the re-arming of the timer by a streaming step. |
| `Bot.TelegramBotService.OnAiMessages` | backend/telegram-server.js:126-147 | The loop over a batch leaves the state `OnBatch` describes. |
| `Poller.TickDelay` | backend/services/TelegramBot.js:452-453 | A rescheduled tick waits 3000 ms while elapsed < 120000 and 10000 ms afterwards. |
| `Poller.TickStops` | backend/services/TelegramBot.js:397-431 | A running poller stops without delivering exactly when one of these holds: `lastSentText` is set, differs from the baseline and `pollCount > 3`; elapsed > 900000; or the stable text is already `lastSentText`. |
| `Poller.TickDelivers` | backend/services/TelegramBot.js:413-437 | A tick delivers exactly the sample, and only when all of these hold: it is non-empty, not the baseline and equal to the previous qualifying read; `stableCount` reaches 2; neither stop condition holds; and it is not `lastSentText`. |
| `Poller.TickCounter` | backend/services/TelegramBot.js:399-446 | Empty or baseline samples neither reset nor advance the counter. A new text resets it to 0, and a repeat advances it. |
| `Poller.TickKeepsSummary` | backend/services/TelegramBot.js:413-446 | The closure variables summarize the qualifying reads so far. A delivering tick ends a trailing run of at least three reads of its text. |
| `Poller.DeliveryNeedsThreeReads` | backend/services/TelegramBot.js:386-424 | If a run delivers, the qualifying reads end with at least three reads of the delivered text. |
| `Poller.RunDeliversAtMostOnce` | backend/services/TelegramBot.js:396-437 | A run delivers at most once: every tick before its last one rescheduled. |
| `Poller.BaselineOnlyNeverDelivers` | backend/services/TelegramBot.js:408-418 | Reading only empty or baseline samples never delivers, and the first tick after 900000 ms stops. |
| `Poller.StabilityExample` | backend/services/TelegramBot.js:396-457 | Samples baseline, baseline, h, h, w, w deliver nothing; a third w delivers w. |
| `Poller.StalePollerSurvivesReset` | backend/services/TelegramBot.js:594-605 | After `_resetActiveResponse` a poller of the previous turn still delivers its stable text into the new turn's chain. |
| `Poller.BridgeDeliveryStopsPoller` | backend/services/TelegramBot.js:403-406 | Once the bridge has delivered a non-baseline text, every tick after the third stops. |
| `Poller.ResponsePoller.constructor` | backend/services/TelegramBot.js:388-457 | The poll variables start at zero and empty, and the first tick is due after 3000 ms. |
| `Poller.ResponsePoller.DoPoll` | backend/services/TelegramBot.js:396-454 | The tick moves the closure variables as `Tick` says. A delivery sets the bot's `lastSentText` and queues the final text. The next tick is pending exactly when the tick rescheduled. |
| `Numerals.ParseLeadingNatRoundTrip` | check_quota.py:205-211 | A rendered number reads back as itself, leaving what follows untouched. |
| `Numerals.NatToStringInjective` | check_quota.py:205-211 | Distinct numbers render differently. |
| `Countdown.DaysHoursMinutesRoundTrip` | backend/services/QuotaService.js:241-251 | The days/hours/minutes text reads back as exactly the whole minutes it was made from. |
| `Countdown.JsCountdownReadsBack` | backend/services/QuotaService.js:233-255 | For a non-empty reset time: a difference ≤ 0 gives `Đang reset...`. A positive one gives a countdown that reads back as ⌊diff/60000⌋ minutes. |
| `Countdown.HoursMinutesSplit` | check_quota.py:200-201 | Python's hours and leftover minutes are the same split of the whole minutes that JavaScript makes. |
| `Countdown.PortsAgree` | check_quota.py:182-211 | For a non-empty, parseable reset time, Python's countdown equals the JavaScript one. An unparseable one is returned unchanged by Python and is `NaNm` in JavaScript. |
| `Ports.ListeningPortsJs` | backend/services/QuotaService.js:77-83 | The result is strictly ascending, within 1..65535, and holds exactly the ports some line's `parseInt` yields. |
| `Ports.ListeningPortsPy` | check_quota.py:101-108 | The result is strictly ascending, within 1..65535, and holds exactly the values of the all-digit lines in range. |
| `Ports.PythonAcceptsLessThanJs` | check_quota.py:104-107 | Every port the Python parser accepts, JavaScript accepts with the same value. |
| `Ports.JsAcceptsLeadingNumber` | backend/services/QuotaService.js:79 | A line such as `8080/tcp` gives 8080 in JavaScript and nothing in Python. |
| `QuotaModel.CreditDelta` | backend/services/QuotaService.js:371-379 | A credit delta exists exactly when both counts are numbers and differ, and it is current − previous. |
| `QuotaModel.ByLabelLastWins` | check_quota.py:362-365 | In a label map built in list order, each label maps to the value of its last pair. |
| `QuotaModel.ByLabelKeys` | backend/services/QuotaService.js:331 | The keys of a label map are exactly the labels listed. |
| `QuotaModel.KeepLast` | backend/services/QuotaService.js:319 | The trimmed history is the last min(length, 2000) entries, in order. |
| `QuotaModel.KeepLastAppend` | check_quota.py:446-449 | After one append and a trim, the new entry is last and only the oldest entries are dropped. |
| `QuotaJs.ExtractModels` | backend/services/QuotaService.js:200-216 | One record per model config, in order. |
| `QuotaJs.ExtractModelsDefaults` | backend/services/QuotaService.js:205-213 | A missing or empty label is `Unknown`, a missing or empty model id or reset time is `''`, and `isRecommended` holds only for `true`. A present fraction is kept with its value, 0 included, and the fraction is null exactly when it is missing. |
| `QuotaJs.ExtractUserInfoDefaults` | backend/services/QuotaService.js:218-231 | Name and email fall back to `'N/A'` past empty strings. The plan falls back from `planName` to `teamsTier` to `'N/A'`. Each of the four credit counts is kept with its value whenever present, 0 included, and is `'?'` otherwise. |
| `QuotaJs.UserStatusChoice` | backend/services/QuotaService.js:200-202 | The fields are read from `userStatus` when the response has one and from the response root otherwise. The model configs default to `[]`. |
| `QuotaJs.PreviousFractions` | backend/services/QuotaService.js:382-385 | The loop builds the last-wins map of the previous entry's fractions. |
| `QuotaJs.CollectModelDeltas` | backend/services/QuotaService.js:387-396 | The loop yields the model delta of every current label: the nonzero difference when both are numbers, `NEW` when the label is absent before, else nothing. |
| `QuotaJs.ComputeDeltas` | backend/services/QuotaService.js:368-401 | The deltas are the credit deltas plus the `models` key, present only when non-empty. |
| `QuotaJs.HasChanges` | backend/services/QuotaService.js:364-366 | Reports a change exactly when the deltas are non-empty. |
| `QuotaJs.NoChangeIff` | backend/services/QuotaService.js:371-399 | Nothing changed exactly when neither credit changed and every label with a numeric fraction was there before with the same fraction or with `null`. |
| `QuotaJs.NullBeforeGivesNothing` | backend/services/QuotaService.js:390-395 | A previous `null` fraction never yields a delta. |
| `QuotaJs.SaveToHistoryChangeGated` | backend/services/QuotaService.js:334-338 | The save returns false exactly when the history is non-empty and nothing changed, and then the history is unchanged. |
| `QuotaJs.SaveToHistoryAppends` | backend/services/QuotaService.js:340-360 | A save appends the new entry last and drops only the oldest entries. The first entry has no deltas; later entries carry the non-empty deltas against the previous one. |
| `QuotaJs.SaveToHistoryBounded` | backend/services/QuotaService.js:319 | The history never exceeds 2000 entries. |
| `QuotaJs.RecordPairsOfEntry` | backend/services/QuotaService.js:345-349 | The saved entry records each model's label and fraction as extracted. |
| `QuotaJs.SaveTwiceSkips` | backend/services/QuotaService.js:323-362 | Saving the same response twice in a row appends once. |
| `QuotaJs.QuotaService.SaveHistoryFile` | backend/services/QuotaService.js:317-321 | The file holds the last 2000 entries. |
| `QuotaJs.QuotaService.SaveToHistory` | backend/services/QuotaService.js:323-362 | The history and the result are those of `SaveToHistorySpec`. |
| `QuotaJs.CompareWithLast` | backend/services/QuotaService.js:335-358 | The snapshot counts as changed exactly when the history is empty or the deltas against the last entry are non-empty. A new entry carries no deltas when it is the first, and the deltas against the last entry otherwise. |
| `QuotaPy.ModelsOf` | check_quota.py:223-243 | The loop raises exactly when some config's `quotaInfo` or `modelOrAlias` is `null`. Otherwise record i is the record of config i. |
| `QuotaPy.NullUserStatusRaises` | check_quota.py:214-250 | A `null` `userStatus` makes both extractors raise. |
| `QuotaPy.DefaultsOnlyForMissingKeys` | check_quota.py:228-258 | Defaults apply only to missing keys: a `null` label is None, an empty one stays empty, and a `null` credit is None rather than `'?'`. |
| `QuotaPy.UserInfoDefaults` | check_quota.py:246-260 | `extract_user_info` raises exactly when the user status, `planStatus` or `planInfo` is `null`. Otherwise a missing key gives `'N/A'` or `'?'`, a `null` gives None, and a present value is kept however falsy. The plan falls back to `teamsTier` only when `planName` is missing. |
| `QuotaPy.BuildSnapshotLastWins` | check_quota.py:356-367 | The snapshot maps every extracted label to the fraction of its last model. |
| `QuotaPy.PreviousFractions` | check_quota.py:384-386 | The loop builds the last-wins map of the previous entry's fractions. |
| `QuotaPy.CollectModelDeltas` | check_quota.py:388-396 | The loop yields the model delta of every current label: the nonzero difference when both are numbers, `NEW` when the previous fraction is missing or `null`, else nothing. |
| `QuotaPy.ComputeDeltas` | check_quota.py:370-401 | The deltas are the credit deltas plus the `models` key, present only when non-empty. |
| `QuotaPy.HasChanges` | check_quota.py:404-406 | Reports a change exactly when the deltas are non-empty. |
| `QuotaPy.NoChangeIff` | check_quota.py:375-399 | Nothing changed exactly when neither credit changed and every label with a numeric fraction had the same fraction before. |
| `QuotaPy.NullBeforeIsNew` | check_quota.py:394-395 | A previous `null` fraction followed by a number is `NEW`, unlike in JavaScript. |
| `QuotaPy.SaveToHistoryChangeGated` | check_quota.py:409-424 | The save returns False exactly when not forced, the history is non-empty and nothing changed. It raises exactly on a `null` object. Either way nothing is written. |
| `QuotaPy.SaveAppends` | check_quota.py:418-449 | A write appends the new entry last and drops only the oldest entries. The entry carries no deltas when forced or first, else the non-empty deltas. |
| `QuotaPy.ForceAlwaysWrites` | check_quota.py:418-444 | A forced save of a readable response always writes, with no deltas. |
| `QuotaPy.SaveToHistoryBounded` | check_quota.py:446-449 | The history never exceeds 2000 entries. |
| `QuotaPy.EntryMatchesOwnSnapshot` | check_quota.py:356-401 | An entry shows no change against the snapshot it was made from. |
| `QuotaPy.NoDeltasAgainstItself` | check_quota.py:388-396 | Fractions compared with themselves yield no model delta. |
| `QuotaPy.SaveTwiceSkipsValues` | check_quota.py:418-477 | Right after a write, an unforced save of the same snapshot returns False. |
| `QuotaPy.SaveTwiceSkips` | check_quota.py:409-477 | Right after a write, an unforced save of the same response returns False and writes nothing. |
| `QuotaPy.QuotaHistory.SaveToHistory` | check_quota.py:409-477 | The history and the result are those of `SaveToHistorySpec`. |
| `QuotaPy.FormatDeltaSign` | check_quota.py:480-485 | Strings pass through. A number starts with `+` exactly when positive and with `-` exactly when negative. |
| `QuotaPy.FormatDeltaRoundTrip` | check_quota.py:480-485 | A formatted credit delta reads back as the same number. |
| `QuotaPy.CollectCreditChanges` | check_quota.py:565-593 | The loop collects, pair by pair, each credit change with numeric counts that differ. |
| `QuotaPy.CreditChangesAreChanges` | check_quota.py:585-593 | Every collected credit change has a nonzero delta equal to after − before. |
| `QuotaPy.PromptDeltaSumAppend` | check_quota.py:572-593 | The sum of prompt deltas over two lists of changes is the sum of their sums. |
| `QuotaPy.PromptChangesTelescope` | check_quota.py:572-593 | When every entry has a numeric prompt count, the collected prompt deltas add up to the last count minus the first. |
| `QuotaPy.CollectModelChanges` | check_quota.py:595-614 | The loop collects, per label, each change of a model whose previous and current fractions are numbers that differ. |
| `QuotaPy.PairModelChangesAreChanges` | check_quota.py:600-614 | The model changes of one pair of entries are real changes. |
| `QuotaPy.ModelChangesAreChanges` | check_quota.py:595-614 | Every collected model change has a nonzero delta equal to after − before. |

## Left out

- Telegram, the bridge, the clock and timers are not modelled. Their answers are inputs: a `Transport` per step, a sample per tick, `now` per step or tick, and "the timer fires" as an event.
- JavaScript scheduling is not modelled. Each queued step and each poll tick runs atomically, and the model does not interleave the awaits inside one step.
- `Bot.OnQuietTimer`: the message's `html` and `role`, and the history logging of `messageLogger`, are not modelled; only the text is.
- `Poller.ResponsePoller.DoPoll`: a bridge call that throws is modelled as an empty sample. The logging and `messageLogger.saveHistory` are left out.
- `JsText.Utf16`: the prefix literals are written directly as UTF-16 code units (`FinalPrefix`, `StreamingPrefix`). Their equality with the encoding of the source text is not proved.
- Running the PowerShell command and the outer `trim().split('\n')` / `strip().split('\n')` are left out; the port functions receive the lines.
- `Ports.IsSpace`: Python's `strip` and `isdigit`, and JavaScript's `trim`, accept Unicode whitespace and digits. The model knows only ASCII.
- `Countdown.FormatTimeRemainingJs` and `Countdown.FormatTimeRemainingPy` receive the difference between the reset time and now, already parsed. Date parsing and `datetime.utcnow()` are left out.
- JSON numbers are integers and fractions are thousandths. IEEE floating point, `Math.round(x*1000)/10` and `round(x, 1)` are not modelled.
- The history is the list `loadHistory` / `load_history` returns. Reading and writing the file, the JSON round trip and all printing are left out.
- JavaScript object key order and Python dict order are left out: deltas are maps.
- `QuotaJs.CollectModelDeltas`: labels are assumed not to name an `Object.prototype` property (`constructor`, `toString`, `__proto__` and the like). For such a label `prevModels` is a plain `{}`, so `prevModels[label]` reads the inherited value instead of `undefined`. JavaScript then records `NaN`, written out as `null`, where the model records `NEW`. For `__proto__` this happens on every save, so `QuotaJs.SaveTwiceSkips` does not hold for that label.
- The `ts` display formatting of `show_change_log` (`strftime` or `ts[:19]`) is not modelled; a change carries the entry's raw timestamp.
- Python exceptions in the extractors are `None`. Key errors on entries without a `label` are not modelled, because the entries written always have one.
- Process discovery, the HTTPS API call and connection caching are not modelled. The bot's command handlers, `_sendViaClipboard` and `_escapeMarkdown` are outside the modelled core.
