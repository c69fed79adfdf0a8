/** The quota tracker of backend/services/QuotaService.js: field extraction
    from the API response, the snapshot compared against the last history entry,
    the deltas, and the change-gated, bounded history. */
module QuotaJs {
  import opened Wrappers
  import opened QuotaModel

  /** One element of `extractModels(data)`. */
  datatype ModelInfo = ModelInfo(modelLabel: string, modelId: string,
                                 remainingFraction: Option<Thousandths>, resetTime: string,
                                 isRecommended: bool)

  /** `extractUserInfo(data)`. */
  datatype UserInfo = UserInfo(name: string, email: string, plan: string,
                               promptCredits: Credit, flowCredits: Credit,
                               monthlyPrompt: Credit, monthlyFlow: Credit)

  /** `data.userStatus || data`. */
  function UserStatusOf(data: QuotaResponse): UserStatus {
    OrObject(data.userStatus, data.root)
  }

  /** `clientModelConfigs`, or `[]` along the way. */
  function ConfigsOf(data: QuotaResponse): seq<ModelConfig> {
    OrObject(OrObject(UserStatusOf(data).cascadeModelConfigData, NoCascade).clientModelConfigs, [])
  }

  /** `n ?? '?'` for a credit count. */
  function CreditOr(f: Field<int>): Credit {
    if f.Present? then Amount(f.value) else Placeholder
  }

  function ModelOf(cfg: ModelConfig): ModelInfo {
    var quotaInfo := OrObject(cfg.quotaInfo, NoQuotaInfo);
    var modelAlias := OrObject(cfg.modelOrAlias, NoModelAlias);
    ModelInfo(
      OrString(cfg.modelLabel, "Unknown"),
      OrString(modelAlias.model, ""),
      if quotaInfo.remainingFraction.Present? then Some(quotaInfo.remainingFraction.value) else None,
      OrString(quotaInfo.resetTime, ""),
      cfg.isRecommended.Present? && cfg.isRecommended.value)
  }

  /** `extractModels(data)`: one record per model config, in order. */
  function ExtractModels(data: QuotaResponse): (models: seq<ModelInfo>)
    ensures |models| == |ConfigsOf(data)|
  {
    seq(|ConfigsOf(data)|, i requires 0 <= i < |ConfigsOf(data)| => ModelOf(ConfigsOf(data)[i]))
  }

  /** `extractUserInfo(data)`. */
  function ExtractUserInfo(data: QuotaResponse): UserInfo {
    var us := UserStatusOf(data);
    var planStatus := OrObject(us.planStatus, NoPlanStatus);
    var planInfo := OrObject(planStatus.planInfo, NoPlanInfo);
    UserInfo(
      OrString(us.name, "N/A"),
      OrString(us.email, "N/A"),
      OrString(planInfo.planName, OrString(planInfo.teamsTier, "N/A")),
      CreditOr(planStatus.availablePromptCredits),
      CreditOr(planStatus.availableFlowCredits),
      CreditOr(planInfo.monthlyPromptCredits),
      CreditOr(planInfo.monthlyFlowCredits))
  }

  /** The defaults of `extractModels`: a missing or empty label is `'Unknown'`,
      a missing or empty model id and reset time are `''`, `isRecommended` is
      false unless it is `true`, and the fraction is kept whenever it is a
      number, zero included (`??`), and `null` otherwise. */
  lemma ExtractModelsDefaults(data: QuotaResponse, i: nat)
    requires i < |ConfigsOf(data)|
    ensures var cfg := ConfigsOf(data)[i];
            var m := ExtractModels(data)[i];
            (m.modelLabel == "Unknown" <==> !cfg.modelLabel.Present? || cfg.modelLabel.value in {"", "Unknown"}) &&
            (cfg.modelLabel.Present? && cfg.modelLabel.value != "" ==> m.modelLabel == cfg.modelLabel.value) &&
            (m.isRecommended <==> cfg.isRecommended == Present(true)) &&
            ((cfg.modelOrAlias.Present? && cfg.modelOrAlias.value.model.Present? &&
              cfg.modelOrAlias.value.model.value != "") ==> m.modelId == cfg.modelOrAlias.value.model.value) &&
            (!(cfg.modelOrAlias.Present? && cfg.modelOrAlias.value.model.Present?) ==> m.modelId == "") &&
            (cfg.modelOrAlias.Present? && cfg.modelOrAlias.value.model == Present("") ==> m.modelId == "") &&
            ((cfg.quotaInfo.Present? && cfg.quotaInfo.value.resetTime.Present? &&
              cfg.quotaInfo.value.resetTime.value != "") ==> m.resetTime == cfg.quotaInfo.value.resetTime.value) &&
            (!(cfg.quotaInfo.Present? && cfg.quotaInfo.value.resetTime.Present?) ==> m.resetTime == "") &&
            (cfg.quotaInfo.Present? && cfg.quotaInfo.value.resetTime == Present("") ==> m.resetTime == "") &&
            (cfg.quotaInfo.Present? && cfg.quotaInfo.value.remainingFraction.Present? ==>
               m.remainingFraction == Some(cfg.quotaInfo.value.remainingFraction.value)) &&
            (m.remainingFraction.None? <==>
               !cfg.quotaInfo.Present? || !cfg.quotaInfo.value.remainingFraction.Present?)
  {
  }

  /** The defaults of `extractUserInfo`: name and email fall back to `'N/A'`
      past empty strings, the plan falls back from `planName` to `teamsTier` to
      `'N/A'`, and a credit count is kept whenever it is a number, zero
      included, and `'?'` otherwise. */
  lemma ExtractUserInfoDefaults(data: QuotaResponse)
    ensures var us := UserStatusOf(data);
            var ps := OrObject(us.planStatus, NoPlanStatus);
            var pi := OrObject(ps.planInfo, NoPlanInfo);
            var u := ExtractUserInfo(data);
            (pi.planName.Present? && pi.planName.value != "" ==> u.plan == pi.planName.value) &&
            (!(pi.planName.Present? && pi.planName.value != "") && pi.teamsTier.Present? && pi.teamsTier.value != "" ==>
               u.plan == pi.teamsTier.value) &&
            (!(pi.planName.Present? && pi.planName.value != "") && !(pi.teamsTier.Present? && pi.teamsTier.value != "") ==>
               u.plan == "N/A") &&
            (us.name.Present? && us.name.value != "" ==> u.name == us.name.value) &&
            (!(us.name.Present? && us.name.value != "") ==> u.name == "N/A") &&
            (us.email.Present? && us.email.value != "" ==> u.email == us.email.value) &&
            (!(us.email.Present? && us.email.value != "") ==> u.email == "N/A") &&
            (u.promptCredits.Amount? <==> ps.availablePromptCredits.Present?) &&
            (ps.availablePromptCredits.Present? ==> u.promptCredits == Amount(ps.availablePromptCredits.value)) &&
            (u.flowCredits == Placeholder <==> !ps.availableFlowCredits.Present?) &&
            (ps.availableFlowCredits.Present? ==> u.flowCredits == Amount(ps.availableFlowCredits.value)) &&
            (pi.monthlyPromptCredits.Present? ==> u.monthlyPrompt == Amount(pi.monthlyPromptCredits.value)) &&
            (!pi.monthlyPromptCredits.Present? ==> u.monthlyPrompt == Placeholder) &&
            (pi.monthlyFlowCredits.Present? ==> u.monthlyFlow == Amount(pi.monthlyFlowCredits.value)) &&
            (!pi.monthlyFlowCredits.Present? ==> u.monthlyFlow == Placeholder)
  {
  }

  /** `data.userStatus || data`: the user-status object when the response has
      one, the response's own keys otherwise. */
  lemma UserStatusChoice(data: QuotaResponse)
    ensures data.userStatus.Present? ==> UserStatusOf(data) == data.userStatus.value
    ensures !data.userStatus.Present? ==> UserStatusOf(data) == data.root
    ensures ConfigsOf(data) == (if UserStatusOf(data).cascadeModelConfigData.Present? &&
                                   UserStatusOf(data).cascadeModelConfigData.value.clientModelConfigs.Present?
                                then UserStatusOf(data).cascadeModelConfigData.value.clientModelConfigs.value
                                else [])
  {
  }

  /** A model's entry in a saved history record. */
  datatype ModelRecord = ModelRecord(modelLabel: string, remaining: Option<Thousandths>, resetTime: string)

  /** One history entry; `deltas` is absent on the first entry and when empty. */
  datatype Entry = Entry(timestamp: string, user: string, plan: string,
                         promptCredits: Credit, flowCredits: Credit,
                         models: seq<ModelRecord>, deltas: Option<Deltas<string>>)

  /** `currSnapshot`: the credits and each label's remaining fraction. */
  datatype Snapshot = Snapshot(promptCredits: Credit, flowCredits: Credit,
                               models: map<string, Option<Thousandths>>)

  function ModelPairs(models: seq<ModelInfo>): (pairs: seq<(string, Option<Thousandths>)>)
    ensures |pairs| == |models|
  {
    seq(|models|, i requires 0 <= i < |models| => (models[i].modelLabel, models[i].remainingFraction))
  }

  function RecordPairs(records: seq<ModelRecord>): (pairs: seq<(string, Option<Thousandths>)>)
    ensures |pairs| == |records|
  {
    seq(|records|, i requires 0 <= i < |records| => (records[i].modelLabel, records[i].remaining))
  }

  /** The snapshot `saveToHistory` builds (`Object.fromEntries`: a later label wins). */
  function SnapshotOf(data: QuotaResponse): Snapshot {
    var user := ExtractUserInfo(data);
    Snapshot(user.promptCredits, user.flowCredits, ByLabel(ModelPairs(ExtractModels(data))))
  }

  /** The entry `saveToHistory` appends. */
  function EntryOf(data: QuotaResponse, timestamp: string, deltas: Option<Deltas<string>>): Entry {
    var user := ExtractUserInfo(data);
    var models := ExtractModels(data);
    Entry(timestamp, user.email, user.plan, user.promptCredits, user.flowCredits,
          seq(|models|, i requires 0 <= i < |models| =>
                ModelRecord(models[i].modelLabel, models[i].remainingFraction, models[i].resetTime)),
          deltas)
  }

  /** A model's delta against the previous fractions by label: the difference
      when both are numbers and it is not zero, `'NEW'` when the label was not
      there before (`undefined`) and is a number now, nothing otherwise; a
      previous `null` gives nothing. */
  function ModelDeltaOf(prev: map<string, Option<Thousandths>>, modelLabel: string,
                        curr: Option<Thousandths>): Option<ModelDelta>
  {
    if modelLabel in prev && prev[modelLabel].Some? && curr.Some? then
      if curr.value - prev[modelLabel].value != 0 then Some(Change(curr.value - prev[modelLabel].value)) else None
    else if modelLabel !in prev && curr.Some? then Some(New)
    else None
  }

  /** The `modelDeltas` object: one key per current label that has a delta. */
  function ModelDeltas(prev: map<string, Option<Thousandths>>, curr: map<string, Option<Thousandths>>)
    : map<string, ModelDelta>
  {
    map l | l in curr && ModelDeltaOf(prev, l, curr[l]).Some? :: ModelDeltaOf(prev, l, curr[l]).value
  }

  /** What `_computeDeltas(prevEntry, currSnapshot)` returns. */
  function DeltasOf(prev: Entry, snapshot: Snapshot): Deltas<string> {
    Deltas(CreditDelta(prev.promptCredits, snapshot.promptCredits),
           CreditDelta(prev.flowCredits, snapshot.flowCredits),
           ModelsKey(ModelDeltas(ByLabel(RecordPairs(prev.models)), snapshot.models)))
  }

  /** The first loop of `_computeDeltas`: the previous entry's fractions by
      label, a later record winning. */
  method PreviousFractions(records: seq<ModelRecord>) returns (prevModels: map<string, Option<Thousandths>>)
    ensures prevModels == ByLabel(RecordPairs(records))
  {
    prevModels := map[];
    for i := 0 to |records|
      invariant prevModels == ByLabel(RecordPairs(records)[..i])
    {
      assert RecordPairs(records)[..i + 1][..i] == RecordPairs(records)[..i];
      prevModels := prevModels[records[i].modelLabel := records[i].remaining];
    }
    assert RecordPairs(records)[..|records|] == RecordPairs(records);
  }

  /** The second loop of `_computeDeltas`: one pass over the snapshot's labels. */
  method CollectModelDeltas(prevModels: map<string, Option<Thousandths>>, currModels: map<string, Option<Thousandths>>)
    returns (modelDeltas: map<string, ModelDelta>)
    ensures modelDeltas == ModelDeltas(prevModels, currModels)
  {
    modelDeltas := map[];
    var todo := currModels.Keys;
    while todo != {}
      invariant todo <= currModels.Keys
      invariant forall l :: l in modelDeltas <==> l in currModels && l !in todo && ModelDeltaOf(prevModels, l, currModels[l]).Some?
      invariant forall l :: l in modelDeltas ==> modelDeltas[l] == ModelDeltaOf(prevModels, l, currModels[l]).value
      decreases todo
    {
      var modelLabel :| modelLabel in todo;
      var currFrac := currModels[modelLabel];
      if modelLabel in prevModels && prevModels[modelLabel].Some? && currFrac.Some? {
        var diff := currFrac.value - prevModels[modelLabel].value;
        if diff != 0 {
          modelDeltas := modelDeltas[modelLabel := Change(diff)];
        }
      } else if modelLabel !in prevModels && currFrac.Some? {
        modelDeltas := modelDeltas[modelLabel := New];
      }
      todo := todo - {modelLabel};
    }
  }

  /** `_computeDeltas(prevEntry, currSnapshot)`. */
  method ComputeDeltas(prev: Entry, snapshot: Snapshot) returns (deltas: Deltas<string>)
    ensures deltas == DeltasOf(prev, snapshot)
  {
    var promptDelta: Option<int> := None;
    if prev.promptCredits.Amount? && snapshot.promptCredits.Amount? && prev.promptCredits.n != snapshot.promptCredits.n {
      promptDelta := Some(snapshot.promptCredits.n - prev.promptCredits.n);
    }
    assert promptDelta == CreditDelta(prev.promptCredits, snapshot.promptCredits);
    var flowDelta: Option<int> := None;
    if prev.flowCredits.Amount? && snapshot.flowCredits.Amount? && prev.flowCredits.n != snapshot.flowCredits.n {
      flowDelta := Some(snapshot.flowCredits.n - prev.flowCredits.n);
    }
    assert flowDelta == CreditDelta(prev.flowCredits, snapshot.flowCredits);
    var prevModels := PreviousFractions(prev.models);
    var modelDeltas := CollectModelDeltas(prevModels, snapshot.models);
    deltas := Deltas(promptDelta, flowDelta, if |modelDeltas| > 0 then Some(modelDeltas) else None);
  }

  /** `_hasChanges(prevEntry, currSnapshot)`. */
  method HasChanges(prev: Entry, snapshot: Snapshot) returns (changed: bool)
    ensures changed <==> !DeltasOf(prev, snapshot).IsEmpty()
  {
    var deltas := ComputeDeltas(prev, snapshot);
    changed := !deltas.IsEmpty();
  }

  /** No change means: each credit count is unchanged or not a number on one side,
      and every label with a numeric fraction now was there before, with the same
      fraction or with `null`. */
  lemma NoChangeIff(prev: Entry, snapshot: Snapshot)
    ensures var p := ByLabel(RecordPairs(prev.models));
            DeltasOf(prev, snapshot).IsEmpty() <==>
              CreditDelta(prev.promptCredits, snapshot.promptCredits).None? &&
              CreditDelta(prev.flowCredits, snapshot.flowCredits).None? &&
              forall l :: l in snapshot.models && snapshot.models[l].Some? ==>
                l in p && (p[l].None? || p[l] == snapshot.models[l])
  {
    var p := ByLabel(RecordPairs(prev.models));
    var md := ModelDeltas(p, snapshot.models);
    if |md| == 0 {
      forall l | l in snapshot.models && snapshot.models[l].Some?
        ensures l in p && (p[l].None? || p[l] == snapshot.models[l])
      {
        assert l !in md;
      }
    } else {
      var l :| l in md;
      assert ModelDeltaOf(p, l, snapshot.models[l]).Some?;
    }
  }

  /** A previous `null` fraction never produces a delta, whatever the current one. */
  lemma NullBeforeGivesNothing(prev: Entry, snapshot: Snapshot, modelLabel: string)
    requires var p := ByLabel(RecordPairs(prev.models)); modelLabel in p && p[modelLabel].None?
    ensures var md := DeltasOf(prev, snapshot).models; md.None? || modelLabel !in md.value
  {
  }

  /** `saveToHistory(data)` on the history `loadHistory` returns: the new history
      and the result. */
  function SaveToHistorySpec(history: seq<Entry>, data: QuotaResponse, timestamp: string): (seq<Entry>, bool) {
    var snapshot := SnapshotOf(data);
    if history != [] && DeltasOf(history[|history| - 1], snapshot).IsEmpty() then (history, false)
    else
      var deltas := if history == [] then None else Some(DeltasOf(history[|history| - 1], snapshot));
      (KeepLast(history + [EntryOf(data, timestamp, deltas)]), true)
  }

  /** Change-gated append: the call saves exactly when the history is empty or
      something changed, and a skipped call leaves the history as it was. */
  lemma SaveToHistoryChangeGated(history: seq<Entry>, data: QuotaResponse, timestamp: string)
    ensures var (h, saved) := SaveToHistorySpec(history, data, timestamp);
            (saved <==> history == [] || !DeltasOf(history[|history| - 1], SnapshotOf(data)).IsEmpty()) &&
            (!saved ==> h == history)
  {
  }

  /** A saved entry comes last, carries the deltas against the entry before it
      (none on the first entry), and only the oldest entries are dropped. */
  lemma SaveToHistoryAppends(history: seq<Entry>, data: QuotaResponse, timestamp: string)
    requires history == [] || !DeltasOf(history[|history| - 1], SnapshotOf(data)).IsEmpty()
    ensures var r := SaveToHistorySpec(history, data, timestamp);
            var deltas := if history == [] then None else Some(DeltasOf(history[|history| - 1], SnapshotOf(data)));
            r.1 && |r.0| >= 1 && r.0[..|r.0| - 1] == history[|history| + 1 - |r.0|..] &&
            r.0[|r.0| - 1] == EntryOf(data, timestamp, deltas)
  {
    var deltas := if history == [] then None else Some(DeltasOf(history[|history| - 1], SnapshotOf(data)));
    KeepLastAppend(history, EntryOf(data, timestamp, deltas));
  }

  /** The persisted history never exceeds 2000 entries. */
  lemma SaveToHistoryBounded(history: seq<Entry>, data: QuotaResponse, timestamp: string)
    requires |history| <= HistoryLimit
    ensures |SaveToHistorySpec(history, data, timestamp).0| <= HistoryLimit
  {
  }

  lemma RecordPairsOfEntry(data: QuotaResponse, timestamp: string, deltas: Option<Deltas<string>>)
    ensures RecordPairs(EntryOf(data, timestamp, deltas).models) == ModelPairs(ExtractModels(data))
  {
  }

  /** Saving is idempotent: right after a save, saving the same response again
      finds nothing changed, returns false and leaves the history alone. */
  lemma SaveTwiceSkips(history: seq<Entry>, data: QuotaResponse, t1: string, t2: string)
    ensures var (h1, _) := SaveToHistorySpec(history, data, t1);
            SaveToHistorySpec(h1, data, t2) == (h1, false)
  {
    var snapshot := SnapshotOf(data);
    var (h1, saved) := SaveToHistorySpec(history, data, t1);
    if saved {
      SaveToHistoryAppends(history, data, t1);
      var last := h1[|h1| - 1];
      RecordPairsOfEntry(data, t1, last.deltas);
      assert ByLabel(RecordPairs(last.models)) == snapshot.models;
      assert ModelDeltas(snapshot.models, snapshot.models) == map[];
      assert DeltasOf(last, snapshot).IsEmpty();
    }
  }

  /** The first half of `saveToHistory`: whether the snapshot differs from the
      last entry (always when there is none), and the deltas the new entry
      carries. */
  method CompareWithLast(history: seq<Entry>, snapshot: Snapshot) returns (changed: bool, deltas: Option<Deltas<string>>)
    ensures changed <==> history == [] || !DeltasOf(history[|history| - 1], snapshot).IsEmpty()
    ensures history == [] ==> deltas.None?
    ensures history != [] && changed ==> deltas == Some(DeltasOf(history[|history| - 1], snapshot))
  {
    changed := true;
    deltas := None;
    if |history| > 0 {
      changed := HasChanges(history[|history| - 1], snapshot);
      if changed {
        var d := ComputeDeltas(history[|history| - 1], snapshot);
        if !d.IsEmpty() {
          deltas := Some(d);
        }
      }
    }
  }

  lemma SpecSkips(history: seq<Entry>, data: QuotaResponse, timestamp: string)
    requires history != [] && DeltasOf(history[|history| - 1], SnapshotOf(data)).IsEmpty()
    ensures SaveToHistorySpec(history, data, timestamp) == (history, false)
  {
  }

  lemma SpecSaves(history: seq<Entry>, data: QuotaResponse, timestamp: string, deltas: Option<Deltas<string>>)
    requires history == [] ==> deltas.None?
    requires history != [] ==> !DeltasOf(history[|history| - 1], SnapshotOf(data)).IsEmpty() &&
                               deltas == Some(DeltasOf(history[|history| - 1], SnapshotOf(data)))
    ensures SaveToHistorySpec(history, data, timestamp) == (KeepLast(history + [EntryOf(data, timestamp, deltas)]), true)
  {
  }

  /** The tracker; `history` is the history file as `loadHistory` reads it (a
      missing or unreadable file reads as `[]`). */
  class QuotaService {
    var history: seq<Entry>

    constructor (history: seq<Entry>)
      ensures this.history == history
    {
      this.history := history;
    }

    /** `_saveHistoryFile(history)`: writes the last 2000 entries. */
    method SaveHistoryFile(entries: seq<Entry>)
      modifies this
      ensures history == KeepLast(entries)
    {
      var kept := entries;
      if |kept| > HistoryLimit {
        kept := kept[|kept| - HistoryLimit..];
      }
      history := kept;
    }

    /** `saveToHistory(data)`, stamped `timestamp`. */
    method SaveToHistory(data: QuotaResponse, timestamp: string) returns (saved: bool)
      modifies this
      ensures (history, saved) == SaveToHistorySpec(old(history), data, timestamp)
    {
      var snapshot := SnapshotOf(data);
      var changed, deltas := CompareWithLast(history, snapshot);
      if changed {
        SpecSaves(history, data, timestamp, deltas);
        SaveHistoryFile(history + [EntryOf(data, timestamp, deltas)]);
      } else {
        SpecSkips(history, data, timestamp);
      }
      saved := changed;
    }
  }
}
