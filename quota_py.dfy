/** The quota tracker of check_quota.py, the Python original of the JavaScript
    tracker. `dict.get(key, default)` returns `None` for a JSON `null`, so a
    `null` object on the way makes the next `.get` raise `AttributeError`; the
    functions below return `None` where the Python code raises. */
module QuotaPy {
  import opened Wrappers
  import opened Numerals
  import opened QuotaModel

  /** A label as Python reads it: a string, or `None` for a JSON `null`. */
  type Label = Option<string>

  /** One element of `extract_models(data)`. */
  datatype PyModel = PyModel(modelLabel: Label, modelId: Option<string>,
                             remainingFraction: Option<Thousandths>, resetTime: Option<string>,
                             isRecommended: Option<bool>, supportsImages: Option<bool>)

  /** `extract_user_info(data)`. */
  datatype PyUserInfo = PyUserInfo(name: Option<string>, email: Option<string>, plan: Option<string>,
                                   promptCredits: Credit, flowCredits: Credit,
                                   monthlyPrompt: Credit, monthlyFlow: Credit)

  /** `obj.get(key, "?")` for a credit count. */
  function CreditGet(f: Field<int>): Credit {
    match f
    case Absent => Placeholder
    case Null => NullCredit
    case Present(n) => Amount(n)
  }

  /** `obj.get(key)`: both a missing key and `null` read as `None`. */
  function GetOrNone<T>(f: Field<T>): Option<T> {
    if f.Present? then Some(f.value) else None
  }

  /** `data.get("userStatus", data)`; `None` when it is `null`. */
  function UserStatusOf(data: QuotaResponse): Option<UserStatus> {
    PyGet(data.userStatus, data.root)
  }

  /** One config's record; `None` when its `quotaInfo` or `modelOrAlias` is `null`. */
  function ModelOf(cfg: ModelConfig): Option<PyModel> {
    var quotaInfo := PyGet(cfg.quotaInfo, NoQuotaInfo);
    var modelAlias := PyGet(cfg.modelOrAlias, NoModelAlias);
    if quotaInfo.None? || modelAlias.None? then None
    else Some(PyModel(PyGet(cfg.modelLabel, "Unknown"), PyGet(modelAlias.value.model, ""),
                      GetOrNone(quotaInfo.value.remainingFraction), PyGet(quotaInfo.value.resetTime, ""),
                      PyGet(cfg.isRecommended, false), PyGet(cfg.supportsImages, false)))
  }

  /** The loop of `extract_models` over the configs: element i is config i's
      record, and the loop raises exactly when some config's record does. */
  function ModelsOf(configs: seq<ModelConfig>): (r: Option<seq<PyModel>>)
    ensures r.Some? <==> forall i :: 0 <= i < |configs| ==> ModelOf(configs[i]).Some?
    ensures r.Some? ==> |r.value| == |configs|
    ensures r.Some? ==> forall i :: 0 <= i < |configs| ==> r.value[i] == ModelOf(configs[i]).value
  {
    if configs == [] then Some([])
    else
      var init := ModelsOf(configs[..|configs| - 1]);
      var last := ModelOf(configs[|configs| - 1]);
      if init.None? || last.None? then None else Some(init.value + [last.value])
  }

  /** `extract_models(data)`; `None` where it raises. */
  function ExtractModels(data: QuotaResponse): Option<seq<PyModel>> {
    var us := UserStatusOf(data);
    if us.None? then None
    else
      var cascade := PyGet(us.value.cascadeModelConfigData, NoCascade);
      if cascade.None? then None
      else
        var configs := PyGet(cascade.value.clientModelConfigs, []);
        if configs.None? then None else ModelsOf(configs.value)
  }

  /** `extract_user_info(data)`; `None` where it raises. */
  function ExtractUserInfo(data: QuotaResponse): Option<PyUserInfo> {
    var us := UserStatusOf(data);
    if us.None? then None
    else
      var planStatus := PyGet(us.value.planStatus, NoPlanStatus);
      if planStatus.None? then None
      else
        var planInfo := PyGet(planStatus.value.planInfo, NoPlanInfo);
        if planInfo.None? then None
        else
          var pi := planInfo.value;
          Some(PyUserInfo(
            PyGet(us.value.name, "N/A"), PyGet(us.value.email, "N/A"),
            if pi.planName.Absent? then PyGet(pi.teamsTier, "N/A") else GetOrNone(pi.planName),
            CreditGet(planStatus.value.availablePromptCredits),
            CreditGet(planStatus.value.availableFlowCredits),
            CreditGet(pi.monthlyPromptCredits),
            CreditGet(pi.monthlyFlowCredits)))
  }

  /** Where JavaScript falls back to the root, Python raises: a `null`
      `userStatus` makes both extractors fail. */
  lemma NullUserStatusRaises(data: QuotaResponse)
    requires data.userStatus == Null
    ensures ExtractModels(data).None? && ExtractUserInfo(data).None?
  {
  }

  /** Python's defaults apply only to missing keys: an empty label stays empty,
      a `null` label is `None`, only a missing one is `'Unknown'`; a `null`
      credit count stays `None` rather than `'?'`. */
  lemma DefaultsOnlyForMissingKeys(cfg: ModelConfig, ps: PlanStatus)
    requires ModelOf(cfg).Some?
    ensures cfg.modelLabel == Absent ==> ModelOf(cfg).value.modelLabel == Some("Unknown")
    ensures cfg.modelLabel == Null ==> ModelOf(cfg).value.modelLabel == None
    ensures cfg.modelLabel == Present("") ==> ModelOf(cfg).value.modelLabel == Some("")
    ensures CreditGet(ps.availablePromptCredits) == NullCredit <==> ps.availablePromptCredits == Null
    ensures CreditGet(ps.availablePromptCredits) == Placeholder <==> ps.availablePromptCredits == Absent
  {
  }

  /** `extract_user_info(data)` raises exactly when the user status, its
      `planStatus` or its `planInfo` is `null`. Otherwise each field keeps the
      value present under its key, however falsy: a missing key gives `'N/A'` or
      `'?'`, and a `null` gives `None`. The plan falls back to `teamsTier`
      only when `planName` is missing, not when it is `null` or empty. */
  lemma UserInfoDefaults(data: QuotaResponse)
    ensures ExtractUserInfo(data).None? <==>
              UserStatusOf(data).None? || UserStatusOf(data).value.planStatus == Null ||
              PyGet(UserStatusOf(data).value.planStatus, NoPlanStatus).value.planInfo == Null
    ensures ExtractUserInfo(data).Some? ==>
              var us := UserStatusOf(data).value;
              var ps := PyGet(us.planStatus, NoPlanStatus).value;
              var pi := PyGet(ps.planInfo, NoPlanInfo).value;
              var u := ExtractUserInfo(data).value;
              (pi.planName == Absent ==> u.plan == PyGet(pi.teamsTier, "N/A")) &&
              (pi.planName == Null ==> u.plan == None) &&
              (pi.planName.Present? ==> u.plan == Some(pi.planName.value)) &&
              (us.name == Absent ==> u.name == Some("N/A")) &&
              (us.name == Null ==> u.name == None) &&
              (us.name.Present? ==> u.name == Some(us.name.value)) &&
              (us.email == Absent ==> u.email == Some("N/A")) &&
              (us.email == Null ==> u.email == None) &&
              (us.email.Present? ==> u.email == Some(us.email.value)) &&
              (u.promptCredits == Placeholder <==> ps.availablePromptCredits == Absent) &&
              (u.promptCredits == NullCredit <==> ps.availablePromptCredits == Null) &&
              (ps.availablePromptCredits.Present? ==> u.promptCredits == Amount(ps.availablePromptCredits.value)) &&
              (u.flowCredits == Placeholder <==> ps.availableFlowCredits == Absent) &&
              (u.flowCredits == NullCredit <==> ps.availableFlowCredits == Null) &&
              (ps.availableFlowCredits.Present? ==> u.flowCredits == Amount(ps.availableFlowCredits.value)) &&
              (u.monthlyPrompt == Placeholder <==> pi.monthlyPromptCredits == Absent) &&
              (pi.monthlyPromptCredits.Present? ==> u.monthlyPrompt == Amount(pi.monthlyPromptCredits.value)) &&
              (u.monthlyFlow == Placeholder <==> pi.monthlyFlowCredits == Absent) &&
              (pi.monthlyFlowCredits.Present? ==> u.monthlyFlow == Amount(pi.monthlyFlowCredits.value))
  {
  }

  /** `_build_snapshot(data)`. */
  datatype PySnapshot = PySnapshot(promptCredits: Credit, flowCredits: Credit,
                                   models: map<Label, Option<Thousandths>>)

  function ModelPairs(models: seq<PyModel>): (pairs: seq<(Label, Option<Thousandths>)>)
    ensures |pairs| == |models|
  {
    seq(|models|, i requires 0 <= i < |models| => (models[i].modelLabel, models[i].remainingFraction))
  }

  /** `_build_snapshot(data)`: both credit counts and each label's fraction, the
      dict comprehension keeping a later duplicate label; `None` where the
      extractors raise. */
  function BuildSnapshot(data: QuotaResponse): Option<PySnapshot> {
    var models := ExtractModels(data);
    var user := ExtractUserInfo(data);
    if models.None? || user.None? then None
    else Some(PySnapshot(user.value.promptCredits, user.value.flowCredits, ByLabel(ModelPairs(models.value))))
  }

  /** The snapshot maps every extracted label, each to the fraction of its last
      model. */
  lemma BuildSnapshotLastWins(data: QuotaResponse, i: nat)
    requires BuildSnapshot(data).Some?
    requires i < |ExtractModels(data).value|
    requires var ms := ExtractModels(data).value;
             forall j :: i < j < |ms| ==> ms[j].modelLabel != ms[i].modelLabel
    ensures var ms := ExtractModels(data).value;
            var snap := BuildSnapshot(data).value;
            ms[i].modelLabel in snap.models && snap.models[ms[i].modelLabel] == ms[i].remainingFraction
  {
    var ms := ExtractModels(data).value;
    var pairs := ModelPairs(ms);
    assert forall j :: i < j < |pairs| ==> pairs[j].0 != pairs[i].0 by {
      forall j | i < j < |pairs|
        ensures pairs[j].0 != pairs[i].0
      {
        assert pairs[j].0 == ms[j].modelLabel;
      }
    }
    ByLabelLastWins(pairs, i);
  }

  /** A model's entry in a saved history record. */
  datatype PyRecord = PyRecord(modelLabel: Label, remaining: Option<Thousandths>, resetTime: Option<string>)

  /** One history entry. */
  datatype PyEntry = PyEntry(timestamp: string, user: Option<string>, plan: Option<string>,
                             promptCredits: Credit, flowCredits: Credit,
                             models: seq<PyRecord>, deltas: Option<Deltas<Label>>)

  function RecordPairs(records: seq<PyRecord>): (pairs: seq<(Label, Option<Thousandths>)>)
    ensures |pairs| == |records|
  {
    seq(|records|, i requires 0 <= i < |records| => (records[i].modelLabel, records[i].remaining))
  }

  /** `prev_models.get(label)`: `None` when missing or `null`. */
  function Lookup(prev: map<Label, Option<Thousandths>>, modelLabel: Label): Option<Thousandths> {
    if modelLabel in prev then prev[modelLabel] else None
  }

  /** A model's delta: the difference when both fractions are numbers and it is
      not zero; `'NEW'` whenever the previous one is missing or `null` and the
      current one is a number. */
  function ModelDeltaOf(prev: map<Label, Option<Thousandths>>, modelLabel: Label,
                        curr: Option<Thousandths>): Option<ModelDelta>
  {
    var prevFrac := Lookup(prev, modelLabel);
    if prevFrac.Some? && curr.Some? then
      if curr.value - prevFrac.value != 0 then Some(Change(curr.value - prevFrac.value)) else None
    else if prevFrac.None? && curr.Some? then Some(New)
    else None
  }

  function ModelDeltas(prev: map<Label, Option<Thousandths>>, curr: map<Label, Option<Thousandths>>)
    : map<Label, ModelDelta>
  {
    map l | l in curr && ModelDeltaOf(prev, l, curr[l]).Some? :: ModelDeltaOf(prev, l, curr[l]).value
  }

  /** What `_compute_deltas(prev_entry, curr_snapshot)` returns. */
  function DeltasOf(prev: PyEntry, snapshot: PySnapshot): Deltas<Label> {
    Deltas(CreditDelta(prev.promptCredits, snapshot.promptCredits),
           CreditDelta(prev.flowCredits, snapshot.flowCredits),
           ModelsKey(ModelDeltas(ByLabel(RecordPairs(prev.models)), snapshot.models)))
  }

  /** The first loop of `_compute_deltas`: the previous fractions by label. */
  method PreviousFractions(records: seq<PyRecord>) returns (prevModels: map<Label, Option<Thousandths>>)
    ensures prevModels == ByLabel(RecordPairs(records))
  {
    prevModels := map[];
    for i := 0 to |records|
      invariant prevModels == ByLabel(RecordPairs(records)[..i])
    {
      assert RecordPairs(records)[..i + 1][..i] == RecordPairs(records)[..i];
      prevModels := prevModels[records[i].modelLabel := records[i].remaining];
    }
    assert RecordPairs(records)[..|records|] == RecordPairs(records);
  }

  /** The second loop of `_compute_deltas`: one pass over the snapshot's labels. */
  method CollectModelDeltas(prevModels: map<Label, Option<Thousandths>>, currModels: map<Label, Option<Thousandths>>)
    returns (modelDeltas: map<Label, ModelDelta>)
    ensures modelDeltas == ModelDeltas(prevModels, currModels)
  {
    modelDeltas := map[];
    var todo := currModels.Keys;
    while todo != {}
      invariant todo <= currModels.Keys
      invariant forall l :: l in modelDeltas <==> l in currModels && l !in todo && ModelDeltaOf(prevModels, l, currModels[l]).Some?
      invariant forall l :: l in modelDeltas ==> modelDeltas[l] == ModelDeltaOf(prevModels, l, currModels[l]).value
      decreases todo
    {
      var modelLabel :| modelLabel in todo;
      var currFrac := currModels[modelLabel];
      var prevFrac := if modelLabel in prevModels then prevModels[modelLabel] else None;
      if prevFrac.Some? && currFrac.Some? {
        var diff := currFrac.value - prevFrac.value;
        if diff != 0 {
          modelDeltas := modelDeltas[modelLabel := Change(diff)];
        }
      } else if prevFrac.None? && currFrac.Some? {
        modelDeltas := modelDeltas[modelLabel := New];
      }
      todo := todo - {modelLabel};
    }
  }

  /** `_compute_deltas(prev_entry, curr_snapshot)`. */
  method ComputeDeltas(prev: PyEntry, snapshot: PySnapshot) returns (deltas: Deltas<Label>)
    ensures deltas == DeltasOf(prev, snapshot)
  {
    var promptDelta: Option<int> := None;
    if prev.promptCredits.Amount? && snapshot.promptCredits.Amount? {
      var diff := snapshot.promptCredits.n - prev.promptCredits.n;
      if diff != 0 {
        promptDelta := Some(diff);
      }
    }
    assert promptDelta == CreditDelta(prev.promptCredits, snapshot.promptCredits);
    var flowDelta: Option<int> := None;
    if prev.flowCredits.Amount? && snapshot.flowCredits.Amount? {
      var diff := snapshot.flowCredits.n - prev.flowCredits.n;
      if diff != 0 {
        flowDelta := Some(diff);
      }
    }
    assert flowDelta == CreditDelta(prev.flowCredits, snapshot.flowCredits);
    var prevModels := PreviousFractions(prev.models);
    var modelDeltas := CollectModelDeltas(prevModels, snapshot.models);
    deltas := Deltas(promptDelta, flowDelta, if |modelDeltas| > 0 then Some(modelDeltas) else None);
  }

  /** `_has_changes(prev_entry, curr_snapshot)`. */
  method HasChanges(prev: PyEntry, snapshot: PySnapshot) returns (changed: bool)
    ensures changed <==> !DeltasOf(prev, snapshot).IsEmpty()
  {
    var deltas := ComputeDeltas(prev, snapshot);
    changed := !deltas.IsEmpty();
  }

  /** No change means: each credit count is unchanged or not a number on one side,
      and every label with a numeric fraction now had the same fraction before. */
  lemma NoChangeIff(prev: PyEntry, snapshot: PySnapshot)
    ensures var p := ByLabel(RecordPairs(prev.models));
            DeltasOf(prev, snapshot).IsEmpty() <==>
              CreditDelta(prev.promptCredits, snapshot.promptCredits).None? &&
              CreditDelta(prev.flowCredits, snapshot.flowCredits).None? &&
              forall l :: l in snapshot.models && snapshot.models[l].Some? ==> Lookup(p, l) == snapshot.models[l]
  {
    var p := ByLabel(RecordPairs(prev.models));
    var md := ModelDeltas(p, snapshot.models);
    if |md| == 0 {
      forall l | l in snapshot.models && snapshot.models[l].Some?
        ensures Lookup(p, l) == snapshot.models[l]
      {
        assert l !in md;
      }
    } else {
      var l :| l in md;
      assert ModelDeltaOf(p, l, snapshot.models[l]).Some?;
    }
  }

  /** Unlike the JavaScript port, a previous `null` fraction followed by a number
      is reported as `'NEW'`. */
  lemma NullBeforeIsNew(prev: PyEntry, snapshot: PySnapshot, modelLabel: Label)
    requires var p := ByLabel(RecordPairs(prev.models)); modelLabel in p && p[modelLabel].None?
    requires modelLabel in snapshot.models && snapshot.models[modelLabel].Some?
    ensures var md := DeltasOf(prev, snapshot).models;
            md.Some? && modelLabel in md.value && md.value[modelLabel] == New
  {
    var md := ModelDeltas(ByLabel(RecordPairs(prev.models)), snapshot.models);
    assert modelLabel in md;
  }

  /** What `save_to_history` ends with: `True`, `False`, or an exception. */
  datatype SaveResult = Wrote | Unchanged | Raises

  function RecordsOf(models: seq<PyModel>): (records: seq<PyRecord>)
    ensures |records| == |models|
  {
    seq(|models|, i requires 0 <= i < |models| =>
          PyRecord(models[i].modelLabel, models[i].remainingFraction, models[i].resetTime))
  }

  /** The entry `save_to_history` appends. */
  function EntryOf(timestamp: string, user: PyUserInfo, models: seq<PyModel>, deltas: Option<Deltas<Label>>): PyEntry {
    PyEntry(timestamp, user.email, user.plan, user.promptCredits, user.flowCredits, RecordsOf(models), deltas)
  }

  /** The `deltas` of a new entry: computed against the last entry unless forced
      or first. */
  function NewDeltas(history: seq<PyEntry>, force: bool, snapshot: PySnapshot): Option<Deltas<Label>> {
    if history != [] && !force then Some(DeltasOf(history[|history| - 1], snapshot)) else None
  }

  /** The part of `save_to_history` after extraction: skip an unforced save that
      changes nothing, else append and trim. */
  function Save(history: seq<PyEntry>, force: bool, timestamp: string, user: PyUserInfo,
                models: seq<PyModel>, snapshot: PySnapshot): (seq<PyEntry>, SaveResult)
  {
    if history != [] && !force && DeltasOf(history[|history| - 1], snapshot).IsEmpty() then (history, Unchanged)
    else (KeepLast(history + [EntryOf(timestamp, user, models, NewDeltas(history, force, snapshot))]), Wrote)
  }

  /** `save_to_history(data, force)` on the history `load_history` returns: the
      history written and the result. */
  function SaveToHistorySpec(history: seq<PyEntry>, data: QuotaResponse, force: bool, timestamp: string)
    : (seq<PyEntry>, SaveResult)
  {
    var snapshot := BuildSnapshot(data);
    if snapshot.None? then (history, Raises)
    else Save(history, force, timestamp, ExtractUserInfo(data).value, ExtractModels(data).value, snapshot.value)
  }

  /** Change-gated append: the call returns `False` exactly when not forced, the
      history is non-empty and nothing changed; it raises exactly when the
      response has a `null` object on the way; in both cases nothing is written. */
  lemma SaveToHistoryChangeGated(history: seq<PyEntry>, data: QuotaResponse, force: bool, timestamp: string)
    ensures var r := SaveToHistorySpec(history, data, force, timestamp);
            (r.1 == Raises <==> BuildSnapshot(data).None?) &&
            (r.1 == Unchanged <==> BuildSnapshot(data).Some? && !force && history != [] &&
                                   DeltasOf(history[|history| - 1], BuildSnapshot(data).value).IsEmpty()) &&
            (r.1 != Wrote ==> r.0 == history)
  {
  }

  /** A written entry comes last, without deltas when forced or first, with the
      non-empty deltas against the entry before it otherwise, and only the
      oldest entries are dropped. */
  lemma SaveAppends(history: seq<PyEntry>, force: bool, timestamp: string, user: PyUserInfo,
                    models: seq<PyModel>, snapshot: PySnapshot)
    requires history == [] || force || !DeltasOf(history[|history| - 1], snapshot).IsEmpty()
    ensures var r := Save(history, force, timestamp, user, models, snapshot);
            r.1 == Wrote && |r.0| >= 1 && r.0[..|r.0| - 1] == history[|history| + 1 - |r.0|..] &&
            r.0[|r.0| - 1] == EntryOf(timestamp, user, models, NewDeltas(history, force, snapshot))
  {
    KeepLastAppend(history, EntryOf(timestamp, user, models, NewDeltas(history, force, snapshot)));
  }

  /** A forced save of a readable response always writes, and its entry carries
      no deltas. */
  lemma ForceAlwaysWrites(history: seq<PyEntry>, data: QuotaResponse, timestamp: string)
    requires BuildSnapshot(data).Some?
    ensures var r := SaveToHistorySpec(history, data, true, timestamp);
            r.1 == Wrote && |r.0| >= 1 && r.0[|r.0| - 1].deltas.None? && r.0[|r.0| - 1].timestamp == timestamp
  {
    var user := ExtractUserInfo(data).value;
    var models := ExtractModels(data).value;
    var snapshot := BuildSnapshot(data).value;
    assert SaveToHistorySpec(history, data, true, timestamp) == Save(history, true, timestamp, user, models, snapshot);
    SaveAppends(history, true, timestamp, user, models, snapshot);
  }

  /** The history written never exceeds 2000 entries. */
  lemma SaveToHistoryBounded(history: seq<PyEntry>, data: QuotaResponse, force: bool, timestamp: string)
    requires |history| <= HistoryLimit
    ensures |SaveToHistorySpec(history, data, force, timestamp).0| <= HistoryLimit
  {
  }

  /** An entry shows no change against the snapshot it was made from. */
  lemma EntryMatchesOwnSnapshot(timestamp: string, user: PyUserInfo, models: seq<PyModel>,
                                deltas: Option<Deltas<Label>>)
    ensures var snapshot := PySnapshot(user.promptCredits, user.flowCredits, ByLabel(ModelPairs(models)));
            DeltasOf(EntryOf(timestamp, user, models, deltas), snapshot).IsEmpty()
  {
    assert RecordPairs(RecordsOf(models)) == ModelPairs(models);
    NoDeltasAgainstItself(ByLabel(ModelPairs(models)));
  }

  /** Comparing fractions with themselves yields no model delta. */
  lemma NoDeltasAgainstItself(m: map<Label, Option<Thousandths>>)
    ensures ModelDeltas(m, m) == map[]
  {
    forall l | l in m
      ensures ModelDeltaOf(m, l, m[l]).None?
    {
    }
  }

  /** After a write, an unforced save of the snapshot the entry was made from
      finds nothing changed. */
  lemma SaveTwiceSkipsValues(history: seq<PyEntry>, force: bool, t1: string, t2: string, user: PyUserInfo,
                             models: seq<PyModel>, snapshot: PySnapshot)
    requires snapshot == PySnapshot(user.promptCredits, user.flowCredits, ByLabel(ModelPairs(models)))
    ensures var r := Save(history, force, t1, user, models, snapshot);
            r.1 == Wrote ==> Save(r.0, false, t2, user, models, snapshot) == (r.0, Unchanged)
  {
    var r := Save(history, force, t1, user, models, snapshot);
    if r.1 == Wrote {
      var deltas := NewDeltas(history, force, snapshot);
      SaveAppends(history, force, t1, user, models, snapshot);
      EntryMatchesOwnSnapshot(t1, user, models, deltas);
    }
  }

  /** Saving is idempotent: right after a write, an unforced save of the same
      response returns `False` and writes nothing. */
  lemma SaveTwiceSkips(history: seq<PyEntry>, data: QuotaResponse, force: bool, t1: string, t2: string)
    ensures var r := SaveToHistorySpec(history, data, force, t1);
            r.1 == Wrote ==> SaveToHistorySpec(r.0, data, false, t2) == (r.0, Unchanged)
  {
    if BuildSnapshot(data).Some? {
      var user := ExtractUserInfo(data).value;
      var models := ExtractModels(data).value;
      var snapshot := BuildSnapshot(data).value;
      var r := Save(history, force, t1, user, models, snapshot);
      assert SaveToHistorySpec(history, data, force, t1) == r;
      assert SaveToHistorySpec(r.0, data, false, t2) == Save(r.0, false, t2, user, models, snapshot);
      SaveTwiceSkipsValues(history, force, t1, t2, user, models, snapshot);
    }
  }

  /** The history file; `history` is what `load_history` reads (a missing or
      undecodable file reads as `[]`). */
  class QuotaHistory {
    var history: seq<PyEntry>

    constructor (history: seq<PyEntry>)
      ensures this.history == history
    {
      this.history := history;
    }

    /** `save_to_history(data, force)`, stamped `timestamp`. */
    method SaveToHistory(data: QuotaResponse, force: bool, timestamp: string) returns (result: SaveResult)
      modifies this
      ensures (history, result) == SaveToHistorySpec(old(history), data, force, timestamp)
    {
      var loaded := history;
      var models := ExtractModels(data);
      var user := ExtractUserInfo(data);
      var snapshot := BuildSnapshot(data);
      if models.None? || user.None? || snapshot.None? {
        return Raises;
      }
      var deltas: Option<Deltas<Label>> := None;
      if |loaded| > 0 && !force {
        var prev := loaded[|loaded| - 1];
        var changed := HasChanges(prev, snapshot.value);
        if !changed {
          return Unchanged;
        }
        var d := ComputeDeltas(prev, snapshot.value);
        deltas := Some(d);
      }
      var entry := PyEntry(timestamp, user.value.email, user.value.plan, user.value.promptCredits,
                           user.value.flowCredits, RecordsOf(models.value), deltas);
      loaded := loaded + [entry];
      if |loaded| > HistoryLimit {
        loaded := loaded[|loaded| - HistoryLimit..];
      }
      history := loaded;
      return Wrote;
    }
  }

  // ---------------------------------------------------------------------------
  // `_format_delta`

  /** A delta as `_format_delta` receives it: a credit difference (an `int`), a
      model difference (a float with one decimal, kept in tenths), or `'NEW'`. */
  datatype DeltaValue = IntDelta(n: int) | TenthsDelta(tenths: int) | TextDelta(text: string)

  /** `_format_delta(val)`: strings unchanged, a `+` before positive numbers. */
  function FormatDelta(v: DeltaValue): string {
    match v
    case TextDelta(s) => s
    case IntDelta(n) => (if n > 0 then "+" else "") + IntToString(n)
    case TenthsDelta(t) => (if t > 0 then "+" else "") + TenthsToString(t)
  }

  /** Reads a signed decimal integer back: an optional `+` or `-`, then digits
      and nothing else. */
  function ParseSigned(s: string): Option<int> {
    var negative := s != [] && s[0] == '-';
    var digits := if s != [] && (s[0] == '+' || s[0] == '-') then s[1..] else s;
    match ParseLeadingNat(digits)
    case None => None
    case Some((n, rest)) =>
      var value: int := if negative then -(n as int) else n;
      if rest != [] then None else Some(value)
  }

  /** The sign of a formatted number shows the sign of the value: `+` exactly for
      positive values, `-` exactly for negative ones; strings pass through. */
  lemma FormatDeltaSign(v: DeltaValue)
    ensures v.TextDelta? ==> FormatDelta(v) == v.text
    ensures v.IntDelta? ==> (FormatDelta(v)[0] == '+' <==> v.n > 0) && (FormatDelta(v)[0] == '-' <==> v.n < 0)
    ensures v.TenthsDelta? ==>
              (FormatDelta(v)[0] == '+' <==> v.tenths > 0) && (FormatDelta(v)[0] == '-' <==> v.tenths < 0)
  {
    if v.IntDelta? && v.n >= 0 {
      assert FormatDelta(v)[0] == (if v.n > 0 then '+' else IntToString(v.n)[0]);
    }
    if v.TenthsDelta? && v.tenths >= 0 {
      assert FormatDelta(v)[0] == (if v.tenths > 0 then '+' else TenthsToString(v.tenths)[0]);
    }
  }

  /** A formatted credit delta reads back as the same number. */
  lemma FormatDeltaRoundTrip(n: int)
    ensures ParseSigned(FormatDelta(IntDelta(n))) == Some(n)
  {
    var s := FormatDelta(IntDelta(n));
    var m: nat := if n < 0 then -n else n;
    ParseLeadingNatRoundTrip(m, []);
    assert NatToString(m) + [] == NatToString(m);
    if n > 0 {
      assert s == "+" + NatToString(m);
      assert s[1..] == NatToString(m);
    } else if n < 0 {
      assert s == "-" + NatToString(m);
      assert s[1..] == NatToString(m);
    } else {
      assert s == NatToString(0);
    }
  }

  // ---------------------------------------------------------------------------
  // The change collection of `show_change_log`

  datatype CreditKind = PromptCredits | FlowCredits

  /** One element of `credit_changes`; `ts` is the later entry's timestamp. */
  datatype CreditChange = CreditChange(ts: string, kind: CreditKind, before: int, after: int, delta: int)

  /** The credit changes between two consecutive entries, prompt before flow. */
  function PairCreditChanges(prev: PyEntry, curr: PyEntry): seq<CreditChange> {
    var d1 := CreditDelta(prev.promptCredits, curr.promptCredits);
    var d2 := CreditDelta(prev.flowCredits, curr.flowCredits);
    (if d1.Some? then [CreditChange(curr.timestamp, PromptCredits, prev.promptCredits.n, curr.promptCredits.n, d1.value)] else []) +
    (if d2.Some? then [CreditChange(curr.timestamp, FlowCredits, prev.flowCredits.n, curr.flowCredits.n, d2.value)] else [])
  }

  /** `credit_changes` after the loop over the consecutive pairs of `history`. */
  function CreditChanges(history: seq<PyEntry>): seq<CreditChange> {
    if |history| < 2 then []
    else CreditChanges(history[..|history| - 1]) + PairCreditChanges(history[|history| - 2], history[|history| - 1])
  }

  /** The credit-collecting part of the `show_change_log` loop. */
  method CollectCreditChanges(history: seq<PyEntry>) returns (creditChanges: seq<CreditChange>)
    ensures creditChanges == CreditChanges(history)
  {
    creditChanges := [];
    if |history| < 2 {
      return;
    }
    for i := 1 to |history|
      invariant creditChanges == CreditChanges(history[..i])
    {
      assert history[..i + 1][..i] == history[..i];
      var prev := history[i - 1];
      var curr := history[i];
      if prev.promptCredits.Amount? && curr.promptCredits.Amount? {
        var diff := curr.promptCredits.n - prev.promptCredits.n;
        if diff != 0 {
          creditChanges := creditChanges + [CreditChange(curr.timestamp, PromptCredits, prev.promptCredits.n, curr.promptCredits.n, diff)];
        }
      }
      if prev.flowCredits.Amount? && curr.flowCredits.Amount? {
        var diff := curr.flowCredits.n - prev.flowCredits.n;
        if diff != 0 {
          creditChanges := creditChanges + [CreditChange(curr.timestamp, FlowCredits, prev.flowCredits.n, curr.flowCredits.n, diff)];
        }
      }
    }
    assert history[..|history|] == history;
  }

  /** Every collected credit change is a real change: its delta is not zero and
      is the later count minus the earlier one. */
  lemma {:induction false} CreditChangesAreChanges(history: seq<PyEntry>)
    ensures forall c :: c in CreditChanges(history) ==> c.delta != 0 && c.after - c.before == c.delta
  {
    if |history| >= 2 {
      CreditChangesAreChanges(history[..|history| - 1]);
    }
  }

  /** The sum of the prompt-credit deltas collected. */
  function PromptDeltaSum(changes: seq<CreditChange>): int {
    if changes == [] then 0
    else PromptDeltaSum(changes[..|changes| - 1]) +
         (if changes[|changes| - 1].kind == PromptCredits then changes[|changes| - 1].delta else 0)
  }

  lemma {:induction false} PromptDeltaSumAppend(a: seq<CreditChange>, b: seq<CreditChange>)
    ensures PromptDeltaSum(a + b) == PromptDeltaSum(a) + PromptDeltaSum(b)
    decreases |b|
  {
    if b == [] {
      assert a + b == a;
    } else {
      assert (a + b)[..|a + b| - 1] == a + b[..|b| - 1];
      PromptDeltaSumAppend(a, b[..|b| - 1]);
    }
  }

  /** The prompt-credit changes telescope: when every entry holds a numeric prompt
      count, the deltas collected add up to the last count minus the first. */
  lemma {:induction false} PromptChangesTelescope(history: seq<PyEntry>)
    requires |history| >= 1
    requires forall i :: 0 <= i < |history| ==> history[i].promptCredits.Amount?
    ensures PromptDeltaSum(CreditChanges(history)) == history[|history| - 1].promptCredits.n - history[0].promptCredits.n
  {
    if |history| >= 2 {
      var init := history[..|history| - 1];
      PromptChangesTelescope(init);
      var prev := history[|history| - 2];
      var curr := history[|history| - 1];
      var pair := PairCreditChanges(prev, curr);
      PromptDeltaSumAppend(CreditChanges(init), pair);
      var d1 := CreditDelta(prev.promptCredits, curr.promptCredits);
      var d2 := CreditDelta(prev.flowCredits, curr.flowCredits);
      var p1: seq<CreditChange> := if d1.Some? then [CreditChange(curr.timestamp, PromptCredits, prev.promptCredits.n, curr.promptCredits.n, d1.value)] else [];
      var p2: seq<CreditChange> := if d2.Some? then [CreditChange(curr.timestamp, FlowCredits, prev.flowCredits.n, curr.flowCredits.n, d2.value)] else [];
      assert pair == p1 + p2;
      PromptDeltaSumAppend(p1, p2);
      assert PromptDeltaSum(p2) == 0 by {
        if d2.Some? {
          assert p2[..0] == [];
        }
      }
      assert PromptDeltaSum(p1) == curr.promptCredits.n - prev.promptCredits.n by {
        if d1.Some? {
          assert p1[..0] == [];
        }
      }
    }
  }

  /** One element of `model_changes[label]`, in tenths of a percent. */
  datatype ModelChange = ModelChange(ts: string, before: int, after: int, delta: int)

  /** Appends `change` to the list of `modelLabel`, starting one if needed. */
  function AddChange(changes: map<Label, seq<ModelChange>>, modelLabel: Label, change: ModelChange)
    : map<Label, seq<ModelChange>>
  {
    changes[modelLabel := (if modelLabel in changes then changes[modelLabel] else []) + [change]]
  }

  /** The model changes one later entry adds: for each of its models whose
      previous and current fractions are both numbers and differ. */
  function PairModelChanges(changes: map<Label, seq<ModelChange>>, prevModels: map<Label, Option<Thousandths>>,
                            records: seq<PyRecord>, ts: string): map<Label, seq<ModelChange>>
  {
    if records == [] then changes
    else
      var acc := PairModelChanges(changes, prevModels, records[..|records| - 1], ts);
      var m := records[|records| - 1];
      var prevFrac := Lookup(prevModels, m.modelLabel);
      if prevFrac.Some? && m.remaining.Some? && m.remaining.value - prevFrac.value != 0 then
        AddChange(acc, m.modelLabel, ModelChange(ts, prevFrac.value, m.remaining.value, m.remaining.value - prevFrac.value))
      else acc
  }

  /** `model_changes` after the loop over the consecutive pairs of `history`. */
  function ModelChanges(history: seq<PyEntry>): map<Label, seq<ModelChange>> {
    if |history| < 2 then map[]
    else
      var prev := history[|history| - 2];
      var curr := history[|history| - 1];
      PairModelChanges(ModelChanges(history[..|history| - 1]), ByLabel(RecordPairs(prev.models)), curr.models, curr.timestamp)
  }

  /** The model-collecting part of the `show_change_log` loop. */
  method CollectModelChanges(history: seq<PyEntry>) returns (modelChanges: map<Label, seq<ModelChange>>)
    ensures modelChanges == ModelChanges(history)
  {
    modelChanges := map[];
    if |history| < 2 {
      return;
    }
    for i := 1 to |history|
      invariant modelChanges == ModelChanges(history[..i])
    {
      assert history[..i + 1][..i] == history[..i];
      var prev := history[i - 1];
      var curr := history[i];
      var prevModels := PreviousFractions(prev.models);
      ghost var start := modelChanges;
      for j := 0 to |curr.models|
        invariant modelChanges == PairModelChanges(start, prevModels, curr.models[..j], curr.timestamp)
      {
        assert curr.models[..j + 1][..j] == curr.models[..j];
        var m := curr.models[j];
        var prevFrac := if m.modelLabel in prevModels then prevModels[m.modelLabel] else None;
        if prevFrac.Some? && m.remaining.Some? {
          var diff := m.remaining.value - prevFrac.value;
          if diff != 0 {
            var list := if m.modelLabel in modelChanges then modelChanges[m.modelLabel] else [];
            modelChanges := modelChanges[m.modelLabel := list + [ModelChange(curr.timestamp, prevFrac.value, m.remaining.value, diff)]];
          }
        }
      }
      assert curr.models[..|curr.models|] == curr.models;
    }
    assert history[..|history|] == history;
  }

  /** Every listed model change is a real change: its delta is not zero and is
      the later fraction minus the earlier one. */
  ghost predicate AllReal(changes: map<Label, seq<ModelChange>>) {
    forall l, c :: l in changes && c in changes[l] ==> c.delta != 0 && c.after - c.before == c.delta
  }

  lemma {:induction false} PairModelChangesAreChanges(changes: map<Label, seq<ModelChange>>,
                                                      prevModels: map<Label, Option<Thousandths>>,
                                                      records: seq<PyRecord>, ts: string)
    requires AllReal(changes)
    ensures AllReal(PairModelChanges(changes, prevModels, records, ts))
    decreases |records|
  {
    if records != [] {
      var acc := PairModelChanges(changes, prevModels, records[..|records| - 1], ts);
      PairModelChangesAreChanges(changes, prevModels, records[..|records| - 1], ts);
      var m := records[|records| - 1];
      var prevFrac := Lookup(prevModels, m.modelLabel);
      if prevFrac.Some? && m.remaining.Some? && m.remaining.value - prevFrac.value != 0 {
        var change := ModelChange(ts, prevFrac.value, m.remaining.value, m.remaining.value - prevFrac.value);
        var r := AddChange(acc, m.modelLabel, change);
        forall l: Label, c: ModelChange | l in r && c in r[l]
          ensures c.delta != 0 && c.after - c.before == c.delta
        {
          if l == m.modelLabel {
            var earlier := if m.modelLabel in acc then acc[m.modelLabel] else [];
            assert r[l] == earlier + [change];
            assert c in earlier || c == change;
          } else {
            assert r[l] == acc[l];
          }
        }
      }
    }
  }

  /** Every model change `show_change_log` collects is a real change. */
  lemma {:induction false} ModelChangesAreChanges(history: seq<PyEntry>)
    ensures AllReal(ModelChanges(history))
  {
    if |history| >= 2 {
      ModelChangesAreChanges(history[..|history| - 1]);
      var prev := history[|history| - 2];
      var curr := history[|history| - 1];
      PairModelChangesAreChanges(ModelChanges(history[..|history| - 1]), ByLabel(RecordPairs(prev.models)),
                                 curr.models, curr.timestamp);
    }
  }
}
