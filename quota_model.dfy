/** What the two quota trackers (backend/services/QuotaService.js and its Python
    original check_quota.py) share: the shape of the `GetUserStatus` API response,
    credit values, per-model deltas, and the last-wins label maps both build.

    JSON numbers are integers here. A model's `remainingFraction` is counted in
    thousandths, so the percent difference `round((curr - prev) * 100, 1)` is
    exactly `curr - prev` tenths of a percent. */
module QuotaModel {
  import opened Wrappers

  /** One key of a JSON object: missing, `null`, or a value. */
  datatype Field<T> = Absent | Null | Present(value: T)

  /** JavaScript `obj.key || d` on a string key: the empty string is falsy. */
  function OrString(f: Field<string>, d: string): string {
    if f.Present? && f.value != "" then f.value else d
  }

  /** JavaScript `obj.key || {}` / `|| []` on an object or array key: any object
      or array is truthy. */
  function OrObject<T>(f: Field<T>, d: T): T {
    if f.Present? then f.value else d
  }

  /** JavaScript `obj.key ?? d`: only `null` and `undefined` fall back. */
  function Coalesce<T>(f: Field<T>, d: T): T {
    if f.Present? then f.value else d
  }

  /** Python `obj.get(key, d)`: the default only for a missing key; a `null`
      reads as `None`. */
  function PyGet<T>(f: Field<T>, d: T): Option<T> {
    match f
    case Absent => Some(d)
    case Null => None
    case Present(v) => Some(v)
  }

  /** A model's remaining quota, in thousandths of the whole. */
  type Thousandths = int

  datatype QuotaInfo = QuotaInfo(remainingFraction: Field<Thousandths>, resetTime: Field<string>)
  datatype ModelAlias = ModelAlias(model: Field<string>)
  datatype ModelConfig = ModelConfig(modelLabel: Field<string>, modelOrAlias: Field<ModelAlias>,
                                     quotaInfo: Field<QuotaInfo>, isRecommended: Field<bool>,
                                     supportsImages: Field<bool>)
  datatype CascadeData = CascadeData(clientModelConfigs: Field<seq<ModelConfig>>)
  datatype PlanInfo = PlanInfo(planName: Field<string>, teamsTier: Field<string>,
                               monthlyPromptCredits: Field<int>, monthlyFlowCredits: Field<int>)
  datatype PlanStatus = PlanStatus(planInfo: Field<PlanInfo>, availablePromptCredits: Field<int>,
                                   availableFlowCredits: Field<int>)
  /** The user-status object; the response root has the same keys. */
  datatype UserStatus = UserStatus(name: Field<string>, email: Field<string>,
                                   planStatus: Field<PlanStatus>,
                                   cascadeModelConfigData: Field<CascadeData>)
  /** The API response: an optional `userStatus` object beside the root's own keys. */
  datatype QuotaResponse = QuotaResponse(userStatus: Field<UserStatus>, root: UserStatus)

  /** The `{}` that the extractors fall back to. */
  const NoQuotaInfo := QuotaInfo(Absent, Absent)
  const NoModelAlias := ModelAlias(Absent)
  const NoCascade := CascadeData(Absent)
  const NoPlanInfo := PlanInfo(Absent, Absent, Absent, Absent)
  const NoPlanStatus := PlanStatus(Absent, Absent, Absent)

  /** A credit count as the trackers store it: a number, the placeholder `'?'`
      written when the API omits it, or `null`. */
  datatype Credit = Amount(n: int) | Placeholder | NullCredit

  /** One model's change: a difference in tenths of a percent, or `'NEW'`. */
  datatype ModelDelta = Change(tenths: int) | New

  /** The `deltas` object of a history entry: each key present or not. */
  datatype Deltas<K> = Deltas(promptCredits: Option<int>, flowCredits: Option<int>,
                              models: Option<map<K, ModelDelta>>)
  {
    /** `Object.keys(deltas).length === 0` / `len(deltas) == 0`. */
    predicate IsEmpty() {
      promptCredits.None? && flowCredits.None? && models.None?
    }
  }

  /** A credit delta: recorded only when both counts are numbers and they differ,
      as the current count minus the previous one. */
  function CreditDelta(prev: Credit, curr: Credit): (d: Option<int>)
    ensures d.Some? <==> prev.Amount? && curr.Amount? && prev.n != curr.n
    ensures d.Some? ==> prev.n + d.value == curr.n
  {
    if prev.Amount? && curr.Amount? && curr.n - prev.n != 0 then Some(curr.n - prev.n) else None
  }

  /** The `models` key of a `deltas` object: present only when non-empty. */
  function ModelsKey<K>(m: map<K, ModelDelta>): (r: Option<map<K, ModelDelta>>)
    ensures r.Some? <==> |m| > 0
    ensures r.Some? ==> r.value == m
  {
    if |m| > 0 then Some(m) else None
  }

  /** A map assigned key by key in list order (`prevModels[m.label] = ...`,
      `Object.fromEntries`, a dict comprehension): a later pair wins. */
  function ByLabel<K, V>(pairs: seq<(K, V)>): map<K, V>
  {
    if pairs == [] then map[]
    else ByLabel(pairs[..|pairs| - 1])[pairs[|pairs| - 1].0 := pairs[|pairs| - 1].1]
  }

  /** The labels of a last-wins map are those listed, and each maps to the value
      of its last pair. */
  lemma {:induction false} ByLabelLastWins<K, V>(pairs: seq<(K, V)>, i: nat)
    requires i < |pairs|
    requires forall j :: i < j < |pairs| ==> pairs[j].0 != pairs[i].0
    ensures pairs[i].0 in ByLabel(pairs) && ByLabel(pairs)[pairs[i].0] == pairs[i].1
    decreases |pairs|
  {
    if i < |pairs| - 1 {
      ByLabelLastWins(pairs[..|pairs| - 1], i);
    }
  }

  /** Only listed labels are keys. */
  lemma {:induction false} ByLabelKeys<K, V>(pairs: seq<(K, V)>, k: K)
    ensures k in ByLabel(pairs) <==> exists i :: 0 <= i < |pairs| && pairs[i].0 == k
    decreases |pairs|
  {
    if pairs != [] {
      var init := pairs[..|pairs| - 1];
      ByLabelKeys(init, k);
      if k in ByLabel(init) {
        var i :| 0 <= i < |init| && init[i].0 == k;
        assert pairs[i].0 == k;
      }
      if exists i :: 0 <= i < |pairs| && pairs[i].0 == k {
        var i :| 0 <= i < |pairs| && pairs[i].0 == k;
        if i < |pairs| - 1 {
          assert init[i].0 == k;
        }
      }
    }
  }

  /** The history file keeps at most this many entries. */
  const HistoryLimit: nat := 2000

  /** `history.slice(-2000)` / `history[-2000:]` when longer, else the history. */
  function KeepLast<T>(history: seq<T>): (r: seq<T>)
    ensures |r| == if |history| <= HistoryLimit then |history| else HistoryLimit
    ensures r == history[|history| - |r|..]
  {
    if |history| > HistoryLimit then history[|history| - HistoryLimit..] else history
  }

  /** Trimming after one append keeps the new entry last and drops only the
      oldest entries. */
  lemma KeepLastAppend<T>(history: seq<T>, entry: T)
    ensures var r := KeepLast(history + [entry]);
            |r| >= 1 && r[|r| - 1] == entry && r[..|r| - 1] == history[|history| + 1 - |r|..]
  {
    var h := history + [entry];
    var r := KeepLast(h);
    assert r[..|r| - 1] == h[|h| - |r|..|h| - 1];
    assert h[..|history|] == history;
  }
}
