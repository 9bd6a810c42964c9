/** The two pieces of `src/services/renewalService.ts` that are not network
    calls: `normalizeResponse`, which brings the API's different response
    shapes to `{data, success, message?}`, and the local statistics
    `calculateRenewalStats`. */
module RenewalService {
  import opened Options
  import opened Seqs
  import opened JsValues
  import opened Domain

  /** `v.k`, or `None` when `v` is `null` or `undefined` and the access
      throws a `TypeError`. Only objects carry `data`, `success` and
      `message`; any other value reads as `undefined`. */
  function Member(v: JsVal, k: string): (r: Option<JsVal>)
    ensures r.None? <==> Nullish(v)
  {
    match v
    case Undefined => None
    case Null => None
    case Obj(fields) => Some(Prop(fields, k))
    case _ => Some(Undefined)
  }

  /** `{data, success: true}`. */
  function Wrap(data: JsVal): JsVal
  {
    Obj(map["data" := data, "success" := Bool(true)])
  }

  /** `normalizeResponse(response)`: `None` when the response is `null` or
      `undefined` (the access to `success` throws). */
  function Normalize(v: JsVal): (r: Option<JsVal>)
    ensures r.None? <==> Nullish(v)
    // An envelope is returned untouched.
    ensures r.Some? && Member(v, "success").value.Bool? ==> r.value == v
    // A Laravel resource keeps only its data.
    ensures r.Some? && !Member(v, "success").value.Bool? && Truthy(Member(v, "data").value) ==>
      r.value == Wrap(Member(v, "data").value)
    // Anything else is the data.
    ensures r.Some? && !Member(v, "success").value.Bool? && !Truthy(Member(v, "data").value) ==>
      r.value == Wrap(v)
  {
    if Nullish(v) then None
    else if Member(v, "success").value.Bool? then Some(v)
    else if Truthy(Member(v, "data").value) then Some(Wrap(Member(v, "data").value))
    else Some(Wrap(v))
  }

  /** Every normalised response has a boolean `success`, and it is `false`
      only when the response itself said `success: false`. */
  lemma NormalizeSuccess(v: JsVal)
    requires !Nullish(v)
    ensures Member(Normalize(v).value, "success").value.Bool?
    ensures Member(Normalize(v).value, "success").value == Bool(false) ==>
      Member(v, "success").value == Bool(false)
  {
  }

  /** A response without a boolean `success` loses its `message` when its
      `data` is truthy: the result has only `data` and `success`. */
  lemma NormalizeDropsMessage(v: JsVal)
    requires !Nullish(v) && !Member(v, "success").value.Bool? && Truthy(Member(v, "data").value)
    ensures Member(Normalize(v).value, "message").value == Undefined
    ensures Normalize(v).value.Obj? && Normalize(v).value.fields.Keys == {"data", "success"}
  {
  }

  /** Normalising twice is normalising once. */
  lemma NormalizeIdempotent(v: JsVal)
    requires !Nullish(v)
    ensures Normalize(Normalize(v).value) == Normalize(v)
  {
    NormalizeSuccess(v);
  }

  function RenewalStatus(r: Renewal): Status { r.status }

  function RenewalCost(r: Renewal): real { r.cost }

  /** `calculateRenewalStats(renewals)`: counts by the stored status, which
      is not derived again from the dates; the total and the cost cover
      every record whatever its status. */
  function CalculateRenewalStats(s: seq<Renewal>): (r: Stats)
    ensures r.total == |s|
    ensures r.totalCost == SumOf(s, RenewalCost)
    ensures r.active == |Filter(s, HasStatus(RenewalStatus, Active))|
    ensures r.expiringSoon == |Filter(s, HasStatus(RenewalStatus, ExpiringSoon))|
    ensures r.expired == |Filter(s, HasStatus(RenewalStatus, Expired))|
    ensures (forall i :: 0 <= i < |s| ==> s[i].status.ThreeValued()) ==>
      r.active + r.expiringSoon + r.expired == r.total
  {
    StatusCountsBound(s, RenewalStatus);
    Tally(s, RenewalStatus, RenewalCost)
  }

  /** `calculateRenewalStats([])` is `defaultRenewalStats`, and reordering
      the list does not change the statistics. */
  lemma CalculateRenewalStatsLaws(a: seq<Renewal>, b: seq<Renewal>)
    requires multiset(a) == multiset(b)
    ensures CalculateRenewalStats([]) == DefaultStats
    ensures CalculateRenewalStats(a) == CalculateRenewalStats(b)
  {
    TallyPerm(a, b, RenewalStatus, RenewalCost);
  }
}
