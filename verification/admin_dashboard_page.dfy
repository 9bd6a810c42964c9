/** The logic of the admin dashboard, `src/pages/admin/Dashboard.tsx`: its
    own `formatDate`, the local list and statistics updates after a delete
    or a form submission, and the upcoming-renewals panel. */
module AdminDashboardPage {
  import opened Options
  import opened Seqs
  import opened JsValues
  import opened Calendars
  import opened Domain
  import opened RenewalService
  import opened ListUpdates
  import DateUtils
  import RenewalsTable

  /** The long date pattern of this page. */
  const LongPattern: string := "MMMM d, yyyy"

  /** The page's `formatDate`: `"N/A"` for an empty string, the string
      itself when it does not parse, and otherwise the long date. */
  function FormatDate(cal: Calendar, s: string): (r: string)
    ensures s == "" ==> r == "N/A"
    ensures s != "" && cal.parse(s).None? ==> r == s
    ensures s != "" && cal.parse(s).Some? ==> r == cal.format(cal.parse(s).value, LongPattern)
  {
    if s == "" then "N/A"
    else match cal.parse(s)
      case None => s
      case Some(m) => cal.format(m, LongPattern)
  }

  /** The page's `formatDate` handles bad input as the table's does and
      unlike the shared helper, which prints `"N/A"` for it; on a good date
      it differs from both only in the pattern. */
  lemma FormatDateVersusOthers(cal: Calendar, s: string)
    ensures s == "" || cal.parse(s).None? ==> FormatDate(cal, s) == RenewalsTable.FormatDate(cal, s)
    ensures s != "" && cal.parse(s).None? ==> DateUtils.FormatDate(cal, Str(s)) == "N/A" && FormatDate(cal, s) == s
    ensures s != "" && cal.parse(s).Some? ==>
      RenewalsTable.FormatDate(cal, s) == cal.format(cal.parse(s).value, "MMM d, yyyy") &&
      DateUtils.FormatDate(cal, Str(s)) == cal.format(cal.parse(s).value, "MMM d, yyyy")
  {
  }

  /** The answer of `createRenewal` or `updateRenewal`. When the request
      fails inside the service, `data` is the empty object `Placeholder`. */
  datatype Response = Response(success: bool, data: Renewal)

  /** `{} as Renewal`: every field missing. The declared fields read here
      as empty text, no status and no cost. */
  const Placeholder: Renewal := Renewal("", "", "", "", "", None, None, None, "", "", 0.0, Unset, "", 0)

  /** `handleDeleteRenewal(id)`, after the confirmation dialog (`confirmed`)
      and the delete request (`success`). */
  function HandleDeleteRenewal(renewals: seq<Renewal>, stats: Stats, id: string, confirmed: bool, success: bool): (r: (seq<Renewal>, Stats))
    ensures !confirmed || !success ==> r == (renewals, stats)
    ensures confirmed && success ==> r.0 == RemoveId(renewals, id) && StatsMatch(r.0, r.1)
  {
    if confirmed && success then
      var updated := RemoveId(renewals, id);
      (updated, CalculateRenewalStats(updated))
    else (renewals, stats)
  }

  /** A delete keeps statistics that described the list describing it. */
  lemma DeleteKeepsStats(renewals: seq<Renewal>, stats: Stats, id: string, confirmed: bool, success: bool)
    requires StatsMatch(renewals, stats)
    ensures var (list, st) := HandleDeleteRenewal(renewals, stats, id, confirmed, success);
      StatsMatch(list, st)
    ensures confirmed && success ==>
      HandleDeleteRenewal(renewals, stats, id, confirmed, success).1.total
        == |renewals| - |Seqs.Filter(renewals, (x: Renewal) => x.id == id)|
  {
    RemoveIdCount(renewals, id);
  }

  /** The list after `handleFormSubmit`: an edit replaces the records of the
      edited id by the server's copy, a creation appends it; a failed
      request leaves the list alone. */
  function SubmittedList(renewals: seq<Renewal>, editing: Option<Renewal>, resp: Response): (r: seq<Renewal>)
    ensures !resp.success ==> r == renewals
    ensures resp.success && editing.Some? ==> r == ReplaceId(renewals, editing.value.id, resp.data)
    ensures resp.success && editing.None? ==> r == renewals + [resp.data]
  {
    if !resp.success then renewals
    else match editing
      case Some(e) => ReplaceId(renewals, e.id, resp.data)
      case None => renewals + [resp.data]
  }

  /** `handleFormSubmit(formData)` as written: the statistics are computed
      from the list with the response applied, whether the request
      succeeded or not. */
  function HandleFormSubmit(renewals: seq<Renewal>, stats: Stats, editing: Option<Renewal>, resp: Response): (r: (seq<Renewal>, Stats))
    ensures r.0 == SubmittedList(renewals, editing, resp)
    ensures StatsMatch(SubmittedList(renewals, editing, resp.(success := true)), r.1)
  {
    var applied := SubmittedList(renewals, editing, resp.(success := true));
    (SubmittedList(renewals, editing, resp), CalculateRenewalStats(applied))
  }

  /** A failed creation leaves the list as it was but counts the failed
      response's data as one more renewal: the statistics no longer
      describe the list. When the service caught the failure, the extra
      renewal is the placeholder, which falls in no status count. */
  lemma FailedCreateCountsPhantom(renewals: seq<Renewal>, stats: Stats, resp: Response)
    requires !resp.success
    ensures HandleFormSubmit(renewals, stats, None, resp).0 == renewals
    ensures HandleFormSubmit(renewals, stats, None, resp).1.total == |renewals| + 1
    ensures !StatsMatch(renewals, HandleFormSubmit(renewals, stats, None, resp).1)
    ensures resp.data == Placeholder && StatsMatch(renewals, stats) ==>
      var st := HandleFormSubmit(renewals, stats, None, resp).1;
      st.active == stats.active && st.expiringSoon == stats.expiringSoon && st.expired == stats.expired
  {
    TallyAppend(renewals, resp.data, RenewalStatus, RenewalCost);
  }

  /** `handleFormSubmit` with the statistics recomputed only from the list
      it keeps. */
  function HandleFormSubmitFixed(renewals: seq<Renewal>, stats: Stats, editing: Option<Renewal>, resp: Response): (r: (seq<Renewal>, Stats))
    ensures r.0 == SubmittedList(renewals, editing, resp)
    ensures !resp.success ==> r.1 == stats
  {
    if resp.success then
      var list := SubmittedList(renewals, editing, resp);
      (list, CalculateRenewalStats(list))
    else (renewals, stats)
  }

  /** The corrected submission keeps the statistics describing the list,
      and it agrees with the page whenever the request succeeds. */
  lemma FixedSubmitKeepsStats(renewals: seq<Renewal>, stats: Stats, editing: Option<Renewal>, resp: Response)
    requires StatsMatch(renewals, stats)
    ensures var (list, st) := HandleFormSubmitFixed(renewals, stats, editing, resp);
      StatsMatch(list, st)
    ensures resp.success ==> HandleFormSubmitFixed(renewals, stats, editing, resp) == HandleFormSubmit(renewals, stats, editing, resp)
    ensures resp.success && editing.None? ==>
      HandleFormSubmitFixed(renewals, stats, editing, resp).1.total == stats.total + 1
  {
    if resp.success && editing.None? {
      AppendStats(renewals, resp.data);
    }
  }

  function IsExpiringSoon(r: Renewal): bool
  {
    r.status == ExpiringSoon
  }

  /** The upcoming panel: `filter(status === 'expiring-soon').slice(0, 3)`. */
  function Upcoming(renewals: seq<Renewal>): (r: seq<Renewal>)
    ensures |r| <= 3
    ensures forall i :: 0 <= i < |r| ==> r[i].status == ExpiringSoon && r[i] in renewals
    ensures |r| == if |Seqs.Filter(renewals, IsExpiringSoon)| < 3 then |Seqs.Filter(renewals, IsExpiringSoon)| else 3
    ensures r == Seqs.Filter(renewals, IsExpiringSoon)[..|r|]
  {
    Take(Seqs.Filter(renewals, IsExpiringSoon), 3)
  }

  /** The panel is empty, and says "No upcoming renewals", exactly when no
      renewal is expiring soon; with three or more it shows the first three
      in list order. */
  lemma UpcomingEmptyIff(renewals: seq<Renewal>)
    ensures |Upcoming(renewals)| == 0 <==> forall i :: 0 <= i < |renewals| ==> renewals[i].status != ExpiringSoon
    ensures |Seqs.Filter(renewals, IsExpiringSoon)| >= 3 ==> |Upcoming(renewals)| == 3
  {
  }
}
