/** The logic of the user dashboard, `src/pages/user/Dashboard.tsx`: its own
    day count and the days-left badge of the detail view, the owner it
    stamps on a new renewal, the local update after a delete, and the id an
    edit is sent to. */
module UserDashboardPage {
  import opened Options
  import opened JsValues
  import opened Calendars
  import opened Fields
  import opened Domain
  import opened RenewalService
  import opened ListUpdates
  import DateUtils
  import AdminRenewalsPage

  /** The page's `getDaysRemaining`: 0 for an empty or unparseable end date,
      otherwise the raw millisecond difference from now rounded up to days,
      without moving either moment to midnight. */
  function GetDaysRemaining(cal: Calendar, endDate: string): (r: int)
    ensures endDate == "" || cal.parse(endDate).None? ==> r == 0
    ensures endDate != "" && cal.parse(endDate).Some? ==>
      (r - 1) * DayMs < cal.parse(endDate).value - cal.now <= r * DayMs
  {
    if endDate == "" then 0
    else match cal.parse(endDate)
      case None => 0
      case Some(e) => CeilDays(e - cal.now)
  }

  /** On a valid end date the page's count is the shared helper's, or one
      more when the end date's time of day is later than now's; on an
      invalid one both say 0. */
  lemma WithinOneDayOfShared(cal: Calendar, endDate: string)
    ensures var shared := DateUtils.GetDaysRemaining(cal, Str(endDate));
      shared <= GetDaysRemaining(cal, endDate) <= shared + 1
  {
    if endDate != "" && cal.parse(endDate).Some? {
      var e := cal.parse(endDate).value;
      var r := GetDaysRemaining(cal, endDate);
      var d := DayIndex(e) - DayIndex(cal.now);
      assert DateUtils.GetDaysRemaining(cal, Str(endDate)) == d;
      assert Midnight(e) == DayIndex(e) * DayMs && Midnight(cal.now) == DayIndex(cal.now) * DayMs;
      assert (d - 1) * DayMs < e - cal.now < (d + 1) * DayMs;
      assert (r - 1) * DayMs < e - cal.now <= r * DayMs;
    }
  }

  /** An end date later today: the page counts one day, the shared helper
      none. */
  lemma LaterTodayDiverges(cal: Calendar, endDate: string)
    requires endDate != "" && cal.parse(endDate) == Some(cal.now + 1)
    requires DayIndex(cal.now + 1) == DayIndex(cal.now)
    ensures GetDaysRemaining(cal, endDate) == 1
    ensures DateUtils.GetDaysRemaining(cal, Str(endDate)) == 0
  {
  }

  /** The days-left line of the detail view. */
  datatype DaysDisplay = InvalidDate | Badge(tone: Tone, expired: bool, days: int)

  function ShowDays(cal: Calendar, endDate: string): (r: DaysDisplay)
    ensures r.InvalidDate? <==> !DateUtils.IsValidDate(cal, Str(endDate))
    ensures r.Badge? ==> r.days == GetDaysRemaining(cal, endDate) && (r.expired <==> r.tone == Red)
  {
    if !DateUtils.IsValidDate(cal, Str(endDate)) then InvalidDate
    else
      var d := GetDaysRemaining(cal, endDate);
      Badge(ToneOf(Some(d)), d <= 0, d)
  }

  /** "Invalid date" appears exactly where the shared `formatDate` prints
      "N/A"; otherwise the badge reads "Expired" exactly when the end date
      is not after now, and is yellow exactly when the derived status would
      be expiring soon. The admin detail view shows a green "NaN days"
      where this one shows "Invalid date". */
  lemma ShowDaysCases(cal: Calendar, endDate: string)
    requires NoSentinelOutput(cal)
    ensures ShowDays(cal, endDate).InvalidDate? <==> DateUtils.FormatDate(cal, Str(endDate)) == "N/A"
    ensures ShowDays(cal, endDate).Badge? ==>
      (ShowDays(cal, endDate).expired <==> cal.parse(endDate).value <= cal.now)
    ensures ShowDays(cal, endDate).Badge? ==>
      (ShowDays(cal, endDate).tone == Yellow <==> DeriveStatus(Some(GetDaysRemaining(cal, endDate))) == ExpiringSoon)
    ensures endDate != "" && cal.parse(endDate).None? ==>
      ShowDays(cal, endDate) == InvalidDate && AdminRenewalsPage.DetailBadge(cal, endDate).tone == Green
  {
    DateUtils.SentinelsAgree(cal, Str(endDate));
    ToneMatchesStatus(Some(GetDaysRemaining(cal, endDate)));
  }

  /** `if (currentUser) renewalData.user_id = currentUser.id`: whatever
      owner the form carried is replaced. */
  function AssignOwner(data: Record, currentUser: Option<string>): (r: Record)
    ensures currentUser.None? ==> r == data
    ensures currentUser.Some? ==> r.Keys == data.Keys + {Snake(UserId)} && r[Snake(UserId)] == Str(currentUser.value)
    ensures forall k :: k in data && k != Snake(UserId) ==> r[k] == data[k]
  {
    if currentUser.Some? then data[Snake(UserId) := Str(currentUser.value)] else data
  }

  /** The two pages disagree on a form that names another owner: the admin
      page keeps that owner, this page replaces it with the signed-in user. */
  lemma OwnerStampsDiffer(data: Record, me: string, other: string)
    requires other != "" && other != me && Get(data, Snake(UserId)) == Str(other)
    ensures Get(AdminRenewalsPage.StampOwner(data, Some(me)), Snake(UserId)) == Str(other)
    ensures Get(AssignOwner(data, Some(me)), Snake(UserId)) == Str(me)
  {
  }

  /** `confirmDelete()`, once the delete request answered with `success`:
      the list and the statistics after it. */
  function ConfirmDelete(renewals: seq<Renewal>, stats: Stats, selected: Option<Renewal>, success: bool): (r: (seq<Renewal>, Stats))
    ensures selected.None? || !success ==> r == (renewals, stats)
    ensures selected.Some? && success ==>
      r.0 == RemoveId(renewals, selected.value.id) && StatsMatch(r.0, r.1)
  {
    if selected.Some? && success then
      var updated := RemoveId(renewals, selected.value.id);
      (updated, CalculateRenewalStats(updated))
    else (renewals, stats)
  }

  /** Statistics that described the list still describe it after a delete,
      whether it succeeded or not, and a successful delete takes out one
      record per copy of the id. */
  lemma ConfirmDeleteKeepsStats(renewals: seq<Renewal>, stats: Stats, selected: Option<Renewal>, success: bool)
    requires StatsMatch(renewals, stats)
    ensures var (list, st) := ConfirmDelete(renewals, stats, selected, success);
      StatsMatch(list, st) && st.total <= stats.total
  {
    if selected.Some? && success {
      RemoveIdCount(renewals, selected.value.id);
    }
  }

  /** `handleEditRenewal`: with a renewal selected, the update goes to
      `renewalData.id || selectedRenewal.id`. */
  function EditTarget(data: Record, selected: Option<Renewal>): (r: Option<JsVal>)
    ensures r.None? <==> selected.None?
    ensures r.Some? && Truthy(Get(data, Id)) ==> r.value == Get(data, Id)
    ensures r.Some? && !Truthy(Get(data, Id)) ==> r.value == Str(selected.value.id)
  {
    match selected
    case None => None
    case Some(s) => Some(Or(Get(data, Id), Str(s.id)))
  }

  /** A form without an id, or with an empty one, edits the selected
      renewal, unlike the admin page, which then sends nothing. */
  lemma EditFallsBackToSelected(data: Record, selected: Renewal)
    requires !Truthy(Get(data, Id))
    ensures EditTarget(data, Some(selected)) == Some(Str(selected.id))
    ensures AdminRenewalsPage.HandleEditRenewal(data).None?
  {
  }
}
