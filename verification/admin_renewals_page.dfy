/** The logic of the admin renewals page, `src/pages/admin/Renewals.tsx`:
    how an added renewal is prepared for the API, when an edit is sent at
    all, and how the detail view colours the days left. */
module AdminRenewalsPage {
  import opened Options
  import opened JsValues
  import opened Calendars
  import opened Fields
  import opened Domain
  import DateUtils
  import RenewalsTable

  /** `if (currentUser && !renewalData.user_id) renewalData.user_id = currentUser.id`. */
  function StampOwner(data: Record, currentUser: Option<string>): (r: Record)
    ensures data.Keys <= r.Keys <= data.Keys + {Snake(UserId)}
    ensures forall k :: k in data && k != Snake(UserId) ==> r[k] == data[k]
    ensures Truthy(Get(data, Snake(UserId))) || currentUser.None? ==> r == data
    ensures !Truthy(Get(data, Snake(UserId))) && currentUser.Some? ==>
      Get(r, Snake(UserId)) == Str(currentUser.value)
  {
    if currentUser.Some? && !Truthy(Get(data, Snake(UserId))) then data[Snake(UserId) := Str(currentUser.value)]
    else data
  }

  /** An owner already filled in, for instance by an admin adding a renewal
      for someone else, is kept, and stamping twice is stamping once. */
  lemma StampOwnerKeepsOwner(data: Record, currentUser: Option<string>)
    ensures Truthy(Get(data, Snake(UserId))) ==> Get(StampOwner(data, currentUser), Snake(UserId)) == Get(data, Snake(UserId))
    ensures StampOwner(StampOwner(data, currentUser), currentUser) == StampOwner(data, currentUser)
  {
  }

  /** `if (data[f]) data[f] = new Date(data[f]).toISOString().split('T')[0]`;
      `None` when the value does not parse and `toISOString` throws. */
  function NormalizeDate(cal: Calendar, data: Record, f: Field): (r: Option<Record>)
    ensures r.None? <==> Truthy(Get(data, Snake(f))) && DateUtils.ToDate(cal, Get(data, Snake(f))).None?
    ensures r.Some? && !Truthy(Get(data, Snake(f))) ==> r.value == data
    ensures r.Some? && Truthy(Get(data, Snake(f))) ==>
      r.value.Keys == data.Keys + {Snake(f)} &&
      r.value[Snake(f)] == Str(cal.isoDay(DateUtils.ToDate(cal, Get(data, Snake(f))).value)) &&
      forall k :: k in data && k != Snake(f) ==> r.value[k] == data[k]
  {
    var v := Get(data, Snake(f));
    if !Truthy(v) then Some(data)
    else match DateUtils.ToDate(cal, v)
      case None => None
      case Some(m) => Some(data[Snake(f) := Str(cal.isoDay(m))])
  }

  /** `Object.fromEntries(Object.entries(data).filter(v => v !== undefined && v !== null))`. */
  function Clean(data: Record): (r: Record)
    ensures forall k :: k in r <==> k in data && !Nullish(data[k])
    ensures forall k :: k in r ==> r[k] == data[k]
  {
    map k | k in data && !Nullish(data[k]) :: data[k]
  }

  /** Cleaning drops exactly `undefined` and `null`: `0`, `''` and `false`
      survive, and a cleaned payload has nothing left to drop. */
  lemma CleanKeepsFalsy(data: Record, k: Key)
    requires k in data && data[k] in {Num(0.0), Str(""), Bool(false)}
    ensures k in Clean(data) && Clean(data)[k] == data[k]
    ensures Clean(Clean(data)) == Clean(data)
  {
  }

  /** `handleAddRenewal`'s payload, as written: the owner is stamped, the
      start date is normalised twice, the end date never, and the nullish
      entries are dropped. `None` when a date throws. */
  function PrepareAddPayload(cal: Calendar, data: Record, currentUser: Option<string>): (r: Option<Record>)
    ensures r.Some? ==> forall k :: k in r.value ==> !Nullish(r.value[k])
    ensures r.Some? && Snake(EndDate) in data && !Nullish(data[Snake(EndDate)]) ==>
      Snake(EndDate) in r.value && r.value[Snake(EndDate)] == data[Snake(EndDate)]
    // The owner: the signed-in user when none is filled in, else the one given.
    ensures r.Some? && currentUser.Some? && !Truthy(Get(data, Snake(UserId))) ==>
      Get(r.value, Snake(UserId)) == Str(currentUser.value)
    ensures r.Some? && Truthy(Get(data, Snake(UserId))) ==> Get(r.value, Snake(UserId)) == data[Snake(UserId)]
  {
    var stamped := StampOwner(data, currentUser);
    match NormalizeDate(cal, stamped, StartDate)
    case None => None
    case Some(once) =>
      match NormalizeDate(cal, once, StartDate)
      case None => None
      case Some(twice) =>
        assert Get(twice, Snake(UserId)) == Get(stamped, Snake(UserId));
        Some(Clean(twice))
  }

  /** The payload with the second step normalising `end_date`, as the
      comment above it intends. */
  function PrepareAddPayloadFixed(cal: Calendar, data: Record, currentUser: Option<string>): (r: Option<Record>)
    ensures r.Some? ==> forall k :: k in r.value ==> !Nullish(r.value[k])
  {
    var stamped := StampOwner(data, currentUser);
    match NormalizeDate(cal, stamped, StartDate)
    case None => None
    case Some(withStart) =>
      match NormalizeDate(cal, withStart, EndDate)
      case None => None
      case Some(withBoth) => Some(Clean(withBoth))
  }

  /** A normalised date is normalised again to the same day, so repeating
      the start date step changes nothing. */
  lemma NormalizeDateTwice(cal: Calendar, data: Record, f: Field)
    requires DayLaws(cal)
    requires NormalizeDate(cal, data, f).Some?
    ensures NormalizeDate(cal, NormalizeDate(cal, data, f).value, f) == NormalizeDate(cal, data, f)
  {
    var once := NormalizeDate(cal, data, f).value;
    var v := Get(data, Snake(f));
    if Truthy(v) {
      var m := DateUtils.ToDate(cal, v).value;
      assert Get(once, Snake(f)) == Str(cal.isoDay(m));
      assert cal.parse(cal.isoDay(m)) == Some(Midnight(m));
      assert cal.isoDay(Midnight(m)) == cal.isoDay(m);
      if cal.isoDay(m) != "" {
        assert once[Snake(f) := Str(cal.isoDay(m))] == once;
      }
    }
  }

  /** The start date of the payload as written: when filled in, it goes
      out as the calendar day of the date typed, the second normalisation
      changing nothing. */
  lemma PrepareAddPayloadStart(cal: Calendar, data: Record, currentUser: Option<string>)
    requires DayLaws(cal)
    requires Truthy(Get(data, Snake(StartDate)))
    requires PrepareAddPayload(cal, data, currentUser).Some?
    ensures Get(PrepareAddPayload(cal, data, currentUser).value, Snake(StartDate))
      == Str(cal.isoDay(DateUtils.ToDate(cal, Get(data, Snake(StartDate))).value))
  {
    var stamped := StampOwner(data, currentUser);
    assert Get(stamped, Snake(StartDate)) == Get(data, Snake(StartDate));
    NormalizeDateTwice(cal, stamped, StartDate);
  }

  /** The end date of the payload as written is the one typed, verbatim:
      a timestamp with a time of day goes out unchanged, while the
      corrected payload sends its calendar day, which reads back as that
      day's midnight. */
  lemma EndDateNotNormalised(cal: Calendar, data: Record, currentUser: Option<string>, end: string, m: int)
    requires DayLaws(cal)
    requires end != "" && Get(data, Snake(EndDate)) == Str(end)
    requires cal.parse(end) == Some(m) && m % DayMs != 0
    requires PrepareAddPayload(cal, data, currentUser).Some?
    ensures Get(PrepareAddPayload(cal, data, currentUser).value, Snake(EndDate)) == Str(end)
    ensures PrepareAddPayloadFixed(cal, data, currentUser).Some?
    ensures var fixed := Get(PrepareAddPayloadFixed(cal, data, currentUser).value, Snake(EndDate));
      fixed != Str(end) && fixed.Str? && cal.parse(fixed.s) == Some(Midnight(m))
  {
    FixedPayloadParses(cal, data, currentUser, end, m);
    FixedPayloadDates(cal, data, currentUser, EndDate);
    assert DateUtils.ToDate(cal, Str(end)) == Some(m);
    assert cal.parse(cal.isoDay(m)) == Some(Midnight(m));
    assert Midnight(m) != m;
  }

  /** When the payload as written goes out and the end date parses, the
      corrected payload goes out too: the two differ only in the end date
      step, which cannot throw on a date that parses. */
  lemma FixedPayloadParses(cal: Calendar, data: Record, currentUser: Option<string>, end: string, m: int)
    requires Get(data, Snake(EndDate)) == Str(end) && cal.parse(end) == Some(m)
    requires PrepareAddPayload(cal, data, currentUser).Some?
    ensures PrepareAddPayloadFixed(cal, data, currentUser).Some?
  {
    var stamped := StampOwner(data, currentUser);
    var withStart := NormalizeDate(cal, stamped, StartDate).value;
    assert Get(withStart, Snake(EndDate)) == Str(end);
    assert DateUtils.ToDate(cal, Str(end)).Some?;
  }

  /** The corrected payload normalises both dates: each one filled in goes
      out as the calendar day of the date typed. */
  lemma FixedPayloadDates(cal: Calendar, data: Record, currentUser: Option<string>, f: Field)
    requires f == StartDate || f == EndDate
    requires Truthy(Get(data, Snake(f)))
    requires PrepareAddPayloadFixed(cal, data, currentUser).Some?
    ensures Snake(f) in PrepareAddPayloadFixed(cal, data, currentUser).value
    ensures PrepareAddPayloadFixed(cal, data, currentUser).value[Snake(f)]
      == Str(cal.isoDay(DateUtils.ToDate(cal, Get(data, Snake(f))).value))
  {
  }

  /** `handleEditRenewal`: nothing is sent unless `renewalData.id` is
      truthy; otherwise the update goes to that id with the whole data. */
  function HandleEditRenewal(data: Record): (r: Option<(JsVal, Record)>)
    ensures r.None? <==> !Truthy(Get(data, Id))
    ensures r.Some? ==> r.value.0 == data[Id] && r.value.1 == data
  {
    if Truthy(Get(data, Id)) then Some((data[Id], data)) else None
  }

  /** A missing id, an empty one or the number 0 makes no request. */
  lemma EditWithoutIdIgnored(data: Record)
    requires Id !in data || data[Id] in {Str(""), Num(0.0), Null, Undefined}
    ensures HandleEditRenewal(data).None?
  {
  }

  /** The detail view's days-left badge: its colour, whether it reads
      "Expired", and the count it prints otherwise (`NaN` as `None`). The
      page's `getDaysRemaining` is the table's. */
  datatype DaysBadge = DaysBadge(tone: Tone, expired: bool, days: Option<int>)

  function DetailBadge(cal: Calendar, endDate: string): (r: DaysBadge)
    ensures r.days == RenewalsTable.DaysRemaining(cal, endDate)
    ensures r.expired <==> r.tone == Red
  {
    var d := RenewalsTable.DaysRemaining(cal, endDate);
    DaysBadge(ToneOf(d), d.Some? && d.value <= 0, d)
  }

  /** The badge reads "Expired" exactly where the table does, and an end
      date that does not parse, which has no guard here, is shown green as
      "NaN days". */
  lemma DetailBadgeCases(cal: Calendar, endDate: string)
    ensures DetailBadge(cal, endDate).expired <==> RenewalsTable.ShowsExpired(cal, endDate)
    ensures cal.parse(endDate).None? ==> DetailBadge(cal, endDate) == DaysBadge(Green, false, None)
    ensures DetailBadge(cal, endDate).tone == Yellow <==>
      DeriveStatus(RenewalsTable.DaysRemaining(cal, endDate)) == ExpiringSoon
  {
    ToneMatchesStatus(RenewalsTable.DaysRemaining(cal, endDate));
  }
}
