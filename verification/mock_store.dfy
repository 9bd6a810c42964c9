/** The in-memory renewal store of `src/data/mockRenewals.ts`: a list of
    camel-case renewals with lookup by owner, statistics, add, update,
    delete and a conjunctive filter. The module-level `let` the source
    reassigns is passed in and handed back explicitly. */
module MockStore {
  import opened Options
  import opened Strings
  import opened Seqs
  import opened Calendars
  import opened Domain

  datatype ServiceType = Domain | Antivirus | Hosting | Software | OtherService

  datatype ReminderType = Email | Notification | Both | NoReminder

  /** A stored renewal. `status` holds one of the three declared statuses
      in every store the operations below build (see `WellTyped`). */
  datatype MockRenewal = MockRenewal(
    id: string,
    userId: string,
    serviceName: string,
    serviceType: ServiceType,
    provider: string,
    startDate: string,
    endDate: string,
    cost: real,
    status: Status,
    notes: Option<string>,
    reminderType: ReminderType)

  /** What `addRenewal` is given: a renewal without `id` and `status`. */
  datatype NewRenewal = NewRenewal(
    userId: string,
    serviceName: string,
    serviceType: ServiceType,
    provider: string,
    startDate: string,
    endDate: string,
    cost: real,
    notes: Option<string>,
    reminderType: ReminderType)

  /** `Partial<Renewal>`: a field is overwritten exactly when it is given. */
  datatype RenewalPatch = RenewalPatch(
    id: Option<string>,
    userId: Option<string>,
    serviceName: Option<string>,
    serviceType: Option<ServiceType>,
    provider: Option<string>,
    startDate: Option<string>,
    endDate: Option<string>,
    cost: Option<real>,
    status: Option<Status>,
    notes: Option<string>,
    reminderType: Option<ReminderType>)

  const EmptyPatch: RenewalPatch :=
    RenewalPatch(None, None, None, None, None, None, None, None, None, None, None)

  type Store = seq<MockRenewal>

  /** Every stored status is one of the three the declared type allows. */
  predicate WellTyped(s: Store)
  {
    forall i :: 0 <= i < |s| ==> s[i].status.ThreeValued()
  }

  /** `getRenewalsByUserId(userId)`: the owner's renewals, in store order. */
  function GetRenewalsByUserId(store: Store, userId: string): (r: Store)
    ensures IsSubseq(r, store)
    ensures forall x :: x in r <==> x in store && x.userId == userId
    ensures forall x :: x in store ==> multiset(r)[x] == if x.userId == userId then multiset(store)[x] else 0
  {
    FilterMultiplicity(store, (x: MockRenewal) => x.userId == userId);
    Filter(store, (x: MockRenewal) => x.userId == userId)
  }

  function StatusField(r: MockRenewal): Status { r.status }

  function CostField(r: MockRenewal): real { r.cost }

  /** `getRenewalStats(renewals)`. */
  function GetRenewalStats(s: Store): (r: Stats)
    ensures r.total == |s|
    ensures r.totalCost == SumOf(s, CostField)
    ensures r.active == |Filter(s, HasStatus(StatusField, Active))|
    ensures r.expiringSoon == |Filter(s, HasStatus(StatusField, ExpiringSoon))|
    ensures r.expired == |Filter(s, HasStatus(StatusField, Expired))|
    ensures WellTyped(s) ==> r.active + r.expiringSoon + r.expired == r.total
  {
    StatusCountsBound(s, StatusField);
    Tally(s, StatusField, CostField)
  }

  /** Days until `endDate`, rounded up from the raw millisecond difference
      (no midnight truncation); `None` when the end date does not parse. */
  function DaysUntil(cal: Calendar, endDate: string): (r: Option<int>)
    ensures r.None? <==> cal.parse(endDate).None?
    ensures r.Some? ==> (r.value - 1) * DayMs < cal.parse(endDate).value - cal.now <= r.value * DayMs
  {
    match cal.parse(endDate)
    case None => None
    case Some(e) => Some(CeilDays(e - cal.now))
  }

  /** `addRenewal(renewal)`: the id is one more than the current length, the
      status comes from the days left, and the record goes at the end. */
  function AddRenewal(cal: Calendar, store: Store, n: NewRenewal): (res: (Store, MockRenewal))
    ensures var (store', added) := res;
      && store' == store + [added]
      && added.id == NatToString(|store| + 1)
      && added.status == DeriveStatus(DaysUntil(cal, n.endDate))
      && added.userId == n.userId && added.serviceName == n.serviceName
      && added.serviceType == n.serviceType && added.provider == n.provider
      && added.startDate == n.startDate && added.endDate == n.endDate
      && added.cost == n.cost && added.notes == n.notes && added.reminderType == n.reminderType
  {
    var added := MockRenewal(NatToString(|store| + 1), n.userId, n.serviceName, n.serviceType,
      n.provider, n.startDate, n.endDate, n.cost, DeriveStatus(DaysUntil(cal, n.endDate)), n.notes,
      n.reminderType);
    (store + [added], added)
  }

  /** An added renewal is expired exactly when its end date parses and is
      not after now; an unparseable end date makes it active. */
  lemma AddRenewalStatus(cal: Calendar, store: Store, n: NewRenewal)
    ensures var added := AddRenewal(cal, store, n).1;
      && (added.status == Expired <==> cal.parse(n.endDate).Some? && cal.parse(n.endDate).value <= cal.now)
      && (cal.parse(n.endDate).None? ==> added.status == Active)
      && WellTyped([added])
  {
    var d := DaysUntil(cal, n.endDate);
    if d.Some? {
      var e := cal.parse(n.endDate).value;
      assert d.value <= 0 <==> e - cal.now <= 0;
    }
  }

  /** Adding keeps the store well typed and grows the statistics by exactly
      the new record. */
  lemma AddRenewalStats(cal: Calendar, store: Store, n: NewRenewal)
    requires WellTyped(store)
    ensures var (store', added) := AddRenewal(cal, store, n);
      && WellTyped(store')
      && GetRenewalStats(store').total == GetRenewalStats(store).total + 1
      && GetRenewalStats(store').totalCost == GetRenewalStats(store).totalCost + n.cost
  {
    var (store', added) := AddRenewal(cal, store, n);
    assert added.status.ThreeValued();
    forall i | 0 <= i < |store'|
      ensures store'[i].status.ThreeValued()
    {
      if i < |store| {
        assert store'[i] == store[i];
      }
    }
    TallyAppend(store, added, StatusField, CostField);
  }

  /** `findIndex(r => r.id === id)`: the first index holding that id. */
  function FindIndex(store: Store, id: string): (r: Option<nat>)
    ensures r.None? <==> forall i :: 0 <= i < |store| ==> store[i].id != id
    ensures r.Some? ==> r.value < |store| && store[r.value].id == id
    ensures r.Some? ==> forall j :: 0 <= j < r.value ==> store[j].id != id
  {
    if |store| == 0 then None
    else if store[0].id == id then Some(0)
    else match FindIndex(store[1..], id)
      case None => None
      case Some(i) => Some(i + 1)
  }

  /** `{...r, ...patch}`. */
  function Overlay(r: MockRenewal, p: RenewalPatch): MockRenewal
  {
    MockRenewal(
      p.id.GetOr(r.id), p.userId.GetOr(r.userId), p.serviceName.GetOr(r.serviceName),
      p.serviceType.GetOr(r.serviceType), p.provider.GetOr(r.provider),
      p.startDate.GetOr(r.startDate), p.endDate.GetOr(r.endDate), p.cost.GetOr(r.cost),
      p.status.GetOr(r.status), if p.notes.Some? then p.notes else r.notes,
      p.reminderType.GetOr(r.reminderType))
  }

  /** Spreading the same patch twice is spreading it once, and spreading an
      empty patch is a copy. */
  lemma OverlayLaws(r: MockRenewal, p: RenewalPatch)
    ensures Overlay(Overlay(r, p), p) == Overlay(r, p)
    ensures Overlay(r, EmptyPatch) == r
  {
  }

  /** `updateRenewal(id, updates)`: `null` and no change when no record has
      that id; otherwise the first such record is replaced in place by its
      overlay and returned. */
  function UpdateRenewal(store: Store, id: string, patch: RenewalPatch): (res: (Store, Option<MockRenewal>))
    ensures var (store', updated) := res;
      && |store'| == |store|
      && (updated.None? <==> forall i :: 0 <= i < |store| ==> store[i].id != id)
      && (updated.None? ==> store' == store)
      && (updated.Some? ==>
            exists i :: 0 <= i < |store| && store[i].id == id
              && (forall j :: 0 <= j < i ==> store[j].id != id)
              && store'[i] == updated.value == Overlay(store[i], patch)
              && (forall j :: 0 <= j < |store| && j != i ==> store'[j] == store[j]))
  {
    match FindIndex(store, id)
    case None => (store, None)
    case Some(i) =>
      // `[...slice(0, i), updated, ...slice(i + 1)]` is the store with
      // position `i` replaced.
      var updated := Overlay(store[i], patch);
      (store[i := updated], Some(updated))
  }

  /** An update whose status, if any, is a declared one keeps the store
      well typed. */
  lemma UpdateKeepsWellTyped(store: Store, id: string, patch: RenewalPatch)
    requires WellTyped(store)
    requires patch.status.Some? ==> patch.status.value.ThreeValued()
    ensures WellTyped(UpdateRenewal(store, id, patch).0)
  {
    match FindIndex(store, id)
    case None =>
    case Some(i) =>
      assert Overlay(store[i], patch).status.ThreeValued();
  }

  function IdIsNot(id: string): MockRenewal -> bool
  {
    (x: MockRenewal) => x.id != id
  }

  /** `deleteRenewal(id)`: every record with that id goes; the answer says
      whether the length changed. */
  function DeleteRenewal(store: Store, id: string): (res: (Store, bool))
    ensures var (store', removed) := res;
      && IsSubseq(store', store)
      && (forall x :: x in store' <==> x in store && x.id != id)
      && (forall x :: x in store ==> multiset(store')[x] == if x.id != id then multiset(store)[x] else 0)
      && (removed <==> exists i :: 0 <= i < |store| && store[i].id == id)
  {
    var store' := Filter(store, IdIsNot(id));
    FilterAllOrShorter(store, IdIsNot(id));
    FilterMultiplicity(store, IdIsNot(id));
    (store', |store'| != |store|)
  }

  /** A filter is shorter than its input exactly when some element fails. */
  lemma {:induction false} FilterAllOrShorter<T>(s: seq<T>, p: T -> bool)
    ensures |Filter(s, p)| == |s| <==> forall i :: 0 <= i < |s| ==> p(s[i])
  {
    if |s| > 0 {
      FilterAllOrShorter(s[1..], p);
      assert forall i :: 1 <= i < |s| ==> s[1..][i - 1] == s[i];
    }
  }

  /** Deleting twice is deleting once. */
  lemma DeleteIdempotent(store: Store, id: string)
    ensures DeleteRenewal(DeleteRenewal(store, id).0, id) == (DeleteRenewal(store, id).0, false)
  {
    var once := DeleteRenewal(store, id).0;
    FilterKeepsAll(once, IdIsNot(id));
  }

  /** Ids are not unique after a delete: with records `1` and `2`, deleting
      `1` and adding a record gives the new record id `2` again. */
  lemma IdReusedAfterDelete(cal: Calendar, a: MockRenewal, b: MockRenewal, n: NewRenewal)
    requires a.id == "1" && b.id == "2"
    ensures var s := DeleteRenewal([a, b], "1").0;
      var (s', added) := AddRenewal(cal, s, n);
      s' == [b, added] && added.id == b.id
  {
    var s := DeleteRenewal([a, b], "1").0;
    assert s == [b];
    assert NatToString(2) == "2";
  }

  /** `RenewalFilters`. A missing or falsy criterion is `None` or `""`; a
      date bound that is missing or an invalid `Date` is `None`, since a
      comparison with it is always false. */
  datatype Filters = Filters(
    serviceType: Option<ServiceType>,
    status: Option<Status>,
    provider: string,
    search: string,
    dateRange: Option<(Option<int>, Option<int>)>)

  const NoFilters: Filters := Filters(None, None, "", "", None)

  /** The filter callback of `filterRenewals`, as the source writes it: a
      chain of early rejections. */
  predicate PassesChecks(cal: Calendar, f: Filters, r: MockRenewal)
  {
    if f.serviceType.Some? && r.serviceType != f.serviceType.value then false
    else if f.status.Some? && r.status != f.status.value then false
    else if f.provider != "" && !Contains(LowerStr(r.provider), LowerStr(f.provider)) then false
    else if f.search != "" && !Contains(LowerStr(r.serviceName), LowerStr(f.search))
      && !Contains(LowerStr(r.provider), LowerStr(f.search)) then false
    else if f.dateRange.Some? then
      var end := cal.parse(r.endDate);
      var (lo, hi) := f.dateRange.value;
      if lo.Some? && end.Some? && end.value < lo.value then false
      else if hi.Some? && end.Some? && end.value > hi.value then false
      else true
    else true
  }

  /** Reference definition: every criterion that is given holds. An end
      date that does not parse satisfies both bounds. */
  predicate MatchesAll(cal: Calendar, f: Filters, r: MockRenewal)
  {
    && (f.serviceType.Some? ==> r.serviceType == f.serviceType.value)
    && (f.status.Some? ==> r.status == f.status.value)
    && (f.provider != "" ==> Contains(LowerStr(r.provider), LowerStr(f.provider)))
    && (f.search != "" ==> Contains(LowerStr(r.serviceName), LowerStr(f.search))
                           || Contains(LowerStr(r.provider), LowerStr(f.search)))
    && (f.dateRange.Some? && cal.parse(r.endDate).Some? ==>
          (f.dateRange.value.0.Some? ==> f.dateRange.value.0.value <= cal.parse(r.endDate).value)
          && (f.dateRange.value.1.Some? ==> cal.parse(r.endDate).value <= f.dateRange.value.1.value))
  }

  function Passes(cal: Calendar, f: Filters): MockRenewal -> bool
  {
    r => PassesChecks(cal, f, r)
  }

  /** `filterRenewals(renewals, filters)`: an order-preserving selection of
      exactly the renewals that meet every given criterion. */
  function FilterRenewals(cal: Calendar, s: Store, f: Filters): (r: Store)
    ensures IsSubseq(r, s)
    ensures forall x :: x in r <==> x in s && MatchesAll(cal, f, x)
    ensures forall x :: x in s ==> multiset(r)[x] == if MatchesAll(cal, f, x) then multiset(s)[x] else 0
  {
    forall x ensures PassesChecks(cal, f, x) <==> MatchesAll(cal, f, x) {
      ChecksMatchAll(cal, f, x);
    }
    FilterMultiplicity(s, Passes(cal, f));
    Filter(s, Passes(cal, f))
  }

  lemma ChecksMatchAll(cal: Calendar, f: Filters, r: MockRenewal)
    ensures PassesChecks(cal, f, r) <==> MatchesAll(cal, f, r)
  {
  }

  /** With no criteria every renewal comes back, in order. */
  lemma NoFiltersKeepAll(cal: Calendar, s: Store)
    ensures FilterRenewals(cal, s, NoFilters) == s
  {
    FilterKeepsAll(s, Passes(cal, NoFilters));
  }
}
