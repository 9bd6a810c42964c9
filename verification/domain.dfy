/** The renewal record as the API and the components exchange it
    (`src/types/index.ts`), its status, the statistics shown on the
    dashboards (`RenewalStats`, `defaultRenewalStats`), and the two rules
    that turn a number of days remaining into a status or a colour. */
module Domain {
  import opened Options
  import opened Seqs

  /** Every status value the screens handle. The declared type has only the
      first three; the table, the status menu and the API also use
      `pending`, `canceled` and `renewed`; `Unset` is a record without a
      status (the `{}` placeholder the service returns on failure). */
  datatype Status = Active | ExpiringSoon | Expired | Pending | Canceled | Renewed | Unset
  {
    /** The status as the string the API and the components use. */
    function Name(): Option<string>
    {
      match this
      case Active => Some("active")
      case ExpiringSoon => Some("expiring-soon")
      case Expired => Some("expired")
      case Pending => Some("pending")
      case Canceled => Some("canceled")
      case Renewed => Some("renewed")
      case Unset => None
    }

    /** `status === name`. */
    predicate Is(name: string)
    {
      Name() == Some(name)
    }

    /** One of the three statuses the declared type allows. */
    predicate ThreeValued()
    {
      this == Active || this == ExpiringSoon || this == Expired
    }
  }

  /** A renewal as the components receive it: the legacy fields of the
      declared type together with the current-shape fields the table reads.
      The declared type has no `service_name`, `service_type` or
      `provider`, so those three may be missing (`None`). */
  datatype Renewal = Renewal(
    id: string,
    userId: string,
    itemName: string,
    category: string,
    vendor: string,
    serviceName: Option<string>,
    serviceType: Option<string>,
    provider: Option<string>,
    startDate: string,
    endDate: string,
    cost: real,
    status: Status,
    notes: string,
    reminderDaysBefore: int)

  /** `RenewalStats`. */
  datatype Stats = Stats(active: nat, expiringSoon: nat, expired: nat, total: nat, totalCost: real)

  /** `defaultRenewalStats`: all zeros. */
  const DefaultStats: Stats := Stats(0, 0, 0, 0, 0.0)

  /** `r => r.status === st`, for a record type whose status `status` reads. */
  function HasStatus<T>(status: T -> Status, st: Status): T -> bool
  {
    x => status(x) == st
  }

  /** The three status counts never add up to more than the length, and
      add up to exactly the length when every record has one of the three
      declared statuses. */
  lemma {:induction false} StatusCountsBound<T>(s: seq<T>, status: T -> Status)
    ensures |Filter(s, HasStatus(status, Active))| + |Filter(s, HasStatus(status, ExpiringSoon))|
      + |Filter(s, HasStatus(status, Expired))| <= |s|
    ensures (forall i :: 0 <= i < |s| ==> status(s[i]).ThreeValued()) ==>
      |Filter(s, HasStatus(status, Active))| + |Filter(s, HasStatus(status, ExpiringSoon))|
      + |Filter(s, HasStatus(status, Expired))| == |s|
  {
    if |s| > 0 {
      StatusCountsBound(s[1..], status);
    }
  }

  /** `getRenewalStats` and `calculateRenewalStats`: three filters by the
      stored status, the length, and the sum of the costs. */
  function Tally<T(==)>(s: seq<T>, status: T -> Status, cost: T -> real): (r: Stats)
    ensures r.total == |s|
    ensures r.active + r.expiringSoon + r.expired <= r.total
    ensures r.totalCost == SumOf(s, cost)
  {
    StatusCountsBound(s, status);
    Stats(
      |Filter(s, HasStatus(status, Active))|,
      |Filter(s, HasStatus(status, ExpiringSoon))|,
      |Filter(s, HasStatus(status, Expired))|,
      |s|,
      SumOf(s, cost))
  }

  /** With no records the statistics are `defaultRenewalStats`. */
  lemma TallyEmpty<T>(status: T -> Status, cost: T -> real)
    ensures Tally([], status, cost) == DefaultStats
  {
  }

  /** When every record has one of the three declared statuses, the three
      counts add up to the total. */
  lemma TallyPartition<T>(s: seq<T>, status: T -> Status, cost: T -> real)
    requires forall i :: 0 <= i < |s| ==> status(s[i]).ThreeValued()
    ensures Tally(s, status, cost).active + Tally(s, status, cost).expiringSoon
      + Tally(s, status, cost).expired == Tally(s, status, cost).total
  {
    StatusCountsBound(s, status);
  }

  /** The statistics do not depend on the order of the records. */
  lemma TallyPerm<T>(a: seq<T>, b: seq<T>, status: T -> Status, cost: T -> real)
    requires multiset(a) == multiset(b)
    ensures Tally(a, status, cost) == Tally(b, status, cost)
  {
    FilterPerm(a, b, HasStatus(status, Active));
    FilterPerm(a, b, HasStatus(status, ExpiringSoon));
    FilterPerm(a, b, HasStatus(status, Expired));
    assert |multiset(Filter(a, HasStatus(status, Active)))| == |multiset(Filter(b, HasStatus(status, Active)))|;
    assert |multiset(Filter(a, HasStatus(status, ExpiringSoon)))| == |multiset(Filter(b, HasStatus(status, ExpiringSoon)))|;
    assert |multiset(Filter(a, HasStatus(status, Expired)))| == |multiset(Filter(b, HasStatus(status, Expired)))|;
    SumPerm(a, b, cost);
    assert |a| == |multiset(a)| == |multiset(b)| == |b|;
  }

  /** Appending one record adds it to the total, to the cost and to the
      count of its own status only. */
  lemma {:induction false} TallyAppend<T>(s: seq<T>, x: T, status: T -> Status, cost: T -> real)
    ensures var before, after := Tally(s, status, cost), Tally(s + [x], status, cost);
      && after.total == before.total + 1
      && after.totalCost == before.totalCost + cost(x)
      && after.active == before.active + (if status(x) == Active then 1 else 0)
      && after.expiringSoon == before.expiringSoon + (if status(x) == ExpiringSoon then 1 else 0)
      && after.expired == before.expired + (if status(x) == Expired then 1 else 0)
  {
    FilterConcat(s, [x], HasStatus(status, Active));
    FilterConcat(s, [x], HasStatus(status, ExpiringSoon));
    FilterConcat(s, [x], HasStatus(status, Expired));
    SumConcat(s, [x], cost);
    SumSingleton(x, cost);
  }

  /** The status rule of `addRenewal`: at most 0 days left is expired, at
      most 30 is expiring soon, more is active. `None` stands for a `NaN`
      day count (an unparseable end date), for which every comparison is
      false, so it falls through to active. */
  function DeriveStatus(days: Option<int>): (r: Status)
    ensures r.ThreeValued()
    ensures r == Expired <==> days.Some? && days.value <= 0
    ensures r == ExpiringSoon <==> days.Some? && 0 < days.value <= 30
  {
    if days.Some? && days.value <= 0 then Expired
    else if days.Some? && days.value <= 30 then ExpiringSoon
    else Active
  }

  /** How urgent a status is: expired before expiring soon before active. */
  function Urgency(s: Status): nat
  {
    match s
    case Expired => 2
    case ExpiringSoon => 1
    case _ => 0
  }

  /** Further away never means more urgent. */
  lemma DeriveStatusMonotone(a: int, b: int)
    requires a <= b
    ensures Urgency(DeriveStatus(Some(b))) <= Urgency(DeriveStatus(Some(a)))
  {
  }

  /** The colour the detail views give a day count. */
  datatype Tone = Red | Yellow | Green

  /** `days <= 0 ? red : days <= 30 ? yellow : green`, where a `NaN` count
      (`None`) is neither and ends green. */
  function ToneOf(days: Option<int>): (r: Tone)
    ensures r == Red <==> days.Some? && days.value <= 0
    ensures r == Yellow <==> days.Some? && 0 < days.value <= 30
    ensures days.None? ==> r == Green
  {
    if days.Some? && days.value <= 0 then Red
    else if days.Some? && days.value <= 30 then Yellow
    else Green
  }

  /** The colours and the derived statuses draw the same lines. */
  lemma ToneMatchesStatus(days: Option<int>)
    ensures ToneOf(days) == Red <==> DeriveStatus(days) == Expired
    ensures ToneOf(days) == Yellow <==> DeriveStatus(days) == ExpiringSoon
    ensures ToneOf(days) == Green <==> DeriveStatus(days) == Active
  {
  }
}
