/** The query logic of `src/components/dashboard/RenewalsTable.tsx`: the
    search and status filter, the column comparator, the sort-column state
    machine, and the table's own day count and date formatting, which are
    not the shared helpers of `dateUtils.ts`. */
module RenewalsTable {
  import opened Options
  import opened Seqs
  import opened Strings
  import opened JsValues
  import opened Calendars
  import opened Domain
  import DateUtils

  datatype Direction = Asc | Desc
  {
    function Flip(): Direction
    {
      if this == Asc then Desc else Asc
    }
  }

  /** The component's state: search box, status menu, sort column and
      direction. */
  datatype TableState = TableState(searchTerm: string, statusFilter: string, sortBy: string, direction: Direction)

  /** The state the table mounts with. */
  const Initial: TableState := TableState("", "all", "endDate", Asc)

  /** `field.toLowerCase().includes(t)` on a field that is present. */
  predicate FieldHas(field: Option<string>, t: string)
  {
    field.Some? && Contains(LowerStr(field.value), t)
  }

  /** The search test reads the service name, the provider and the service
      type in that order and stops at the first hit; calling `toLowerCase`
      on a missing one throws a `TypeError` out of the render. */
  predicate SearchThrows(r: Renewal, term: string)
  {
    var t := LowerStr(term);
    || r.serviceName.None?
    || (!FieldHas(r.serviceName, t) && r.provider.None?)
    || (!FieldHas(r.serviceName, t) && !FieldHas(r.provider, t) && r.serviceType.None?)
  }

  /** The lowercased term occurs in the lowercased service name, provider
      or service type. */
  predicate MatchesSearch(r: Renewal, term: string)
  {
    var t := LowerStr(term);
    FieldHas(r.serviceName, t) || FieldHas(r.provider, t) || FieldHas(r.serviceType, t)
  }

  predicate MatchesStatus(r: Renewal, statusFilter: string)
  {
    statusFilter == "all" || r.status.Is(statusFilter)
  }

  function Shown(st: TableState): Renewal -> bool
  {
    r => MatchesSearch(r, st.searchTerm) && MatchesStatus(r, st.statusFilter)
  }

  /** `filteredRenewals`: `None` when the search callback throws on one of
      the renewals (it runs on every one of them); otherwise the renewals
      that match both the search and the status menu, each with all its
      copies, in the order of the prop. */
  function FilteredRenewals(renewals: seq<Renewal>, st: TableState): (r: Option<seq<Renewal>>)
    ensures r.None? <==> exists i :: 0 <= i < |renewals| && SearchThrows(renewals[i], st.searchTerm)
    ensures r.Some? ==> IsSubseq(r.value, renewals)
    ensures r.Some? ==> forall x :: x in r.value <==>
      x in renewals && MatchesSearch(x, st.searchTerm) && MatchesStatus(x, st.statusFilter)
    ensures r.Some? ==> forall x :: x in renewals ==>
      multiset(r.value)[x] == if MatchesSearch(x, st.searchTerm) && MatchesStatus(x, st.statusFilter)
        then multiset(renewals)[x] else 0
  {
    if exists i :: 0 <= i < |renewals| && SearchThrows(renewals[i], st.searchTerm) then None
    else
      FilterMultiplicity(renewals, Shown(st));
      Some(Filter(renewals, Shown(st)))
  }

  /** With an empty search and `'all'`, every renewal is shown in the
      order it came, unless one of them has no service name, which throws. */
  lemma {:induction false} EmptyQueryKeepsAll(renewals: seq<Renewal>, st: TableState)
    requires st.searchTerm == "" && st.statusFilter == "all"
    ensures FilteredRenewals(renewals, st) ==
      if forall i :: 0 <= i < |renewals| ==> renewals[i].serviceName.Some? then Some(renewals) else None
  {
    forall x | x in renewals && x.serviceName.Some?
      ensures Shown(st)(x) && !SearchThrows(x, st.searchTerm)
    {
      ContainsEmpty(LowerStr(x.serviceName.value));
    }
    if forall i :: 0 <= i < |renewals| ==> renewals[i].serviceName.Some? {
      FilterKeepsAll(renewals, Shown(st));
    }
  }

  /** The table as it mounts, before any click, shows the renewals in the
      order of their end dates, earliest first. */
  lemma InitialShowsAll(cal: Calendar, collate: (string, string) -> int, renewals: seq<Renewal>)
    requires forall i :: 0 <= i < |renewals| ==> renewals[i].serviceName.Some?
    ensures FilteredRenewals(renewals, Initial) == Some(renewals)
    ensures SortedRenewals(cal, collate, renewals, Initial) == Some(SortBy(renewals, Comparator(cal, collate, "endDate", Asc)))
  {
    EmptyQueryKeepsAll(renewals, Initial);
  }

  /** `a - b` on two `getTime()` values, where an unparseable date is `NaN`
      and a `NaN` comparison counts as 0 in `Array.prototype.sort`. */
  function TimeDiff(a: Option<int>, b: Option<int>): int
  {
    if a.Some? && b.Some? then a.value - b.value else 0
  }

  /** A missing field as the argument of `localeCompare`, which converts
      it with `String(undefined)`. */
  function Text(field: Option<string>): string
  {
    if field.Some? then field.value else "undefined"
  }

  /** The ascending comparison for a sort key; `collate` is
      `localeCompare`, and an unknown key compares everything equal. */
  function AscCompare(cal: Calendar, collate: (string, string) -> int, sortBy: string, a: Renewal, b: Renewal): (r: int)
    ensures sortBy == "endDate" && cal.parse(a.endDate).Some? && cal.parse(b.endDate).Some? ==>
      (r < 0 <==> cal.parse(a.endDate).value < cal.parse(b.endDate).value) &&
      (r == 0 <==> cal.parse(a.endDate).value == cal.parse(b.endDate).value)
    ensures sortBy == "endDate" && (cal.parse(a.endDate).None? || cal.parse(b.endDate).None?) ==> r == 0
    ensures sortBy == "cost" ==> (r < 0 <==> a.cost < b.cost) && (r == 0 <==> a.cost == b.cost)
    ensures sortBy == "serviceName" ==> r == collate(Text(a.serviceName), Text(b.serviceName))
    ensures sortBy == "provider" ==> r == collate(Text(a.provider), Text(b.provider))
    ensures sortBy !in {"endDate", "serviceName", "provider", "cost"} ==> r == 0
  {
    if sortBy == "endDate" then TimeDiff(cal.parse(a.endDate), cal.parse(b.endDate))
    else if sortBy == "serviceName" then collate(Text(a.serviceName), Text(b.serviceName))
    else if sortBy == "provider" then collate(Text(a.provider), Text(b.provider))
    else if sortBy == "cost" then Sign(a.cost - b.cost)
    else 0
  }

  /** The comparator handed to `sort`: ascending compares the rows in
      order, descending compares them with the operands swapped. */
  function Comparator(cal: Calendar, collate: (string, string) -> int, sortBy: string, dir: Direction): (r: (Renewal, Renewal) -> int)
    ensures forall a, b :: dir == Asc ==> r(a, b) == AscCompare(cal, collate, sortBy, a, b)
    ensures forall a, b :: dir == Desc ==> r(a, b) == AscCompare(cal, collate, sortBy, b, a)
  {
    (a: Renewal, b: Renewal) => if dir == Asc then AscCompare(cal, collate, sortBy, a, b) else AscCompare(cal, collate, sortBy, b, a)
  }

  /** `sortedRenewals`: a sorted copy of the filtered rows, or the throw of
      the filter. */
  function SortedRenewals(cal: Calendar, collate: (string, string) -> int, renewals: seq<Renewal>, st: TableState): (r: Option<seq<Renewal>>)
    ensures r.Some? <==> FilteredRenewals(renewals, st).Some?
    ensures r.Some? ==> multiset(r.value) == multiset(FilteredRenewals(renewals, st).value)
  {
    match FilteredRenewals(renewals, st)
    case None => None
    case Some(rows) => Some(SortBy(rows, Comparator(cal, collate, st.sortBy, st.direction)))
  }

  function IntSign(x: int): int
  {
    if x < 0 then -1 else if x > 0 then 1 else 0
  }

  /** `localeCompare` as a total preorder: every pair is ordered one way
      or the other, the order is transitive, and swapping the operands
      negates the answer. */
  ghost predicate CollationOrder(collate: (string, string) -> int)
  {
    && (forall x, y :: IntSign(collate(x, y)) == -IntSign(collate(y, x)))
    && (forall x, y, z :: collate(x, y) <= 0 && collate(y, z) <= 0 ==> collate(x, z) <= 0)
  }

  /** Descending is the exact reverse of ascending, for every key. */
  lemma DescReversesAsc(cal: Calendar, collate: (string, string) -> int, sortBy: string, a: Renewal, b: Renewal)
    requires CollationOrder(collate)
    ensures IntSign(Comparator(cal, collate, sortBy, Desc)(a, b)) == -IntSign(Comparator(cal, collate, sortBy, Asc)(a, b))
  {
    if sortBy == "cost" {
      assert Sign(b.cost - a.cost) == -Sign(a.cost - b.cost);
    }
  }

  /** An unknown sort key leaves the filtered rows in their order. */
  lemma UnknownKeyKeepsOrder(cal: Calendar, collate: (string, string) -> int, renewals: seq<Renewal>, st: TableState)
    requires st.sortBy !in {"endDate", "serviceName", "provider", "cost"}
    ensures SortedRenewals(cal, collate, renewals, st) == FilteredRenewals(renewals, st)
  {
    if FilteredRenewals(renewals, st).Some? {
      SortByAllEqual(FilteredRenewals(renewals, st).value, Comparator(cal, collate, st.sortBy, st.direction));
    }
  }

  lemma AscPreorder(cal: Calendar, collate: (string, string) -> int, sortBy: string, s: seq<Renewal>)
    requires CollationOrder(collate)
    requires sortBy == "endDate" ==> forall x :: x in s ==> cal.parse(x.endDate).Some?
    ensures forall a, b :: a in s && b in s ==>
      AscCompare(cal, collate, sortBy, a, b) <= 0 || AscCompare(cal, collate, sortBy, b, a) <= 0
    ensures forall a, b, c ::
      (a in s && b in s && c in s &&
       AscCompare(cal, collate, sortBy, a, b) <= 0 && AscCompare(cal, collate, sortBy, b, c) <= 0) ==>
      AscCompare(cal, collate, sortBy, a, c) <= 0
  {
    forall a, b | a in s && b in s
      ensures AscCompare(cal, collate, sortBy, a, b) <= 0 || AscCompare(cal, collate, sortBy, b, a) <= 0
    {
      if sortBy == "serviceName" {
        assert IntSign(collate(Text(a.serviceName), Text(b.serviceName))) == -IntSign(collate(Text(b.serviceName), Text(a.serviceName)));
      } else if sortBy == "provider" {
        assert IntSign(collate(Text(a.provider), Text(b.provider))) == -IntSign(collate(Text(b.provider), Text(a.provider)));
      }
    }
  }

  /** With a collation that is a total preorder, and end dates that all
      parse when sorting by end date, the rows come out ordered by the
      chosen column and direction, and they are the filtered rows. */
  lemma SortedRowsOrdered(cal: Calendar, collate: (string, string) -> int, renewals: seq<Renewal>, st: TableState)
    requires CollationOrder(collate)
    requires st.sortBy == "endDate" ==> forall x :: x in renewals ==> cal.parse(x.endDate).Some?
    ensures SortedRenewals(cal, collate, renewals, st).Some? ==>
      SortedBy(Comparator(cal, collate, st.sortBy, st.direction), SortedRenewals(cal, collate, renewals, st).value)
  {
    if FilteredRenewals(renewals, st).Some? {
      var rows := FilteredRenewals(renewals, st).value;
      assert forall x :: x in rows ==> x in renewals;
      RowsOrdered(cal, collate, rows, st.sortBy, st.direction);
    }
  }

  /** Sorting any rows on which the chosen column is a total preorder
      orders them by that column and direction. */
  lemma RowsOrdered(cal: Calendar, collate: (string, string) -> int, rows: seq<Renewal>, sortBy: string, dir: Direction)
    requires CollationOrder(collate)
    requires sortBy == "endDate" ==> forall x :: x in rows ==> cal.parse(x.endDate).Some?
    ensures SortedBy(Comparator(cal, collate, sortBy, dir), SortBy(rows, Comparator(cal, collate, sortBy, dir)))
  {
    var cmp := Comparator(cal, collate, sortBy, dir);
    AscPreorder(cal, collate, sortBy, rows);
    assert PreorderOn(cmp, rows);
    SortBySorted(rows, cmp, rows);
  }

  /** `handleSort(column)`. */
  function HandleSort(st: TableState, column: string): (r: TableState)
    ensures r.sortBy == column
    ensures r.searchTerm == st.searchTerm && r.statusFilter == st.statusFilter
    ensures st.sortBy == column ==> r.direction != st.direction
    ensures st.sortBy != column ==> r.direction == Asc
  {
    if st.sortBy == column then st.(direction := st.direction.Flip())
    else st.(sortBy := column, direction := Asc)
  }

  /** Clicking the same column twice restores the state when it was the
      sort column already, and leaves a new column descending otherwise. */
  lemma HandleSortTwice(st: TableState, column: string)
    ensures st.sortBy == column ==> HandleSort(HandleSort(st, column), column) == st
    ensures st.sortBy != column ==> HandleSort(HandleSort(st, column), column) == st.(sortBy := column, direction := Desc)
  {
  }

  /** The table's `getDaysRemaining`: the raw millisecond difference from
      now rounded up to days, without moving either moment to midnight and
      without a guard, so an unparseable end date is `NaN` (`None`). */
  function DaysRemaining(cal: Calendar, endDate: string): (r: Option<int>)
    ensures r.Some? <==> cal.parse(endDate).Some?
    ensures r.Some? ==> (r.value - 1) * DayMs < cal.parse(endDate).value - cal.now <= r.value * DayMs
  {
    match cal.parse(endDate)
    case None => None
    case Some(e) => Some(CeilDays(e - cal.now))
  }

  /** The row says "Expired" when `days <= 0`, which a `NaN` count never is. */
  predicate ShowsExpired(cal: Calendar, endDate: string)
  {
    var days := DaysRemaining(cal, endDate);
    days.Some? && days.value <= 0
  }

  /** A row reads "Expired" exactly when its end date parses to a moment
      that is not after now. */
  lemma ShowsExpiredIff(cal: Calendar, endDate: string)
    ensures ShowsExpired(cal, endDate) <==>
      cal.parse(endDate).Some? && cal.parse(endDate).value <= cal.now
  {
  }

  /** The table and `dateUtils.getDaysRemaining` disagree: an end date
      later today is one day away in the table and zero days away in the
      shared helper. */
  lemma DaysRemainingDiverges(cal: Calendar, endDate: string)
    requires cal.parse(endDate) == Some(cal.now + 1)
    requires DayIndex(cal.now + 1) == DayIndex(cal.now)
    ensures DaysRemaining(cal, endDate) == Some(1)
    ensures DateUtils.GetDaysRemaining(cal, Str(endDate)) == 0
  {
  }

  /** The table's `formatDate`: `"N/A"` for an empty string, the string
      itself when it does not parse, and otherwise the formatted date. */
  function FormatDate(cal: Calendar, s: string): (r: string)
    ensures s == "" ==> r == "N/A"
    ensures s != "" && cal.parse(s).None? ==> r == s
    ensures s != "" && cal.parse(s).Some? ==> r == cal.format(cal.parse(s).value, "MMM d, yyyy")
  {
    if s == "" then "N/A"
    else match cal.parse(s)
      case None => s
      case Some(m) => cal.format(m, "MMM d, yyyy")
  }

  /** The table's `formatDate` agrees with the shared one except on a
      non-empty string that does not parse, which it echoes where the
      shared helper prints `"N/A"`. */
  lemma FormatDateVersusShared(cal: Calendar, s: string)
    ensures s == "" || cal.parse(s).Some? ==> FormatDate(cal, s) == DateUtils.FormatDate(cal, Str(s))
    ensures s != "" && cal.parse(s).None? ==> FormatDate(cal, s) == s && DateUtils.FormatDate(cal, Str(s)) == "N/A"
  {
  }
}
