/** The logic of `src/components/dashboard/ReminderLog.tsx`: the filter
    over sent reminders, the filters sent to the server, the date-range
    inputs and the notification-setting switches. */
module ReminderLog {
  import opened Options
  import opened Seqs
  import opened Strings
  import opened Calendars

  /** A reminder that was sent (`ReminderLogEntry`). */
  datatype ReminderEntry = ReminderEntry(
    id: string,
    renewalId: string,
    serviceName: string,
    kind: string,
    sentAt: string,
    status: string,
    recipient: string,
    message: string)

  /** The filter controls. */
  datatype ReminderFilters = ReminderFilters(from: string, to: string, kind: string, status: string, search: string)

  /** `s.toLowerCase().includes(term.toLowerCase())`. */
  predicate Mentions(s: string, term: string)
  {
    Contains(LowerStr(s), LowerStr(term))
  }

  predicate MatchesSearch(f: ReminderFilters, log: ReminderEntry)
  {
    Mentions(log.serviceName, f.search) || Mentions(log.recipient, f.search) || Mentions(log.message, f.search)
  }

  /** The day `sent_at` falls on lies between `from` and `to` as strings;
      the caller has checked that `sent_at` parses. */
  predicate MatchesDates(cal: Calendar, f: ReminderFilters, log: ReminderEntry)
  {
    var m := cal.parse(log.sentAt);
    m.Some? && StrLe(f.from, cal.isoDay(m.value)) && StrLe(cal.isoDay(m.value), f.to)
  }

  predicate MatchesKind(f: ReminderFilters, log: ReminderEntry)
  {
    f.kind == "all" || log.kind == f.kind
  }

  predicate MatchesStatus(f: ReminderFilters, log: ReminderEntry)
  {
    f.status == "all" || log.status == f.status
  }

  function Matches(cal: Calendar, f: ReminderFilters): ReminderEntry -> bool
  {
    (log: ReminderEntry) => MatchesSearch(f, log) && MatchesDates(cal, f, log) && MatchesKind(f, log) && MatchesStatus(f, log)
  }

  /** Every `sent_at` parses, so `toISOString` does not throw. */
  predicate AllDated(cal: Calendar, logs: seq<ReminderEntry>)
  {
    forall i :: 0 <= i < |logs| ==> cal.parse(logs[i].sentAt).Some?
  }

  /** `filteredLogs`: `None` when some `sent_at` does not parse. */
  function FilteredLogs(cal: Calendar, logs: seq<ReminderEntry>, f: ReminderFilters): (r: Option<seq<ReminderEntry>>)
    ensures r.Some? <==> AllDated(cal, logs)
    ensures r.Some? ==> IsSubseq(r.value, logs)
    ensures r.Some? ==> forall x :: x in r.value <==>
      (x in logs && MatchesSearch(f, x) && MatchesDates(cal, f, x) && MatchesKind(f, x) && MatchesStatus(f, x))
    ensures r.Some? ==> forall x :: x in logs ==>
      multiset(r.value)[x] == if MatchesSearch(f, x) && MatchesDates(cal, f, x) && MatchesKind(f, x) && MatchesStatus(f, x)
        then multiset(logs)[x] else 0
  {
    FilterMultiplicity(logs, Matches(cal, f));
    if AllDated(cal, logs) then Some(Filter(logs, Matches(cal, f))) else None
  }

  /** "Showing n of m logs": n never exceeds m. */
  lemma ShownCount(cal: Calendar, logs: seq<ReminderEntry>, f: ReminderFilters)
    requires AllDated(cal, logs)
    ensures |FilteredLogs(cal, logs, f).value| <= |logs|
  {
  }

  /** An empty search with both menus on `'all'` keeps exactly the logs of
      the date range. */
  lemma {:induction false} OnlyDatesFilter(cal: Calendar, logs: seq<ReminderEntry>, f: ReminderFilters)
    requires AllDated(cal, logs)
    requires f.search == "" && f.kind == "all" && f.status == "all"
    ensures FilteredLogs(cal, logs, f).value == Filter(logs, (x: ReminderEntry) => MatchesDates(cal, f, x))
  {
    forall i | 0 <= i < |logs|
      ensures Matches(cal, f)(logs[i]) == MatchesDates(cal, f, logs[i])
    {
      ContainsEmpty(LowerStr(logs[i].serviceName));
    }
    FilterExt(logs, Matches(cal, f), (x: ReminderEntry) => MatchesDates(cal, f, x));
  }

  /** What `handleFetchLogs` sends: a menu left on `'all'` sends nothing. */
  datatype FetchFilters = FetchFilters(kind: Option<string>, dateFrom: string, dateTo: string, status: Option<string>)

  /** `handleFetchLogs()`. */
  function HandleFetchLogs(f: ReminderFilters): (r: FetchFilters)
    ensures r.dateFrom == f.from && r.dateTo == f.to
    ensures r.kind.None? <==> f.kind == "all"
    ensures r.kind.Some? ==> r.kind.value == f.kind
    ensures r.status.None? <==> f.status == "all"
    ensures r.status.Some? ==> r.status.value == f.status
  {
    FetchFilters(
      if f.kind != "all" then Some(f.kind) else None,
      f.from, f.to,
      if f.status != "all" then Some(f.status) else None)
  }

  /** The logs a request asks for, read field by field: an absent type or
      status asks for every value, and the day of `sent_at` lies between
      the two dates. The search term is not sent. */
  predicate RequestKeeps(cal: Calendar, q: FetchFilters, log: ReminderEntry)
  {
    && (q.kind.None? || log.kind == q.kind.value)
    && (q.status.None? || log.status == q.status.value)
    && (var m := cal.parse(log.sentAt);
        m.Some? && StrLe(q.dateFrom, cal.isoDay(m.value)) && StrLe(cal.isoDay(m.value), q.dateTo))
  }

  /** The request stands for the page's own filter, less the search: each
      sent field keeps exactly the logs the matching local check keeps. */
  lemma ReminderFetchAgreesWithFilter(cal: Calendar, f: ReminderFilters, log: ReminderEntry)
    ensures var q := HandleFetchLogs(f);
      MatchesKind(f, log) <==> q.kind.None? || log.kind == q.kind.value
    ensures var q := HandleFetchLogs(f);
      MatchesStatus(f, log) <==> q.status.None? || log.status == q.status.value
    ensures RequestKeeps(cal, HandleFetchLogs(f), log)
      <==> MatchesDates(cal, f, log) && MatchesKind(f, log) && MatchesStatus(f, log)
    ensures Matches(cal, f)(log) <==> RequestKeeps(cal, HandleFetchLogs(f), log) && MatchesSearch(f, log)
  {
  }

  /** The two date inputs, by their `name`. */
  datatype Bound = From | To

  /** `handleDateChange`: the named bound takes the typed value. */
  function HandleDateChange(f: ReminderFilters, bound: Bound, value: string): (r: ReminderFilters)
    ensures bound == From ==> r.from == value && r.to == f.to
    ensures bound == To ==> r.to == value && r.from == f.from
    ensures r.kind == f.kind && r.status == f.status && r.search == f.search
  {
    match bound
    case From => f.(from := value)
    case To => f.(to := value)
  }

  /** Editing one bound and then the other gives the same range in
      either order. */
  lemma DateChangesCommute(f: ReminderFilters, a: string, b: string)
    ensures HandleDateChange(HandleDateChange(f, From, a), To, b)
      == HandleDateChange(HandleDateChange(f, To, b), From, a)
  {
  }

  /** The three switches (`days_before` has none). */
  datatype Setting = EmailEnabled | SmsEnabled | InAppEnabled

  datatype Settings = Settings(emailEnabled: bool, smsEnabled: bool, inAppEnabled: bool, daysBefore: seq<int>)
  {
    function Get(s: Setting): bool
    {
      match s
      case EmailEnabled => emailEnabled
      case SmsEnabled => smsEnabled
      case InAppEnabled => inAppEnabled
    }
  }

  /** The settings shown when the parent passes none. */
  const DefaultSettings: Settings := Settings(true, false, true, [1, 7, 30])

  /** A `Partial<NotificationSettings>` of switches. */
  type SettingsPatch = map<Setting, bool>

  /** `handleSettingToggle(setting)`: the patch handed to
      `onSettingsChange`. */
  function HandleSettingToggle(settings: Settings, setting: Setting): (r: SettingsPatch)
    ensures r.Keys == {setting}
    ensures r[setting] != settings.Get(setting)
  {
    map[setting := !settings.Get(setting)]
  }

  /** The patches a run of clicks on the switches sends. Neither dashboard
      passes `settings`, and both only log the patch, so every click reads
      the same settings: those the component started with. */
  function PatchesSent(settings: Settings, clicks: seq<Setting>): (r: seq<SettingsPatch>)
    ensures |r| == |clicks|
    ensures forall i :: 0 <= i < |r| ==> r[i].Keys == {clicks[i]} && r[i][clicks[i]] != settings.Get(clicks[i])
  {
    if |clicks| == 0 then []
    else [HandleSettingToggle(settings, clicks[0])] + PatchesSent(settings, clicks[1..])
  }

  /** On either dashboard a switch never changes what it sends: clicking
      the same switch again resends the same patch, so e-mail is switched
      off, SMS on and in-app off, however often they are clicked. */
  lemma {:induction false} ClicksResendSamePatch(clicks: seq<Setting>)
    ensures var r := PatchesSent(DefaultSettings, clicks);
      forall i, j :: 0 <= i < |clicks| && 0 <= j < |clicks| && clicks[i] == clicks[j] ==> r[i] == r[j]
    ensures var r := PatchesSent(DefaultSettings, clicks);
      forall i :: 0 <= i < |clicks| ==>
        r[i] == map[clicks[i] := clicks[i] == SmsEnabled]
  {
    var r := PatchesSent(DefaultSettings, clicks);
    forall i | 0 <= i < |clicks|
      ensures r[i] == map[clicks[i] := clicks[i] == SmsEnabled]
    {
      assert r[i].Keys == {clicks[i]};
    }
  }
}
