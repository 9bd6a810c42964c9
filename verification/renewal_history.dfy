/** The query logic of `src/components/dashboard/RenewalHistory.tsx`: the
    client-side filter over the renewal's change log, the action label, and
    the filters sent to the server. The log entry itself is the
    `RenewalLog` of `src/types/index.ts`, which `RenewalLogs.tsx` shares. */
module RenewalHistory {
  import opened Options
  import opened Seqs
  import opened Strings
  import opened Calendars

  /** A change-log entry; the optional fields are `None` when absent. */
  datatype LogEntry = LogEntry(
    id: string,
    renewalId: string,
    serviceName: Option<string>,
    action: string,
    performedBy: string,
    userEmail: Option<string>,
    timestamp: string,
    notes: Option<string>)

  /** `field && field.toLowerCase().includes(term.toLowerCase())`: a
      missing or empty field never matches. */
  predicate FieldMatches(field: Option<string>, term: string)
  {
    field.Some? && field.value != "" && Contains(LowerStr(field.value), LowerStr(term))
  }

  /** The state of the filter controls, with the `renewalId` prop. */
  datatype HistoryFilters = HistoryFilters(
    renewalId: Option<string>,
    from: string,
    to: string,
    action: string,
    search: string)

  /** `new Date(log.timestamp).toISOString().split('T')[0]`; `None` when
      the timestamp does not parse and `toISOString` throws. */
  function LogDay(cal: Calendar, log: LogEntry): (r: Option<string>)
    ensures r.Some? <==> cal.parse(log.timestamp).Some?
  {
    match cal.parse(log.timestamp)
    case None => None
    case Some(m) => Some(cal.isoDay(m))
  }

  predicate MatchesRenewal(f: HistoryFilters, log: LogEntry)
  {
    f.renewalId.None? || f.renewalId.value == "" || log.renewalId == f.renewalId.value
  }

  predicate MatchesSearch(f: HistoryFilters, log: LogEntry)
  {
    f.search == "" || FieldMatches(log.serviceName, f.search) || FieldMatches(log.userEmail, f.search)
      || FieldMatches(log.notes, f.search)
  }

  /** The day of the log lies between `from` and `to`, compared as strings. */
  predicate MatchesDates(cal: Calendar, f: HistoryFilters, log: LogEntry)
  {
    var day := LogDay(cal, log);
    day.Some? && StrLe(f.from, day.value) && StrLe(day.value, f.to)
  }

  predicate MatchesAction(f: HistoryFilters, log: LogEntry)
  {
    f.action == "all" || log.action == f.action
  }

  /** All four conditions together. */
  function Matches(cal: Calendar, f: HistoryFilters): LogEntry -> bool
  {
    (log: LogEntry) => MatchesRenewal(f, log) && MatchesSearch(f, log) && MatchesDates(cal, f, log) && MatchesAction(f, log)
  }

  /** Every timestamp parses, so computing the day of each log does not throw. */
  predicate AllDated(cal: Calendar, logs: seq<LogEntry>)
  {
    forall i :: 0 <= i < |logs| ==> cal.parse(logs[i].timestamp).Some?
  }

  /** `filteredLogs`: `None` when the filter throws on a log whose
      timestamp does not parse (every log's day is computed, whatever the
      other conditions say). */
  function FilteredLogs(cal: Calendar, logs: seq<LogEntry>, f: HistoryFilters): (r: Option<seq<LogEntry>>)
    ensures r.Some? <==> AllDated(cal, logs)
    ensures r.Some? ==> IsSubseq(r.value, logs)
    ensures r.Some? ==> forall x :: x in r.value <==>
      (x in logs && MatchesRenewal(f, x) && MatchesSearch(f, x) && MatchesDates(cal, f, x) && MatchesAction(f, x))
    ensures r.Some? ==> forall x :: x in logs ==>
      multiset(r.value)[x] == if MatchesRenewal(f, x) && MatchesSearch(f, x) && MatchesDates(cal, f, x) && MatchesAction(f, x)
        then multiset(logs)[x] else 0
  {
    FilterMultiplicity(logs, Matches(cal, f));
    if AllDated(cal, logs) then Some(Filter(logs, Matches(cal, f))) else None
  }

  function ActionIs(action: string): LogEntry -> bool
  {
    (log: LogEntry) => log.action == action
  }

  /** Choosing an action in the menu narrows the `'all'` result to that
      action, keeping its order: the four conditions are independent. */
  lemma ActionNarrows(cal: Calendar, logs: seq<LogEntry>, f: HistoryFilters, action: string)
    requires AllDated(cal, logs) && f.action == "all" && action != "all"
    ensures FilteredLogs(cal, logs, f.(action := action)).value
      == Filter(FilteredLogs(cal, logs, f).value, ActionIs(action))
  {
    FilterFilter(logs, Matches(cal, f), ActionIs(action), Matches(cal, f.(action := action)));
  }

  /** `formatActionLabel(action)`: the first `_` becomes a space, then
      each space-separated word gets an upper-case first letter. */
  function FormatActionLabel(action: string): (r: string)
    ensures r == TitleCase(ReplaceFirst(action, '_', ' '))
  {
    var words := Split(ReplaceFirst(action, '_', ' '), ' ');
    SplitCapitalizeJoin(ReplaceFirst(action, '_', ' '));
    Join(CapitalizeAll(words), ' ')
  }

  lemma ReplaceStatusChanged()
    ensures ReplaceFirst("status_changed", '_', ' ') == "status changed"
  {
    StatusChangedPieces();
    ReplaceFirstSplit("status", "changed", '_', ' ');
  }

  lemma StatusChangedPieces()
    ensures "status_changed" == "status" + ['_'] + "changed"
    ensures '_' !in "status"
    ensures "status changed" == "status" + [' '] + "changed"
  {
    var a := "status" + ['_'] + "changed";
    assert forall i :: 0 <= i < 14 ==> a[i] == "status_changed"[i];
    var b := "status" + [' '] + "changed";
    assert forall i :: 0 <= i < 14 ==> b[i] == "status changed"[i];
  }

  lemma TitleStatusChanged()
    ensures TitleCase("status changed") == "Status Changed"
  {
    var t := "status changed";
    var u := TitleCase(t);
    assert u[0] == 'S' && u[7] == 'C';
    assert forall i :: 0 <= i < |t| && i != 0 && i != 7 ==> u[i] == t[i];
  }

  /** `status_changed` reads "Status Changed". */
  lemma StatusChangedLabel()
    ensures FormatActionLabel("status_changed") == "Status Changed"
  {
    ReplaceStatusChanged();
    TitleStatusChanged();
  }

  lemma ReplaceTwoUnderscores()
    ensures ReplaceFirst("a_b_c", '_', ' ') == "a b_c"
  {
    var a := "a" + ['_'] + "b_c";
    assert forall i :: 0 <= i < 5 ==> a[i] == "a_b_c"[i];
    ReplaceFirstSplit("a", "b_c", '_', ' ');
    var b := "a" + [' '] + "b_c";
    assert forall i :: 0 <= i < 5 ==> b[i] == "a b_c"[i];
  }

  lemma TitleTwoUnderscores()
    ensures TitleCase("a b_c") == "A B_c"
  {
    var t := "a b_c";
    var u := TitleCase(t);
    assert u[0] == 'A' && u[2] == 'B';
    assert forall i :: 0 <= i < |t| && i != 0 && i != 2 ==> u[i] == t[i];
  }

  /** Only the first underscore becomes a space: `a_b_c` reads "A B_c". */
  lemma SecondUnderscoreKept()
    ensures FormatActionLabel("a_b_c") == "A B_c"
  {
    ReplaceTwoUnderscores();
    TitleTwoUnderscores();
  }

  /** What `handleFetchLogs` sends: `action` is left out for `'all'`. */
  datatype FetchFilters = FetchFilters(renewalId: Option<string>, dateFrom: string, dateTo: string, action: Option<string>)

  /** `handleFetchLogs()`. */
  function HandleFetchLogs(f: HistoryFilters): (r: FetchFilters)
    ensures r.renewalId == f.renewalId && r.dateFrom == f.from && r.dateTo == f.to
    ensures r.action.None? <==> f.action == "all"
    ensures r.action.Some? ==> r.action.value == f.action
  {
    FetchFilters(f.renewalId, f.from, f.to, if f.action != "all" then Some(f.action) else None)
  }

  /** The logs a request asks for, read field by field: an absent action
      or an absent or empty renewal id asks for every value, and the day
      of the log lies between the two dates. The search term is not sent. */
  predicate RequestKeeps(cal: Calendar, q: FetchFilters, log: LogEntry)
  {
    && (q.action.None? || log.action == q.action.value)
    && (q.renewalId.None? || q.renewalId.value == "" || log.renewalId == q.renewalId.value)
    && (var day := LogDay(cal, log); day.Some? && StrLe(q.dateFrom, day.value) && StrLe(day.value, q.dateTo))
  }

  /** The request stands for the page's own filter, less the search: each
      sent field keeps exactly the logs the matching local check keeps. */
  lemma HistoryFetchAgreesWithFilter(cal: Calendar, f: HistoryFilters, log: LogEntry)
    ensures var q := HandleFetchLogs(f);
      MatchesAction(f, log) <==> q.action.None? || log.action == q.action.value
    ensures var q := HandleFetchLogs(f);
      MatchesRenewal(f, log) <==> q.renewalId.None? || q.renewalId.value == "" || log.renewalId == q.renewalId.value
    ensures RequestKeeps(cal, HandleFetchLogs(f), log)
      <==> MatchesRenewal(f, log) && MatchesDates(cal, f, log) && MatchesAction(f, log)
    ensures Matches(cal, f)(log) <==> RequestKeeps(cal, HandleFetchLogs(f), log) && MatchesSearch(f, log)
  {
  }
}
