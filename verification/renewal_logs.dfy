/** The query logic of `src/components/dashboard/RenewalLogs.tsx`: the
    search over a renewal's logs and the timestamp text. Its action label
    is the same code as the history view's and is modelled once, as
    `RenewalHistory.FormatActionLabel`. */
module RenewalLogs {
  import opened Options
  import opened Seqs
  import opened Strings
  import opened Calendars
  import opened RenewalHistory

  /** The term occurs in the author, the action, the notes or the email. */
  function MatchesAny(term: string): LogEntry -> bool
  {
    (log: LogEntry) => FieldMatches(Some(log.performedBy), term) || FieldMatches(Some(log.action), term)
      || FieldMatches(log.notes, term) || FieldMatches(log.userEmail, term)
  }

  /** `filteredLogs`: every log for an empty search, otherwise the logs one
      of whose four fields contains the term, ignoring case. */
  function FilteredLogs(logs: seq<LogEntry>, term: string): (r: seq<LogEntry>)
    ensures term == "" ==> r == logs
    ensures IsSubseq(r, logs)
    ensures term != "" ==> forall x :: x in r <==> x in logs && MatchesAny(term)(x)
    ensures term != "" ==> forall x :: x in logs ==> multiset(r)[x] == if MatchesAny(term)(x) then multiset(logs)[x] else 0
  {
    if term == "" then
      SubseqRefl(logs);
      logs
    else
      FilterMultiplicity(logs, MatchesAny(term));
      Filter(logs, MatchesAny(term))
  }

  /** A field that matches a longer term matches the shorter one. */
  lemma FieldMatchesPrefix(field: Option<string>, t: string, u: string)
    ensures FieldMatches(field, t + u) ==> FieldMatches(field, t)
  {
    if field.Some? {
      LowerConcat(t, u);
      ContainsPrefix(LowerStr(field.value), LowerStr(t), LowerStr(u));
    }
  }

  /** Typing more characters only narrows the list: the logs for `t + u`
      are those for `t` that also match `t + u`, in the same order. */
  lemma TypingNarrows(logs: seq<LogEntry>, t: string, u: string)
    requires u != ""
    ensures FilteredLogs(logs, t + u) == Filter(FilteredLogs(logs, t), MatchesAny(t + u))
  {
    if t != "" {
      forall x: LogEntry
        ensures MatchesAny(t + u)(x) == (MatchesAny(t)(x) && MatchesAny(t + u)(x))
      {
        FieldMatchesPrefix(Some(x.performedBy), t, u);
        FieldMatchesPrefix(Some(x.action), t, u);
        FieldMatchesPrefix(x.notes, t, u);
        FieldMatchesPrefix(x.userEmail, t, u);
      }
      FilterFilter(logs, MatchesAny(t), MatchesAny(t + u), MatchesAny(t + u));
    } else {
      assert t + u == u;
    }
  }

  /** The pattern of the log timestamps. */
  const TimestampPattern: string := "MMMM d, yyyy - h:mm a"

  /** `formatTimestamp(timestamp)`; `parseIso` is date-fns `parseISO`,
      `None` where `isValid` fails. */
  function FormatTimestamp(cal: Calendar, parseIso: string -> Option<int>, timestamp: Option<string>): (r: string)
    ensures timestamp.None? || timestamp.value == "" ==> r == "Unknown date"
    ensures timestamp.Some? && timestamp.value != "" && parseIso(timestamp.value).None? ==> r == "Invalid date"
    ensures timestamp.Some? && timestamp.value != "" && parseIso(timestamp.value).Some? ==>
      r == cal.format(parseIso(timestamp.value).value, TimestampPattern)
  {
    if timestamp.None? || timestamp.value == "" then "Unknown date"
    else match parseIso(timestamp.value)
      case None => "Invalid date"
      case Some(m) => cal.format(m, TimestampPattern)
  }

  /** The two placeholder texts mean exactly what they say, because the
      formatter never prints either of them. */
  lemma TimestampPlaceholders(cal: Calendar, parseIso: string -> Option<int>, timestamp: Option<string>)
    requires NoSentinelOutput(cal)
    ensures FormatTimestamp(cal, parseIso, timestamp) == "Unknown date" <==>
      timestamp.None? || timestamp.value == ""
    ensures FormatTimestamp(cal, parseIso, timestamp) == "Invalid date" <==>
      timestamp.Some? && timestamp.value != "" && parseIso(timestamp.value).None?
  {
    if timestamp.Some? && timestamp.value != "" && parseIso(timestamp.value).Some? {
      var m := parseIso(timestamp.value).value;
      assert cal.format(m, TimestampPattern) !in {"", "N/A", "Invalid date", "Unknown date"};
    }
  }
}
