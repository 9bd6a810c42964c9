/** The shared date helpers of `src/utils/dateUtils.ts`. Each is total: it
    answers with a sentinel (`false`, `"N/A"`, `""`, `0`) instead of throwing
    when the input is missing or does not parse. */
module DateUtils {
  import opened Options
  import opened JsValues
  import opened Calendars

  /** `new Date(v).getTime()` for any value; `None` when it is `NaN`.
      Strings go through the calendar's parser, numbers are truncated and
      clipped, `null` and booleans convert to 0 and 1. */
  function ToDate(cal: Calendar, v: JsVal): (r: Option<int>)
    ensures v.Str? ==> r == cal.parse(v.s)
    ensures v.Undefined? || v.NaN? ==> r.None?
  {
    match v
    case Str(s) => cal.parse(s)
    case Num(n) => if -MaxTime <= n <= MaxTime then Some(Trunc(n)) else None
    case Null => Some(0)
    case Bool(b) => Some(if b then 1 else 0)
    case _ => None
  }

  /** `isValidDate(v)`. */
  predicate IsValidDate(cal: Calendar, v: JsVal)
  {
    Truthy(v) && ToDate(cal, v).Some?
  }

  /** The values `isValidDate` accepts: a non-empty string that parses, a
      non-zero number within the range of dates, and `true`. */
  lemma ValidDateCases(cal: Calendar, v: JsVal)
    ensures IsValidDate(cal, v) <==>
      || (v.Str? && v.s != "" && cal.parse(v.s).Some?)
      || (v.Num? && v.n != 0.0 && -MaxTime <= v.n <= MaxTime)
      || v == Bool(true)
  {
  }

  /** `formatDate(v)`: `"N/A"` unless the value is a valid date. */
  function FormatDate(cal: Calendar, v: JsVal): (r: string)
    ensures !IsValidDate(cal, v) ==> r == "N/A"
    ensures IsValidDate(cal, v) ==> r == cal.format(ToDate(cal, v).value, "MMM d, yyyy")
  {
    if !Truthy(v) then "N/A"
    else match ToDate(cal, v)
      case None => "N/A"
      case Some(m) => cal.format(m, "MMM d, yyyy")
  }

  /** `formatDateForAPI(v)`: `""` unless the value is a valid date. */
  function FormatDateForAPI(cal: Calendar, v: JsVal): (r: string)
    ensures !IsValidDate(cal, v) ==> r == ""
    ensures IsValidDate(cal, v) ==> r == cal.format(ToDate(cal, v).value, ApiPattern)
  {
    if !Truthy(v) then ""
    else match ToDate(cal, v)
      case None => ""
      case Some(m) => cal.format(m, ApiPattern)
  }

  /** `getDaysRemaining(v)`: both moments are moved to midnight before the
      difference is rounded up to whole days, so the answer is the number
      of calendar days between today and the end date; 0 for a missing or
      unparseable end date. */
  function GetDaysRemaining(cal: Calendar, v: JsVal): (r: int)
    ensures !IsValidDate(cal, v) ==> r == 0
    ensures IsValidDate(cal, v) ==> r == DayIndex(ToDate(cal, v).value) - DayIndex(cal.now)
  {
    if !Truthy(v) then 0
    else match ToDate(cal, v)
      case None => 0
      case Some(e) =>
        var diff := Midnight(e) - Midnight(cal.now);
        assert diff == (DayIndex(e) - DayIndex(cal.now)) * DayMs;
        CeilDaysExact(DayIndex(e) - DayIndex(cal.now));
        CeilDays(diff)
  }

  /** An end date on today's calendar day is 0 days away, whatever the
      time of day; tomorrow is 1 and yesterday is -1. */
  lemma DaysRemainingNeighbours(cal: Calendar, v: JsVal)
    requires IsValidDate(cal, v)
    ensures DayIndex(ToDate(cal, v).value) == DayIndex(cal.now) ==> GetDaysRemaining(cal, v) == 0
    ensures ToDate(cal, v).value == cal.now + DayMs ==> GetDaysRemaining(cal, v) == 1
    ensures ToDate(cal, v).value == cal.now - DayMs ==> GetDaysRemaining(cal, v) == -1
  {
    var e := ToDate(cal, v).value;
    if e == cal.now + DayMs {
      assert DayIndex(e) == DayIndex(cal.now) + 1;
    }
    if e == cal.now - DayMs {
      assert DayIndex(e) == DayIndex(cal.now) - 1;
    }
  }

  /** The four helpers agree on which inputs are bad: exactly the invalid
      dates get the sentinel, because the formatter itself never prints
      one. */
  lemma SentinelsAgree(cal: Calendar, v: JsVal)
    requires NoSentinelOutput(cal)
    ensures FormatDate(cal, v) == "N/A" <==> !IsValidDate(cal, v)
    ensures FormatDateForAPI(cal, v) == "" <==> !IsValidDate(cal, v)
  {
    if IsValidDate(cal, v) {
      var m := ToDate(cal, v).value;
      assert cal.format(m, "MMM d, yyyy") !in {"", "N/A", "Invalid date", "Unknown date"};
      assert cal.format(m, ApiPattern) !in {"", "N/A", "Invalid date", "Unknown date"};
    }
  }

  /** Formatting for the API is idempotent: an API date is already in the
      shape the API expects, and an empty string stays empty. */
  lemma FormatDateForAPIIdempotent(cal: Calendar, v: JsVal)
    requires DayLaws(cal) && NoSentinelOutput(cal)
    ensures FormatDateForAPI(cal, Str(FormatDateForAPI(cal, v))) == FormatDateForAPI(cal, v)
  {
    if IsValidDate(cal, v) {
      var m := ToDate(cal, v).value;
      var s := cal.format(m, ApiPattern);
      assert s !in {"", "N/A", "Invalid date", "Unknown date"};
      assert cal.parse(s) == Some(Midnight(m));
      assert cal.format(Midnight(m), ApiPattern) == s;
    }
  }

  /** An API-formatted date goes through `formatDateForAPI` unchanged. */
  lemma ApiDateFixed(cal: Calendar, m: int)
    requires DayLaws(cal) && NoSentinelOutput(cal)
    ensures FormatDateForAPI(cal, Str(cal.format(m, ApiPattern))) == cal.format(m, ApiPattern)
  {
    assert cal.format(m, ApiPattern) !in {"", "N/A", "Invalid date", "Unknown date"};
    assert cal.parse(cal.format(m, ApiPattern)) == Some(Midnight(m));
    assert cal.format(Midnight(m), ApiPattern) == cal.format(m, ApiPattern);
  }
}
