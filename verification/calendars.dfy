/** Moments in time and the pieces of JavaScript's `Date` and of date-fns
    that the dashboard calls. A moment is a whole number of milliseconds
    since the epoch; the parts of the runtime the model cannot see (the
    string parser, the clock, `format`, `toISOString`) are fields of a
    `Calendar` value that every date-dependent operation takes as an
    argument. */
module Calendars {
  import opened Options

  /** `1000 * 60 * 60 * 24`. */
  const DayMs: int := 86400000

  /** The largest magnitude `new Date(number)` accepts (the time-clip bound). */
  const MaxTime: real := 8640000000000000.0

  /** The date pattern the API expects. */
  const ApiPattern: string := "yyyy-MM-dd"

  datatype Calendar = Calendar(
    /** `new Date(s).getTime()`; `None` when it is `NaN`. */
    parse: string -> Option<int>,
    /** `new Date().getTime()`. */
    now: int,
    /** date-fns `format(date, pattern)`. */
    format: (int, string) -> string,
    /** `date.toISOString().split('T')[0]`. */
    isoDay: int -> string)

  /** The start of the day containing `m`: `d.setHours(0, 0, 0, 0)`. */
  function Midnight(m: int): (r: int)
    ensures r <= m < r + DayMs
    ensures r % DayMs == 0
  {
    (m / DayMs) * DayMs
  }

  /** Which day, counted from the epoch, contains `m`. */
  function DayIndex(m: int): int
  {
    m / DayMs
  }

  /** `Math.ceil(x / DayMs)`. */
  function CeilDays(x: int): (r: int)
    ensures (r - 1) * DayMs < x <= r * DayMs
  {
    -((-x) / DayMs)
  }

  /** Whole-day differences divide exactly. */
  lemma CeilDaysExact(k: int)
    ensures CeilDays(k * DayMs) == k
  {
    var r := CeilDays(k * DayMs);
    assert (r - 1) * DayMs < k * DayMs <= r * DayMs;
  }

  /** Truncation toward zero, as `new Date(number)` applies it. */
  function Trunc(n: real): (r: int)
    ensures n >= 0.0 ==> r as real <= n < r as real + 1.0
    ensures n < 0.0 ==> r as real - 1.0 < n <= r as real
  {
    if n >= 0.0 then n.Floor else -((-n).Floor)
  }

  /** The laws of the date library that the model leans on: a date printed
      with the API pattern reads back as the midnight of that day, printing
      only sees the day, and the ISO day behaves the same way. */
  ghost predicate DayLaws(cal: Calendar)
  {
    && (forall m :: cal.parse(cal.format(m, ApiPattern)) == Some(Midnight(m)))
    && (forall m :: cal.format(Midnight(m), ApiPattern) == cal.format(m, ApiPattern))
    && (forall m :: cal.parse(cal.isoDay(m)) == Some(Midnight(m)))
    && (forall m :: cal.isoDay(Midnight(m)) == cal.isoDay(m))
  }

  /** date-fns never prints an empty string, nor any of the words the
      dashboard uses as placeholders. */
  ghost predicate NoSentinelOutput(cal: Calendar)
  {
    forall m, p :: cal.format(m, p) !in {"", "N/A", "Invalid date", "Unknown date"}
  }
}
