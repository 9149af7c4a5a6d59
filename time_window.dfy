/**
  Time arithmetic of the pipeline. Instants are whole seconds since the Unix
  epoch in UTC; the local zone is Asia/Novosibirsk, which has been UTC+7 all
  year round since 2016, so local time is UTC shifted by a constant.
*/
module TimeWindow {

  const LOCAL_OFFSET: int := 7 * 3600
  const DAY: int := 86400
  const HOUR: int := 3600

  type Hour = h: int | 0 <= h < 24
  type Minute = m: int | 0 <= m < 60
  type Second = s: int | 0 <= s < 60

  /** A `datetime.time` value as stored for a chat (`analysis_time`, `send_time`). */
  datatype TimeOfDay = TimeOfDay(hour: Hour, minute: Minute, second: Second)

  /** A half-open interval of UTC instants, `[start, end)`. */
  datatype Window = Window(start: int, end: int)

  predicate Contains(w: Window, t: int)
  {
    w.start <= t < w.end
  }

  function SecondsOfDay(t: TimeOfDay): (s: int)
    ensures 0 <= s < DAY
    ensures s / HOUR == t.hour
  {
    t.hour * HOUR + t.minute * 60 + t.second
  }

  function ToLocal(utc: int): int
  {
    utc + LOCAL_OFFSET
  }

  function ToUtc(local: int): int
  {
    local - LOCAL_OFFSET
  }

  /** The local calendar day of an instant, counted in days since the epoch. */
  function LocalDate(utc: int): int
  {
    ToLocal(utc) / DAY
  }

  /** The local wall-clock time of an instant, in seconds after local midnight. */
  function LocalClock(utc: int): (s: int)
    ensures 0 <= s < DAY
  {
    ToLocal(utc) % DAY
  }

  /** `datetime.now(novosibirsk_tz).hour`. */
  function CurrentHour(utc: int): (h: Hour)
    ensures h * HOUR <= LocalClock(utc) < (h + 1) * HOUR
  {
    LocalClock(utc) / HOUR
  }

  /**
    The analysis window of `analyze`: local now with its time of day replaced
    by `at` (microsecond 0) is the end, one day earlier is the start, and both
    are converted to UTC.
  */
  function AnalysisWindow(nowUtc: int, at: TimeOfDay): (w: Window)
    ensures w.end - w.start == DAY
    ensures ToLocal(w.end) - ToLocal(w.start) == DAY
    ensures LocalDate(w.end) == LocalDate(nowUtc) && LocalClock(w.end) == SecondsOfDay(at)
    ensures LocalDate(w.start) == LocalDate(nowUtc) - 1 && LocalClock(w.start) == SecondsOfDay(at)
  {
    var local := ToLocal(nowUtc);
    var endLocal := local - local % DAY + SecondsOfDay(at);
    Window(ToUtc(endLocal - DAY), ToUtc(endLocal))
  }

  /** An instant is determined by its local date and its local clock. */
  lemma LocalSplit(t: int)
    ensures ToLocal(t) == LocalDate(t) * DAY + LocalClock(t)
  {
  }

  /**
    The end of the analysis window is the one instant on the local date of
    `nowUtc` whose local clock reads `at`.
  */
  lemma AnalysisEndUnique(nowUtc: int, at: TimeOfDay, t: int)
    ensures (LocalDate(t) == LocalDate(nowUtc) && LocalClock(t) == SecondsOfDay(at))
            <==> t == AnalysisWindow(nowUtc, at).end
  {
    var e := AnalysisWindow(nowUtc, at).end;
    LocalSplit(t);
    LocalSplit(e);
  }

  /**
    The lookup window of `get_today_analysis`: local now minus one day up to
    local now, both converted to UTC.
  */
  function LookupWindow(nowUtc: int): (w: Window)
    ensures w == Window(nowUtc - DAY, nowUtc)
  {
    Window(ToUtc(ToLocal(nowUtc) - DAY), ToUtc(ToLocal(nowUtc)))
  }
}
