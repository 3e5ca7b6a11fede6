/** The participation schedule, the UTC clock that feeds it, and how long a window really stays open. */
module Schedule {
  import opened Prelude

  datatype Schedule = Always | Nights | Weekends

  datatype Weekday = Mon | Tue | Wed | Thu | Fri | Sat | Sun

  const NIGHT_START_HOUR := 22
  const NIGHT_END_HOUR := 5

  /** `Schedule::in_window` */
  predicate InWindow(s: Schedule, hour: nat, day: Weekday) {
    hour <= 23 &&
    match s
    case Always => true
    case Nights => hour >= NIGHT_START_HOUR || hour <= NIGHT_END_HOUR
    case Weekends => day == Sat || day == Sun
  }

  /** `Schedule::secs_until_window_close` */
  function SecsUntilWindowClose(s: Schedule, hour: nat, minute: nat, day: Weekday): u64 {
    if !InWindow(s, hour, day) || minute > 59 then 0
    else
      var sinceMidnight := hour * 60 + minute;
      match s
      case Always => U64_MAX
      case Nights =>
        var close := (NIGHT_END_HOUR + 1) * 60;
        60 * (if hour >= NIGHT_START_HOUR then (24 * 60 - sinceMidnight) + close else close - sinceMidnight)
      case Weekends =>
        60 * ((if day == Sat then 1 else 0) * 24 * 60 + (24 * 60 - sinceMidnight))
  }

  // ---- the clock ----

  /** 1970-01-01 was a Thursday. */
  function DayOf(n: nat): Weekday {
    var d := n % 7;
    if d == 0 then Thu else if d == 1 then Fri else if d == 2 then Sat else if d == 3 then Sun
    else if d == 4 then Mon else if d == 5 then Tue else Wed
  }

  /** `utc_hour_min_weekday` */
  function UtcHourMinWeekday(unix: nat): (t: (nat, nat, Weekday))
    ensures t.0 <= 23 && t.1 <= 59
  {
    var s := unix % 86_400;
    (s / 3600, s % 3600 / 60, DayOf(unix / 86_400))
  }

  /** The window is open at this second. */
  predicate OpenAt(s: Schedule, unix: nat) {
    var (hour, _, day) := UtcHourMinWeekday(unix);
    InWindow(s, hour, day)
  }

  /** What the bidder is told at this second. */
  function ReportedAt(s: Schedule, unix: nat): u64 {
    var (hour, minute, day) := UtcHourMinWeekday(unix);
    SecsUntilWindowClose(s, hour, minute, day)
  }

  // ---- the report against a scan of the clock ----

  /** A second as day number and second of the day. */
  lemma SplitDay(unix: nat, day: nat, sec: nat)
    requires unix == 86_400 * day + sec && sec < 86_400
    ensures unix / 86_400 == day && unix % 86_400 == sec
  {
  }

  lemma OpenNights(unix: nat, day: nat, sec: nat)
    requires unix == 86_400 * day + sec && sec < 86_400
    ensures OpenAt(Nights, unix) <==> sec < 21_600 || sec >= 79_200
  {
    SplitDay(unix, day, sec);
  }

  lemma OpenWeekends(unix: nat, day: nat, sec: nat)
    requires unix == 86_400 * day + sec && sec < 86_400
    ensures OpenAt(Weekends, unix) <==> day % 7 == 2 || day % 7 == 3
  {
    SplitDay(unix, day, sec);
  }

  /** A report counts from the start of the current minute. */
  lemma ReportNights(unix: nat, day: nat, sec: nat)
    requires unix == 86_400 * day + sec && sec < 86_400 && OpenAt(Nights, unix)
    ensures ReportedAt(Nights, unix) == if sec < 21_600 then 21_600 - (sec - sec % 60) else 108_000 - (sec - sec % 60)
  {
    SplitDay(unix, day, sec);
    WholeMinutes(sec);
  }

  lemma ReportWeekends(unix: nat, day: nat, sec: nat)
    requires unix == 86_400 * day + sec && sec < 86_400 && OpenAt(Weekends, unix)
    ensures ReportedAt(Weekends, unix) == (if day % 7 == 2 then 172_800 else 86_400) - (sec - sec % 60)
  {
    SplitDay(unix, day, sec);
    WholeMinutes(sec);
  }

  lemma WholeMinutes(sec: nat)
    ensures 60 * (sec / 3600 * 60 + sec % 3600 / 60) == sec - sec % 60
  {
  }

  /** Seconds from `unix` at which the window is still open, counted one by one: the scan stops at the
      first closed second. */
  ghost predicate OpenFor(s: Schedule, unix: nat, n: nat) {
    && (forall t :: unix <= t < unix + n ==> OpenAt(s, t))
    && !OpenAt(s, unix + n)
  }

  lemma NightsScan(unix: nat)
    requires OpenAt(Nights, unix)
    ensures ReportedAt(Nights, unix) > unix % 60
    ensures OpenFor(Nights, unix, ReportedAt(Nights, unix) - unix % 60)
  {
    var day, sec := unix / 86_400, unix % 86_400;
    OpenNights(unix, day, sec);
    ReportNights(unix, day, sec);
    assert sec % 60 == unix % 60;
    var n := ReportedAt(Nights, unix) - unix % 60;
    forall t | unix <= t < unix + n
      ensures OpenAt(Nights, t)
    {
      if t < 86_400 * (day + 1) {
        OpenNights(t, day, t - 86_400 * day);
      } else {
        OpenNights(t, day + 1, t - 86_400 * (day + 1));
      }
    }
    var close := if sec < 21_600 then day else day + 1;
    OpenNights(unix + n, close, 21_600);
  }

  lemma WeekendsScan(unix: nat)
    requires OpenAt(Weekends, unix)
    ensures ReportedAt(Weekends, unix) > unix % 60
    ensures OpenFor(Weekends, unix, ReportedAt(Weekends, unix) - unix % 60)
  {
    var day, sec := unix / 86_400, unix % 86_400;
    OpenWeekends(unix, day, sec);
    ReportWeekends(unix, day, sec);
    assert sec % 60 == unix % 60;
    var n := ReportedAt(Weekends, unix) - unix % 60;
    forall t | unix <= t < unix + n
      ensures OpenAt(Weekends, t)
    {
      if t < 86_400 * (day + 1) {
        OpenWeekends(t, day, t - 86_400 * day);
      } else {
        assert (day + 1) % 7 == 3;
        OpenWeekends(t, day + 1, t - 86_400 * (day + 1));
      }
    }
    var monday := if day % 7 == 2 then day + 2 else day + 1;
    assert monday % 7 == 4;
    OpenWeekends(unix + n, monday, 0);
  }

  /** For every second at which a night or weekend window is open, the closed-form report is the length
      a second-by-second scan finds, plus the seconds of the current minute already gone. */
  lemma ReportMatchesScan(s: Schedule, unix: nat)
    requires s != Always && OpenAt(s, unix)
    ensures ReportedAt(s, unix) > unix % 60
    ensures OpenFor(s, unix, ReportedAt(s, unix) - unix % 60)
  {
    if s == Nights { NightsScan(unix); } else { WeekendsScan(unix); }
  }

  /** A closed window has no time left, and the schedule without windows has all the time there is. */
  lemma ReportAtTheExtremes(s: Schedule, unix: nat)
    ensures !OpenAt(s, unix) ==> ReportedAt(s, unix) == 0
    ensures OpenAt(Always, unix) && ReportedAt(Always, unix) == 0xffff_ffff_ffff_ffff
  {
  }

  /** A scan has one answer. */
  lemma ScanUnique(s: Schedule, unix: nat, m: nat, n: nat)
    requires OpenFor(s, unix, m) && OpenFor(s, unix, n)
    ensures m == n
  {
  }

  /** The report is never low; it is the true remaining time exactly at a whole minute, and otherwise
      promises up to 59 seconds too many. */
  lemma ReportOptimisticUnlessWholeMinute(s: Schedule, unix: nat, remaining: nat)
    requires s != Always && OpenAt(s, unix) && OpenFor(s, unix, remaining)
    ensures ReportedAt(s, unix) == remaining + unix % 60
    ensures ReportedAt(s, unix) == remaining <==> unix % 60 == 0
  {
    ReportMatchesScan(s, unix);
    ScanUnique(s, unix, remaining, ReportedAt(s, unix) - unix % 60);
  }

  /** At 05:59:59 one second is left and a full minute is reported. */
  lemma ReportOvershoots()
    ensures OpenFor(Nights, 21_599, 1) && ReportedAt(Nights, 21_599) == 60
  {
    ReportMatchesScan(Nights, 21_599);
  }
}
