/**
 * The weekly session planner: the next date of each available weekday, the
 * number of sessions a frequency asks for, and four weeks of sessions that
 * take the available dates in order and the techniques in turn.
 *
 * A date is a day number; day 0 is a Monday, so `date % 7` is Python's
 * `date.weekday()` (Monday = 0 ... Sunday = 6).
 */
module CalendarPlanner {
  import opened Wrappers
  import opened Dicts
  import opened Text
  import opened Sorting
  import opened TechniqueDatabase
  import opened Models
  import opened PlanService

  /** `calendar.day_name`. */
  const DayNames: seq<string> := ["Monday", "Tuesday", "Wednesday", "Thursday", "Friday", "Saturday", "Sunday"]

  function Weekday(date: int): (w: nat)
    ensures w < 7
  {
    date % 7
  }

  /** `strftime("%A")`. */
  function DayName(date: int): string {
    DayNames[Weekday(date)]
  }

  function Min(a: int, b: int): int {
    if a <= b then a else b
  }

  /** `list.index`: the first position of `x`, or `None` where Python raises `ValueError`. */
  function IndexOf<T(==)>(s: seq<T>, x: T): (r: Option<nat>)
    ensures r.None? <==> x !in s
    ensures r.Some? ==> r.value < |s| && s[r.value] == x && x !in s[..r.value]
  {
    if s == [] then None
    else if s[0] == x then Some(0)
    else
      var r := IndexOf(s[1..], x);
      assert s == [s[0]] + s[1..];
      if r.None? then None
      else
        assert s[..r.value + 1] == [s[0]] + s[1..][..r.value];
        Some(r.value + 1)
  }

  /** The first day of `availability` that is not a day name, if any. */
  function FirstUnknownDay(availability: seq<string>): (day: Option<string>)
    ensures day.None? <==> forall d :: d in availability ==> d in DayNames
  {
    if availability == [] then None
    else
      var n := |availability| - 1;
      var before := FirstUnknownDay(availability[..n]);
      assert availability == availability[..n] + [availability[n]];
      if before.Some? then before
      else if availability[n] !in DayNames then Some(availability[n])
      else None
  }

  /** The first date strictly after `start` that falls on weekday `dayNum`. */
  function NextOccurrence(start: int, dayNum: nat): (date: int)
    requires dayNum < 7
    ensures start < date <= start + 7
    ensures Weekday(date) == dayNum
  {
    var daysAhead := dayNum - Weekday(start);
    start + (if daysAhead <= 0 then daysAhead + 7 else daysAhead)
  }

  /** The next date of each available day, in the order the days are listed. */
  function BaseDates(availability: seq<string>, start: int): (dates: seq<int>)
    requires forall d :: d in availability ==> d in DayNames
    ensures |dates| == |availability|
  {
    if availability == [] then []
    else
      var n := |availability| - 1;
      var dayNum := IndexOf(DayNames, availability[n]).value;
      BaseDates(availability[..n], start) + [NextOccurrence(start, dayNum)]
  }

  lemma BaseDatesStep(availability: seq<string>, k: nat, start: int)
    requires k < |availability| && availability[k] in DayNames
    requires forall d :: d in availability[..k] ==> d in DayNames
    ensures forall d :: d in availability[..k + 1] ==> d in DayNames
    ensures BaseDates(availability[..k + 1], start) ==
      BaseDates(availability[..k], start) + [NextOccurrence(start, IndexOf(DayNames, availability[k]).value)]
  {
    assert availability[..k + 1] == availability[..k] + [availability[k]];
    assert availability[..k + 1][..k] == availability[..k];
  }

  /** Each base date lies in the week after the start and falls on its day. */
  lemma {:induction false} BaseDatesInWeek(availability: seq<string>, start: int)
    requires forall d :: d in availability ==> d in DayNames
    ensures var dates := BaseDates(availability, start);
      forall i :: 0 <= i < |dates| ==> start < dates[i] <= start + 7 && DayName(dates[i]) == availability[i]
  {
    if availability != [] {
      var n := |availability| - 1;
      BaseDatesInWeek(availability[..n], start);
      var dates, before := BaseDates(availability, start), BaseDates(availability[..n], start);
      var dayNum := IndexOf(DayNames, availability[n]).value;
      assert dates == before + [NextOccurrence(start, dayNum)];
      forall i | 0 <= i < |dates|
        ensures start < dates[i] <= start + 7 && DayName(dates[i]) == availability[i]
      {
        if i < n {
          assert dates[i] == before[i] && availability[..n][i] == availability[i];
        } else {
          assert DayName(dates[i]) == DayNames[dayNum];
        }
      }
    }
  }

  predicate IntLe(x: int, y: int) {
    x <= y
  }

  /** Frequency name to sessions per week. */
  const FrequencyRates: Dict<string, real> := Dict(
    ["bi-weekly", "weekly", "twice-weekly", "intensive outpatient", "intensive support", "immediate intervention"],
    map["bi-weekly" := 0.5, "weekly" := 1.0, "twice-weekly" := 2.0, "intensive outpatient" := 3.0,
        "intensive support" := 3.0, "immediate intervention" := 5.0])

  /** The rates of the table, and the default. */
  predicate TableRate(rate: real) {
    rate == 0.5 || rate == 1.0 || rate == 2.0 || rate == 3.0 || rate == 5.0
  }

  /** The sessions per week of a frequency named in any letter case; an unknown name means one a week. */
  function SessionsPerWeek(sessionFrequency: string): (rate: real)
    ensures TableRate(rate)
    ensures Lower(sessionFrequency) !in FrequencyRates.keys ==> rate == 1.0
    ensures Lower(sessionFrequency) == "bi-weekly" <==> rate == 0.5
  {
    FrequencyRates.Get(Lower(sessionFrequency), 1.0)
  }

  /** Two sessions a month below one a week, else four weeks' worth. */
  function SessionsNeeded(rate: real): int {
    if rate < 1.0 then 2 else (rate * 4.0).Floor
  }

  /** `int(sessions_per_week)`, the most sessions a week may hold. */
  function WeeklyQuota(rate: real): int {
    rate.Floor
  }

  /** For every rate of the table, the quota is `int(rate)`, and four weeks at the quota give what is needed, except below one a week. */
  lemma RateFacts(rate: real)
    requires TableRate(rate)
    ensures && (rate < 1.0 ==> WeeklyQuota(rate) == 0 && SessionsNeeded(rate) == 2)
      && (rate >= 1.0 ==> WeeklyQuota(rate) >= 1 && SessionsNeeded(rate) == 4 * WeeklyQuota(rate))
  {
  }

  const SessionDuration := "50 minutes"

  /** One session of the schedule. */
  datatype Session = Session(
    date: int,
    day: string,
    activity: string,
    sessionType: string,
    duration: string,
    techniqueDetails: Technique)

  datatype ScheduleResult = Scheduled(sessions: seq<Session>) | UnknownDay(day: string)

  /**
   * Session `i` of a schedule that holds `m` sessions a week: week `i / m`,
   * the `(i % m)`-th earliest available date of that week, and the techniques
   * taken in turn.
   */
  function SessionAt(days: seq<int>, m: nat, techniques: seq<string>, therapyType: string, info: string -> Technique, i: nat): Session
    requires 0 < m <= |days| && techniques != []
  {
    SessionOn(days[i % m] + 7 * (i / m), techniques[i % |techniques|], therapyType, info)
  }

  /**
   * The session record for a date and a technique. `info` is the technique
   * lookup; the planner passes `GetTechniqueInfo`, and the facts about dates
   * and order hold for any lookup.
   */
  function SessionOn(date: int, technique: string, therapyType: string, info: string -> Technique): Session {
    Session(date, DayName(date), technique, therapyType, SessionDuration, info(technique))
  }

  /** The dates `ds`, each moved `week` weeks later. */
  function Shift(ds: seq<int>, week: int): (r: seq<int>)
    ensures |r| == |ds|
  {
    seq(|ds|, j requires 0 <= j < |ds| => ds[j] + 7 * week)
  }

  /** The first `count` sessions. */
  function Sessions(days: seq<int>, m: nat, techniques: seq<string>, therapyType: string, info: string -> Technique, count: nat): (s: seq<Session>)
    requires m <= |days| && techniques != [] && (count > 0 ==> m > 0)
    ensures |s| == count
    ensures forall i :: 0 <= i < count ==> s[i] == SessionAt(days, m, techniques, therapyType, info, i)
  {
    seq(count, i requires 0 <= i < count => SessionAt(days, m, techniques, therapyType, info, i))
  }

  /** The sessions a week holds: the quota, bounded by the available days. */
  function WeeklySessions(rate: real, availableDays: nat): (m: nat)
    requires TableRate(rate)
    ensures m <= availableDays && m <= WeeklyQuota(rate)
    ensures m == availableDays || m == WeeklyQuota(rate)
  {
    var q := WeeklyQuota(rate);
    assert q >= 0;
    Min(q, availableDays)
  }

  /** Four weeks of `m` sessions each, `m` being what a week holds at `rate` with these dates. */
  function FourWeeks(days: seq<int>, techniques: seq<string>, therapyType: string, info: string -> Technique, rate: real): seq<Session>
    requires techniques != [] && TableRate(rate)
  {
    var m := WeeklySessions(rate, |days|);
    Sessions(days, m, techniques, therapyType, info, 4 * m)
  }

  /**
   * The schedule in closed form: nothing without days or techniques, the
   * first unknown day name as an error, else four weeks of `m` sessions.
   */
  function ExpectedSchedule(availability: seq<string>, therapyType: string, sessionFrequency: string,
                            techniques: seq<string>, startDate: int): ScheduleResult
  {
    if availability == [] || techniques == [] then Scheduled([])
    else
      match FirstUnknownDay(availability)
      case Some(day) => UnknownDay(day)
      case None =>
        Scheduled(FourWeeks(Sort(BaseDates(availability, startDate), IntLe), techniques, therapyType, GetTechniqueInfo,
          SessionsPerWeek(sessionFrequency)))
  }

  // ---------------------------------------------------------------- the planner

  lemma MulAtLeast(k: int, m: int)
    requires k >= 1 && m > 0
    ensures k * m >= m
  {
    assert k * m == (k - 1) * m + m;
  }

  /** Euclidean division has one quotient and one remainder. */
  lemma DivModUnique(a: int, m: int, q: int, r: int)
    requires m > 0 && 0 <= r < m && a == q * m + r
    ensures a / m == q && a % m == r
  {
    var q', r' := a / m, a % m;
    assert a == q' * m + r';
    assert (q - q') * m == r' - r;
    if q - q' >= 1 {
      MulAtLeast(q - q', m);
    } else if q' - q >= 1 {
      MulAtLeast(q' - q, m);
    }
  }

  lemma DivMod(q: nat, m: nat, s: nat)
    requires s < m
    ensures (q * m + s) / m == q && (q * m + s) % m == s
  {
    DivModUnique(q * m + s, m, q, s);
  }

  lemma ModNext(c: nat, n: nat)
    requires n > 0
    ensures c % n + 1 < n ==> (c + 1) % n == c % n + 1
    ensures c % n + 1 == n ==> (c + 1) % n == 0
  {
    var q := c / n;
    assert c == q * n + c % n;
    if c % n + 1 < n {
      DivModUnique(c + 1, n, q, c % n + 1);
    } else {
      assert c + 1 == (q + 1) * n;
      DivModUnique(c + 1, n, q + 1, 0);
    }
  }

  /** With `m` sessions a week out of a quota of `f`, what is still needed never falls below the quota before the fourth week ends. */
  lemma QuotaFits(week: nat, m: nat, f: int)
    requires 1 <= m <= f
    ensures week <= 3 ==> 4 * f - WeeksOf(week, m) >= f
    ensures week <= 3 ==> WeeksOf(week, m) < 4 * f
  {
    WeeksOfProduct(week, m);
    if week <= 3 {
      assert week * m <= 3 * m;
    }
  }

  /** The sessions of `week` weeks of `m` sessions each. */
  function WeeksOf(week: nat, m: nat): nat {
    if week == 0 then 0 else WeeksOf(week - 1, m) + m
  }

  lemma {:induction false} WeeksOfProduct(week: nat, m: nat)
    ensures WeeksOf(week, m) == week * m
  {
    if week > 0 {
      WeeksOfProduct(week - 1, m);
      assert week * m == (week - 1) * m + m;
    }
  }

  /** The day reported is one of `availability`, is not a day name, and every day before it is. */
  lemma {:induction false} FirstUnknownDayIsFirst(availability: seq<string>)
    requires FirstUnknownDay(availability).Some?
    ensures var day := FirstUnknownDay(availability).value;
      exists i :: 0 <= i < |availability| && availability[i] == day && day !in DayNames
        && forall d :: d in availability[..i] ==> d in DayNames
  {
    var n := |availability| - 1;
    var day := FirstUnknownDay(availability).value;
    if FirstUnknownDay(availability[..n]).Some? {
      FirstUnknownDayIsFirst(availability[..n]);
      var i :| 0 <= i < n && availability[..n][i] == day && day !in DayNames
        && forall d :: d in availability[..n][..i] ==> d in DayNames;
      assert availability[..n][..i] == availability[..i];
    }
  }

  /** The first day name that is not a weekday is the one reported. */
  lemma {:induction false} UnknownDayIsFirst(availability: seq<string>, k: nat)
    requires k < |availability| && availability[k] !in DayNames
    requires forall d :: d in availability[..k] ==> d in DayNames
    ensures FirstUnknownDay(availability) == Some(availability[k])
  {
    var n := |availability| - 1;
    if k < n {
      assert availability[..n][..k] == availability[..k];
      UnknownDayIsFirst(availability[..n], k);
    } else {
      assert availability[..n] == availability[..k];
    }
  }

  /** The technique queue holds the techniques from position `count % |techniques|` on, or is empty at a multiple of `|techniques|`. */
  predicate CycleAt(cycle: seq<string>, techniques: seq<string>, count: nat)
    requires techniques != []
  {
    && (cycle == [] ==> count % |techniques| == 0)
    && (cycle != [] ==> cycle == techniques[count % |techniques|..])
  }

  /** Session `week * m + s` falls on the `s`-th date shifted by `week` weeks. */
  lemma SessionStep(days: seq<int>, m: nat, techniques: seq<string>, therapyType: string, info: string -> Technique, week: nat, s: nat, count: nat)
    requires s < m <= |days| && techniques != [] && count == WeeksOf(week, m) + s
    ensures SessionAt(days, m, techniques, therapyType, info, count) ==
      SessionOn(days[s] + 7 * week, techniques[count % |techniques|], therapyType, info)
  {
    WeeksOfProduct(week, m);
    DivMod(week, m, s);
  }

  lemma SessionsExtend(days: seq<int>, m: nat, techniques: seq<string>, therapyType: string, info: string -> Technique, count: nat)
    requires 0 < m <= |days| && techniques != []
    ensures Sessions(days, m, techniques, therapyType, info, count + 1) ==
      Sessions(days, m, techniques, therapyType, info, count) + [SessionAt(days, m, techniques, therapyType, info, count)]
  {
  }

  /** Taking the next technique, refilling the queue first when it is empty, gives technique `count % |techniques|`. */
  lemma CycleStep(cycle: seq<string>, techniques: seq<string>, count: nat)
    requires techniques != [] && CycleAt(cycle, techniques, count)
    ensures var queue := if cycle == [] then techniques else cycle;
      queue != [] && queue[0] == techniques[count % |techniques|] && CycleAt(queue[1..], techniques, count + 1)
  {
    ModNext(count, |techniques|);
  }

  lemma ShiftTail(days: seq<int>, s: nat, week: int)
    requires s < |days|
    ensures Shift(days[s..], week)[0] == days[s] + 7 * week
    ensures Shift(days[s..], week)[1..] == Shift(days[s + 1..], week)
  {
  }

  /** The dates of `availability` for the week after `startDate`, or the first day name that is not a weekday. */
  method NextDates(availability: seq<string>, startDate: int) returns (dates: seq<int>, unknown: Option<string>)
    ensures unknown == FirstUnknownDay(availability)
    ensures unknown.None? ==> dates == BaseDates(availability, startDate)
  {
    dates := [];
    for k := 0 to |availability|
      invariant forall d :: d in availability[..k] ==> d in DayNames
      invariant dates == BaseDates(availability[..k], startDate)
    {
      var dayNum := IndexOf(DayNames, availability[k]);
      if dayNum.None? {
        UnknownDayIsFirst(availability, k);
        return dates, Some(availability[k]);
      }
      BaseDatesStep(availability, k, startDate);
      var date := NextDate(startDate, dayNum.value);
      dates := dates + [date];
    }
    assert availability[..|availability|] == availability;
    unknown := None;
  }

  /** `days_ahead`, pushed into the next week when the day is today or already past. */
  method NextDate(startDate: int, dayNum: nat) returns (date: int)
    requires dayNum < 7
    ensures date == NextOccurrence(startDate, dayNum)
  {
    var daysAhead := dayNum - Weekday(startDate);
    if daysAhead <= 0 {
      daysAhead := daysAhead + 7;
    }
    date := startDate + daysAhead;
  }

  /** The sessions of one week: the next `weekSessions` dates of `weekDays`, each with the next technique. */
  method ScheduleWeek(ghost days: seq<int>, techniques: seq<string>, therapyType: string, info: string -> Technique, ghost week: nat,
                      weekDays: seq<int>, weekSessions: nat,
                      schedule: seq<Session>, techniquesCycle: seq<string>, sessionCount: nat)
    returns (newSchedule: seq<Session>, newCycle: seq<string>, newCount: nat)
    requires weekSessions <= |days| && techniques != []
    requires weekDays == Shift(days, week)
    requires sessionCount == WeeksOf(week, weekSessions)
    requires weekSessions == 0 ==> sessionCount == 0
    requires schedule == Sessions(days, weekSessions, techniques, therapyType, info, sessionCount)
    requires CycleAt(techniquesCycle, techniques, sessionCount)
    ensures newCount == sessionCount + weekSessions
    ensures newSchedule == Sessions(days, weekSessions, techniques, therapyType, info, newCount)
    ensures CycleAt(newCycle, techniques, newCount)
  {
    newSchedule, newCycle, newCount := schedule, techniquesCycle, sessionCount;
    var remaining := weekDays;
    assert days[0..] == days;
    for s := 0 to weekSessions
      invariant newCount == sessionCount + s
      invariant remaining == Shift(days[s..], week)
      invariant newSchedule == Sessions(days, weekSessions, techniques, therapyType, info, newCount)
      invariant CycleAt(newCycle, techniques, newCount)
    {
      if remaining == [] {
        assert false;
        break;
      }
      ShiftTail(days, s, week);
      var sessionDate := remaining[0];
      remaining := remaining[1..];
      CycleStep(newCycle, techniques, newCount);
      if newCycle == [] {
        newCycle := techniques;
      }
      var technique := newCycle[0];
      newCycle := newCycle[1..];
      SessionStep(days, weekSessions, techniques, therapyType, info, week, s, newCount);
      SessionsExtend(days, weekSessions, techniques, therapyType, info, newCount);
      var session := SessionOn(sessionDate, technique, therapyType, info);
      newSchedule := newSchedule + [session];
      newCount := newCount + 1;
    }
  }

  /** The four weeks of sessions at `sessionsPerWeek`, over the sorted dates of the first week. */
  method ScheduleWeeks(days: seq<int>, techniques: seq<string>, therapyType: string, info: string -> Technique, sessionsPerWeek: real, startDate: int)
    returns (schedule: seq<Session>)
    requires days != [] && techniques != [] && TableRate(sessionsPerWeek)
    ensures schedule == FourWeeks(days, techniques, therapyType, info, sessionsPerWeek)
  {
    var sessionsNeeded := SessionsNeeded(sessionsPerWeek);
    RateFacts(sessionsPerWeek);
    ghost var m := WeeklySessions(sessionsPerWeek, |days|);

    schedule := [];
    var techniquesCycle := techniques;
    var currentDate := startDate;
    var sessionCount := 0;
    var week := 0;
    assert CycleAt(techniquesCycle, techniques, sessionCount) by {
      DivModUnique(0, |techniques|, 0, 0);
      assert techniques[0..] == techniques;
    }
    while sessionCount < sessionsNeeded && week < 4
      invariant 0 <= week <= 4
      invariant sessionCount == WeeksOf(week, m)
      invariant m == 0 ==> sessionCount == 0
      invariant week < 4 ==> sessionCount < sessionsNeeded
      invariant schedule == Sessions(days, m, techniques, therapyType, info, sessionCount)
      invariant CycleAt(techniquesCycle, techniques, sessionCount)
      decreases 4 - week
    {
      if sessionsPerWeek < 1.0 && week % 2 == 1 {
        week := week + 1;
        currentDate := currentDate + 7;
        continue;
      }
      var weekDays := seq(|days|, j requires 0 <= j < |days| => days[j] + 7 * week);
      assert weekDays == Shift(days, week);
      var weekSessions := Min(WeeklyQuota(sessionsPerWeek), sessionsNeeded - sessionCount);
      weekSessions := Min(weekSessions, |weekDays|);
      if sessionsPerWeek >= 1.0 {
        QuotaFits(week, m, WeeklyQuota(sessionsPerWeek));
        QuotaFits(week + 1, m, WeeklyQuota(sessionsPerWeek));
      }
      assert weekSessions == m;
      schedule, techniquesCycle, sessionCount :=
        ScheduleWeek(days, techniques, therapyType, info, week, weekDays, weekSessions, schedule, techniquesCycle, sessionCount);
      week := week + 1;
    }
    WeeksOfProduct(4, m);
  }

  /** `available_days.sort()`: the dates in ascending order, sorted in place. */
  method SortDates(dates: seq<int>) returns (sorted: seq<int>)
    ensures sorted == Sort(dates, IntLe)
  {
    var a := new int[|dates|](i requires 0 <= i < |dates| => dates[i]);
    assert a[..] == dates;
    InsertionSort(a, IntLe);
    sorted := a[..];
  }

  /** `generate_weekly_schedule`; the start date is a parameter instead of today. */
  method GenerateWeeklySchedule(availability: seq<string>, therapyType: string, sessionFrequency: string,
                                techniques: seq<string>, startDate: int)
    returns (result: ScheduleResult)
    ensures result == ExpectedSchedule(availability, therapyType, sessionFrequency, techniques, startDate)
  {
    if availability == [] || techniques == [] {
      return Scheduled([]);
    }
    var availableDays, unknown := NextDates(availability, startDate);
    if unknown.Some? {
      return UnknownDay(unknown.value);
    }
    var days := SortDates(availableDays);
    var sessionsPerWeek := SessionsPerWeek(sessionFrequency);
    var schedule := ScheduleWeeks(days, techniques, therapyType, GetTechniqueInfo, sessionsPerWeek, startDate);
    return Scheduled(schedule);
  }

  // ---------------------------------------------------------------- what a schedule promises

  lemma WeekdayShift(date: int, week: int)
    ensures Weekday(date + 7 * week) == Weekday(date)
  {
    DivModUnique(date + 7 * week, 7, date / 7 + week, date % 7);
  }

  /** Session `i` of `4 * m` falls in week `i / m`, one of the four. */
  lemma WeekOfSession(i: nat, m: nat)
    requires i < 4 * m
    ensures 0 <= i / m < 4
  {
    var q := i / m;
    assert i == q * m + i % m;
    if q >= 4 {
      MulAtLeast(q - 3, m);
    }
  }

  /** A later session never belongs to an earlier week, and within one week it takes a later date. */
  lemma WeekOrder(i: nat, j: nat, m: nat)
    requires i < j && m > 0
    ensures i / m <= j / m
    ensures i / m == j / m ==> i % m < j % m
  {
    var qi, qj := i / m, j / m;
    assert i == qi * m + i % m && j == qj * m + j % m;
    if qi > qj {
      MulAtLeast(qi - qj, m);
    }
  }

  /** The sorted dates of the first week: ascending, each in the week after the start and on one of the available days. */
  lemma SortedDates(availability: seq<string>, startDate: int)
    requires forall d :: d in availability ==> d in DayNames
    ensures var days := Sort(BaseDates(availability, startDate), IntLe);
      && |days| == |availability|
      && Sorted(days, IntLe)
      && forall j :: 0 <= j < |days| ==> startDate < days[j] <= startDate + 7 && DayName(days[j]) in availability
  {
    var base := BaseDates(availability, startDate);
    var days := Sort(base, IntLe);
    SortSorted(base, IntLe);
    SortPermutes(base, IntLe);
    BaseDatesInWeek(availability, startDate);
    forall j | 0 <= j < |days|
      ensures startDate < days[j] <= startDate + 7 && DayName(days[j]) in availability
    {
      assert days[j] in multiset(days);
      assert days[j] in base;
      var k :| 0 <= k < |base| && base[k] == days[j];
      assert availability[k] in availability;
    }
  }

  /** The closed form, for the case that builds a schedule. */
  lemma ScheduledSessions(availability: seq<string>, therapyType: string, sessionFrequency: string,
                          techniques: seq<string>, startDate: int)
    requires techniques != [] && ExpectedSchedule(availability, therapyType, sessionFrequency, techniques, startDate).Scheduled?
    ensures forall d :: d in availability ==> d in DayNames
    ensures ExpectedSchedule(availability, therapyType, sessionFrequency, techniques, startDate).sessions ==
      FourWeeks(Sort(BaseDates(availability, startDate), IntLe), techniques, therapyType, GetTechniqueInfo, SessionsPerWeek(sessionFrequency))
  {
    if availability == [] {
      assert FirstUnknownDay(availability).None?;
    }
  }

  /**
   * A schedule holds four weeks of `m` sessions, `m` being the quota
   * `int(rate)` or the number of available days, whichever is smaller: never
   * more than the sessions needed, and exactly as many when the days suffice
   * and the rate is at least one a week.
   */
  lemma ScheduleSize(availability: seq<string>, therapyType: string, sessionFrequency: string,
                     techniques: seq<string>, startDate: int)
    requires techniques != [] && ExpectedSchedule(availability, therapyType, sessionFrequency, techniques, startDate).Scheduled?
    ensures var s := ExpectedSchedule(availability, therapyType, sessionFrequency, techniques, startDate).sessions;
      var rate := SessionsPerWeek(sessionFrequency);
      && |s| == 4 * WeeklySessions(rate, |availability|)
      && |s| <= SessionsNeeded(rate)
      && (rate >= 1.0 && |availability| >= WeeklyQuota(rate) ==> |s| == SessionsNeeded(rate))
  {
    ScheduledSessions(availability, therapyType, sessionFrequency, techniques, startDate);
    RateFacts(SessionsPerWeek(sessionFrequency));
  }

  /**
   * Session `i` lies in week `i / m` after the start date (one of the four),
   * is named after its own weekday, and that day is one the patient is
   * available on.
   */
  lemma ScheduleDates(availability: seq<string>, therapyType: string, sessionFrequency: string,
                      techniques: seq<string>, startDate: int)
    requires techniques != [] && ExpectedSchedule(availability, therapyType, sessionFrequency, techniques, startDate).Scheduled?
    ensures var s := ExpectedSchedule(availability, therapyType, sessionFrequency, techniques, startDate).sessions;
      var m := WeeklySessions(SessionsPerWeek(sessionFrequency), |availability|);
      forall i :: 0 <= i < |s| ==>
        && 0 < m && i / m < 4
        && startDate + 7 * (i / m) < s[i].date <= startDate + 7 * (i / m) + 7
        && s[i].day == DayName(s[i].date)
        && s[i].day in availability
  {
    ScheduledSessions(availability, therapyType, sessionFrequency, techniques, startDate);
    SortedDates(availability, startDate);
    FourWeeksDates(Sort(BaseDates(availability, startDate), IntLe), techniques, therapyType, GetTechniqueInfo,
      SessionsPerWeek(sessionFrequency), availability, startDate);
  }

  lemma FourWeeksDates(days: seq<int>, techniques: seq<string>, therapyType: string, info: string -> Technique, rate: real,
                       availability: seq<string>, startDate: int)
    requires techniques != [] && TableRate(rate)
    requires forall j :: 0 <= j < |days| ==> startDate < days[j] <= startDate + 7 && DayName(days[j]) in availability
    ensures var s := FourWeeks(days, techniques, therapyType, info, rate);
      var m := WeeklySessions(rate, |days|);
      forall i :: 0 <= i < |s| ==>
        && 0 < m && i / m < 4
        && startDate + 7 * (i / m) < s[i].date <= startDate + 7 * (i / m) + 7
        && s[i].day == DayName(s[i].date)
        && s[i].day in availability
  {
    var m := WeeklySessions(rate, |days|);
    var s := FourWeeks(days, techniques, therapyType, info, rate);
    forall i | 0 <= i < |s|
      ensures && 0 < m && i / m < 4
        && startDate + 7 * (i / m) < s[i].date <= startDate + 7 * (i / m) + 7
        && s[i].day == DayName(s[i].date)
        && s[i].day in availability
    {
      SessionDate(days, m, techniques, therapyType, info, i, startDate, availability);
    }
  }

  /** One session's date and day, from the dates of the first week. */
  lemma SessionDate(days: seq<int>, m: nat, techniques: seq<string>, therapyType: string, info: string -> Technique, i: nat,
                    startDate: int, availability: seq<string>)
    requires m <= |days| && techniques != [] && i < 4 * m
    requires forall j :: 0 <= j < |days| ==> startDate < days[j] <= startDate + 7 && DayName(days[j]) in availability
    ensures 0 < m && i / m < 4
    ensures var session := SessionAt(days, m, techniques, therapyType, info, i);
      && startDate + 7 * (i / m) < session.date <= startDate + 7 * (i / m) + 7
      && session.day == DayName(session.date)
      && session.day in availability
  {
    WeekOfSession(i, m);
    WeekdayShift(days[i % m], i / m);
  }

  /**
   * The dates a week's sessions take, the sorted next dates of the available
   * days, are those dates in another order, and the first `m` of them are
   * the earliest: none falls after a date left out.
   */
  lemma EarliestDates(availability: seq<string>, startDate: int, m: nat)
    requires forall d :: d in availability ==> d in DayNames
    ensures multiset(Sort(BaseDates(availability, startDate), IntLe)) == multiset(BaseDates(availability, startDate))
    ensures forall t, k :: 0 <= t < m <= k < |availability| ==>
      Sort(BaseDates(availability, startDate), IntLe)[t] <= Sort(BaseDates(availability, startDate), IntLe)[k]
  {
    SortedDates(availability, startDate);
    SortPermutes(BaseDates(availability, startDate), IntLe);
  }

  /** Each of the four weeks ends within the first `4 * m` sessions. */
  lemma WeeksWithin(w: nat, m: nat)
    requires w < 4
    ensures WeeksOf(w + 1, m) <= WeeksOf(4, m) == 4 * m
    decreases 4 - w
  {
    if w < 3 {
      WeeksWithin(w + 1, m);
    } else {
      WeeksOfProduct(4, m);
    }
  }

  /**
   * Week `w` of four weeks, one of the four, holds `m` sessions: the `t`-th
   * falls on the `t`-th date, moved `w` weeks later. A schedule is four weeks
   * over the sorted next dates of the available days (`ScheduledSessions`),
   * whose first `m` are the earliest (`EarliestDates`).
   */
  lemma FourWeeksWeek(days: seq<int>, techniques: seq<string>, therapyType: string, info: string -> Technique, rate: real, w: nat)
    requires techniques != [] && TableRate(rate) && w < 4
    ensures WeeksOf(w + 1, WeeklySessions(rate, |days|)) <= |FourWeeks(days, techniques, therapyType, info, rate)|
    ensures forall t :: 0 <= t < WeeklySessions(rate, |days|) ==>
      FourWeeks(days, techniques, therapyType, info, rate)[WeeksOf(w, WeeklySessions(rate, |days|)) + t].date == days[t] + 7 * w
  {
    var m := WeeklySessions(rate, |days|);
    WeeksWithin(w, m);
    forall t | 0 <= t < m
      ensures FourWeeks(days, techniques, therapyType, info, rate)[WeeksOf(w, m) + t].date == days[t] + 7 * w
    {
      FourWeeksSlot(days, techniques, therapyType, info, rate, w, t);
    }
  }

  lemma FourWeeksSlot(days: seq<int>, techniques: seq<string>, therapyType: string, info: string -> Technique, rate: real,
                      w: nat, t: nat)
    requires techniques != [] && TableRate(rate) && w < 4 && t < WeeklySessions(rate, |days|)
    ensures WeeksOf(w, WeeklySessions(rate, |days|)) + t < |FourWeeks(days, techniques, therapyType, info, rate)|
    ensures FourWeeks(days, techniques, therapyType, info, rate)[WeeksOf(w, WeeklySessions(rate, |days|)) + t].date == days[t] + 7 * w
  {
    var m := WeeklySessions(rate, |days|);
    var i := WeeksOf(w, m) + t;
    WeeksWithin(w, m);
    SessionStep(days, m, techniques, therapyType, info, w, t, i);
  }

  /** The schedule runs forward in time: dates never decrease, and strictly increase when no day is listed twice. */
  lemma ScheduleChronological(availability: seq<string>, therapyType: string, sessionFrequency: string,
                              techniques: seq<string>, startDate: int)
    requires techniques != [] && ExpectedSchedule(availability, therapyType, sessionFrequency, techniques, startDate).Scheduled?
    ensures var s := ExpectedSchedule(availability, therapyType, sessionFrequency, techniques, startDate).sessions;
      forall i, j :: 0 <= i < j < |s| ==> s[i].date <= s[j].date
    ensures var s := ExpectedSchedule(availability, therapyType, sessionFrequency, techniques, startDate).sessions;
      DistinctBy(availability, (d: string) => d) ==> forall i, j :: 0 <= i < j < |s| ==> s[i].date < s[j].date
  {
    ScheduledSessions(availability, therapyType, sessionFrequency, techniques, startDate);
    SortedDates(availability, startDate);
    var base := BaseDates(availability, startDate);
    if DistinctBy(availability, (d: string) => d) {
      DistinctDates(availability, startDate);
      SortKeepsDistinct(base, (x: int) => x, IntLe);
    }
    FourWeeksChronological(Sort(base, IntLe), techniques, therapyType, GetTechniqueInfo, SessionsPerWeek(sessionFrequency), startDate);
  }

  /** Four weeks over sorted dates of one week run forward in time, strictly when the dates are distinct. */
  lemma FourWeeksChronological(days: seq<int>, techniques: seq<string>, therapyType: string, info: string -> Technique,
                               rate: real, startDate: int)
    requires techniques != [] && TableRate(rate) && Sorted(days, IntLe)
    requires forall k :: 0 <= k < |days| ==> startDate < days[k] <= startDate + 7
    ensures var s := FourWeeks(days, techniques, therapyType, info, rate);
      forall i, j :: 0 <= i < j < |s| ==> s[i].date <= s[j].date
    ensures var s := FourWeeks(days, techniques, therapyType, info, rate);
      DistinctBy(days, (x: int) => x) ==> forall i, j :: 0 <= i < j < |s| ==> s[i].date < s[j].date
  {
    var m := WeeklySessions(rate, |days|);
    var s := FourWeeks(days, techniques, therapyType, info, rate);
    forall i, j | 0 <= i < j < |s|
      ensures s[i].date <= s[j].date
      ensures DistinctBy(days, (x: int) => x) ==> s[i].date < s[j].date
    {
      SessionOrder(days, m, techniques, therapyType, info, i, j, startDate);
    }
  }

  /** Two sessions' dates, in order: the same week takes the sorted dates in turn, a later week comes after. */
  lemma SessionOrder(days: seq<int>, m: nat, techniques: seq<string>, therapyType: string, info: string -> Technique, i: nat, j: nat, startDate: int)
    requires m <= |days| && techniques != [] && i < j < 4 * m
    requires Sorted(days, IntLe)
    requires forall k :: 0 <= k < |days| ==> startDate < days[k] <= startDate + 7
    ensures SessionAt(days, m, techniques, therapyType, info, i).date <= SessionAt(days, m, techniques, therapyType, info, j).date
    ensures DistinctBy(days, (x: int) => x) ==>
      SessionAt(days, m, techniques, therapyType, info, i).date < SessionAt(days, m, techniques, therapyType, info, j).date
  {
    WeekOrder(i, j, m);
    if i / m == j / m {
      assert days[i % m] <= days[j % m];
    } else {
      assert days[i % m] <= startDate + 7 && startDate < days[j % m];
    }
  }

  /** Different day names have different next dates. */
  lemma DistinctDates(availability: seq<string>, startDate: int)
    requires forall d :: d in availability ==> d in DayNames
    requires DistinctBy(availability, (d: string) => d)
    ensures DistinctBy(BaseDates(availability, startDate), (x: int) => x)
  {
    BaseDatesInWeek(availability, startDate);
    var base := BaseDates(availability, startDate);
    forall i, j | 0 <= i < j < |base| ensures base[i] != base[j] {
      assert DayName(base[i]) == availability[i] && DayName(base[j]) == availability[j];
    }
  }

  /**
   * The techniques are taken in turn, starting over after the last; every
   * session has the therapy type, fifty minutes, and the catalogue record of
   * its technique, which is always a complete record.
   */
  lemma ScheduleTechniques(availability: seq<string>, therapyType: string, sessionFrequency: string,
                           techniques: seq<string>, startDate: int)
    requires techniques != [] && ExpectedSchedule(availability, therapyType, sessionFrequency, techniques, startDate).Scheduled?
    ensures var s := ExpectedSchedule(availability, therapyType, sessionFrequency, techniques, startDate).sessions;
      forall i :: 0 <= i < |s| ==>
        && s[i].activity == techniques[i % |techniques|]
        && s[i].sessionType == therapyType
        && s[i].duration == SessionDuration
        && s[i].techniqueDetails == GetTechniqueInfo(s[i].activity)
        && IsComplete(s[i].techniqueDetails)
  {
    ScheduledSessions(availability, therapyType, sessionFrequency, techniques, startDate);
    var s := ExpectedSchedule(availability, therapyType, sessionFrequency, techniques, startDate).sessions;
    forall i | 0 <= i < |s| ensures IsComplete(s[i].techniqueDetails) {
      TechniqueInfoComplete(s[i].activity);
    }
  }

  /** No schedule without days or techniques. */
  lemma NothingToSchedule(availability: seq<string>, therapyType: string, sessionFrequency: string,
                          techniques: seq<string>, startDate: int)
    requires availability == [] || techniques == []
    ensures ExpectedSchedule(availability, therapyType, sessionFrequency, techniques, startDate) == Scheduled([])
  {
  }

  /**
   * An error exactly when there is something to schedule and a listed day is
   * not a weekday name; it names the first such day.
   */
  lemma UnknownDayReported(availability: seq<string>, therapyType: string, sessionFrequency: string,
                           techniques: seq<string>, startDate: int)
    ensures var r := ExpectedSchedule(availability, therapyType, sessionFrequency, techniques, startDate);
      r.UnknownDay? <==> availability != [] && techniques != [] && exists d :: d in availability && d !in DayNames
    ensures var r := ExpectedSchedule(availability, therapyType, sessionFrequency, techniques, startDate);
      r.UnknownDay? ==>
        exists i :: && 0 <= i < |availability| && availability[i] == r.day && r.day !in DayNames
                    && forall d :: d in availability[..i] ==> d in DayNames
  {
    var r := ExpectedSchedule(availability, therapyType, sessionFrequency, techniques, startDate);
    if r.UnknownDay? {
      FirstUnknownDayIsFirst(availability);
    }
    if availability != [] && techniques != [] && exists d :: d in availability && d !in DayNames {
      assert FirstUnknownDay(availability).Some?;
    }
  }

  // ---------------------------------------------------------------- the bi-weekly rate

  /**
   * As written, a bi-weekly frequency schedules nothing: its quota
   * `int(0.5)` is zero, so every week holds `min(0, ...) == 0` sessions,
   * although two sessions are needed.
   */
  lemma BiWeeklySchedulesNothing(availability: seq<string>, therapyType: string, sessionFrequency: string,
                                 techniques: seq<string>, startDate: int)
    requires Lower(sessionFrequency) == "bi-weekly" && techniques != []
    requires ExpectedSchedule(availability, therapyType, sessionFrequency, techniques, startDate).Scheduled?
    ensures ExpectedSchedule(availability, therapyType, sessionFrequency, techniques, startDate).sessions == []
    ensures SessionsNeeded(SessionsPerWeek(sessionFrequency)) == 2
  {
    ScheduleSize(availability, therapyType, sessionFrequency, techniques, startDate);
  }

  /**
   * The schedule the bi-weekly branch means to build: one session in each
   * even week, on the earliest available date, until the two needed are
   * placed (weeks 0 and 2); any other rate as before.
   */
  function CorrectedFourWeeks(days: seq<int>, techniques: seq<string>, therapyType: string, info: string -> Technique, rate: real): seq<Session>
    requires techniques != [] && TableRate(rate)
  {
    if rate < 1.0 && days != [] then
      seq(2, i requires 0 <= i < 2 => SessionOn(days[0] + 14 * i, techniques[i % |techniques|], therapyType, info))
    else FourWeeks(days, techniques, therapyType, info, rate)
  }

  /**
   * The corrected schedule places exactly the sessions needed whenever there
   * are at least as many days as the weekly quota; at a bi-weekly rate they
   * fall two weeks apart, in the first and third weeks, with the techniques
   * taken in turn.
   */
  lemma CorrectedMeetsNeed(days: seq<int>, techniques: seq<string>, therapyType: string, info: string -> Technique, rate: real, startDate: int)
    requires techniques != [] && TableRate(rate) && days != [] && |days| >= WeeklyQuota(rate)
    requires forall j :: 0 <= j < |days| ==> startDate < days[j] <= startDate + 7
    ensures var s := CorrectedFourWeeks(days, techniques, therapyType, info, rate);
      && |s| == SessionsNeeded(rate)
      && (rate < 1.0 ==>
            && startDate < s[0].date <= startDate + 7
            && startDate + 14 < s[1].date <= startDate + 21
            && s[1].date == s[0].date + 14
            && s[0].activity == techniques[0]
            && s[1].activity == techniques[1 % |techniques|])
  {
    RateFacts(rate);
  }

  // ---------------------------------------------------------------- the plan's frequency

  /**
   * The application schedules the plan's own frequency: a low-severity plan
   * ("bi-weekly") gets no session at all, a moderate one ("weekly") one a week,
   * a severe one ("twice-weekly") two a week when two days are available.
   */
  lemma SeveritySchedule(severity: Severity, availability: seq<string>, therapyType: string,
                         techniques: seq<string>, startDate: int)
    requires techniques != []
    requires ExpectedSchedule(availability, therapyType, SessionFrequency(severity), techniques, startDate).Scheduled?
    ensures var s := ExpectedSchedule(availability, therapyType, SessionFrequency(severity), techniques, startDate).sessions;
      && (severity == Low ==> s == [])
      && (severity == Moderate ==> |s| == Min(4, 4 * |availability|))
      && (severity == Severe ==> |s| == Min(8, 4 * |availability|))
  {
    var frequency := SessionFrequency(severity);
    PlanFrequencyRates();
    PlanFrequencySizes(|availability|);
    ScheduleSize(availability, therapyType, frequency, techniques, startDate);
  }

  /** Four weeks at the three rates a plan can carry, with `n` available days. */
  lemma PlanFrequencySizes(n: nat)
    ensures 4 * WeeklySessions(0.5, n) == 0
    ensures 4 * WeeklySessions(1.0, n) == Min(4, 4 * n)
    ensures 4 * WeeklySessions(2.0, n) == Min(8, 4 * n)
  {
  }

  /** The rates of the three frequencies a plan can carry. */
  lemma PlanFrequencyRates()
    ensures SessionsPerWeek("bi-weekly") == 0.5
    ensures SessionsPerWeek("weekly") == 1.0
    ensures SessionsPerWeek("twice-weekly") == 2.0
  {
    assert Lower("bi-weekly") == "bi-weekly";
    assert Lower("weekly") == "weekly";
    assert Lower("twice-weekly") == "twice-weekly";
  }
}
