/** Day, history and summary views: all of them agree with the sum of elapsed seconds over the sessions. */
module ReadModels {
  import opened Base
  import opened Clock
  import opened Geofence
  import opened Attendance
  import opened AttendanceInvariants
  import opened Order
  import opened WorkedTime

  /** The sessions of one day row, in order. */
  function DaySessions(ss: seq<Session>, k: DayKey): seq<Session> {
    if ss == [] then [] else
    var rest := DaySessions(ss[..|ss| - 1], k);
    if ss[|ss| - 1].Day() == k then rest + [ss[|ss| - 1]] else rest
  }

  /** Dates in range that have a day row, latest first. */
  function ListDays(days: map<DayKey, Day>, user: UserId, start: Date, end: Date): (dates: seq<Date>)
    ensures forall a :: 0 <= a < |dates| ==> DayKey(user, dates[a]) in days && start <= dates[a] <= end
    ensures forall d :: start <= d <= end && DayKey(user, d) in days ==> d in dates
    ensures forall a, b :: 0 <= a < b < |dates| ==> dates[b] < dates[a]
    decreases end - start
  {
    if end < start then [] else
    var earlier := ListDays(days, user, start, end - 1);
    if DayKey(user, end) in days then [end] + earlier else earlier
  }

  function Running(ss: seq<Session>, now: Instant): int {
    if ss == [] then 0 else
    Running(ss[..|ss| - 1], now) + (if ss[|ss| - 1].Open() then Elapsed(ss[|ss| - 1], now) else 0)
  }

  /** What `day_payload` reports for a day: the cached total plus what is still running. */
  function PayloadTotal(t: Tables, k: DayKey, now: Instant): int
    requires k in t.days
  {
    t.days[k].total + Running(DaySessions(t.sessions, k), now)
  }

  function SumPayloads(t: Tables, user: UserId, dates: seq<Date>, now: Instant): int
    requires forall a :: 0 <= a < |dates| ==> DayKey(user, dates[a]) in t.days
  {
    if dates == [] then 0 else PayloadTotal(t, DayKey(user, dates[0]), now) + SumPayloads(t, user, dates[1..], now)
  }

  /** The total of `history` over a range of dates. */
  function HistoryTotal(t: Tables, user: UserId, start: Date, end: Date, now: Instant): int {
    SumPayloads(t, user, ListDays(t.days, user, start, end), now)
  }

  // ------------------------------------------------------ the reference totals

  function ElapsedOn(ss: seq<Session>, k: DayKey, now: Instant): int {
    if ss == [] then 0 else
    ElapsedOn(ss[..|ss| - 1], k, now) + (if ss[|ss| - 1].Day() == k then Elapsed(ss[|ss| - 1], now) else 0)
  }

  function ElapsedBetween(ss: seq<Session>, user: UserId, start: Date, end: Date, now: Instant): int {
    if ss == [] then 0 else
    var s := ss[|ss| - 1];
    ElapsedBetween(ss[..|ss| - 1], user, start, end, now)
    + (if s.user == user && start <= s.date <= end then Elapsed(s, now) else 0)
  }

  lemma {:induction false} CachePlusRunning(ss: seq<Session>, k: DayKey, now: Instant)
    requires RowsConsistent(ss)
    ensures Aggregated(ss, k).total + Running(DaySessions(ss, k), now) == ElapsedOn(ss, k, now)
  {
    if ss != [] {
      var n := |ss| - 1;
      RowsConsistentPrefix(ss, n);
      CachePlusRunning(ss[..n], k, now);
      assert RowConsistent(ss[n]);
      var rest := DaySessions(ss[..n], k);
      assert (rest + [ss[n]])[..|rest|] == rest;
    }
  }

  /** The reported total of a day is the sum of elapsed seconds over that day's sessions. */
  lemma PayloadIsElapsed(t: Tables, k: DayKey, now: Instant)
    requires Consistent(t) && k in t.days
    ensures PayloadTotal(t, k, now) == ElapsedOn(t.sessions, k, now)
  {
    CachePlusRunning(t.sessions, k, now);
    assert RowFollows(t.sessions, k, t.days[k]);
  }

  lemma {:induction false} ElapsedOnNoRow(ss: seq<Session>, k: DayKey, now: Instant)
    requires forall i :: 0 <= i < |ss| ==> ss[i].Day() != k
    ensures ElapsedOn(ss, k, now) == 0
  {
    if ss != [] { ElapsedOnNoRow(ss[..|ss| - 1], k, now); }
  }

  lemma {:induction false} ElapsedBetweenSplit(ss: seq<Session>, user: UserId, start: Date, mid: Date, end: Date,
        now: Instant)
    requires start <= mid + 1 && mid <= end
    ensures ElapsedBetween(ss, user, start, end, now)
         == ElapsedBetween(ss, user, start, mid, now) + ElapsedBetween(ss, user, mid + 1, end, now)
  {
    if ss != [] { ElapsedBetweenSplit(ss[..|ss| - 1], user, start, mid, end, now); }
  }

  lemma {:induction false} ElapsedBetweenOneDay(ss: seq<Session>, user: UserId, d: Date, now: Instant)
    ensures ElapsedBetween(ss, user, d, d, now) == ElapsedOn(ss, DayKey(user, d), now)
  {
    if ss != [] { ElapsedBetweenOneDay(ss[..|ss| - 1], user, d, now); }
  }

  lemma {:induction false} ElapsedBetweenEmpty(ss: seq<Session>, user: UserId, start: Date, end: Date, now: Instant)
    requires end < start
    ensures ElapsedBetween(ss, user, start, end, now) == 0
  {
    if ss != [] { ElapsedBetweenEmpty(ss[..|ss| - 1], user, start, end, now); }
  }

  /** A history total is the sum of elapsed seconds over the user's sessions attributed to the range. */
  lemma {:induction false} HistoryIsElapsed(t: Tables, user: UserId, start: Date, end: Date, now: Instant)
    requires Consistent(t)
    ensures HistoryTotal(t, user, start, end, now) == ElapsedBetween(t.sessions, user, start, end, now)
    decreases end - start
  {
    if end < start {
      ElapsedBetweenEmpty(t.sessions, user, start, end, now);
    } else {
      var k := DayKey(user, end);
      HistoryIsElapsed(t, user, start, end - 1, now);
      ElapsedBetweenSplit(t.sessions, user, start, end - 1, end, now);
      ElapsedBetweenOneDay(t.sessions, user, end, now);
      if k in t.days {
        PayloadIsElapsed(t, k, now);
        var earlier := ListDays(t.days, user, start, end - 1);
        assert ([end] + earlier)[1..] == earlier;
      } else {
        ElapsedOnNoRow(t.sessions, k, now);
      }
    }
  }

  /** History totals of adjacent ranges add up. */
  lemma HistoryAdditive(t: Tables, user: UserId, start: Date, mid: Date, end: Date, now: Instant)
    requires Consistent(t) && start <= mid + 1 && mid <= end
    ensures HistoryTotal(t, user, start, end, now)
         == HistoryTotal(t, user, start, mid, now) + HistoryTotal(t, user, mid + 1, end, now)
  {
    HistoryIsElapsed(t, user, start, end, now);
    HistoryIsElapsed(t, user, start, mid, now);
    HistoryIsElapsed(t, user, mid + 1, end, now);
    ElapsedBetweenSplit(t.sessions, user, start, mid, end, now);
  }

  /** The total shown for today is today's history total, an overnight session counting in neither. */
  lemma TodayIsTodaysHistory(t: Tables, user: UserId, offset: int, now: Instant)
    requires Consistent(t) && DatesLocal(t.sessions, offset)
    ensures var today := LocalDate(now, offset);
      Today(t, user, offset, now).total == HistoryTotal(t, user, today, today, now)
  {
    var today := LocalDate(now, offset);
    var k := DayKey(user, today);
    HistoryIsElapsed(t, user, today, today, now);
    ElapsedBetweenOneDay(t.sessions, user, today, now);
    CachePlusRunning(t.sessions, k, now);
    RunningIsOpen(t.sessions, k, now);
    AggregatedShape(t.sessions, k);
    if k in t.days { assert RowFollows(t.sessions, k, t.days[k]); }
  }

  /** At most one session of a user runs, so what runs on a day is the open session if it belongs to the day. */
  lemma {:induction false} RunningIsOpen(ss: seq<Session>, k: DayKey, now: Instant)
    requires OneOpen(ss)
    ensures var open := OpenSession(ss, k.user);
      Running(DaySessions(ss, k), now) ==
        if open.Some? && ss[open.value].Day() == k then Elapsed(ss[open.value], now) else 0
  {
    if ss != [] {
      var n := |ss| - 1;
      var s := ss[n];
      RunningIsOpen(ss[..n], k, now);
      var rest := DaySessions(ss[..n], k);
      assert (rest + [s])[..|rest|] == rest;
      if s.user == k.user && s.Open() {
        assert forall i :: 0 <= i < n && ss[i].user == k.user ==> !ss[..n][i].Open();
      }
    }
  }

  // ------------------------------------------------------------------ weekdays

  function CountWeekdays(start: Date, end: Date): nat
    decreases end - start
  {
    if end < start then 0 else CountWeekdays(start, end - 1) + (if IsWeekday(end) then 1 else 0)
  }

  /** Weekdays among the dates up to and including an ordinal. */
  function WeekdaysUpTo(d: Date): int { 5 * (d / 7) + Min(d % 7, 5) }

  /** The counted weekdays have a closed form in whole weeks and a remainder. */
  lemma {:induction false} WeekdaysClosedForm(start: Date, end: Date)
    requires start <= end + 1
    ensures CountWeekdays(start, end) == WeekdaysUpTo(end) - WeekdaysUpTo(start - 1)
    decreases end - start
  {
    if start <= end {
      WeekdaysClosedForm(start, end - 1);
      WeekdayStep(end);
    }
  }

  lemma WeekdayStep(d: Date)
    ensures WeekdaysUpTo(d) == WeekdaysUpTo(d - 1) + (if IsWeekday(d) then 1 else 0)
  {
    var q, r := d / 7, d % 7;
    assert d == 7 * q + r;
    if r == 0 {
      assert (d - 1) / 7 == q - 1 && (d - 1) % 7 == 6;
      assert (d + 6) % 7 == 6;
    } else {
      assert (d - 1) / 7 == q && (d - 1) % 7 == r - 1;
      assert (d + 6) % 7 == r - 1;
    }
  }

  lemma WeekdaysAdditive(start: Date, mid: Date, end: Date)
    requires start <= mid + 1 && mid <= end
    ensures CountWeekdays(start, end) == CountWeekdays(start, mid) + CountWeekdays(mid + 1, end)
  {
    WeekdaysClosedForm(start, end);
    WeekdaysClosedForm(start, mid);
    WeekdaysClosedForm(mid + 1, end);
  }

  lemma AnySevenDaysHoldFive(start: Date)
    ensures CountWeekdays(start, start + 6) == 5
  {
    WeekdaysClosedForm(start, start + 6);
    var e := start - 1;
    assert e == 7 * (e / 7) + e % 7;
    assert (e + 7) / 7 == e / 7 + 1 && (e + 7) % 7 == e % 7;
  }

  /** Mon-Fri days of the range that have already happened. */
  method WorkingDays(start: Date, end: Date, today: Date) returns (count: nat)
    ensures count == CountWeekdays(start, Min(end, today))
    ensures start <= Min(end, today) ==> count == WeekdaysUpTo(Min(end, today)) - WeekdaysUpTo(start - 1)
  {
    var effectiveEnd := Min(end, today);
    if effectiveEnd < start { return 0; }
    count := 0;
    var cursor := start;
    while cursor <= effectiveEnd
      invariant start <= cursor <= effectiveEnd + 1
      invariant count == CountWeekdays(start, cursor - 1)
    {
      if Weekday(cursor) < 5 { count := count + 1; }
      cursor := cursor + 1;
    }
    WeekdaysClosedForm(start, effectiveEnd);
  }

  // ------------------------------------------------------------------- summary

  datatype Summary = Summary(
    daysPresent: nat,
    daysAbsent: nat,
    workingDays: nat,
    totalSeconds: int,
    average: int,
    longest: int,
    late: nat)

  /** Days that count as present: those that have sessions. */
  function PresentDates(t: Tables, user: UserId, dates: seq<Date>): (r: seq<Date>)
    requires forall a :: 0 <= a < |dates| ==> DayKey(user, dates[a]) in t.days
    ensures forall a :: 0 <= a < |r| ==> DayKey(user, r[a]) in t.days
  {
    if dates == [] then [] else
    var earlier := PresentDates(t, user, dates[..|dates| - 1]);
    if DaySessions(t.sessions, DayKey(user, dates[|dates| - 1])) == [] then earlier else earlier + [dates[|dates| - 1]]
  }

  function LongestOf(ss: seq<Session>, now: Instant): int {
    if ss == [] then 0 else Max(LongestOf(ss[..|ss| - 1], now), Elapsed(ss[|ss| - 1], now))
  }

  function LongestOver(t: Tables, user: UserId, dates: seq<Date>, now: Instant): int {
    if dates == [] then 0 else
    Max(LongestOver(t, user, dates[..|dates| - 1], now),
      LongestOf(DaySessions(t.sessions, DayKey(user, dates[|dates| - 1])), now))
  }

  function LateOver(t: Tables, user: UserId, dates: seq<Date>): nat
    requires forall a :: 0 <= a < |dates| ==> DayKey(user, dates[a]) in t.days
  {
    if dates == [] then 0 else
    LateOver(t, user, dates[..|dates| - 1]) + (if t.days[DayKey(user, dates[|dates| - 1])].late then 1 else 0)
  }

  method RunningSeconds(sessions: seq<Session>, now: Instant) returns (running: int)
    ensures running == Running(sessions, now)
  {
    running := 0;
    for i := 0 to |sessions|
      invariant running == Running(sessions[..i], now)
    {
      assert sessions[..i + 1][..i] == sessions[..i];
      if sessions[i].punchOut.None? { running := running + Elapsed(sessions[i], now); }
    }
    assert sessions[..|sessions|] == sessions;
  }

  method LongestSession(sessions: seq<Session>, now: Instant, soFar: int) returns (longest: int)
    requires 0 <= soFar
    ensures longest == Max(soFar, LongestOf(sessions, now))
  {
    longest := soFar;
    for i := 0 to |sessions|
      invariant longest == Max(soFar, LongestOf(sessions[..i], now))
    {
      assert sessions[..i + 1][..i] == sessions[..i];
      longest := Max(longest, Elapsed(sessions[i], now));
    }
    assert sessions[..|sessions|] == sessions;
  }

  /** `total // days` if there were any; a total is never negative, so flooring and truncating agree. */
  function Average(total: int, days: nat): int { if days == 0 then 0 else total / days }

  function Absences(workingDays: int, presentDays: int): nat { Max(0, workingDays - presentDays) }

  /** One pass over the listed days; days without sessions are skipped. */
  method TallyDays(t: Tables, user: UserId, dates: seq<Date>, now: Instant)
    returns (presentDays: nat, totalSeconds: int, late: nat, longest: int)
    requires forall a :: 0 <= a < |dates| ==> DayKey(user, dates[a]) in t.days
    ensures presentDays == |PresentDates(t, user, dates)|
    ensures totalSeconds == SumPayloads(t, user, PresentDates(t, user, dates), now)
    ensures late == LateOver(t, user, PresentDates(t, user, dates))
    ensures longest == LongestOver(t, user, dates, now)
  {
    hide DaySessions, Running, PayloadTotal, SumPayloads, Elapsed;
    ghost var present := [];
    presentDays, totalSeconds, late, longest := 0, 0, 0, 0;
    EmptyTallies(t, user, now);
    for i := 0 to |dates|
      invariant present == PresentDates(t, user, dates[..i])
      invariant presentDays == |present|
      invariant totalSeconds == SumPayloads(t, user, present, now)
      invariant late == LateOver(t, user, present)
      invariant longest == LongestOver(t, user, dates[..i], now) && 0 <= longest
    {
      assert dates[..i + 1][..i] == dates[..i];
      var k := DayKey(user, dates[i]);
      var sessions := DaySessions(t.sessions, k);
      var running := RunningSeconds(sessions, now);
      var dayTotal := t.days[k].total + running;
      PayloadParts(t, k, now);
      if sessions != [] {
        SumPayloadsAppend(t, user, present, dates[i], now);
        assert (present + [dates[i]])[..|present|] == present;
        present := present + [dates[i]];
        presentDays := presentDays + 1;
        totalSeconds := totalSeconds + dayTotal;
        if t.days[k].late { late := late + 1; }
        longest := LongestSession(sessions, now, longest);
      }
    }
    assert dates[..|dates|] == dates;
  }

  lemma EmptyTallies(t: Tables, user: UserId, now: Instant)
    ensures SumPayloads(t, user, [], now) == 0
  {
  }

  /** The totals the summary screen shows. */
  method Summarise(t: Tables, user: UserId, offset: int, start: Date, end: Date, now: Instant) returns (r: Summary)
    ensures var dates := ListDays(t.days, user, start, end);
      var present := PresentDates(t, user, dates);
      && r.daysPresent == |present|
      && r.totalSeconds == SumPayloads(t, user, present, now)
      && r.longest == LongestOver(t, user, dates, now)
      && r.late == LateOver(t, user, present)
      && r.workingDays == CountWeekdays(start, Min(end, LocalDate(now, offset)))
      && r.daysAbsent == Absences(r.workingDays, r.daysPresent)
      && r.average == Average(r.totalSeconds, r.daysPresent)
  {
    hide PresentDates, SumPayloads, LongestOver, LateOver, CountWeekdays, WeekdaysUpTo, LocalDate;
    var dates := ListDays(t.days, user, start, end);
    var presentDays, totalSeconds, late, longest := TallyDays(t, user, dates, now);
    var workingDays := WorkingDays(start, end, LocalDate(now, offset));
    r := Summary(presentDays, Absences(workingDays, presentDays), workingDays, totalSeconds,
                 Average(totalSeconds, presentDays), longest, late);
  }

  lemma PayloadParts(t: Tables, k: DayKey, now: Instant)
    requires k in t.days
    ensures PayloadTotal(t, k, now) == t.days[k].total + Running(DaySessions(t.sessions, k), now)
  {
  }

  lemma {:induction false} SumPayloadsAppend(t: Tables, user: UserId, dates: seq<Date>, d: Date, now: Instant)
    requires forall a :: 0 <= a < |dates| ==> DayKey(user, dates[a]) in t.days
    requires DayKey(user, d) in t.days
    ensures SumPayloads(t, user, dates + [d], now) ==
      SumPayloads(t, user, dates, now) + PayloadTotal(t, DayKey(user, d), now)
  {
    if dates == [] {
      assert [] + [d] == [d] && [d][1..] == [];
    } else {
      SumPayloadsAppend(t, user, dates[1..], d, now);
      assert (dates + [d])[1..] == dates[1..] + [d];
    }
  }

  // ------------------------------------------------------- figures one by one

  /** A day lists the sessions of the table with its user and date. */
  lemma {:induction false} DaySessionsAre(ss: seq<Session>, k: DayKey)
    ensures forall s :: s in DaySessions(ss, k) <==> s in ss && s.Day() == k
  {
    if ss != [] {
      var n := |ss| - 1;
      DaySessionsAre(ss[..n], k);
      assert ss == ss[..n] + [ss[n]];
    }
  }

  /** ... and each of them once. */
  lemma {:induction false} DaySessionsCounted(ss: seq<Session>, k: DayKey)
    ensures |DaySessions(ss, k)| == |set i: nat | i < |ss| && ss[i].Day() == k|
  {
    if ss != [] {
      var n := |ss| - 1;
      DaySessionsCounted(ss[..n], k);
      var before := set i: nat | i < n && ss[..n][i].Day() == k;
      assert (set i: nat | i < |ss| && ss[i].Day() == k) == if ss[n].Day() == k then before + {n} else before;
    }
  }

  /** Present days are the listed days on which the user has a session, in their order. */
  lemma {:induction false} PresentDatesExactly(t: Tables, user: UserId, dates: seq<Date>)
    requires forall a :: 0 <= a < |dates| ==> DayKey(user, dates[a]) in t.days
    requires Descending(dates)
    ensures var r := PresentDates(t, user, dates);
      && (forall d :: d in r <==> d in dates && exists s :: s in t.sessions && s.user == user && s.date == d)
      && Descending(r)
  {
    hide Descending, Before;
    if dates == [] {
      EmptyDescends();
    } else {
      var n := |dates| - 1;
      var k := DayKey(user, dates[n]);
      DescendsTo(dates);
      PresentDatesExactly(t, user, dates[..n]);
      DaySessionsAre(t.sessions, k);
      hide DaySessions;
      assert dates == dates[..n] + [dates[n]];
      if DaySessions(t.sessions, k) != [] { assert DaySessions(t.sessions, k)[0] in DaySessions(t.sessions, k); }
      BeforeSome(dates[n], dates[..n], PresentDates(t, user, dates[..n]));
      DescendsOn(PresentDates(t, user, dates[..n]), dates[n]);
    }
  }

  ghost predicate Descending(dates: seq<Date>) { forall a, b :: 0 <= a < b < |dates| ==> dates[b] < dates[a] }

  lemma EmptyDescends()
    ensures Descending([])
  {
  }

  lemma DescendsTo(dates: seq<Date>)
    requires Descending(dates) && dates != []
    ensures Descending(dates[..|dates| - 1])
    ensures Before(dates[|dates| - 1], dates[..|dates| - 1])
  {
  }

  ghost predicate Before(d: Date, dates: seq<Date>) { forall a :: 0 <= a < |dates| ==> d < dates[a] }

  lemma BeforeSome(d: Date, dates: seq<Date>, some: seq<Date>)
    requires Before(d, dates) && forall e :: e in some ==> e in dates
    ensures Before(d, some)
  {
    forall a | 0 <= a < |some|
      ensures d < some[a]
    {
      assert some[a] in some;
    }
  }

  lemma DescendsOn(dates: seq<Date>, d: Date)
    requires Descending(dates) && Before(d, dates)
    ensures Descending(dates + [d])
  {
  }

  /** Late arrivals are the listed days whose row is late. */
  lemma {:induction false} LateCounts(t: Tables, user: UserId, dates: seq<Date>)
    requires forall a :: 0 <= a < |dates| ==> DayKey(user, dates[a]) in t.days
    ensures LateOver(t, user, dates) == |set a: nat | a < |dates| && t.days[DayKey(user, dates[a])].late|
  {
    if dates != [] {
      var n := |dates| - 1;
      LateCounts(t, user, dates[..n]);
      var before := set a: nat | a < n && t.days[DayKey(user, dates[..n][a])].late;
      assert (set a: nat | a < |dates| && t.days[DayKey(user, dates[a])].late)
          == if t.days[DayKey(user, dates[n])].late then before + {n} else before;
    }
  }

  /** The average is the total over the days, in whole seconds; none without days. */
  lemma AverageMeans(total: int, days: nat)
    ensures if days == 0 then Average(total, days) == 0
            else Average(total, days) * days <= total < (Average(total, days) + 1) * days
  {
  }

  /** The longest session is one of them, and none is longer. */
  lemma {:induction false} LongestIsOne(ss: seq<Session>, now: Instant)
    ensures forall s :: s in ss ==> Elapsed(s, now) <= LongestOf(ss, now)
    ensures 0 <= LongestOf(ss, now)
    ensures LongestOf(ss, now) == 0 || exists s :: s in ss && Elapsed(s, now) == LongestOf(ss, now)
  {
    hide Elapsed;
    if ss != [] {
      var n := |ss| - 1;
      LongestIsOne(ss[..n], now);
      assert ss == ss[..n] + [ss[n]];
    }
  }

  /** ... over a range of dates: it is one of the user's sessions on those dates, and none is longer. */
  lemma {:induction false} LongestOverIsOne(t: Tables, user: UserId, dates: seq<Date>, now: Instant)
    ensures forall s :: s in t.sessions && s.user == user && s.date in dates ==>
      Elapsed(s, now) <= LongestOver(t, user, dates, now)
    ensures LongestOver(t, user, dates, now) == 0 ||
      exists s ::
        (s in t.sessions && s.user == user && s.date in dates && Elapsed(s, now) == LongestOver(t, user, dates, now))
  {
    hide Elapsed, LongestOf;
    if dates != [] {
      var n := |dates| - 1;
      var k := DayKey(user, dates[n]);
      LongestOverIsOne(t, user, dates[..n], now);
      LongestIsOne(DaySessions(t.sessions, k), now);
      DaySessionsAre(t.sessions, k);
      assert dates == dates[..n] + [dates[n]];
    }
  }

  // ---------------------------------------------- what the summary agrees with

  lemma {:induction false} RowsHaveSessions(t: Tables, user: UserId, dates: seq<Date>)
    requires Consistent(t) && forall a :: 0 <= a < |dates| ==> DayKey(user, dates[a]) in t.days
    ensures PresentDates(t, user, dates) == dates
  {
    if dates != [] {
      var n := |dates| - 1;
      RowsHaveSessions(t, user, dates[..n]);
      assert RowFollows(t.sessions, DayKey(user, dates[n]), t.days[DayKey(user, dates[n])]);
      DaySessionsCount(t.sessions, DayKey(user, dates[n]));
      assert dates[..n] + [dates[n]] == dates;
    }
  }

  lemma {:induction false} DaySessionsCount(ss: seq<Session>, k: DayKey)
    ensures |DaySessions(ss, k)| == Aggregated(ss, k).count
  {
    if ss != [] { DaySessionsCount(ss[..|ss| - 1], k); }
  }

  lemma ElapsedNonNegative(s: Session, now: Instant)
    requires RowConsistent(s)
    ensures 0 <= Elapsed(s, now)
  {
  }

  lemma LongestOfAppend(ss: seq<Session>, s: Session, now: Instant)
    ensures LongestOf(ss + [s], now) == Max(LongestOf(ss, now), Elapsed(s, now))
  {
    hide Elapsed;
    assert (ss + [s])[..|ss|] == ss;
  }

  lemma {:induction false} LongestWithinElapsed(ss: seq<Session>, k: DayKey, now: Instant)
    requires RowsConsistent(ss)
    ensures 0 <= LongestOf(DaySessions(ss, k), now) <= ElapsedOn(ss, k, now)
  {
    hide Elapsed, RowConsistent, RowsConsistent, LongestOf;
    if ss == [] {
      NothingLongest(now);
    } else {
      var n := |ss| - 1;
      RowsConsistentPrefix(ss, n);
      LongestWithinElapsed(ss[..n], k, now);
      ElapsedOfRow(ss, n, now);
      LongestOfAppend(DaySessions(ss[..n], k), ss[n], now);
    }
  }

  lemma NothingLongest(now: Instant)
    ensures LongestOf([], now) == 0
  {
  }

  lemma ElapsedOfRow(ss: seq<Session>, i: nat, now: Instant)
    requires RowsConsistent(ss) && i < |ss|
    ensures 0 <= Elapsed(ss[i], now)
  {
    ElapsedNonNegative(ss[i], now);
  }

  lemma {:induction false} LongestWithinTotal(t: Tables, user: UserId, dates: seq<Date>, now: Instant)
    requires Consistent(t) && forall a :: 0 <= a < |dates| ==> DayKey(user, dates[a]) in t.days
    ensures 0 <= LongestOver(t, user, dates, now) <= SumPayloads(t, user, dates, now)
  {
    if dates != [] {
      var n := |dates| - 1;
      LongestWithinTotal(t, user, dates[..n], now);
      LongestWithinElapsed(t.sessions, DayKey(user, dates[n]), now);
      PayloadIsElapsed(t, DayKey(user, dates[n]), now);
      SumPayloadsAppend(t, user, dates[..n], dates[n], now);
      assert dates[..n] + [dates[n]] == dates;
    }
  }

  /** The summary counts exactly the listed days, shows the history total, and its longest session is within it. */
  lemma SummaryAgreesWithHistory(t: Tables, user: UserId, start: Date, end: Date, now: Instant)
    requires Consistent(t)
    ensures var dates := ListDays(t.days, user, start, end);
      && PresentDates(t, user, dates) == dates
      && SumPayloads(t, user, PresentDates(t, user, dates), now) == ElapsedBetween(t.sessions, user, start, end, now)
      && 0 <= LongestOver(t, user, dates, now) <= HistoryTotal(t, user, start, end, now)
  {
    var dates := ListDays(t.days, user, start, end);
    RowsHaveSessions(t, user, dates);
    HistoryIsElapsed(t, user, start, end, now);
    LongestWithinTotal(t, user, dates, now);
  }

  // ------------------------------------------------------------------- absence

  /** Weekdays of the range without a day row. */
  function UnattendedWeekdays(days: map<DayKey, Day>, user: UserId, start: Date, end: Date): nat
    decreases end - start
  {
    if end < start then 0 else
    UnattendedWeekdays(days, user, start, end - 1) + (if IsWeekday(end) && DayKey(user, end) !in days then 1 else 0)
  }

  /** Weekend dates of the range with a day row. */
  function WeekendDaysAttended(days: map<DayKey, Day>, user: UserId, start: Date, end: Date): nat
    decreases end - start
  {
    if end < start then 0 else
    WeekendDaysAttended(days, user, start, end - 1) + (if !IsWeekday(end) && DayKey(user, end) in days then 1 else 0)
  }

  lemma {:induction false} AttendanceBalance(days: map<DayKey, Day>, user: UserId, start: Date, end: Date)
    ensures CountWeekdays(start, end) - |ListDays(days, user, start, end)|
         == UnattendedWeekdays(days, user, start, end) - WeekendDaysAttended(days, user, start, end)
    decreases end - start
  {
    if start <= end { AttendanceBalance(days, user, start, end - 1); }
  }

  lemma {:induction false} NothingListedLater(days: map<DayKey, Day>, user: UserId, start: Date, end: Date, today: Date)
    requires forall d :: DayKey(user, d) in days ==> d <= today
    ensures |ListDays(days, user, start, end)| == |ListDays(days, user, start, Min(end, today))|
    decreases end - start
  {
    if start <= end && today < end {
      NothingListedLater(days, user, start, end - 1, today);
    }
  }

  lemma ClampedDifference(expected: nat, present: nat, unattended: nat, weekend: nat)
    requires expected - present == unattended - weekend
    ensures Absences(expected, present) == Max(0, unattended - weekend)
    ensures Absences(expected, present) <= unattended <= Absences(expected, present) + weekend
  {
  }

  lemma AbsencesBalanced(t: Tables, user: UserId, start: Date, end: Date, today: Date)
    requires Consistent(t) && forall d :: DayKey(user, d) in t.days ==> d <= today
    ensures CountWeekdays(start, Min(end, today)) - |PresentDates(t, user, ListDays(t.days, user, start, end))|
         == UnattendedWeekdays(t.days, user, start, Min(end, today))
          - WeekendDaysAttended(t.days, user, start, Min(end, today))
  {
    RowsHaveSessions(t, user, ListDays(t.days, user, start, end));
    NothingListedLater(t.days, user, start, end, today);
    AttendanceBalance(t.days, user, start, Min(end, today));
  }

  /**
   The reported absences are the unattended weekdays so far, less the weekend days attended, never below
   zero: never too many, and exact when no weekend day was attended. It takes a table without rows after today.
   */
  lemma {:induction false} AbsencesExplained(t: Tables, user: UserId, start: Date, end: Date, today: Date)
    requires Consistent(t) && forall d :: DayKey(user, d) in t.days ==> d <= today
    ensures var eff := Min(end, today);
      var absent := Absences(CountWeekdays(start, eff), |PresentDates(t, user, ListDays(t.days, user, start, end))|);
      var unattended, weekend := UnattendedWeekdays(t.days, user, start, eff),
        WeekendDaysAttended(t.days, user, start, eff);
      && absent == Max(0, unattended - weekend)
      && absent <= unattended <= absent + weekend
      && (weekend == 0 ==> absent == unattended)
  {
    hide *;
    AbsencesBalanced(t, user, start, end, today);
    ClampedDifference(CountWeekdays(start, Min(end, today)),
                      |PresentDates(t, user, ListDays(t.days, user, start, end))|,
                      UnattendedWeekdays(t.days, user, start, Min(end, today)),
                      WeekendDaysAttended(t.days, user, start, Min(end, today)));
  }

  /** In one zone, a table has no rows after today once every punch so far read an instant up to now. */
  lemma {:induction false} NoFutureRows(metric: Metric, steps: seq<Step>, offset: int, now: Instant, k: DayKey)
    requires SameOffset(steps, offset) && forall i :: 0 <= i < |steps| && steps[i].Punching? ==> steps[i].env.now <= now
    requires k in Run(EmptyTables, metric, steps).days
    ensures k.date <= LocalDate(now, offset)
  {
    var t := Run(EmptyTables, metric, steps);
    RunConsistent(metric, steps);
    DatesAreLocal(metric, steps, offset);
    BeganByNow(metric, steps, now);
    hide Run;
    assert RowFollows(t.sessions, k, t.days[k]);
    AggregatedShape(t.sessions, k);
    var i :| 0 <= i < |t.sessions| && t.sessions[i].Day() == k;
    LocalDateMonotone(t.sessions[i].punchIn, now, offset);
  }

  lemma {:induction false} BeganByNow(metric: Metric, steps: seq<Step>, now: Instant)
    requires forall i :: 0 <= i < |steps| && steps[i].Punching? ==> steps[i].env.now <= now
    ensures forall i :: 0 <= i < |Run(EmptyTables, metric, steps).sessions| ==>
      Run(EmptyTables, metric, steps).sessions[i].punchIn <= now
  {
    if steps != [] {
      var n := |steps| - 1;
      var t := Run(EmptyTables, metric, steps[..n]);
      BeganByNow(metric, steps[..n], now);
      StepShape(t, metric, steps[n]);
      hide Next, Opens;
      if !Opens(t, metric, steps[n]) {
        assert forall i :: 0 <= i < |t.sessions| ==> SameOrClosed(t.sessions[i], Next(t, metric, steps[n]).sessions[i]);
      } else {
        OpensPunches(t, metric, steps[n]);
      }
    }
  }

  /** The same on every run in one zone whose punches so far read instants up to now. */
  lemma {:induction false} AbsencesOnRuns(metric: Metric, steps: seq<Step>, offset: int, user: UserId, start: Date,
        end: Date, now: Instant)
    requires SameOffset(steps, offset) && forall i :: 0 <= i < |steps| && steps[i].Punching? ==> steps[i].env.now <= now
    ensures var t := Run(EmptyTables, metric, steps);
      var eff := Min(end, LocalDate(now, offset));
      var absent := Absences(CountWeekdays(start, eff), |PresentDates(t, user, ListDays(t.days, user, start, end))|);
      var unattended, weekend := UnattendedWeekdays(t.days, user, start, eff),
        WeekendDaysAttended(t.days, user, start, eff);
      && absent == Max(0, unattended - weekend)
      && absent <= unattended <= absent + weekend
      && (weekend == 0 ==> absent == unattended)
  {
    hide *;
    RunConsistent(metric, steps);
    forall d | DayKey(user, d) in Run(EmptyTables, metric, steps).days
      ensures d <= LocalDate(now, offset)
    {
      NoFutureRows(metric, steps, offset, now, DayKey(user, d));
    }
    AbsencesExplained(Run(EmptyTables, metric, steps), user, start, end, LocalDate(now, offset));
  }
}
